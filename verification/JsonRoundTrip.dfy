/** Reading what was written gives the value back, member order included. */
module JsonRoundTrip {
  import opened Wrappers
  import opened CodePoints
  import opened JsonText

  /** What follows a value inside compact text. */
  predicate Boundary(rest: Text) { rest == [] || rest[0] == COMMA || rest[0] == RBRACKET || rest[0] == RBRACE }

  lemma Headed(c: Code, body: Text, rest: Text)
    ensures ([c] + body) + rest != [] && (([c] + body) + rest)[0] == c && (([c] + body) + rest)[1..] == body + rest
  {
  }

  lemma Regrouped(a: Text, b: Text, c: Text)
    ensures (a + b) + c == a + (b + c)
  {
  }

  // ----- strings

  lemma HexRead(n: nat)
    requires n < 16
    ensures HexValue(HexDigit(n)) == Some(n)
  {
  }

  lemma EscapeRead(c: Code, tail: Text)
    requires ShortEscape(c).None? && c < 0x20
    ensures ReadEscape(PrintChar(c)[1..] + tail) == Some(Parsed(c, tail))
  {
    HexRead(c / 16);
    HexRead(c % 16);
    HexRead(0);
    var t := PrintChar(c)[1..] + tail;
    assert t == [0x75, ZERO, ZERO, HexDigit(c / 16), HexDigit(c % 16)] + tail;
    var digits := t[1..];
    assert digits[0] == ZERO && digits[1] == ZERO && digits[2] == HexDigit(c / 16) && digits[3] == HexDigit(c % 16);
    hide HexValue;
    hide HexDigit;
    assert Hex4(digits) == Some(c);
    assert t[5..] == tail;
  }

  lemma CharRead(c: Code, tail: Text)
    ensures var more := ReadChars(tail);
            ReadChars(PrintChar(c) + tail) == if more.None? then None else Some(Parsed([c] + more.value.value, more.value.rest))
  {
    var t := PrintChar(c) + tail;
    if ShortEscape(c).Some? {
      assert t[0] == BACKSLASH && t[1..][0] == ShortEscape(c).value && t[1..][1..] == tail;
      assert Unescape(ShortEscape(c).value) == Some(c);
    } else if c < 0x20 {
      EscapeRead(c, tail);
      assert t[1..] == PrintChar(c)[1..] + tail;
    } else {
      assert t[1..] == tail;
    }
  }

  lemma {:induction false} CharsRead(s: Text, rest: Text)
    ensures ReadChars(PrintChars(s) + ([QUOTE] + rest)) == Some(Parsed(s, rest))
  {
    var tail := [QUOTE] + rest;
    if s == [] {
      assert PrintChars(s) + tail == tail && tail[1..] == rest;
    } else {
      hide PrintChar;
      hide ReadChars;
      CharsRead(s[1..], rest);
      CharRead(s[0], PrintChars(s[1..]) + tail);
      Regrouped(PrintChar(s[0]), PrintChars(s[1..]), tail);
      assert [s[0]] + s[1..] == s;
    }
  }

  lemma StringRead(s: Text, rest: Text)
    ensures var t := PrintString(s) + rest; t[0] == QUOTE && ReadChars(t[1..]) == Some(Parsed(s, rest))
  {
    CharsRead(s, rest);
    assert PrintString(s) + rest == [QUOTE] + (PrintChars(s) + ([QUOTE] + rest));
  }

  // ----- integers

  lemma {:induction false} DecimalRead(n: nat)
    ensures Decimal(n) != [] && forall i :: 0 <= i < |Decimal(n)| ==> IsDigit(Decimal(n)[i])
    ensures DecimalValue(Decimal(n)) == n
    ensures if n == 0 then Decimal(n) == [ZERO] else Decimal(n)[0] != ZERO
  {
    var d := Decimal(n);
    if n >= 10 {
      DecimalRead(n / 10);
      assert d[..|d| - 1] == Decimal(n / 10);
    } else {
      assert d[..|d| - 1] == [];
    }
  }

  lemma {:induction false} DigitsAll(d: Text, rest: Text)
    requires (forall i :: 0 <= i < |d| ==> IsDigit(d[i])) && (rest == [] || !IsDigit(rest[0]))
    ensures Digits(d + rest) == |d|
  {
    if d == [] {
      assert d + rest == rest;
    } else {
      assert (d + rest)[1..] == d[1..] + rest;
      DigitsAll(d[1..], rest);
    }
  }

  lemma IntRead(n: int, rest: Text)
    requires InRange(n) && Boundary(rest)
    ensures ReadInt(PrintInt(n) + rest) == Some(Parsed(Int(n), rest))
  {
    var t, m := PrintInt(n) + rest, if n < 0 then -n else n;
    DecimalRead(m);
    DigitsAll(Decimal(m), rest);
    var u := Decimal(m) + rest;
    hide Decimal;
    hide Digits;
    hide DecimalValue;
    if n < 0 {
      Headed(MINUS, Decimal(m), rest);
    } else {
      assert t == u && IsDigit(Decimal(m)[0]) && u[0] == Decimal(m)[0];
    }
    assert u[0] == Decimal(m)[0];
    assert u[..|Decimal(m)|] == Decimal(m) && u[|Decimal(m)|..] == rest;
  }

  lemma IntStart(n: int)
    ensures PrintInt(n) != [] && (PrintInt(n)[0] == MINUS || IsDigit(PrintInt(n)[0]))
  {
    DecimalRead(if n < 0 then -n else n);
  }

  // ----- values

  lemma Start(v: Json)
    requires Accepted(v)
    ensures Print(v) != [] && !IsSpace(Print(v)[0]) && Print(v)[0] != RBRACKET && Print(v)[0] != RBRACE
  {
    if v.Int? { IntStart(v.n); }
    hide PrintInt;
  }

  lemma WordRead(v: Json, rest: Text)
    requires v.Null? || v.Bool?
    ensures ReadValue(Print(v) + rest) == Some(Parsed(v, rest))
  {
    var word := Print(v);
    var t := word + rest;
    assert t[0] == word[0] && t[1] == word[1] && t[2] == word[2] && t[3] == word[3];
    assert t[|word|..] == rest;
    assert t[..|word|] == word;
  }

  lemma IntValueRead(v: Json, rest: Text)
    requires v.Int? && Accepted(v) && Boundary(rest)
    ensures ReadValue(Print(v) + rest) == Some(Parsed(v, rest))
  {
    IntRead(v.n, rest);
    IntStart(v.n);
    hide PrintInt;
    hide ReadInt;
    hide ReadItems;
    hide ReadMembers;
    var t := PrintInt(v.n) + rest;
    assert t[0] == PrintInt(v.n)[0];
    assert NULL[0] == 0x6E && TRUE[0] == 0x74 && FALSE[0] == 0x66;
  }

  lemma StrValueRead(v: Json, rest: Text)
    requires v.Str?
    ensures ReadValue(Print(v) + rest) == Some(Parsed(v, rest))
  {
    StringRead(v.s, rest);
    hide PrintString;
    hide ReadChars;
    hide ReadItems;
    hide ReadMembers;
    hide ReadInt;
  }

  lemma {:induction false} ValueRead(v: Json, rest: Text)
    requires Accepted(v) && WellFormed(v) && Boundary(rest)
    ensures ReadValue(Print(v) + rest) == Some(Parsed(v, rest))
    decreases v, 0
  {
    hide ReadValue;
    hide Print;
    match v
    case Null => WordRead(v, rest);
    case Bool(_) => WordRead(v, rest);
    case Int(_) => IntValueRead(v, rest);
    case Str(_) => StrValueRead(v, rest);
    case Arr(items) => ArrayRead(items, rest);
    case Obj(members) => ObjectRead(members, rest);
  }

  lemma {:induction false} ArrayRead(items: seq<Json>, rest: Text)
    requires Accepted(Arr(items)) && WellFormed(Arr(items))
    ensures ReadValue(Print(Arr(items)) + rest) == Some(Parsed(Arr(items), rest))
    decreases items, 2
  {
    var tail := [RBRACKET] + rest;
    hide ReadChars;
    hide ReadInt;
    hide ReadMembers;
    Headed(LBRACKET, PrintItems(items), tail);
    assert Print(Arr(items)) + rest == ([LBRACKET] + PrintItems(items)) + tail;
    if items == [] {
      assert PrintItems(items) + tail == tail && tail[1..] == rest;
    } else {
      assert items[0] in items;
      Start(items[0]);
      ItemsRead(items, rest);
      hide Print;
      hide ReadItems;
      assert (PrintItems(items) + tail)[0] == Print(items[0])[0];
    }
  }

  lemma LastItem(t: Text, x: Json, rest: Text)
    requires ReadValue(t) == Some(Parsed(x, [RBRACKET] + rest))
    ensures ReadItems(t) == Some(Parsed([x], rest))
  {
    hide ReadValue;
    assert ([RBRACKET] + rest)[1..] == rest;
  }

  lemma NextItem(t: Text, x: Json, after: Text, xs: seq<Json>, rest: Text)
    requires ReadValue(t) == Some(Parsed(x, [COMMA] + after)) && after != [] && !IsSpace(after[0])
    requires ReadItems(after) == Some(Parsed(xs, rest))
    ensures ReadItems(t) == Some(Parsed([x] + xs, rest))
  {
    hide ReadValue;
    assert ([COMMA] + after)[1..] == after;
  }

  lemma {:induction false} ItemsRead(items: seq<Json>, rest: Text)
    requires items != [] && forall x :: x in items ==> Accepted(x) && WellFormed(x)
    ensures ReadItems(PrintItems(items) + ([RBRACKET] + rest)) == Some(Parsed(items, rest))
    decreases items, 1
  {
    var close := [RBRACKET] + rest;
    assert items[0] in items;
    hide Print;
    hide ReadValue;
    hide ReadItems;
    hide WellFormed;
    hide Accepted;
    if |items| == 1 {
      ValueRead(items[0], close);
      LastItem(Print(items[0]) + close, items[0], rest);
      assert Print(items[0]) + [] == Print(items[0]) && items == [items[0]];
    } else {
      var more := items[1..];
      assert more[0] in items;
      Start(more[0]);
      ItemsRead(more, rest);
      var after := PrintItems(more) + close;
      assert after[0] == Print(more[0])[0];
      hide PrintItems;
      ValueRead(items[0], [COMMA] + after);
      NextItem(Print(items[0]) + ([COMMA] + after), items[0], after, more, rest);
      ItemsText(items, close);
      assert [items[0]] + more == items;
    }
  }

  lemma ItemsText(items: seq<Json>, close: Text)
    requires |items| > 1
    ensures PrintItems(items) + close == Print(items[0]) + ([COMMA] + (PrintItems(items[1..]) + close))
  {
    hide Print;
    var after := PrintItems(items[1..]);
    Regrouped(Print(items[0]), [COMMA] + after, close);
    Regrouped([COMMA], after, close);
  }

  lemma {:induction false} ObjectRead(members: seq<Member>, rest: Text)
    requires Accepted(Obj(members)) && WellFormed(Obj(members))
    ensures ReadValue(Print(Obj(members)) + rest) == Some(Parsed(Obj(members), rest))
    decreases members, 3
  {
    var tail := [RBRACE] + rest;
    hide ReadChars;
    hide ReadInt;
    hide ReadItems;
    Headed(LBRACE, PrintMembers(members), tail);
    assert Print(Obj(members)) + rest == ([LBRACE] + PrintMembers(members)) + tail;
    if members == [] {
      assert PrintMembers(members) + tail == tail && tail[1..] == rest;
    } else {
      MembersRead(members, rest);
      MemberStart(members[0]);
      hide PrintMember;
      hide ReadMembers;
      assert (PrintMembers(members) + tail)[0] == PrintMember(members[0])[0];
    }
  }

  lemma MemberStart(m: Member)
    ensures PrintMember(m) != [] && PrintMember(m)[0] == QUOTE
  {
  }

  lemma {:induction false} MemberRead(m: Member, rest: Text)
    requires Accepted(m.value) && WellFormed(m.value) && Boundary(rest)
    ensures ReadMember(PrintMember(m) + rest) == Some(Parsed(m, rest))
    decreases m, 1
  {
    var after := Print(m.value) + rest;
    Start(m.value);
    assert after[0] == Print(m.value)[0];
    ValueRead(m.value, rest);
    hide Print;
    hide ReadValue;
    hide ReadChars;
    hide PrintString;
    Regrouped(PrintString(m.key) + [COLON], Print(m.value), rest);
    Regrouped(PrintString(m.key), [COLON], after);
    StringRead(m.key, [COLON] + after);
    assert ([COLON] + after)[1..] == after;
  }

  lemma LastMember(t: Text, m: Member, rest: Text)
    requires ReadMember(t) == Some(Parsed(m, [RBRACE] + rest))
    ensures ReadMembers(t) == Some(Parsed([m], rest))
  {
    hide ReadMember;
    assert ([RBRACE] + rest)[1..] == rest;
  }

  lemma NextMember(t: Text, m: Member, after: Text, ms: seq<Member>, rest: Text)
    requires ReadMember(t) == Some(Parsed(m, [COMMA] + after)) && after != [] && !IsSpace(after[0])
    requires ReadMembers(after) == Some(Parsed(ms, rest))
    ensures ReadMembers(t) == Some(Parsed([m] + ms, rest))
  {
    hide ReadMember;
    assert ([COMMA] + after)[1..] == after;
  }

  lemma {:induction false} MembersRead(members: seq<Member>, rest: Text)
    requires members != [] && forall m :: m in members ==> Accepted(m.value) && WellFormed(m.value)
    ensures ReadMembers(PrintMembers(members) + ([RBRACE] + rest)) == Some(Parsed(members, rest))
    decreases members, 2
  {
    var close := [RBRACE] + rest;
    assert members[0] in members;
    hide PrintMember;
    hide ReadMember;
    hide ReadMembers;
    hide WellFormed;
    hide Accepted;
    if |members| == 1 {
      MemberRead(members[0], close);
      LastMember(PrintMember(members[0]) + close, members[0], rest);
      assert PrintMember(members[0]) + [] == PrintMember(members[0]) && members == [members[0]];
    } else {
      var more := members[1..];
      MemberStart(more[0]);
      MembersRead(more, rest);
      var after := PrintMembers(more) + close;
      assert after[0] == PrintMember(more[0])[0];
      hide PrintMembers;
      MemberRead(members[0], [COMMA] + after);
      NextMember(PrintMember(members[0]) + ([COMMA] + after), members[0], after, more, rest);
      MembersText(members, close);
      assert [members[0]] + more == members;
    }
  }

  lemma MembersText(members: seq<Member>, close: Text)
    requires |members| > 1
    ensures PrintMembers(members) + close == PrintMember(members[0]) + ([COMMA] + (PrintMembers(members[1..]) + close))
  {
    hide PrintMember;
    var after := PrintMembers(members[1..]);
    Regrouped(PrintMember(members[0]), [COMMA] + after, close);
    Regrouped([COMMA], after, close);
  }

  /** The strict loader reads back every accepted value from its compact text. */
  lemma LoadPrint(v: Json)
    requires Accepted(v) && WellFormed(v)
    ensures Load(Print(v)) == Some(v)
  {
    ValueRead(v, []);
    Start(v);
    NoMark(v);
    assert Print(v) + [] == Print(v);
    hide Print;
    hide ReadValue;
  }

  lemma NoMark(v: Json)
    requires Accepted(v)
    ensures !Next(Print(v), BYTE_ORDER_MARK)
  {
    if v.Int? { IntStart(v.n); }
    hide PrintInt;
  }
}
