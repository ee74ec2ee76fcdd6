/**
  What RFC 8785 asks of strings (section 3.2.2.2) and of integers (section 3.2.2.3), in its own terms, and
  that the writer meets it.
*/
module Rfc8785 {
  import opened CodePoints
  import opened JsonText
  import opened JsonRoundTrip

  // ----- strings

  const HEXADECIMAL: Text := [0x30, 0x31, 0x32, 0x33, 0x34, 0x35, 0x36, 0x37, 0x38, 0x39, 0x61, 0x62, 0x63, 0x64, 0x65, 0x66]

  /** Four lower-case hexadecimal digits. */
  function Uhhhh(c: Code): Text
    requires c < 0x10000
  {
    [BACKSLASH, 0x75, HEXADECIMAL[c / 0x1000], HEXADECIMAL[c / 0x100 % 16], HEXADECIMAL[c / 0x10 % 16], HEXADECIMAL[c % 16]]
  }

  /** The five control characters with a letter, the other control characters, the two escaped characters, the rest. */
  function StringChar(c: Code): Text {
    if c == 0x08 then [BACKSLASH, 0x62]
    else if c == 0x09 then [BACKSLASH, 0x74]
    else if c == 0x0A then [BACKSLASH, 0x6E]
    else if c == 0x0C then [BACKSLASH, 0x66]
    else if c == 0x0D then [BACKSLASH, 0x72]
    else if c <= 0x1F then Uhhhh(c)
    else if c == BACKSLASH || c == QUOTE then [BACKSLASH, c]
    else [c]
  }

  function StringChars(s: Text): Text { if s == [] then [] else StringChars(s[..|s| - 1]) + StringChar(s[|s| - 1]) }

  lemma CharIs(c: Code)
    ensures StringChar(c) == PrintChar(c)
  {
    if c <= 0x1F {
      assert c / 0x1000 == 0 && c / 0x100 % 16 == 0 && c / 0x10 % 16 == c / 16 < 2;
      assert HEXADECIMAL[c / 16] == HexDigit(c / 16) && HEXADECIMAL[c % 16] == HexDigit(c % 16);
    }
  }

  lemma {:induction false} CharsAppend(s: Text, c: Code)
    ensures PrintChars(s + [c]) == PrintChars(s) + PrintChar(c)
  {
    hide PrintChar;
    if s == [] {
      assert [c][1..] == [] && [] + [c] == [c];
    } else {
      CharsAppend(s[1..], c);
      assert (s + [c])[1..] == s[1..] + [c];
    }
  }

  lemma {:induction false} CharsAre(s: Text)
    ensures StringChars(s) == PrintChars(s)
  {
    hide PrintChar;
    hide StringChar;
    if s != [] {
      var init, last := s[..|s| - 1], s[|s| - 1];
      CharsAre(init);
      CharIs(last);
      CharsAppend(init, last);
      assert s == init + [last];
    }
  }

  // ----- integers, as ECMAScript writes them

  predicate AllDigits(t: Text) { forall i :: 0 <= i < |t| ==> IsDigit(t[i]) }

  /** Decimal digits of this value, the first of them zero only for zero itself. */
  predicate Numeral(t: Text, n: nat) { t != [] && AllDigits(t) && DecimalValue(t) == n && (t[0] == ZERO ==> |t| == 1) }

  predicate IsInteger(t: Text, n: int) { if n < 0 then t != [] && t[0] == MINUS && Numeral(t[1..], -n) else Numeral(t, n) }

  lemma {:induction false} NumeralPositive(t: Text)
    requires t != [] && AllDigits(t) && t[0] != ZERO
    ensures DecimalValue(t) >= 1
  {
    if |t| > 1 {
      NumeralPositive(t[..|t| - 1]);
    } else {
      assert t[..0] == [] && IsDigit(t[0]);
    }
  }

  /** There is one such text, and the writer writes it. */
  lemma {:induction false} NumeralIs(t: Text, n: nat)
    ensures Numeral(t, n) <==> t == Decimal(n)
    decreases n
  {
    DecimalRead(n);
    if Numeral(t, n) {
      var init, last := t[..|t| - 1], t[|t| - 1];
      assert IsDigit(last) && t == init + [last];
      if init == [] {
        assert DecimalValue(init) == 0;
      } else {
        assert t[0] == init[0] && t[0] != ZERO;
        NumeralPositive(init);
        NumeralIs(init, n / 10);
      }
    }
  }

  lemma IntegerIs(t: Text, n: int)
    ensures IsInteger(t, n) <==> t == PrintInt(n)
  {
    hide Numeral;
    hide Decimal;
    if n < 0 {
      if t != [] {
        NumeralIs(t[1..], -n);
        assert t == [t[0]] + t[1..];
      }
    } else {
      NumeralIs(t, n);
    }
  }

  // ----- the whole text, for members in the order given

  ghost predicate IsText(t: Text, v: Json)
    decreases v
  {
    match v
    case Null => t == NULL
    case Bool(on) => t == if on then TRUE else FALSE
    case Int(n) => IsInteger(t, n)
    case Float(_) => false
    case Str(s) => t == [QUOTE] + StringChars(s) + [QUOTE]
    case Arr(items) =>
      exists ts: seq<Text> :: |ts| == |items| && (forall i :: 0 <= i < |items| ==> IsText(ts[i], items[i]))
                              && t == [LBRACKET] + Separated(ts) + [RBRACKET]
    case Obj(members) =>
      exists ts: seq<Text> :: |ts| == |members| && (forall i :: 0 <= i < |members| ==> IsText(ts[i], members[i].value))
                              && t == [LBRACE] + Separated(Named(members, ts)) + [RBRACE]
  }

  function Separated(ts: seq<Text>): Text {
    if ts == [] then [] else if |ts| == 1 then ts[0] else ts[0] + [COMMA] + Separated(ts[1..])
  }

  function Named(ms: seq<Member>, ts: seq<Text>): seq<Text>
    requires |ms| == |ts|
  {
    seq(|ms|, i requires 0 <= i < |ms| => [QUOTE] + StringChars(ms[i].key) + [QUOTE] + [COLON] + ts[i])
  }

  function Texts(vs: seq<Json>): seq<Text> { seq(|vs|, i requires 0 <= i < |vs| => Print(vs[i])) }

  function Values(ms: seq<Member>): seq<Json> { seq(|ms|, i requires 0 <= i < |ms| => ms[i].value) }

  lemma {:induction false} ItemsAre(items: seq<Json>)
    ensures Separated(Texts(items)) == PrintItems(items)
  {
    hide Print;
    if items != [] {
      ItemsAre(items[1..]);
      assert Texts(items)[1..] == Texts(items[1..]);
    }
  }

  lemma {:induction false} MembersAre(ms: seq<Member>)
    ensures Separated(Named(ms, Texts(Values(ms)))) == PrintMembers(ms)
  {
    hide Print;
    hide StringChars;
    hide PrintChars;
    if ms != [] {
      MembersAre(ms[1..]);
      CharsAre(ms[0].key);
      var named := Named(ms, Texts(Values(ms)));
      assert named[1..] == Named(ms[1..], Texts(Values(ms[1..])));
      assert named[0] == PrintMember(ms[0]);
    }
  }

  /** The writer's text, and no other, is the text of an accepted value. */
  lemma {:induction false} TextIs(t: Text, v: Json)
    requires Accepted(v)
    ensures IsText(t, v) <==> t == Print(v)
    decreases v
  {
    match v
    case Int(n) => IntegerIs(t, n);
    case Str(s) => CharsAre(s);
    case Arr(items) =>
      ItemsAre(items);
      forall i, x | 0 <= i < |items| ensures IsText(x, items[i]) <==> x == Print(items[i]) { assert items[i] in items; TextIs(x, items[i]); }
      ArrayIs(t, items);
    case Obj(members) =>
      MembersAre(members);
      forall i, x | 0 <= i < |members| ensures IsText(x, members[i].value) <==> x == Print(members[i].value) {
        assert members[i] in members;
        TextIs(x, members[i].value);
      }
      ObjectIs(t, members);
    case _ =>
  }

  lemma ArrayIs(t: Text, items: seq<Json>)
    requires Separated(Texts(items)) == PrintItems(items)
    requires forall i, x :: 0 <= i < |items| ==> (IsText(x, items[i]) <==> x == Print(items[i]))
    ensures IsText(t, Arr(items)) <==> t == Print(Arr(items))
  {
    hide Separated;
    hide PrintItems;
    if IsText(t, Arr(items)) {
      var ts: seq<Text> :| |ts| == |items| && (forall i :: 0 <= i < |items| ==> IsText(ts[i], items[i])) && t == [LBRACKET] + Separated(ts) + [RBRACKET];
      assert ts == Texts(items);
    }
    if t == Print(Arr(items)) {
      var ts := Texts(items);
      assert forall i :: 0 <= i < |items| ==> IsText(ts[i], items[i]);
    }
  }

  lemma ObjectIs(t: Text, ms: seq<Member>)
    requires Separated(Named(ms, Texts(Values(ms)))) == PrintMembers(ms)
    requires forall i, x :: 0 <= i < |ms| ==> (IsText(x, ms[i].value) <==> x == Print(ms[i].value))
    ensures IsText(t, Obj(ms)) <==> t == Print(Obj(ms))
  {
    hide Separated;
    hide PrintMembers;
    hide Named;
    if IsText(t, Obj(ms)) {
      var ts: seq<Text> :| |ts| == |ms| && (forall i :: 0 <= i < |ms| ==> IsText(ts[i], ms[i].value)) && t == [LBRACE] + Separated(Named(ms, ts)) + [RBRACE];
      assert ts == Texts(Values(ms));
    }
    if t == Print(Obj(ms)) {
      var ts := Texts(Values(ms));
      assert forall i :: 0 <= i < |ms| ==> IsText(ts[i], ms[i].value);
    }
  }
}
