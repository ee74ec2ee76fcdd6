/** JSON values, the compact text `json.dumps` writes, and the strict reader built on `json.loads`. */
module JsonText {
  import opened Wrappers
  import opened CodePoints

  /** A Python value; an object's members are in insertion order. */
  datatype Json =
    | Null | Bool(on: bool) | Int(n: int) | Float(r: real) | Str(s: Text)
    | Arr(items: seq<Json>) | Obj(members: seq<Member>)
  datatype Member = Member(key: Text, value: Json)

  predicate HasKey(ms: seq<Member>, key: Text) { exists m :: m in ms && m.key == key }

  predicate Distinct(ms: seq<Member>) { forall i, j :: 0 <= i < j < |ms| ==> ms[i].key != ms[j].key }

  /** What a Python value can be: a dictionary holds a key once, at every depth. */
  predicate WellFormed(v: Json) {
    match v
    case Arr(items) => forall x :: x in items ==> WellFormed(x)
    case Obj(members) => Distinct(members) && forall m :: m in members ==> WellFormed(m.value)
    case _ => true
  }

  const MAX_SAFE_INTEGER := 0x1F_FFFF_FFFF_FFFF

  predicate InRange(n: int) { -MAX_SAFE_INTEGER <= n <= MAX_SAFE_INTEGER }

  /** `_validate`. */
  predicate Accepted(v: Json) {
    match v
    case Float(_) => false
    case Int(n) => InRange(n)
    case Str(s) => Scalars(s)
    case Arr(items) => forall x :: x in items ==> Accepted(x)
    case Obj(members) => forall m :: m in members ==> Scalars(m.key) && Accepted(m.value)
    case _ => true
  }

  // ----- characters

  const QUOTE: Code := 0x22
  const BACKSLASH: Code := 0x5C
  const COMMA: Code := 0x2C
  const COLON: Code := 0x3A
  const LBRACKET: Code := 0x5B
  const RBRACKET: Code := 0x5D
  const LBRACE: Code := 0x7B
  const RBRACE: Code := 0x7D
  const MINUS: Code := 0x2D
  const ZERO: Code := 0x30
  const BYTE_ORDER_MARK: Code := 0xFEFF

  const NULL: Text := [0x6E, 0x75, 0x6C, 0x6C]
  const TRUE: Text := [0x74, 0x72, 0x75, 0x65]
  const FALSE: Text := [0x66, 0x61, 0x6C, 0x73, 0x65]

  predicate IsDigit(c: Code) { 0x30 <= c <= 0x39 }

  predicate IsSpace(c: Code) { c == 0x20 || c == 0x09 || c == 0x0A || c == 0x0D }

  // ----- writing

  function HexDigit(n: nat): Code
    requires n < 16
  {
    if n < 10 then 0x30 + n else 0x61 + n - 10
  }

  /** The letter after a backslash for the characters that have one. */
  function ShortEscape(c: Code): Option<Code> {
    match c
    case 0x22 => Some(0x22)
    case 0x5C => Some(0x5C)
    case 0x0A => Some(0x6E)
    case 0x0D => Some(0x72)
    case 0x09 => Some(0x74)
    case 0x0C => Some(0x66)
    case 0x08 => Some(0x62)
    case _ => None
  }

  function PrintChar(c: Code): Text {
    if ShortEscape(c).Some? then [BACKSLASH, ShortEscape(c).value]
    else if c < 0x20 then [BACKSLASH, 0x75, ZERO, ZERO, HexDigit(c / 16), HexDigit(c % 16)]
    else [c]
  }

  function PrintChars(s: Text): Text { if s == [] then [] else PrintChar(s[0]) + PrintChars(s[1..]) }

  function PrintString(s: Text): Text { [QUOTE] + PrintChars(s) + [QUOTE] }

  function Decimal(n: nat): Text { if n < 10 then [ZERO + n] else Decimal(n / 10) + [ZERO + n % 10] }

  function PrintInt(n: int): Text { if n < 0 then [MINUS] + Decimal(-n) else Decimal(n) }

  /** `json.dumps` with separators "," and ":"; a float is never printed, so it has no text here. */
  function Print(v: Json): Text
    decreases v
  {
    match v
    case Null => NULL
    case Bool(on) => if on then TRUE else FALSE
    case Int(n) => PrintInt(n)
    case Float(_) => []
    case Str(s) => PrintString(s)
    case Arr(items) => [LBRACKET] + PrintItems(items) + [RBRACKET]
    case Obj(members) => [LBRACE] + PrintMembers(members) + [RBRACE]
  }

  function PrintItems(items: seq<Json>): Text
    decreases items
  {
    if items == [] then [] else Print(items[0]) + (if |items| == 1 then [] else [COMMA] + PrintItems(items[1..]))
  }

  function PrintMember(m: Member): Text
    decreases m
  {
    PrintString(m.key) + [COLON] + Print(m.value)
  }

  function PrintMembers(ms: seq<Member>): Text
    decreases ms
  {
    if ms == [] then [] else PrintMember(ms[0]) + (if |ms| == 1 then [] else [COMMA] + PrintMembers(ms[1..]))
  }

  // ----- reading; None is every error the loader raises

  datatype Parsed<T> = Parsed(value: T, rest: Text)

  predicate Next(t: Text, c: Code) { t != [] && t[0] == c }

  function Skip(t: Text): (r: Text)
    ensures |r| <= |t|
  {
    if t != [] && IsSpace(t[0]) then Skip(t[1..]) else t
  }

  function HexValue(c: Code): Option<nat> {
    if 0x30 <= c <= 0x39 then Some(c - 0x30)
    else if 0x61 <= c <= 0x66 then Some(c - 0x61 + 10)
    else if 0x41 <= c <= 0x46 then Some(c - 0x41 + 10)
    else None
  }

  /** Four hexadecimal digits. */
  function Hex4(t: Text): (r: Option<nat>)
    ensures r.Some? ==> r.value < 0x10000 && |t| >= 4
  {
    if |t| < 4 || exists i :: 0 <= i < 4 && HexValue(t[i]).None? then None
    else
      HexBound(t[0]); HexBound(t[1]); HexBound(t[2]); HexBound(t[3]);
      Some(HexValue(t[0]).value * 4096 + HexValue(t[1]).value * 256 + HexValue(t[2]).value * 16 + HexValue(t[3]).value)
  }

  lemma HexBound(c: Code)
    ensures HexValue(c).Some? ==> HexValue(c).value < 16
  {
  }

  function Unescape(c: Code): Option<Code> {
    match c
    case 0x22 => Some(0x22)
    case 0x5C => Some(0x5C)
    case 0x2F => Some(0x2F)
    case 0x62 => Some(0x08)
    case 0x66 => Some(0x0C)
    case 0x6E => Some(0x0A)
    case 0x72 => Some(0x0D)
    case 0x74 => Some(0x09)
    case _ => None
  }

  /** What follows a backslash: a short escape, or \u with a surrogate pair joined into one character. */
  function ReadEscape(t: Text): (r: Option<Parsed<Code>>)
    ensures r.Some? ==> |r.value.rest| < |t|
  {
    if t == [] then None
    else if t[0] != 0x75 then (if Unescape(t[0]).None? then None else Some(Parsed(Unescape(t[0]).value, t[1..])))
    else
      var high := Hex4(t[1..]);
      if high.None? then None
      else
        var rest := t[5..];
        if 0xD800 <= high.value <= 0xDBFF && |rest| >= 2 && rest[0] == BACKSLASH && rest[1] == 0x75 then
          var low := Hex4(rest[2..]);
          if low.None? then None
          else if 0xDC00 <= low.value <= 0xDFFF then
            Some(Parsed(0x10000 + (high.value - 0xD800) * 0x400 + (low.value - 0xDC00), rest[6..]))
          else Some(Parsed(high.value, rest))
        else Some(Parsed(high.value, rest))
  }

  /** The characters up to the closing quote. */
  function ReadChars(t: Text): (r: Option<Parsed<Text>>)
    ensures r.Some? ==> |r.value.rest| < |t|
    decreases |t|
  {
    if t == [] || (t[0] < 0x20 && t[0] != QUOTE) then None
    else if t[0] == QUOTE then Some(Parsed([], t[1..]))
    else
      var c := if t[0] == BACKSLASH then ReadEscape(t[1..]) else Some(Parsed(t[0], t[1..]));
      if c.None? then None
      else
        var more := ReadChars(c.value.rest);
        if more.None? then None else Some(Parsed([c.value.value] + more.value.value, more.value.rest))
  }

  function Digits(t: Text): (n: nat)
    ensures n <= |t| && forall i :: 0 <= i < n ==> IsDigit(t[i])
  {
    if t != [] && IsDigit(t[0]) then 1 + Digits(t[1..]) else 0
  }

  function DecimalValue(t: Text): nat
    requires forall i :: 0 <= i < |t| ==> IsDigit(t[i])
  {
    if t == [] then 0
    else
      assert IsDigit(t[|t| - 1]);
      DecimalValue(t[..|t| - 1]) * 10 + (t[|t| - 1] - ZERO)
  }

  /** A fraction or an exponent follows, so the number is a float. */
  predicate FloatFollows(t: Text) {
    || (|t| >= 2 && t[0] == 0x2E && IsDigit(t[1]))
    || (|t| >= 2 && (t[0] == 0x65 || t[0] == 0x45) && IsDigit(t[1]))
    || (|t| >= 3 && (t[0] == 0x65 || t[0] == 0x45) && (t[1] == 0x2B || t[1] == MINUS) && IsDigit(t[2]))
  }

  /** -?(0|[1-9][0-9]*); floats and integers out of range are refused. */
  function ReadInt(t: Text): (r: Option<Parsed<Json>>)
    ensures r.Some? ==> |r.value.rest| < |t|
  {
    var negative := Next(t, MINUS);
    var u := if negative then t[1..] else t;
    var n := if Next(u, ZERO) then 1 else Digits(u);
    if n == 0 || FloatFollows(u[n..]) then None
    else
      var value: int := if negative then 0 - DecimalValue(u[..n]) else DecimalValue(u[..n]);
      if InRange(value) then Some(Parsed(Int(value), u[n..])) else None
  }

  function ReadValue(t: Text): (r: Option<Parsed<Json>>)
    ensures r.Some? ==> |r.value.rest| < |t|
    ensures r.Some? ==> WellFormed(r.value.value)
    decreases |t|, 0
  {
    if t == [] then None
    else if t[0] == QUOTE then
      var s := ReadChars(t[1..]);
      if s.None? then None else Some(Parsed(Str(s.value.value), s.value.rest))
    else if t[0] == LBRACKET then
      var inner := Skip(t[1..]);
      if Next(inner, RBRACKET) then Some(Parsed(Arr([]), inner[1..]))
      else
        var items := ReadItems(inner);
        if items.None? then None else Some(Parsed(Arr(items.value.value), items.value.rest))
    else if t[0] == LBRACE then
      var inner := Skip(t[1..]);
      if Next(inner, RBRACE) then Some(Parsed(Obj([]), inner[1..]))
      else
        var pairs := ReadMembers(inner);
        if pairs.None? || !Distinct(pairs.value.value) then None else Some(Parsed(Obj(pairs.value.value), pairs.value.rest))
    else if NULL <= t then Some(Parsed(Null, t[4..]))
    else if TRUE <= t then Some(Parsed(Bool(true), t[4..]))
    else if FALSE <= t then Some(Parsed(Bool(false), t[5..]))
    else ReadInt(t)
  }

  function ReadItems(t: Text): (r: Option<Parsed<seq<Json>>>)
    ensures r.Some? ==> |r.value.rest| < |t|
    ensures r.Some? ==> forall x :: x in r.value.value ==> WellFormed(x)
    decreases |t|, 1
  {
    var first := ReadValue(t);
    if first.None? then None
    else
      var rest := Skip(first.value.rest);
      if Next(rest, RBRACKET) then Some(Parsed([first.value.value], rest[1..]))
      else if Next(rest, COMMA) then
        var more := ReadItems(Skip(rest[1..]));
        if more.None? then None else Some(Parsed([first.value.value] + more.value.value, more.value.rest))
      else None
  }

  function ReadMember(t: Text): (r: Option<Parsed<Member>>)
    ensures r.Some? ==> |r.value.rest| < |t|
    ensures r.Some? ==> WellFormed(r.value.value.value)
    decreases |t|, 1
  {
    if !Next(t, QUOTE) then None
    else
      var key := ReadChars(t[1..]);
      if key.None? || !Next(Skip(key.value.rest), COLON) then None
      else
        var v := ReadValue(Skip(Skip(key.value.rest)[1..]));
        if v.None? then None else Some(Parsed(Member(key.value.value, v.value.value), v.value.rest))
  }

  function ReadMembers(t: Text): (r: Option<Parsed<seq<Member>>>)
    ensures r.Some? ==> |r.value.rest| < |t|
    ensures r.Some? ==> forall m :: m in r.value.value ==> WellFormed(m.value)
    decreases |t|, 2
  {
    var first := ReadMember(t);
    if first.None? then None
    else
      var rest := Skip(first.value.rest);
      if Next(rest, RBRACE) then Some(Parsed([first.value.value], rest[1..]))
      else if Next(rest, COMMA) then
        var more := ReadMembers(Skip(rest[1..]));
        if more.None? then None else Some(Parsed([first.value.value] + more.value.value, more.value.rest))
      else None
  }

  /** `_object`: the pairs of one object, refused when a key comes back. */
  method ObjectOf(pairs: seq<Member>) returns (result: Option<seq<Member>>)
    ensures result == if Distinct(pairs) then Some(pairs) else None
  {
    var found := [];
    for n := 0 to |pairs|
      invariant found == pairs[..n] && Distinct(found)
    {
      if HasKey(found, pairs[n].key) {
        var m :| m in found && m.key == pairs[n].key;
        var i :| 0 <= i < n && pairs[i] == m;
        assert pairs[i].key == pairs[n].key;
        return None;
      }
      forall i | 0 <= i < n ensures found[i].key != pairs[n].key { assert found[i] in found; }
      found := found + [pairs[n]];
    }
    assert pairs[..|pairs|] == pairs;
    result := Some(found);
  }

  /** `load_strict_json` on text. */
  function Load(t: Text): (r: Option<Json>)
    ensures r.Some? ==> Accepted(r.value) && WellFormed(r.value)
  {
    if Next(t, BYTE_ORDER_MARK) then None
    else
      var v := ReadValue(Skip(t));
      if v.None? || Skip(v.value.rest) != [] || !Accepted(v.value.value) then None else Some(v.value.value)
  }
}
