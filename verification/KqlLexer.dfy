/**
  The tokenizer of `detection-rules/scripts/rulelib.py`.  Its regular expression is written out as
  scanning functions; alternatives are tried in the source's order.
*/
module KqlLexer {
  import opened Wrappers

  datatype Kind = LParen | RParen | Colon | StringLiteral | Bare | AndWord | OrWord | NotWord

  datatype Token = Token(kind: Kind, value: string)

  /** Python's white space. */
  predicate IsSpace(c: char) {
    var n := c as int;
    || 9 <= n <= 13 || 28 <= n <= 32 || n == 0x85 || n == 0xA0 || n == 0x1680 || 0x2000 <= n <= 0x200A
    || n == 0x2028 || n == 0x2029 || n == 0x202F || n == 0x205F || n == 0x3000
  }

  predicate IsBare(c: char) { !IsSpace(c) && c != '(' && c != ')' && c != ':' }

  /** Lower case, on the ASCII letters: enough to recognise and, or and not. */
  function Fold(s: string): string {
    seq(|s|, i requires 0 <= i < |s| => if 'A' <= s[i] <= 'Z' then s[i] + 32 as char else s[i])
  }

  function Spaces(s: string): (n: nat)
    ensures n <= |s| && (n < |s| ==> !IsSpace(s[n]))
  {
    if s != "" && IsSpace(s[0]) then 1 + Spaces(s[1..]) else 0
  }

  function BareLength(s: string): (n: nat)
    ensures n <= |s| && (s != "" && IsBare(s[0]) ==> n > 0)
  {
    if s != "" && IsBare(s[0]) then 1 + BareLength(s[1..]) else 0
  }

  /** After an opening quote: how far up to and including the closing one.  A dot is not a newline. */
  function StringLength(s: string): (n: Option<nat>)
    ensures n.Some? ==> 1 <= n.value <= |s|
  {
    if s == "" then None
    else if s[0] == '"' then Some(1)
    else if s[0] == '\\' then
      if |s| >= 2 && s[1] != '\n' then var n := StringLength(s[2..]); if n.Some? then Some(n.value + 2) else None
      else None
    else
      var n := StringLength(s[1..]); if n.Some? then Some(n.value + 1) else None
  }

  // ----- JSON string bodies

  function HexDigit(c: char): Option<nat> {
    if '0' <= c <= '9' then Some(c as nat - '0' as nat)
    else if 'a' <= c <= 'f' then Some(c as nat - 'a' as nat + 10)
    else if 'A' <= c <= 'F' then Some(c as nat - 'A' as nat + 10)
    else None
  }

  function HexValue(s: string): Option<nat>
    requires |s| == 4
    ensures HexValue(s).Some? ==> HexValue(s).value < 0x10000
  {
    var a, b, c, d := HexDigit(s[0]), HexDigit(s[1]), HexDigit(s[2]), HexDigit(s[3]);
    if a.Some? && b.Some? && c.Some? && d.Some? then Some(((a.value * 16 + b.value) * 16 + c.value) * 16 + d.value) else None
  }

  function SimpleEscape(c: char): Option<char> {
    match c
    case '"' => Some('"')
    case '\\' => Some('\\')
    case '/' => Some('/')
    case 'b' => Some(8 as char)
    case 'f' => Some(12 as char)
    case 'n' => Some('\n')
    case 'r' => Some('\r')
    case 't' => Some('\t')
    case _ => None
  }

  predicate IsSurrogate(n: nat) { 0xD800 <= n <= 0xDFFF }

  function Prepend(c: char, rest: Option<string>): Option<string> { if rest.Some? then Some([c] + rest.value) else None }

  /** `json.loads` on what stands between the quotes; control characters are refused. */
  function Unescape(s: string): Option<string> {
    if s == "" then Some("")
    else if s[0] as int < 0x20 || s[0] == '"' then None
    else if s[0] != '\\' then Prepend(s[0], Unescape(s[1..]))
    else if |s| < 2 then None
    else if s[1] != 'u' then
      if SimpleEscape(s[1]).Some? then Prepend(SimpleEscape(s[1]).value, Unescape(s[2..])) else None
    else if |s| < 6 || HexValue(s[2..6]).None? then None
    else
      var unit := HexValue(s[2..6]).value;
      if !IsSurrogate(unit) then Prepend(unit as char, Unescape(s[6..]))
      else if 0xD800 <= unit <= 0xDBFF && |s| >= 12 && s[6] == '\\' && s[7] == 'u' && HexValue(s[8..12]).Some?
              && 0xDC00 <= HexValue(s[8..12]).value <= 0xDFFF
      then
        var code := 0x10000 + (unit - 0xD800) * 0x400 + (HexValue(s[8..12]).value - 0xDC00);
        Prepend(code as char, Unescape(s[12..]))
      else None
  }

  // ----- one token, then all

  function Word(text: string): Token {
    var folded := Fold(text);
    Token(if folded == "and" then AndWord else if folded == "or" then OrWord else if folded == "not" then NotWord else Bare, text)
  }

  /** The token at the start of s and the rest, or None for the source's ValueError. */
  function Lex(s: string): (r: Option<(Token, string)>)
    ensures r.Some? ==> |r.value.1| < |s| && r.value.1 == s[|s| - |r.value.1|..]
  {
    var t := s[Spaces(s)..];
    if t == "" then None
    else if t[0] == '(' then Some((Token(LParen, "("), t[1..]))
    else if t[0] == ')' then Some((Token(RParen, ")"), t[1..]))
    else if t[0] == ':' then Some((Token(Colon, ":"), t[1..]))
    else if t[0] == '"' && StringLength(t[1..]).Some? then
      var n := StringLength(t[1..]).value;
      var value := Unescape(t[1..n]);
      if value.Some? then Some((Token(StringLiteral, value.value), t[n + 1..])) else None
    else
      var n := BareLength(t);
      Some((Word(t[..n]), t[n..]))
  }

  function Tokenize(s: string): Option<seq<Token>>
    decreases |s|
  {
    if s == "" then Some([])
    else
      var first := Lex(s);
      if first.None? then None
      else
        var rest := Tokenize(first.value.1);
        if rest.None? then None else Some([first.value.0] + rest.value)
  }

  function After(found: seq<Token>, rest: Option<seq<Token>>): Option<seq<Token>> {
    if rest.Some? then Some(found + rest.value) else None
  }

  /** `_tokenize`: the loop over positions. */
  method TokenizeQuery(query: string) returns (tokens: Option<seq<Token>>)
    ensures tokens == Tokenize(query)
  {
    var position, found := 0, [];
    hide Lex;
    assert query[0..] == query && forall ts: seq<Token> :: [] + ts == ts;
    while position < |query|
      invariant 0 <= position <= |query|
      invariant Tokenize(query) == After(found, Tokenize(query[position..]))
    {
      var next := Lex(query[position..]);
      if next.None? { return None; }
      position := |query| - |next.value.1|;
      assert query[position..] == next.value.1;
      assert forall ts: seq<Token> :: found + ([next.value.0] + ts) == found + [next.value.0] + ts;
      found := found + [next.value.0];
    }
    assert found + [] == found;
    tokens := Some(found);
  }

  // ----- printing tokens

  function HexChar(n: nat): char
    requires n < 16
  {
    if n < 10 then '0' + n as char else 'a' + (n - 10) as char
  }

  function EscapeChar(c: char): string {
    if c == '"' || c == '\\' then ['\\', c]
    else if c as int < 0x20 then ['\\', 'u', '0', '0', HexChar(c as int / 16), HexChar(c as int % 16)]
    else [c]
  }

  function Escape(s: string): string { if s == "" then "" else EscapeChar(s[0]) + Escape(s[1..]) }

  /** What the tokenizer reads back as a field or an unquoted value. */
  predicate BareWord(w: string) {
    && w != "" && w[0] != '"' && (forall c :: c in w ==> IsBare(c))
    && Fold(w) !in {"and", "or", "not"}
  }

  predicate Printable(t: Token) {
    match t.kind
    case LParen => t.value == "("
    case RParen => t.value == ")"
    case Colon => t.value == ":"
    case StringLiteral => true
    case Bare => BareWord(t.value)
    case AndWord => t.value == "and"
    case OrWord => t.value == "or"
    case NotWord => t.value == "not"
  }

  function Text(t: Token): string { if t.kind == StringLiteral then "\"" + Escape(t.value) + "\"" else t.value }

  function Join(ts: seq<Token>): string {
    if ts == [] then "" else if |ts| == 1 then Text(ts[0]) else Text(ts[0]) + " " + Join(ts[1..])
  }

  lemma HexCharValue(n: nat)
    requires n < 16
    ensures HexDigit(HexChar(n)) == Some(n)
  {
  }

  lemma UnescapeEscapeChar(c: char, rest: string)
    ensures Unescape(EscapeChar(c) + rest) == Prepend(c, Unescape(rest))
  {
    var x := EscapeChar(c) + rest;
    if c == '"' || c == '\\' {
      assert x[2..] == rest;
    } else if c as int < 0x20 {
      HexCharValue(c as int / 16);
      HexCharValue(c as int % 16);
      assert x[2..6] == ['0', '0', HexChar(c as int / 16), HexChar(c as int % 16)];
      assert HexValue(x[2..6]) == Some(c as nat);
      assert x[6..] == rest;
    } else {
      assert x[1..] == rest;
    }
  }

  lemma LengthOfEscapeChar(c: char, rest: string)
    ensures StringLength(EscapeChar(c) + rest) == Further(|EscapeChar(c)|, StringLength(rest))
  {
    var x := EscapeChar(c) + rest;
    if c == '"' || c == '\\' {
      assert x[2..] == rest;
    } else if c as int < 0x20 {
      var hex := ['0', '0', HexChar(c as int / 16), HexChar(c as int % 16)];
      PlainLength(hex, rest);
      assert x[2..] == hex + rest;
    } else {
      assert x[1..] == rest;
    }
  }

  function Further(n: nat, length: Option<nat>): Option<nat> { if length.Some? then Some(n + length.value) else None }

  /** Characters that neither close nor escape are passed over. */
  lemma {:induction false} PlainLength(p: string, r: string)
    requires forall c :: c in p ==> c != '"' && c != '\\'
    ensures StringLength(p + r) == Further(|p|, StringLength(r))
  {
    if p == "" {
      assert p + r == r;
    } else {
      assert p[0] in p && forall c :: c in p[1..] ==> c in p;
      PlainLength(p[1..], r);
      assert (p + r)[1..] == p[1..] + r;
    }
  }

  lemma {:induction false} UnescapeEscape(s: string, rest: string)
    ensures Unescape(Escape(s)) == Some(s)
    ensures StringLength(Escape(s) + "\"" + rest) == Some(|Escape(s)| + 1)
  {
    if s == "" {
      assert Escape(s) + "\"" + rest == "\"" + rest;
    } else {
      UnescapeEscape(s[1..], rest);
      UnescapeEscapeChar(s[0], Escape(s[1..]));
      LengthOfEscapeChar(s[0], Escape(s[1..]) + "\"" + rest);
      hide Unescape;
      hide StringLength;
      hide EscapeChar;
      assert Escape(s) + "\"" + rest == EscapeChar(s[0]) + (Escape(s[1..]) + "\"" + rest);
      assert [s[0]] + s[1..] == s;
    }
  }

  lemma {:induction false} BareLengthOf(w: string, rest: string)
    requires forall c :: c in w ==> IsBare(c)
    requires rest == "" || !IsBare(rest[0])
    ensures BareLength(w + rest) == |w|
  {
    if w == "" {
      assert w + rest == rest;
    } else {
      BareLengthOf(w[1..], rest);
      assert (w + rest)[1..] == w[1..] + rest;
    }
  }

  lemma LexString(value: string, rest: string)
    ensures Lex("\"" + Escape(value) + "\"" + rest) == Some((Token(StringLiteral, value), rest))
  {
    var e := Escape(value);
    var x := "\"" + e + "\"" + rest;
    UnescapeEscape(value, rest);
    hide Unescape;
    hide StringLength;
    hide Escape;
    assert Spaces(x) == 0 && x[0..] == x;
    assert x[1..] == e + "\"" + rest;
    assert x[1..|e| + 1] == e;
    assert x[|e| + 2..] == rest;
  }

  lemma LexBare(word: string, rest: string)
    requires word != "" && word[0] != '"' && (forall c :: c in word ==> IsBare(c))
    requires rest == "" || rest[0] == ' '
    ensures Lex(word + rest) == Some((Word(word), rest))
  {
    var x := word + rest;
    assert word[0] in word;
    BareLengthOf(word, rest);
    hide Unescape;
    hide StringLength;
    hide BareLength;
    assert Spaces(x) == 0 && x[0..] == x;
    assert x[..|word|] == word && x[|word|..] == rest;
  }

  lemma LexMark(mark: char, rest: string)
    requires mark in {'(', ')', ':'}
    ensures Lex([mark] + rest) ==
            Some((Token(if mark == '(' then LParen else if mark == ')' then RParen else Colon, [mark]), rest))
  {
    var x := [mark] + rest;
    assert Spaces(x) == 0 && x[0..] == x && x[1..] == rest;
  }

  /** One leading space changes nothing. */
  lemma LexSkipsSpace(x: string)
    requires x != "" && !IsSpace(x[0])
    ensures Lex(" " + x) == Lex(x)
  {
    var s := " " + x;
    assert s[1..] == x;
    assert Spaces(x) == 0 && Spaces(s) == 1;
    assert x[0..] == x && s[1..] == x;
  }

  /** A printed token before a space or the end is read back. */
  lemma LexToken(t: Token, rest: string)
    requires Printable(t) && (rest == "" || rest[0] == ' ')
    ensures Text(t) != "" && !IsSpace(Text(t)[0]) && Lex(Text(t) + rest) == Some((t, rest))
  {
    hide Lex;
    hide Escape;
    match t.kind
    case StringLiteral => LexString(t.value, rest);
    case LParen => LexMark('(', rest);
    case RParen => LexMark(')', rest);
    case Colon => LexMark(':', rest);
    case Bare =>
      assert t.value[0] in t.value;
      LexBare(t.value, rest);
    case AndWord =>
      assert Fold("and") == "and";
      LexBare("and", rest);
    case OrWord =>
      assert Fold("or") == "or";
      LexBare("or", rest);
    case NotWord =>
      assert Fold("not") == "not";
      LexBare("not", rest);
  }

  /** At most one space may precede it. */
  lemma LexText(t: Token, lead: string, rest: string)
    requires Printable(t) && (lead == "" || lead == " ") && (rest == "" || rest[0] == ' ')
    ensures Text(t) != "" && Lex(lead + (Text(t) + rest)) == Some((t, rest))
  {
    LexToken(t, rest);
    hide Lex;
    hide Text;
    hide Printable;
    hide IsSpace;
    if lead == "" {
      assert lead + (Text(t) + rest) == Text(t) + rest;
    } else {
      LexSkipsSpace(Text(t) + rest);
    }
  }

  lemma Prefixed(t: Token, ts: seq<Token>, rest: Option<seq<Token>>)
    ensures After([t], After(ts, rest)) == After([t] + ts, rest)
    ensures After([], rest) == rest
  {
    if rest.Some? { assert [] + rest.value == rest.value; }
    if rest.Some? { assert [t] + (ts + rest.value) == [t] + ts + rest.value; }
  }

  lemma {:induction false} TokenizeTail(ts: seq<Token>, lead: string, tail: string)
    requires (lead == "" || lead == " ") && ts != [] && forall t :: t in ts ==> Printable(t)
    requires tail == "" || tail[0] == ' '
    ensures Tokenize(lead + Join(ts) + tail) == After(ts, Tokenize(tail))
  {
    hide Lex;
    hide Text;
    hide Printable;
    var more := if |ts| == 1 then "" else " " + Join(ts[1..]);
    var rest := more + tail;
    LexText(ts[0], lead, rest);
    assert lead + (Text(ts[0]) + rest) == lead + Join(ts) + tail;
    Prefixed(ts[0], ts[1..], Tokenize(tail));
    assert ts == [ts[0]] + ts[1..];
    if |ts| == 1 {
      assert rest == tail;
      assert ts[1..] == [];
    } else {
      TokenizeTail(ts[1..], " ", tail);
    }
  }

  /** Printed tokens, joined by single spaces, are exactly the tokens read back. */
  lemma TokenizeJoin(ts: seq<Token>)
    requires forall t :: t in ts ==> Printable(t)
    ensures Tokenize(Join(ts)) == Some(ts)
  {
    if ts != [] {
      TokenizeTail(ts, "", "");
      assert "" + Join(ts) + "" == Join(ts) && ts + [] == ts;
    }
  }

  // ----- trailing white space

  predicate EndsInSpace(s: string) { s != "" && IsSpace(s[|s| - 1]) }

  lemma {:induction false} BareLengthIsBare(s: string)
    ensures forall i :: 0 <= i < BareLength(s) ==> IsBare(s[i])
  {
    if s != "" && IsBare(s[0]) { BareLengthIsBare(s[1..]); }
  }

  lemma {:induction false} StringEndsInQuote(s: string)
    requires StringLength(s).Some?
    ensures s[StringLength(s).value - 1] == '"'
  {
    if s[0] == '\\' {
      StringEndsInQuote(s[2..]);
    } else if s[0] != '"' {
      StringEndsInQuote(s[1..]);
    }
  }

  /** No token ends in white space, so white space at the end stays for the next round. */
  lemma LexKeepsEnd(s: string)
    requires EndsInSpace(s) && Lex(s).Some?
    ensures EndsInSpace(Lex(s).value.1)
  {
    var t := s[Spaces(s)..];
    assert t[|t| - 1] == s[|s| - 1];
    BareLengthIsBare(t);
    if t[0] == '"' && StringLength(t[1..]).Some? {
      StringEndsInQuote(t[1..]);
      assert t[StringLength(t[1..]).value] == '"';
    }
    hide Unescape;
    hide StringLength;
    hide BareLength;
    hide Spaces;
  }

  lemma {:induction false} SpaceAtEndRefused(s: string)
    requires EndsInSpace(s)
    ensures Tokenize(s).None?
    decreases |s|
  {
    if Lex(s).Some? {
      LexKeepsEnd(s);
      SpaceAtEndRefused(Lex(s).value.1);
    }
    hide Lex;
  }

  /** Every text is refused with any white space after it, whatever it is without. */
  lemma TrailingSpaceRefused(query: string, blanks: string)
    requires blanks != "" && forall c :: c in blanks ==> IsSpace(c)
    ensures Tokenize(query + blanks).None?
  {
    var s := query + blanks;
    assert s[|s| - 1] == blanks[|blanks| - 1] && blanks[|blanks| - 1] in blanks;
    SpaceAtEndRefused(s);
  }
}
