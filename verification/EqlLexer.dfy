/** The tokenizer of `scripts/sigma/eql_eval.py`, its regular expression written out. */
module EqlLexer {
  import opened Wrappers
  import K = KqlLexer

  datatype Token = Str(value: string) | Op(text: string) | Number(lexeme: string) | Keyword(word: string) | Field(name: string)

  const KEYWORDS := {"and", "or", "not", "like", "in", "where", "any", "null", "true", "false"}

  predicate IsLetter(c: char) { 'a' <= c <= 'z' || 'A' <= c <= 'Z' || c == '_' }
  predicate IsDigit(c: char) { '0' <= c <= '9' }
  predicate IsWordChar(c: char) { IsLetter(c) || IsDigit(c) || c == '.' || c == '-' }

  function WordLength(s: string): (n: nat)
    ensures n <= |s|
  {
    if s != "" && IsWordChar(s[0]) then 1 + WordLength(s[1..]) else 0
  }

  function Digits(s: string): (n: nat)
    ensures n <= |s|
  {
    if s != "" && IsDigit(s[0]) then 1 + Digits(s[1..]) else 0
  }

  /** -?\d+(\.\d+)? ; zero when there is no number here. */
  function NumberLength(s: string): (n: nat)
    ensures n <= |s|
  {
    var sign := if s != "" && s[0] == '-' then 1 else 0;
    var whole := Digits(s[sign..]);
    if whole == 0 then 0 else sign + whole + Fraction(s[sign + whole..])
  }

  /** (\.\d+)? */
  function Fraction(s: string): (n: nat)
    ensures n <= |s|
  {
    if s != "" && s[0] == '.' && Digits(s[1..]) > 0 then 1 + Digits(s[1..]) else 0
  }

  /** The operator alternatives, in the order they are tried. */
  function OperatorAt(s: string): (op: string)
    ensures op <= s
  {
    if "==" <= s then "==" else if "!=" <= s then "!=" else if "like~" <= s then "like~" else if "in~" <= s then "in~"
    else if ":" <= s then ":" else if "(" <= s then "(" else if ")" <= s then ")" else if "," <= s then ","
    else if "!" <= s then "!" else ""
  }

  function Escaped(c: char): Option<char> {
    match c
    case '\\' => Some('\\')
    case '"' => Some('"')
    case 'n' => Some('\n')
    case 'r' => Some('\r')
    case 't' => Some('\t')
    case _ => None
  }

  /** `_unquote` on what stands between the quotes. */
  function Unquote(s: string): Option<string> {
    if s == "" then Some("")
    else if s[0] != '\\' then K.Prepend(s[0], Unquote(s[1..]))
    else if |s| < 2 || Escaped(s[1]).None? then None
    else K.Prepend(Escaped(s[1]).value, Unquote(s[2..]))
  }

  method UnquoteBody(body: string) returns (value: Option<string>)
    ensures value == Unquote(body)
  {
    var index, found := 0, "";
    assert body[0..] == body && forall rest: string :: "" + rest == rest;
    while index < |body|
      invariant index <= |body|
      invariant Unquote(body) == Joined(found, Unquote(body[index..]))
    {
      var c := body[index];
      if c == '\\' {
        index := index + 1;
        if index == |body| || Escaped(body[index]).None? {
          return None;
        }
        c := Escaped(body[index]).value;
      }
      index := index + 1;
      assert forall rest: string :: found + ([c] + rest) == found + [c] + rest;
      found := found + [c];
    }
    assert found + "" == found;
    value := Some(found);
  }

  function Joined(found: string, rest: Option<string>): Option<string> { if rest.Some? then Some(found + rest.value) else None }

  function WordToken(word: string): Token { if K.Fold(word) in KEYWORDS then Keyword(K.Fold(word)) else Field(word) }

  function Lex(s: string): (r: Option<(Token, string)>)
    ensures r.Some? ==> |r.value.1| < |s| && r.value.1 == s[|s| - |r.value.1|..]
  {
    var t := s[K.Spaces(s)..];
    if t == "" then None
    else if t[0] == '"' then
      var n := K.StringLength(t[1..]);
      if n.None? || Unquote(t[1..n.value]).None? then None else Some((Str(Unquote(t[1..n.value]).value), t[n.value + 1..]))
    else if OperatorAt(t) != "" then Some((Op(OperatorAt(t)), t[|OperatorAt(t)|..]))
    else if IsLetter(t[0]) then Some((WordToken(t[..WordLength(t)]), t[WordLength(t)..]))
    else if NumberLength(t) > 0 then Some((Number(t[..NumberLength(t)]), t[NumberLength(t)..]))
    else None
  }

  function LexAll(s: string): Option<seq<Token>>
    decreases |s|
  {
    if s == "" then Some([])
    else
      var first := Lex(s);
      if first.None? then None else After([first.value.0], LexAll(first.value.1))
  }

  function After(found: seq<Token>, rest: Option<seq<Token>>): Option<seq<Token>> {
    if rest.Some? then Some(found + rest.value) else None
  }

  function Stripped(s: string): string
    decreases |s|
  {
    if s != "" && K.IsSpace(s[|s| - 1]) then Stripped(s[..|s| - 1]) else s
  }

  function Tokenize(text: string): Option<seq<Token>> { LexAll(Stripped(text)) }

  method TokenizeQuery(text: string) returns (tokens: Option<seq<Token>>)
    ensures tokens == Tokenize(text)
  {
    hide Lex;
    var stripped := Stripped(text);
    var position, found := 0, [];
    assert stripped[0..] == stripped && forall ts: seq<Token> :: [] + ts == ts;
    while position < |stripped|
      invariant 0 <= position <= |stripped|
      invariant LexAll(stripped) == After(found, LexAll(stripped[position..]))
    {
      var next := Lex(stripped[position..]);
      if next.None? { return None; }
      position := |stripped| - |next.value.1|;
      assert stripped[position..] == next.value.1;
      assert forall ts: seq<Token> :: found + ([next.value.0] + ts) == found + [next.value.0] + ts;
      found := found + [next.value.0];
    }
    assert found + [] == found;
    tokens := Some(found);
  }

  // ----- printing

  function QuoteChar(c: char): string { if c == '"' || c == '\\' then ['\\', c] else [c] }

  function Quote(s: string): string { if s == "" then "" else QuoteChar(s[0]) + Quote(s[1..]) }

  function Text(t: Token): string {
    match t
    case Str(value) => "\"" + Quote(value) + "\""
    case Op(text) => text
    case Number(lexeme) => lexeme
    case Keyword(word) => word
    case Field(name) => name
  }

  predicate Word(w: string) { w != "" && IsLetter(w[0]) && forall c :: c in w ==> IsWordChar(c) }

  predicate FieldName(w: string) { Word(w) && K.Fold(w) !in KEYWORDS }

  predicate NumberLexeme(s: string) { s != "" && NumberLength(s) == |s| }

  predicate Printable(t: Token) {
    match t
    case Str(_) => true
    case Op(text) => text in {"==", "!=", "like~", "in~", ":", "(", ")", ",", "!"}
    case Number(lexeme) => NumberLexeme(lexeme)
    case Keyword(word) => word in KEYWORDS
    case Field(name) => FieldName(name)
  }

  function Join(ts: seq<Token>): string {
    if ts == [] then "" else if |ts| == 1 then Text(ts[0]) else Text(ts[0]) + " " + Join(ts[1..])
  }

  predicate Ends(rest: string) { rest == "" || rest[0] == ' ' }

  lemma {:induction false} UnquoteQuote(s: string, rest: string)
    ensures Unquote(Quote(s)) == Some(s)
    ensures K.StringLength(Quote(s) + "\"" + rest) == Some(|Quote(s)| + 1)
  {
    if s == "" {
      assert Quote(s) + "\"" + rest == "\"" + rest;
    } else {
      UnquoteQuote(s[1..], rest);
      var q, more := QuoteChar(s[0]), Quote(s[1..]) + "\"" + rest;
      assert Quote(s) + "\"" + rest == q + more;
      assert (q + more)[|q|..] == more && Quote(s)[|q|..] == Quote(s[1..]);
      assert [s[0]] + s[1..] == s;
    }
  }

  lemma {:induction false} WordLengthOf(w: string, rest: string)
    requires (forall c :: c in w ==> IsWordChar(c)) && Ends(rest)
    ensures WordLength(w + rest) == |w|
  {
    if w == "" {
      assert w + rest == rest;
    } else {
      assert w[0] in w && forall c :: c in w[1..] ==> c in w;
      WordLengthOf(w[1..], rest);
      assert (w + rest)[1..] == w[1..] + rest;
    }
  }

  lemma {:induction false} DigitsAppend(s: string, rest: string)
    requires rest == "" || !IsDigit(rest[0])
    ensures Digits(s + rest) == Digits(s)
  {
    if s == "" {
      assert s + rest == rest;
    } else {
      DigitsAppend(s[1..], rest);
      assert (s + rest)[1..] == s[1..] + rest;
    }
  }

  lemma FractionAppend(s: string, rest: string)
    requires Fraction(s) == |s| && Ends(rest)
    ensures Fraction(s + rest) == |s|
  {
    if s == "" {
      assert s + rest == rest;
    } else {
      DigitsAppend(s[1..], rest);
      assert (s + rest)[1..] == s[1..] + rest;
    }
  }

  lemma NumberLengthOf(s: string, rest: string)
    requires NumberLexeme(s) && Ends(rest)
    ensures NumberLength(s + rest) == |s|
  {
    hide Digits;
    hide Fraction;
    var sign := if s[0] == '-' then 1 else 0;
    var tail := s[sign..];
    var whole := Digits(tail);
    assert s[sign + whole..] == tail[whole..];
    FractionAppend(tail[whole..], rest);
    DigitsStop(tail, rest);
    assert (s + rest)[sign..] == tail + rest;
    assert (s + rest)[sign + whole..] == tail[whole..] + rest;
  }

  lemma DigitsStop(s: string, rest: string)
    requires Ends(rest)
    ensures Digits(s + rest) == Digits(s)
  {
    DigitsAppend(s, rest);
  }

  lemma LexStr(value: string, rest: string)
    ensures Lex("\"" + Quote(value) + "\"" + rest) == Some((Str(value), rest))
  {
    var q := Quote(value);
    var x := "\"" + q + "\"" + rest;
    UnquoteQuote(value, rest);
    hide Unquote;
    hide K.StringLength;
    hide Quote;
    hide OperatorAt;
    assert K.Spaces(x) == 0 && x[0..] == x;
    assert x[1..] == q + "\"" + rest;
    assert x[1..|q| + 1] == q && x[|q| + 2..] == rest;
  }

  lemma LexWord(w: string, rest: string)
    requires Word(w) && Ends(rest)
    ensures Lex(w + rest) == Some((WordToken(w), rest))
  {
    var x := w + rest;
    assert w[0] in w;
    WordLengthOf(w, rest);
    NoOperatorHere(w, rest);
    hide WordLength;
    hide OperatorAt;
    hide NumberLength;
    assert K.Spaces(x) == 0 && x[0..] == x;
    assert x[..|w|] == w && x[|w|..] == rest;
  }

  /** No operator starts a word: `like~` and `in~` would need a tilde in it. */
  lemma NoOperatorHere(w: string, rest: string)
    requires Word(w) && Ends(rest)
    ensures OperatorAt(w + rest) == ""
  {
    var x := w + rest;
    assert w[0] in w && x[0] == w[0];
    var k, m := if |w| < 4 then |w| else 4, if |w| < 2 then |w| else 2;
    assert 4 < |w| ==> w[4] in w;
    assert k < |x| ==> x[k] != "like~"[k];
    assert 2 < |w| ==> w[2] in w;
    assert m < |x| ==> x[m] != "in~"[m];
  }

  lemma NoOperatorStart(x: string)
    requires x != "" && x[0] !in {'=', '!', 'l', 'i', ':', '(', ')', ','}
    ensures OperatorAt(x) == ""
  {
  }

  lemma LexNumber(s: string, rest: string)
    requires NumberLexeme(s) && Ends(rest)
    ensures Lex(s + rest) == Some((Number(s), rest))
  {
    var x := s + rest;
    NumberLengthOf(s, rest);
    NumberEnds(s);
    NoSpaceHere(x);
    NoOperatorStart(x);
    hide NumberLength;
    hide OperatorAt;
    hide WordLength;
    hide Unquote;
    hide K.StringLength;
    hide K.Spaces;
    assert x[..|s|] == s && x[|s|..] == rest;
  }

  lemma NoSpaceHere(x: string)
    requires x != "" && !K.IsSpace(x[0])
    ensures K.Spaces(x) == 0 && x[K.Spaces(x)..] == x
  {
  }

  lemma LexOp(op: string, rest: string)
    requires Printable(Op(op)) && Ends(rest)
    ensures Lex(op + rest) == Some((Op(op), rest))
  {
    var x := op + rest;
    assert OperatorAt(x) == op by {
      assert op <= x;
      assert op == "!" && |x| >= 2 ==> x[1] == ' ';
    }
    assert op != "" && x[0] == op[0] && op[0] in {'=', '!', 'l', 'i', ':', '(', ')', ','};
    hide OperatorAt;
    hide NumberLength;
    assert K.Spaces(x) == 0 && x[0..] == x;
    assert x[|op|..] == rest;
  }

  lemma KeywordWord(word: string)
    requires word in KEYWORDS
    ensures Word(word) && K.Fold(word) == word
  {
  }

  lemma WordEnds(w: string)
    requires Word(w)
    ensures !K.IsSpace(w[0]) && !K.IsSpace(w[|w| - 1])
  {
    assert w[0] in w && w[|w| - 1] in w;
  }

  /** A printed token before a space or the end is read back. */
  lemma LexToken(t: Token, rest: string)
    requires Printable(t) && Ends(rest)
    ensures Text(t) != "" && !K.IsSpace(Text(t)[0]) && !K.IsSpace(Text(t)[|Text(t)| - 1]) && Lex(Text(t) + rest) == Some((t, rest))
  {
    hide Lex;
    hide Quote;
    hide NumberLength;
    hide IsLetter;
    match t
    case Str(value) => LexStr(value, rest);
    case Op(text) => LexOp(text, rest);
    case Number(lexeme) => LexNumber(lexeme, rest); NumberEnds(lexeme);
    case Keyword(word) =>
      KeywordWord(word);
      LexWord(word, rest);
      WordEnds(word);
    case Field(name) =>
      LexWord(name, rest);
      WordEnds(name);
  }

  lemma {:induction false} DigitsAre(s: string, k: nat)
    requires k < Digits(s)
    ensures IsDigit(s[k])
  {
    if k > 0 { DigitsAre(s[1..], k - 1); }
  }

  lemma NumberEnds(s: string)
    requires NumberLexeme(s)
    ensures IsDigit(s[|s| - 1]) && (s[0] == '-' || IsDigit(s[0]))
  {
    var sign := if s[0] == '-' then 1 else 0;
    var whole := Digits(s[sign..]);
    DigitsAre(s[sign..], 0);
    DigitsAre(s[sign..], whole - 1);
    var tail := s[sign + whole..];
    if tail != "" { DigitsAre(tail[1..], |tail| - 2); }
  }

  lemma LexText(t: Token, lead: string, rest: string)
    requires Printable(t) && (lead == "" || lead == " ") && Ends(rest)
    ensures Text(t) != "" && Lex(lead + (Text(t) + rest)) == Some((t, rest))
  {
    LexToken(t, rest);
    hide Text;
    hide Printable;
    hide K.IsSpace;
    var x := Text(t) + rest;
    if lead == "" {
      assert lead + x == x;
    } else {
      LexSkipsSpace(x);
    }
    hide Lex;
  }

  lemma LexSkipsSpace(x: string)
    requires x != "" && !K.IsSpace(x[0])
    ensures Lex(" " + x) == Lex(x)
  {
    var s := " " + x;
    assert s[1..] == x;
    assert K.Spaces(x) == 0 && K.Spaces(s) == 1;
    assert x[0..] == x && s[1..] == x;
  }

  lemma AfterOne(t: Token, ts: seq<Token>)
    ensures After([t], Some(ts)) == Some([t] + ts)
  {
  }

  function Tail(ts: seq<Token>): string
    requires ts != []
  {
    if |ts| == 1 then "" else " " + Join(ts[1..])
  }

  lemma JoinCons(ts: seq<Token>)
    requires ts != []
    ensures Join(ts) == Text(ts[0]) + Tail(ts)
  {
  }

  lemma {:induction false} LexTail(ts: seq<Token>, lead: string)
    requires (lead == "" || lead == " ") && ts != [] && forall t :: t in ts ==> Printable(t)
    ensures LexAll(lead + Join(ts)) == Some(ts)
  {
    hide Lex;
    hide Text;
    hide Printable;
    hide After;
    LexText(ts[0], lead, Tail(ts));
    JoinCons(ts);
    hide Join;
    AfterOne(ts[0], ts[1..]);
    assert ts == [ts[0]] + ts[1..];
    if |ts| == 1 {
      assert ts[1..] == [];
    } else {
      LexTail(ts[1..], " ");
    }
  }

  lemma {:induction false} JoinEnds(ts: seq<Token>)
    requires ts != [] && forall t :: t in ts ==> Printable(t)
    ensures Join(ts) != "" && !K.IsSpace(Join(ts)[|Join(ts)| - 1])
  {
    LexToken(ts[0], "");
    hide Text;
    hide Printable;
    hide Lex;
    if |ts| > 1 { JoinEnds(ts[1..]); }
  }

  lemma TokenizeJoin(ts: seq<Token>)
    requires forall t :: t in ts ==> Printable(t)
    ensures Tokenize(Join(ts)) == Some(ts)
  {
    if ts != [] {
      JoinEnds(ts);
      LexTail(ts, "");
      assert "" + Join(ts) == Join(ts);
    }
  }
}
