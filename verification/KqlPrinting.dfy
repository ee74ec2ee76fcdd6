/**
  Queries as the grammar writes them, their text, and the proof that tokenizer and parser read the
  text back: with exactly the parentheses the grammar needs, or with any redundant ones.
*/
module KqlPrinting {
  import opened Wrappers
  import opened KqlLexer
  import opened KqlParsing

  // or_expr := and_expr ("or" and_expr)*, and so on down
  datatype Disj = One(first: Conj) | OrElse(left: Disj, right: Conj)
  datatype Conj = Single(only: Neg) | AndAlso(before: Conj, after: Neg)
  datatype Neg = Negated(inner: Neg) | Plain(atom: Atom)
  datatype Atom = Group(body: Disj) | Cond(field: string, values: Scalars, listed: bool)

  /** A value may be written quoted or, if it is a bare word, as it is. */
  datatype Scalar = Quoted(value: string) | Unquoted(value: string)

  /** Every condition has a value. */
  type Scalars = vs: seq<Scalar> | vs != [] witness [Quoted("")]

  // ----- what it means

  function DisjTree(d: Disj): Tree {
    match d case One(first) => ConjTree(first) case OrElse(left, right) => Or(DisjTree(left), ConjTree(right))
  }

  function ConjTree(c: Conj): Tree {
    match c case Single(only) => NegTree(only) case AndAlso(before, after) => And(ConjTree(before), NegTree(after))
  }

  function NegTree(n: Neg): Tree {
    match n case Negated(inner) => Not(NegTree(inner)) case Plain(atom) => AtomTree(atom)
  }

  function AtomTree(a: Atom): Tree {
    match a case Group(body) => DisjTree(body) case Cond(field, values, _) => Condition(field, Values(values))
  }

  function Values(vs: seq<Scalar>): seq<string> { if vs == [] then [] else [vs[0].value] + Values(vs[1..]) }

  // ----- its tokens

  const LPAREN := Token(LParen, "(")
  const RPAREN := Token(RParen, ")")
  const COLON := Token(Colon, ":")
  const OR := Token(OrWord, "or")
  const AND := Token(AndWord, "and")
  const NOT := Token(NotWord, "not")

  function ScalarToken(s: Scalar): Token { Token(if s.Quoted? then StringLiteral else Bare, s.value) }

  function DisjTokens(d: Disj): seq<Token> {
    match d case One(first) => ConjTokens(first) case OrElse(left, right) => DisjTokens(left) + [OR] + ConjTokens(right)
  }

  function ConjTokens(c: Conj): seq<Token> {
    match c case Single(only) => NegTokens(only) case AndAlso(before, after) => ConjTokens(before) + [AND] + NegTokens(after)
  }

  function NegTokens(n: Neg): seq<Token> {
    match n case Negated(inner) => [NOT] + NegTokens(inner) case Plain(atom) => AtomTokens(atom)
  }

  function AtomTokens(a: Atom): seq<Token> {
    match a
    case Group(body) => [LPAREN] + DisjTokens(body) + [RPAREN]
    case Cond(field, values, listed) => [Token(Bare, field), COLON] + ValueTokens(values, listed)
  }

  function ValueTokens(values: seq<Scalar>, listed: bool): seq<Token> {
    if listed || |values| != 1 then [LPAREN] + ListTokens(values) + [RPAREN] else [ScalarToken(values[0])]
  }

  function ListTokens(vs: seq<Scalar>): seq<Token> {
    if vs == [] then [] else if |vs| == 1 then [ScalarToken(vs[0])] else [ScalarToken(vs[0]), OR] + ListTokens(vs[1..])
  }

  /** Fields and unquoted values are words the tokenizer reads as such. */
  predicate DisjOk(d: Disj) { match d case One(first) => ConjOk(first) case OrElse(left, right) => DisjOk(left) && ConjOk(right) }
  predicate ConjOk(c: Conj) { match c case Single(only) => NegOk(only) case AndAlso(before, after) => ConjOk(before) && NegOk(after) }
  predicate NegOk(n: Neg) { match n case Negated(inner) => NegOk(inner) case Plain(atom) => AtomOk(atom) }
  predicate AtomOk(a: Atom) {
    match a
    case Group(body) => DisjOk(body)
    case Cond(field, values, _) => BareWord(field) && forall v :: v in values ==> v.Unquoted? ==> BareWord(v.value)
  }

  // ----- parsing the tokens back

  lemma OneValue(v: Scalar)
    ensures Values([v]) == [v.value]
  {
    assert [v][1..] == [];
  }

  lemma Headed(t: Token, body: seq<Token>, rest: seq<Token>)
    ensures ([t] + body) + rest != [] && (([t] + body) + rest)[0] == t && (([t] + body) + rest)[1..] == body + rest
  {
  }

  lemma ScalarTokenValue(s: Scalar)
    ensures ScalarToken(s).kind in {StringLiteral, Bare} && ScalarToken(s).value == s.value
  {
  }

  lemma {:induction false} ParseListTokens(found: seq<string>, vs: seq<Scalar>, rest: seq<Token>)
    requires vs != [] && !Peek(rest, OrWord)
    ensures var first := ParseScalar(ListTokens(vs) + rest);
            && first.Some? && ParseMoreScalars(found + [first.value.value], first.value.rest) == Some(Parsed(found + Values(vs), rest))
    decreases |vs|
  {
    ScalarTokenValue(vs[0]);
    hide ScalarToken;
    if |vs| == 1 {
      Headed(ScalarToken(vs[0]), [], rest);
      assert [ScalarToken(vs[0])] + [] == ListTokens(vs) && [] + rest == rest;
      OneValue(vs[0]);
      assert vs == [vs[0]];
    } else {
      var tail := ListTokens(vs[1..]);
      Headed(ScalarToken(vs[0]), [OR] + tail, rest);
      Headed(OR, tail, rest);
      assert [ScalarToken(vs[0])] + ([OR] + tail) == ListTokens(vs);
      ParseListTokens(found + [vs[0].value], vs[1..], rest);
      assert found + [vs[0].value] + Values(vs[1..]) == found + Values(vs);
    }
  }

  lemma ParseListedTokens(vs: seq<Scalar>, rest: seq<Token>)
    requires vs != []
    ensures ParseValues([LPAREN] + ListTokens(vs) + [RPAREN] + rest) == Some(Parsed(Values(vs), rest))
  {
    hide ListTokens;
    hide Values;
    hide ParseScalar;
    hide ParseMoreScalars;
    var body, tail := ListTokens(vs), [RPAREN] + rest;
    Headed(LPAREN, body, tail);
    Headed(RPAREN, [], rest);
    assert [LPAREN] + body + [RPAREN] + rest == ([LPAREN] + body) + tail && [RPAREN] + [] == [RPAREN] && [] + rest == rest;
    ParseListTokens([], vs, tail);
    assert forall x: seq<string> :: [] + x == x;
  }

  lemma ParseOneToken(s: Scalar, rest: seq<Token>)
    ensures ParseValues([ScalarToken(s)] + rest) == Some(Parsed(Values([s]), rest))
  {
    ScalarTokenValue(s);
    OneValue(s);
    Headed(ScalarToken(s), [], rest);
    hide ScalarToken;
    hide Values;
    assert [ScalarToken(s)] + [] == [ScalarToken(s)] && [] + rest == rest;
  }

  lemma ParseValueTokens(values: seq<Scalar>, listed: bool, rest: seq<Token>)
    requires values != []
    ensures ParseValues(ValueTokens(values, listed) + rest) == Some(Parsed(Values(values), rest))
  {
    hide ParseValues;
    hide ListTokens;
    hide Values;
    if listed || |values| != 1 {
      ParseListedTokens(values, rest);
    } else {
      ParseOneToken(values[0], rest);
      assert values == [values[0]];
    }
  }

  lemma ParseCondTokens(a: Atom, rest: seq<Token>)
    requires a.Cond?
    ensures ParsePrimary(AtomTokens(a) + rest) == Some(Parsed(AtomTree(a), rest))
  {
    ParseValueTokens(a.values, a.listed, rest);
    hide ParseValues;
    hide ValueTokens;
    hide Values;
    hide ParseOr;
    var name, body := Token(Bare, a.field), ValueTokens(a.values, a.listed);
    Headed(name, [COLON] + body, rest);
    Headed(COLON, body, rest);
    assert [name] + ([COLON] + body) == AtomTokens(a);
    var ts := AtomTokens(a) + rest;
    assert ts[2..] == ts[1..][1..];
  }

  lemma {:induction false} ParseAtomTokens(a: Atom, rest: seq<Token>)
    ensures ParsePrimary(AtomTokens(a) + rest) == Some(Parsed(AtomTree(a), rest))
    decreases a, 0
  {
    match a
    case Group(body) =>
      hide ParseOr;
      hide ParseValues;
      var inner, tail := DisjTokens(body), [RPAREN] + rest;
      ParseDisjTokens(body, tail);
      Headed(LPAREN, inner, tail);
      assert AtomTokens(a) + rest == ([LPAREN] + inner) + tail && tail[1..] == rest;
    case Cond(_, _, _) => ParseCondTokens(a, rest);
  }

  lemma {:induction false} ParseNegTokens(n: Neg, rest: seq<Token>)
    ensures ParseUnary(NegTokens(n) + rest) == Some(Parsed(NegTree(n), rest))
    decreases n, 1
  {
    match n
    case Negated(inner) =>
      assert (NegTokens(n) + rest)[1..] == NegTokens(inner) + rest;
      ParseNegTokens(inner, rest);
    case Plain(atom) =>
      ParseAtomTokens(atom, rest);
      AtomStart(atom);
      assert (NegTokens(n) + rest)[0] == AtomTokens(atom)[0];
  }

  lemma AtomStart(a: Atom)
    ensures AtomTokens(a) != [] && AtomTokens(a)[0].kind in {LParen, Bare}
  {
  }

  /** The loop of `_parse_and` arrives at this tree with the rest still to read. */
  lemma {:induction false} ParseConjTokens(c: Conj, rest: seq<Token>)
    ensures ParseAnd(ConjTokens(c) + rest) == ParseMoreAnd(ConjTree(c), rest)
    decreases c, 2
  {
    match c
    case Single(only) => ParseNegTokens(only, rest);
    case AndAlso(before, after) =>
      var tail := [AND] + (NegTokens(after) + rest);
      ParseConjTokens(before, tail);
      assert ConjTokens(c) + rest == ConjTokens(before) + tail;
      assert tail[1..] == NegTokens(after) + rest;
      ParseNegTokens(after, rest);
  }

  lemma {:induction false} ParseDisjMore(d: Disj, rest: seq<Token>)
    requires !Peek(rest, AndWord)
    ensures ParseOr(DisjTokens(d) + rest) == ParseMoreOr(DisjTree(d), rest)
    decreases d, 3
  {
    match d
    case One(first) => ParseConjTokens(first, rest);
    case OrElse(left, right) =>
      var tail := [OR] + (ConjTokens(right) + rest);
      ParseDisjMore(left, tail);
      assert DisjTokens(d) + rest == DisjTokens(left) + tail;
      assert tail[1..] == ConjTokens(right) + rest;
      ParseConjTokens(right, rest);
  }

  lemma {:induction false} ParseDisjTokens(d: Disj, rest: seq<Token>)
    requires !Peek(rest, AndWord) && !Peek(rest, OrWord)
    ensures ParseOr(DisjTokens(d) + rest) == Some(Parsed(DisjTree(d), rest))
    decreases d, 4
  {
    ParseDisjMore(d, rest);
  }

  // ----- down to the text

  lemma {:induction false} DisjPrintable(d: Disj)
    requires DisjOk(d)
    ensures forall t :: t in DisjTokens(d) ==> Printable(t)
  {
    match d
    case One(first) => ConjPrintable(first);
    case OrElse(left, right) => DisjPrintable(left); ConjPrintable(right);
  }

  lemma {:induction false} ConjPrintable(c: Conj)
    requires ConjOk(c)
    ensures forall t :: t in ConjTokens(c) ==> Printable(t)
  {
    match c
    case Single(only) => NegPrintable(only);
    case AndAlso(before, after) => ConjPrintable(before); NegPrintable(after);
  }

  lemma {:induction false} NegPrintable(n: Neg)
    requires NegOk(n)
    ensures forall t :: t in NegTokens(n) ==> Printable(t)
  {
    match n
    case Negated(inner) => NegPrintable(inner);
    case Plain(atom) => AtomPrintable(atom);
  }

  lemma {:induction false} AtomPrintable(a: Atom)
    requires AtomOk(a)
    ensures forall t :: t in AtomTokens(a) ==> Printable(t)
  {
    match a
    case Group(body) => DisjPrintable(body);
    case Cond(_, values, _) => ListPrintable(values); assert values[0] in values;
  }

  lemma {:induction false} ListPrintable(vs: seq<Scalar>)
    requires forall v :: v in vs ==> v.Unquoted? ==> BareWord(v.value)
    ensures forall t :: t in ListTokens(vs) ==> Printable(t)
  {
    if vs != [] {
      assert vs[0] in vs;
      ListPrintable(vs[1..]);
    }
  }

  function QueryText(d: Disj): string { Join(DisjTokens(d)) }

  /** The text of every query of the grammar is read back as the tree the grammar gives it. */
  lemma TextRoundTrip(d: Disj)
    requires DisjOk(d)
    ensures Tokenize(QueryText(d)) == Some(DisjTokens(d))
    ensures ParseText(QueryText(d)) == Some(DisjTree(d))
  {
    DisjPrintable(d);
    TokenizeJoin(DisjTokens(d));
    ParseDisjTokens(d, []);
    assert DisjTokens(d) + [] == DisjTokens(d);
  }

  // ----- every tree, with parentheses around every operand

  function FullyParenthesised(t: Tree): Disj
    requires TreeOk(t)
  {
    match t
    case Condition(field, values) => Just(Cond(field, Quotes(values), true))
    case Not(operand) => One(Single(Negated(Plain(Group(FullyParenthesised(operand))))))
    case And(left, right) => One(AndAlso(Single(Plain(Group(FullyParenthesised(left)))), Plain(Group(FullyParenthesised(right)))))
    case Or(left, right) => OrElse(Just(Group(FullyParenthesised(left))), Single(Plain(Group(FullyParenthesised(right)))))
  }

  function Just(a: Atom): Disj { One(Single(Plain(a))) }

  function Quotes(values: seq<string>): (vs: seq<Scalar>)
    ensures |vs| == |values|
  {
    if values == [] then [] else [Quoted(values[0])] + Quotes(values[1..])
  }

  /** Trees whose fields are bare words and whose conditions have a value; the values are free. */
  predicate TreeOk(t: Tree) {
    match t
    case Condition(field, values) => BareWord(field) && values != []
    case Not(operand) => TreeOk(operand)
    case And(left, right) => TreeOk(left) && TreeOk(right)
    case Or(left, right) => TreeOk(left) && TreeOk(right)
  }

  lemma {:induction false} QuotesValues(values: seq<string>)
    ensures Values(Quotes(values)) == values && forall v :: v in Quotes(values) ==> v.Quoted?
  {
    if values != [] {
      QuotesValues(values[1..]);
      assert Quotes(values)[1..] == Quotes(values[1..]) && values == [values[0]] + values[1..];
    }
  }

  lemma JustMeans(a: Atom)
    ensures DisjOk(Just(a)) == ConjOk(Single(Plain(a))) == NegOk(Plain(a)) == AtomOk(a)
    ensures DisjTree(Just(a)) == ConjTree(Single(Plain(a))) == NegTree(Plain(a)) == AtomTree(a)
  {
    assert NegOk(Plain(a)) == AtomOk(a) && NegTree(Plain(a)) == AtomTree(a);
    assert ConjOk(Single(Plain(a))) == AtomOk(a) && ConjTree(Single(Plain(a))) == AtomTree(a);
  }

  lemma {:induction false} ParenthesisedTree(t: Tree)
    requires TreeOk(t)
    ensures DisjOk(FullyParenthesised(t)) && DisjTree(FullyParenthesised(t)) == t
  {
    match t
    case Condition(field, values) =>
      QuotesValues(values);
      JustMeans(Cond(field, Quotes(values), true));
    case Not(operand) =>
      var inner := Group(FullyParenthesised(operand));
      ParenthesisedTree(operand);
      JustMeans(inner);
      assert NegOk(Negated(Plain(inner))) && NegTree(Negated(Plain(inner))) == t;
      assert ConjOk(Single(Negated(Plain(inner)))) && ConjTree(Single(Negated(Plain(inner)))) == t;
    case And(left, right) =>
      var l, r := Group(FullyParenthesised(left)), Group(FullyParenthesised(right));
      ParenthesisedTree(left);
      ParenthesisedTree(right);
      JustMeans(l);
      JustMeans(r);
      assert ConjOk(AndAlso(Single(Plain(l)), Plain(r))) && ConjTree(AndAlso(Single(Plain(l)), Plain(r))) == t;
    case Or(left, right) =>
      var l, r := Group(FullyParenthesised(left)), Group(FullyParenthesised(right));
      ParenthesisedTree(left);
      ParenthesisedTree(right);
      JustMeans(l);
      JustMeans(r);
  }

  /** Every tree, printed with parentheses, is read back as itself. */
  lemma TreeRoundTrip(t: Tree)
    requires TreeOk(t)
    ensures ParseText(QueryText(FullyParenthesised(t))) == Some(t)
  {
    ParenthesisedTree(t);
    TextRoundTrip(FullyParenthesised(t));
  }
}
