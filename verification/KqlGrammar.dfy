/**
  `KqlParser` accepts nothing but its grammar: whatever tokens it accepts are those of a query, up to how
  and, or and not are spelled, and it builds that query's tree.
*/
module KqlGrammar {
  import opened Wrappers
  import opened KqlLexer
  import opened KqlParsing
  import opened KqlPrinting

  // ----- the parser reads kinds, and the values of scalars only

  function Canonical(t: Token): Token {
    match t.kind
    case LParen => LPAREN
    case RParen => RPAREN
    case Colon => COLON
    case AndWord => AND
    case OrWord => OR
    case NotWord => NOT
    case _ => t
  }

  function Canonicals(ts: seq<Token>): seq<Token> { seq(|ts|, i requires 0 <= i < |ts| => Canonical(ts[i])) }

  function Respelled<T>(r: Option<Parsed<T>>): Option<Parsed<T>> {
    if r.None? then None else Some(Parsed(r.value.value, Canonicals(r.value.rest)))
  }

  lemma Spelled(ts: seq<Token>, kind: Kind)
    ensures Peek(Canonicals(ts), kind) == Peek(ts, kind)
    ensures ts != [] ==> Canonicals(ts)[1..] == Canonicals(ts[1..])
    ensures |ts| >= 2 ==> Canonicals(ts)[2..] == Canonicals(ts[2..])
  {
  }

  lemma ScalarAlike(ts: seq<Token>)
    ensures ParseScalar(Canonicals(ts)) == Respelled(ParseScalar(ts))
  {
    Spelled(ts, Bare);
    Spelled(ts, StringLiteral);
  }

  lemma {:induction false} MoreScalarsAlike(found: seq<string>, ts: seq<Token>)
    ensures ParseMoreScalars(found, Canonicals(ts)) == Respelled(ParseMoreScalars(found, ts))
    decreases |ts|
  {
    Spelled(ts, OrWord);
    if Peek(ts, OrWord) {
      ScalarAlike(ts[1..]);
      var next := ParseScalar(ts[1..]);
      if next.Some? { MoreScalarsAlike(found + [next.value.value], next.value.rest); }
    }
    hide ParseScalar;
    hide Canonicals;
    hide Peek;
  }

  lemma ValuesAlike(ts: seq<Token>)
    ensures ParseValues(Canonicals(ts)) == Respelled(ParseValues(ts))
  {
    Spelled(ts, LParen);
    ScalarAlike(ts);
    if Peek(ts, LParen) {
      ScalarAlike(ts[1..]);
      var first := ParseScalar(ts[1..]);
      if first.Some? {
        MoreScalarsAlike([first.value.value], first.value.rest);
        var all := ParseMoreScalars([first.value.value], first.value.rest);
        if all.Some? { Spelled(all.value.rest, RParen); }
      }
    }
    hide ParseScalar;
    hide ParseMoreScalars;
    hide Canonicals;
  }

  lemma {:induction false} OrAlike(ts: seq<Token>)
    ensures ParseOr(Canonicals(ts)) == Respelled(ParseOr(ts))
    decreases |ts|, 4
  {
    AndAlike(ts);
    var first := ParseAnd(ts);
    if first.Some? { MoreOrAlike(first.value.value, first.value.rest); }
    hide ParseAnd;
    hide ParseMoreOr;
    hide Canonicals;
  }

  lemma {:induction false} MoreOrAlike(node: Tree, ts: seq<Token>)
    ensures ParseMoreOr(node, Canonicals(ts)) == Respelled(ParseMoreOr(node, ts))
    decreases |ts|, 3
  {
    Spelled(ts, OrWord);
    if Peek(ts, OrWord) {
      AndAlike(ts[1..]);
      var next := ParseAnd(ts[1..]);
      if next.Some? { MoreOrAlike(Or(node, next.value.value), next.value.rest); }
    }
    hide ParseAnd;
    hide Canonicals;
  }

  lemma {:induction false} AndAlike(ts: seq<Token>)
    ensures ParseAnd(Canonicals(ts)) == Respelled(ParseAnd(ts))
    decreases |ts|, 2
  {
    UnaryAlike(ts);
    var first := ParseUnary(ts);
    if first.Some? { MoreAndAlike(first.value.value, first.value.rest); }
    hide ParseUnary;
    hide ParseMoreAnd;
    hide Canonicals;
  }

  lemma {:induction false} MoreAndAlike(node: Tree, ts: seq<Token>)
    ensures ParseMoreAnd(node, Canonicals(ts)) == Respelled(ParseMoreAnd(node, ts))
    decreases |ts|, 1
  {
    Spelled(ts, AndWord);
    if Peek(ts, AndWord) {
      UnaryAlike(ts[1..]);
      var next := ParseUnary(ts[1..]);
      if next.Some? { MoreAndAlike(And(node, next.value.value), next.value.rest); }
    }
    hide ParseUnary;
    hide Canonicals;
  }

  lemma {:induction false} UnaryAlike(ts: seq<Token>)
    ensures ParseUnary(Canonicals(ts)) == Respelled(ParseUnary(ts))
    decreases |ts|, 1
  {
    Spelled(ts, NotWord);
    if Peek(ts, NotWord) { UnaryAlike(ts[1..]); } else { PrimaryAlike(ts); }
    hide ParsePrimary;
    hide Canonicals;
  }

  lemma {:induction false} PrimaryAlike(ts: seq<Token>)
    ensures ParsePrimary(Canonicals(ts)) == Respelled(ParsePrimary(ts))
    decreases |ts|, 0
  {
    hide ParseOr;
    hide ParseValues;
    Spelled(ts, LParen);
    if Peek(ts, LParen) {
      OrAlike(ts[1..]);
      var inner := ParseOr(ts[1..]);
      if inner.Some? { Spelled(inner.value.rest, RParen); }
      hide Canonicals;
    } else {
      Spelled(ts, Bare);
      if Peek(ts, Bare) {
        assert Canonicals(ts)[0] == ts[0];
        Spelled(ts[1..], Colon);
        if Peek(ts[1..], Colon) { ValuesAlike(ts[2..]); }
      }
      hide Canonicals;
    }
  }

  // ----- what is accepted is derived

  /** Every word and mark is spelled the one way. */
  predicate IsCanonical(ts: seq<Token>) { forall t :: t in ts ==> Canonical(t) == t }

  lemma CanonicalHead(ts: seq<Token>)
    requires IsCanonical(ts) && ts != []
    ensures ts == [ts[0]] + ts[1..] && Canonical(ts[0]) == ts[0] && IsCanonical(ts[1..])
  {
    hide Canonical;
    assert ts[0] in ts;
  }

  lemma CanonicalPair(ts: seq<Token>)
    requires IsCanonical(ts) && |ts| >= 2
    ensures ts == [ts[0]] + ([ts[1]] + ts[2..]) && ts[1..][1..] == ts[2..]
    ensures Canonical(ts[0]) == ts[0] && Canonical(ts[1]) == ts[1] && IsCanonical(ts[2..])
  {
    CanonicalHead(ts);
    CanonicalHead(ts[1..]);
    hide IsCanonical;
    hide Canonical;
    assert ts[1..][1..] == ts[2..];
  }

  lemma Regrouped(before: seq<Token>, t: Token, after: seq<Token>, rest: seq<Token>)
    ensures before + ([t] + (after + rest)) == before + [t] + after + rest
  {
  }

  lemma Enclosed(body: seq<Token>, rest: seq<Token>)
    ensures [LPAREN] + (body + ([RPAREN] + rest)) == [LPAREN] + body + [RPAREN] + rest
  {
  }

  lemma ScalarDerived(t: Token) returns (s: Scalar)
    requires t.kind in {StringLiteral, Bare}
    ensures ScalarToken(s) == t && s.value == t.value
  {
    s := if t.kind == StringLiteral then Quoted(t.value) else Unquoted(t.value);
  }

  lemma {:induction false} ListExtended(vs: seq<Scalar>, v: Scalar)
    requires vs != []
    ensures ListTokens(vs + [v]) == ListTokens(vs) + [OR] + [ScalarToken(v)]
    ensures Values(vs + [v]) == Values(vs) + [v.value]
  {
    hide ScalarToken;
    var longer := vs + [v];
    if |vs| == 1 {
      assert longer[1..] == [v] && [v][1..] == [];
      assert vs == [vs[0]] && vs[1..] == [];
    } else {
      ListExtended(vs[1..], v);
      assert longer[1..] == vs[1..] + [v];
    }
  }

  lemma {:induction false} MoreScalarsDerived(found: Scalars, ts: seq<Token>) returns (all: Scalars)
    requires IsCanonical(ts) && ParseMoreScalars(Values(found), ts).Some?
    ensures var r := ParseMoreScalars(Values(found), ts).value;
            && ListTokens(all) + r.rest == ListTokens(found) + ts && Values(all) == r.value && IsCanonical(r.rest)
    decreases |ts|
  {
    hide ListTokens;
    hide Values;
    if !Peek(ts, OrWord) {
      all := found;
    } else {
      var v := ScalarDerived(ts[1]);
      ListExtended(found, v);
      CanonicalPair(ts);
      hide IsCanonical;
      hide ScalarToken;
      all := MoreScalarsDerived(found + [v], ts[2..]);
      Regrouped(ListTokens(found), OR, [ts[1]], ts[2..]);
    }
  }

  lemma OneScalarDerived(ts: seq<Token>) returns (v: Scalar)
    requires IsCanonical(ts) && ParseValues(ts).Some? && !Peek(ts, LParen)
    ensures var r := ParseValues(ts).value;
            ValueTokens([v], false) + r.rest == ts && Values([v]) == r.value && IsCanonical(r.rest)
  {
    v := ScalarDerived(ts[0]);
    OneValue(v);
    CanonicalHead(ts);
    assert ts == [ts[0]] + ts[1..];
  }

  lemma ListDerived(ts: seq<Token>) returns (vs: Scalars)
    requires IsCanonical(ts) && ParseValues(ts).Some? && Peek(ts, LParen)
    ensures var r := ParseValues(ts).value;
            ValueTokens(vs, true) + r.rest == ts && Values(vs) == r.value && IsCanonical(r.rest)
  {
    var first := ScalarDerived(ts[1]);
    OneValue(first);
    CanonicalPair(ts);
    assert ListTokens([first]) == [ts[1]];
    hide IsCanonical;
    hide ListTokens;
    hide Values;
    hide ParseMoreScalars;
    vs := MoreScalarsDerived([first], ts[2..]);
    var rest := ParseMoreScalars([first.value], ts[2..]).value.rest;
    CanonicalHead(rest);
    Enclosed(ListTokens(vs), rest[1..]);
  }

  lemma {:induction false} OrDerived(ts: seq<Token>) returns (d: Disj)
    requires IsCanonical(ts) && ParseOr(ts).Some?
    ensures var r := ParseOr(ts).value; DisjTokens(d) + r.rest == ts && DisjTree(d) == r.value && IsCanonical(r.rest)
    decreases |ts|, 4
  {
    var first := AndDerived(ts);
    d := MoreOrDerived(One(first), ParseAnd(ts).value.rest);
    hide ParseAnd;
    hide ParseMoreOr;
    hide IsCanonical;
  }

  lemma {:induction false} MoreOrDerived(left: Disj, ts: seq<Token>) returns (d: Disj)
    requires IsCanonical(ts) && ParseMoreOr(DisjTree(left), ts).Some?
    ensures var r := ParseMoreOr(DisjTree(left), ts).value;
            DisjTokens(d) + r.rest == DisjTokens(left) + ts && DisjTree(d) == r.value && IsCanonical(r.rest)
    decreases |ts|, 3
  {
    hide ParseAnd;
    if !Peek(ts, OrWord) {
      d := left;
    } else {
      CanonicalHead(ts);
      hide IsCanonical;
      var right := AndDerived(ts[1..]);
      var rest := ParseAnd(ts[1..]).value.rest;
      d := MoreOrDerived(OrElse(left, right), rest);
      Regrouped(DisjTokens(left), OR, ConjTokens(right), rest);
    }
  }

  lemma {:induction false} AndDerived(ts: seq<Token>) returns (c: Conj)
    requires IsCanonical(ts) && ParseAnd(ts).Some?
    ensures var r := ParseAnd(ts).value; ConjTokens(c) + r.rest == ts && ConjTree(c) == r.value && IsCanonical(r.rest)
    decreases |ts|, 2
  {
    var first := UnaryDerived(ts);
    c := MoreAndDerived(Single(first), ParseUnary(ts).value.rest);
    hide ParseUnary;
    hide ParseMoreAnd;
    hide IsCanonical;
  }

  lemma {:induction false} MoreAndDerived(before: Conj, ts: seq<Token>) returns (c: Conj)
    requires IsCanonical(ts) && ParseMoreAnd(ConjTree(before), ts).Some?
    ensures var r := ParseMoreAnd(ConjTree(before), ts).value;
            ConjTokens(c) + r.rest == ConjTokens(before) + ts && ConjTree(c) == r.value && IsCanonical(r.rest)
    decreases |ts|, 1
  {
    hide ParseUnary;
    if !Peek(ts, AndWord) {
      c := before;
    } else {
      CanonicalHead(ts);
      hide IsCanonical;
      var after := UnaryDerived(ts[1..]);
      var rest := ParseUnary(ts[1..]).value.rest;
      c := MoreAndDerived(AndAlso(before, after), rest);
      Regrouped(ConjTokens(before), AND, NegTokens(after), rest);
    }
  }

  lemma {:induction false} UnaryDerived(ts: seq<Token>) returns (n: Neg)
    requires IsCanonical(ts) && ParseUnary(ts).Some?
    ensures var r := ParseUnary(ts).value; NegTokens(n) + r.rest == ts && NegTree(n) == r.value && IsCanonical(r.rest)
    decreases |ts|, 1
  {
    hide ParsePrimary;
    if Peek(ts, NotWord) {
      CanonicalHead(ts);
      hide IsCanonical;
      var inner := UnaryDerived(ts[1..]);
      n := Negated(inner);
    } else {
      hide IsCanonical;
      var atom := PrimaryDerived(ts);
      n := Plain(atom);
    }
  }

  lemma {:induction false} PrimaryDerived(ts: seq<Token>) returns (a: Atom)
    requires IsCanonical(ts) && ParsePrimary(ts).Some?
    ensures var r := ParsePrimary(ts).value; AtomTokens(a) + r.rest == ts && AtomTree(a) == r.value && IsCanonical(r.rest)
    decreases |ts|, 0
  {
    hide ParseOr;
    hide ParseValues;
    if Peek(ts, LParen) {
      CanonicalHead(ts);
      hide IsCanonical;
      var body := OrDerived(ts[1..]);
      a := Group(body);
      var rest := ParseOr(ts[1..]).value.rest;
      CanonicalHead(rest);
      Enclosed(DisjTokens(body), rest[1..]);
    } else {
      a := CondDerived(ts);
    }
  }

  lemma ValuesDerived(ts: seq<Token>) returns (vs: Scalars, listed: bool)
    requires IsCanonical(ts) && ParseValues(ts).Some?
    ensures var r := ParseValues(ts).value;
            ValueTokens(vs, listed) + r.rest == ts && Values(vs) == r.value && IsCanonical(r.rest)
  {
    listed := Peek(ts, LParen);
    if listed {
      vs := ListDerived(ts);
    } else {
      var only := OneScalarDerived(ts);
      vs := [only];
    }
  }

  lemma CondDerived(ts: seq<Token>) returns (a: Atom)
    requires IsCanonical(ts) && ParsePrimary(ts).Some? && !Peek(ts, LParen)
    ensures var r := ParsePrimary(ts).value; AtomTokens(a) + r.rest == ts && AtomTree(a) == r.value && IsCanonical(r.rest)
  {
    CanonicalPair(ts);
    hide IsCanonical;
    hide ParseValues;
    hide ValueTokens;
    hide Values;
    var values, listed := ValuesDerived(ts[2..]);
    a := Cond(ts[0].value, values, listed);
    var body, rest := ValueTokens(values, listed), ParseValues(ts[2..]).value.rest;
    assert [ts[0]] + ([ts[1]] + (body + rest)) == [ts[0], ts[1]] + body + rest;
  }

  // ----- exactly the grammar

  /**
    A list of tokens parses to a tree if and only if, with its words and marks spelled the one way, it is
    the tokens of a query with that tree.
  */
  lemma ParsesIff(ts: seq<Token>, t: Tree)
    ensures Parse(ts) == Some(t) <==> exists d :: DisjTokens(d) == Canonicals(ts) && DisjTree(d) == t
  {
    hide ParseOr;
    OrAlike(ts);
    if Parse(ts) == Some(t) {
      forall t | t in Canonicals(ts) ensures Canonical(t) == t {}
      var d := OrDerived(Canonicals(ts));
      assert DisjTokens(d) + [] == DisjTokens(d);
    }
    if d :| DisjTokens(d) == Canonicals(ts) && DisjTree(d) == t {
      ParseDisjTokens(d, []);
      assert DisjTokens(d) + [] == DisjTokens(d);
    }
  }

  /** The grammar is unambiguous: queries of the same tokens have the same tree. */
  lemma SameTokensSameTree(d: Disj, e: Disj)
    requires DisjTokens(d) == DisjTokens(e)
    ensures DisjTree(d) == DisjTree(e)
  {
    hide ParseOr;
    ParseDisjTokens(d, []);
    ParseDisjTokens(e, []);
  }
}
