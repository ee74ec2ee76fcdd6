/**
  The parser of `scripts/sigma/eql_eval.py` accepts nothing but the documented grammar: whatever tokens it
  accepts are those of a query, and it builds that query's tree.
*/
module EqlGrammar {
  import opened Wrappers
  import opened EqlLexer
  import opened EqlCompiling
  import opened EqlPrinting

  // ----- literals

  lemma LiteralDerived(t: Token) returns (l: Literal)
    requires LiteralOf(t).Some?
    ensures LiteralToken(l) == t && ValueOf(l) == LiteralOf(t).value
  {
    match t
    case Str(value) => l := Quoted(value);
    case Number(lexeme) => l := Numeral(lexeme);
    case Keyword(word) => l := if word == "null" then NullWord else if word == "true" then TrueWord else FalseWord;
    case _ => assert false;
  }

  lemma {:induction false} ListExtended(ls: seq<Literal>, l: Literal)
    requires ls != []
    ensures ListTokens(ls + [l]) == ListTokens(ls) + [COMMA, LiteralToken(l)]
    ensures Values(ls + [l]) == Values(ls) + [ValueOf(l)]
  {
    hide LiteralToken;
    hide ValueOf;
    var longer := ls + [l];
    if |ls| == 1 {
      assert longer[1..] == [l] && [l][1..] == [];
      assert ls == [ls[0]] && ls[1..] == [];
    } else {
      ListExtended(ls[1..], l);
      assert longer[1..] == ls[1..] + [l];
    }
  }

  lemma {:induction false} MoreLiteralsDerived(found: Literals, ts: seq<Token>) returns (all: Literals)
    requires ParseMoreLiterals(Values(found), ts).Some?
    ensures var r := ParseMoreLiterals(Values(found), ts).value;
            ListTokens(all) + r.rest == ListTokens(found) + ts && Values(all) == r.value
    decreases |ts|
  {
    hide LiteralOf;
    hide ListTokens;
    hide Values;
    if !Next(ts, COMMA) {
      all := found;
    } else {
      var l := LiteralDerived(ts[1]);
      var rest := ts[2..];
      ListExtended(found, l);
      assert ts[1..][1..] == rest && ts == [COMMA, ts[1]] + rest;
      all := MoreLiteralsDerived(found + [l], rest);
      assert ListTokens(found) + ts == ListTokens(found + [l]) + rest;
    }
  }

  lemma LiteralsDerived(ts: seq<Token>) returns (ls: Literals, listed: bool)
    requires ParseLiterals(ts).Some?
    ensures var r := ParseLiterals(ts).value; LiteralTokens(ls, listed) + r.rest == ts && Values(ls) == r.value
  {
    hide LiteralOf;
    hide ParseMoreLiterals;
    listed := Next(ts, LPAREN);
    var k := if listed then 1 else 0;
    var first := LiteralDerived(ts[k]);
    OneValue(first);
    ls := [first];
    if listed {
      assert ts[1..][1..] == ts[2..];
      ls := MoreLiteralsDerived([first], ts[2..]);
      var rest := ParseMoreLiterals([ValueOf(first)], ts[2..]).value.rest;
      assert rest == [RPAREN] + rest[1..];
      assert ListTokens([first]) == [ts[1]];
      assert ts == [LPAREN] + (ListTokens([first]) + ts[2..]);
      hide ListTokens;
      assert [LPAREN] + ListTokens(ls) + [RPAREN] + rest[1..] == [LPAREN] + (ListTokens(ls) + rest);
    } else {
      assert ts == [ts[0]] + ts[1..];
    }
  }

  // ----- the levels of the grammar

  lemma Regrouped(before: seq<Token>, t: Token, after: seq<Token>, rest: seq<Token>)
    ensures before + ([t] + (after + rest)) == before + [t] + after + rest
  {
  }

  lemma {:induction false} OrDerived(ts: seq<Token>) returns (d: Disj)
    requires ParseOr(ts).Some?
    ensures var r := ParseOr(ts).value; DisjTokens(d) + r.rest == ts && DisjTree(d) == r.value
    decreases |ts|, 4
  {
    var first := AndDerived(ts);
    d := MoreOrDerived(One(first), ParseAnd(ts).value.rest);
    hide ParseAnd;
    hide ParseMoreOr;
  }

  lemma {:induction false} MoreOrDerived(left: Disj, ts: seq<Token>) returns (d: Disj)
    requires ParseMoreOr(DisjTree(left), ts).Some?
    ensures var r := ParseMoreOr(DisjTree(left), ts).value;
            DisjTokens(d) + r.rest == DisjTokens(left) + ts && DisjTree(d) == r.value
    decreases |ts|, 3
  {
    hide ParseAnd;
    if !Next(ts, OR) {
      d := left;
    } else {
      var right := AndDerived(ts[1..]);
      var rest := ParseAnd(ts[1..]).value.rest;
      d := MoreOrDerived(OrElse(left, right), rest);
      assert ts == [OR] + (ConjTokens(right) + rest);
      Regrouped(DisjTokens(left), OR, ConjTokens(right), rest);
    }
  }

  lemma {:induction false} AndDerived(ts: seq<Token>) returns (c: Conj)
    requires ParseAnd(ts).Some?
    ensures var r := ParseAnd(ts).value; ConjTokens(c) + r.rest == ts && ConjTree(c) == r.value
    decreases |ts|, 2
  {
    var first := NotDerived(ts);
    c := MoreAndDerived(Single(first), ParseNot(ts).value.rest);
    hide ParseNot;
    hide ParseMoreAnd;
  }

  lemma {:induction false} MoreAndDerived(before: Conj, ts: seq<Token>) returns (c: Conj)
    requires ParseMoreAnd(ConjTree(before), ts).Some?
    ensures var r := ParseMoreAnd(ConjTree(before), ts).value;
            ConjTokens(c) + r.rest == ConjTokens(before) + ts && ConjTree(c) == r.value
    decreases |ts|, 1
  {
    hide ParseNot;
    if !Next(ts, AND) {
      c := before;
    } else {
      var after := NotDerived(ts[1..]);
      var rest := ParseNot(ts[1..]).value.rest;
      c := MoreAndDerived(AndAlso(before, after), rest);
      assert ts == [AND] + (NegTokens(after) + rest);
      Regrouped(ConjTokens(before), AND, NegTokens(after), rest);
    }
  }

  lemma {:induction false} NotDerived(ts: seq<Token>) returns (n: Neg)
    requires ParseNot(ts).Some?
    ensures var r := ParseNot(ts).value; NegTokens(n) + r.rest == ts && NegTree(n) == r.value
    decreases |ts|, 1
  {
    hide ParseAtom;
    if Next(ts, Keyword("not")) || Next(ts, Op("!")) {
      var inner := NotDerived(ts[1..]);
      n := Negated(inner, ts[0] == Op("!"));
      assert ts == [ts[0]] + ts[1..];
    } else {
      var atom := AtomDerived(ts);
      n := Plain(atom);
    }
  }

  lemma {:induction false} AtomDerived(ts: seq<Token>) returns (a: Atom)
    requires ParseAtom(ts).Some?
    ensures var r := ParseAtom(ts).value; AtomTokens(a) + r.rest == ts && AtomTree(a) == r.value
    decreases |ts|, 0
  {
    hide ParseOr;
    hide ParseLiterals;
    if Next(ts, LPAREN) {
      var body := OrDerived(ts[1..]);
      a := Group(body);
      var rest := ParseOr(ts[1..]).value.rest;
      assert rest == [RPAREN] + rest[1..];
      assert ts == [LPAREN] + (DisjTokens(body) + rest);
    } else {
      a := CondDerived(ts);
    }
  }

  lemma CondDerived(ts: seq<Token>) returns (a: Atom)
    requires ParseAtom(ts).Some? && !Next(ts, LPAREN)
    ensures var r := ParseAtom(ts).value; AtomTokens(a) + r.rest == ts && AtomTree(a) == r.value
  {
    hide ParseLiterals;
    hide LiteralTokens;
    var ls, listed := LiteralsDerived(ts[2..]);
    var op := OperatorOf(ts[1]).value;
    OperatorDerived(ts[1]);
    hide OperatorOf;
    hide OperatorToken;
    a := Cond(ts[0].name, op, ls, listed);
    assert ts == [ts[0], ts[1]] + ts[2..];
  }

  lemma OperatorDerived(t: Token)
    requires OperatorOf(t).Some?
    ensures OperatorToken(OperatorOf(t).value) == t
  {
  }

  // ----- exactly the grammar

  /** A list of tokens parses to a tree if and only if it is the tokens of a query with that tree. */
  lemma ParsesIff(ts: seq<Token>, t: Tree)
    ensures Parse(ts) == Some(t) <==> exists d :: QueryTokens(d) == ts && DisjTree(d) == t
  {
    hide ParseOr;
    if Parse(ts) == Some(t) {
      var d := OrDerived(ts[2..]);
      assert DisjTokens(d) + [] == DisjTokens(d) && ts == ts[..2] + ts[2..] && ts[..2] == [Keyword("any"), Keyword("where")];
      assert QueryTokens(d) == ts;
    }
    if d :| QueryTokens(d) == ts && DisjTree(d) == t {
      ParseDisjTokens(d, []);
      assert DisjTokens(d) + [] == DisjTokens(d) && QueryTokens(d)[2..] == DisjTokens(d);
    }
  }

  /** The grammar is unambiguous: queries of the same tokens have the same tree, so the same meaning. */
  lemma SameTokensSameTree(d: Disj, e: Disj)
    requires DisjTokens(d) == DisjTokens(e)
    ensures DisjTree(d) == DisjTree(e)
  {
    hide ParseOr;
    ParseDisjTokens(d, []);
    ParseDisjTokens(e, []);
  }
}
