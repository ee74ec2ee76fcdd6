/**
  The documented EQL grammar as data: its text, its direct meaning, and the proof that compiling the
  text gives a predicate with that meaning and the fields it mentions.
*/
module EqlPrinting {
  import opened Wrappers
  import opened Wildcards
  import opened EqlLexer
  import opened EqlCompiling

  // or_expr := and_expr ("or" and_expr)* and so on; `bang` chooses "!" over "not"
  datatype Disj = One(first: Conj) | OrElse(left: Disj, right: Conj)
  datatype Conj = Single(only: Neg) | AndAlso(before: Conj, after: Neg)
  datatype Neg = Negated(inner: Neg, bang: bool) | Plain(atom: Atom)
  datatype Atom = Group(body: Disj) | Cond(field: string, op: Operator, literals: Literals, listed: bool)

  datatype Literal = Quoted(value: string) | Numeral(lexeme: string) | NullWord | TrueWord | FalseWord

  /** A list has at least one literal. */
  type Literals = ls: seq<Literal> | ls != [] witness [NullWord]

  // ----- direct meaning

  function ValueOf(l: Literal): Value {
    match l
    case Quoted(value) => Value.Str(value)
    case Numeral(lexeme) => NumberValue(lexeme)
    case NullWord => Null
    case TrueWord => Bool(true)
    case FalseWord => Bool(false)
  }

  function Values(ls: seq<Literal>): seq<Value> { if ls == [] then [] else [ValueOf(ls[0])] + Values(ls[1..]) }

  /** One value of the event against one literal, operator by operator. */
  predicate Matches(lib: Library, op: Operator, v: Value, l: Literal) {
    match op
    case Colon => l.Quoted? && Glob(lib.sameIgnoringCase, l.value, lib.show(v))
    case LikeTilde => l.Quoted? && Glob(lib.sameIgnoringCase, l.value, lib.show(v))
    case Like => l.Quoted? && Glob((c: char, d: char) => c == d, l.value, lib.show(v))
    case InTilde => lib.lower(lib.show(v)) == lib.lower(lib.show(ValueOf(l)))
    case _ => Equal(v, ValueOf(l))
  }

  /** Some value matches some literal; != is its negation for equality; null asks for absence. */
  predicate CondMeans(lib: Library, field: string, op: Operator, literals: seq<Literal>, event: Value) {
    var values := ValuesAt(event, field);
    if op == Ne then !exists v, l :: v in values && l in literals && Matches(lib, Eq, v, l)
    else if NullWord in literals then values == []
    else exists v, l :: v in values && l in literals && Matches(lib, op, v, l)
  }

  predicate DisjMeans(lib: Library, d: Disj, event: Value) {
    match d
    case One(first) => ConjMeans(lib, first, event)
    case OrElse(left, right) => DisjMeans(lib, left, event) || ConjMeans(lib, right, event)
  }

  predicate ConjMeans(lib: Library, c: Conj, event: Value) {
    match c
    case Single(only) => NegMeans(lib, only, event)
    case AndAlso(before, after) => ConjMeans(lib, before, event) && NegMeans(lib, after, event)
  }

  predicate NegMeans(lib: Library, n: Neg, event: Value) {
    match n case Negated(inner, _) => !NegMeans(lib, inner, event) case Plain(atom) => AtomMeans(lib, atom, event)
  }

  predicate AtomMeans(lib: Library, a: Atom, event: Value) {
    match a
    case Group(body) => DisjMeans(lib, body, event)
    case Cond(field, op, literals, _) => CondMeans(lib, field, op, literals, event)
  }

  function DisjFields(d: Disj): set<string> {
    match d case One(first) => ConjFields(first) case OrElse(left, right) => DisjFields(left) + ConjFields(right)
  }

  function ConjFields(c: Conj): set<string> {
    match c case Single(only) => NegFields(only) case AndAlso(before, after) => ConjFields(before) + NegFields(after)
  }

  function NegFields(n: Neg): set<string> {
    match n case Negated(inner, _) => NegFields(inner) case Plain(atom) => AtomFields(atom)
  }

  function AtomFields(a: Atom): set<string> {
    match a case Group(body) => DisjFields(body) case Cond(field, _, _, _) => {field}
  }

  // ----- tokens

  function LiteralToken(l: Literal): Token {
    match l
    case Quoted(value) => Token.Str(value)
    case Numeral(lexeme) => Number(lexeme)
    case NullWord => Keyword("null")
    case TrueWord => Keyword("true")
    case FalseWord => Keyword("false")
  }

  function OperatorToken(op: Operator): Token {
    match op
    case Colon => Op(":")
    case LikeTilde => Op("like~")
    case Like => Keyword("like")
    case Eq => Op("==")
    case Ne => Op("!=")
    case InTilde => Op("in~")
    case In => Keyword("in")
  }

  function DisjTokens(d: Disj): seq<Token> {
    match d case One(first) => ConjTokens(first) case OrElse(left, right) => DisjTokens(left) + [OR] + ConjTokens(right)
  }

  function ConjTokens(c: Conj): seq<Token> {
    match c case Single(only) => NegTokens(only) case AndAlso(before, after) => ConjTokens(before) + [AND] + NegTokens(after)
  }

  function NegTokens(n: Neg): seq<Token> {
    match n
    case Negated(inner, bang) => [if bang then Op("!") else Keyword("not")] + NegTokens(inner)
    case Plain(atom) => AtomTokens(atom)
  }

  function AtomTokens(a: Atom): seq<Token> {
    match a
    case Group(body) => [LPAREN] + DisjTokens(body) + [RPAREN]
    case Cond(field, op, literals, listed) => [Field(field), OperatorToken(op)] + LiteralTokens(literals, listed)
  }

  function LiteralTokens(ls: seq<Literal>, listed: bool): seq<Token> {
    if listed || |ls| != 1 then [LPAREN] + ListTokens(ls) + [RPAREN] else [LiteralToken(ls[0])]
  }

  function ListTokens(ls: seq<Literal>): seq<Token> {
    if ls == [] then [] else if |ls| == 1 then [LiteralToken(ls[0])] else [LiteralToken(ls[0]), COMMA] + ListTokens(ls[1..])
  }

  // ----- well-formed queries: field names and numbers are lexemes, wildcard operators take strings

  predicate DisjOk(d: Disj) { match d case One(first) => ConjOk(first) case OrElse(left, right) => DisjOk(left) && ConjOk(right) }
  predicate ConjOk(c: Conj) { match c case Single(only) => NegOk(only) case AndAlso(before, after) => ConjOk(before) && NegOk(after) }
  predicate NegOk(n: Neg) { match n case Negated(inner, _) => NegOk(inner) case Plain(atom) => AtomOk(atom) }
  predicate AtomOk(a: Atom) {
    match a
    case Group(body) => DisjOk(body)
    case Cond(field, op, literals, _) =>
      && FieldName(field)
      && (forall l :: l in literals && l.Numeral? ==> NumberLexeme(l.lexeme))
      && (IsWildcard(op) ==> forall l :: l in literals ==> l.Quoted?)
  }

  // ----- parsing the tokens back to the tree

  function DisjTree(d: Disj): Tree {
    match d case One(first) => ConjTree(first) case OrElse(left, right) => Or(DisjTree(left), ConjTree(right))
  }

  function ConjTree(c: Conj): Tree {
    match c case Single(only) => NegTree(only) case AndAlso(before, after) => And(ConjTree(before), NegTree(after))
  }

  function NegTree(n: Neg): Tree {
    match n case Negated(inner, _) => Not(NegTree(inner)) case Plain(atom) => AtomTree(atom)
  }

  function AtomTree(a: Atom): Tree {
    match a case Group(body) => DisjTree(body) case Cond(field, op, literals, _) => Comparison(field, op, Values(literals))
  }

  lemma OneValue(l: Literal)
    ensures Values([l]) == [ValueOf(l)]
  {
    assert [l][1..] == [];
  }

  lemma LiteralTokenValue(l: Literal)
    ensures LiteralOf(LiteralToken(l)) == Some(ValueOf(l))
    ensures LiteralToken(l) != LPAREN && LiteralToken(l) != COMMA
  {
  }

  lemma Headed(t: Token, body: seq<Token>, rest: seq<Token>)
    ensures ([t] + body) + rest != [] && (([t] + body) + rest)[0] == t && (([t] + body) + rest)[1..] == body + rest
  {
  }

  lemma LiteralRead(l: Literal, body: seq<Token>, rest: seq<Token>)
    ensures ParseLiteral(([LiteralToken(l)] + body) + rest) == Some(Parsed(ValueOf(l), body + rest))
  {
    LiteralTokenValue(l);
    Headed(LiteralToken(l), body, rest);
    hide LiteralOf;
    hide LiteralToken;
    hide ValueOf;
  }

  lemma {:induction false} ParseListTokens(found: seq<Value>, ls: seq<Literal>, rest: seq<Token>)
    requires ls != [] && !Next(rest, COMMA)
    ensures var first := ParseLiteral(ListTokens(ls) + rest);
            && first.Some? && ParseMoreLiterals(found + [first.value.value], first.value.rest) == Some(Parsed(found + Values(ls), rest))
    decreases |ls|
  {
    hide ParseLiteral;
    hide LiteralToken;
    hide ValueOf;
    if |ls| == 1 {
      LiteralRead(ls[0], [], rest);
      assert [LiteralToken(ls[0])] + [] == ListTokens(ls) && [] + rest == rest;
      OneValue(ls[0]);
      assert ls == [ls[0]];
    } else {
      var tail := ListTokens(ls[1..]);
      LiteralRead(ls[0], [COMMA] + tail, rest);
      Headed(COMMA, tail, rest);
      assert [LiteralToken(ls[0])] + ([COMMA] + tail) == ListTokens(ls);
      ParseListTokens(found + [ValueOf(ls[0])], ls[1..], rest);
      assert found + [ValueOf(ls[0])] + Values(ls[1..]) == found + Values(ls);
    }
  }

  lemma ParseListedTokens(ls: seq<Literal>, rest: seq<Token>)
    requires ls != []
    ensures ParseLiterals([LPAREN] + ListTokens(ls) + [RPAREN] + rest) == Some(Parsed(Values(ls), rest))
  {
    hide ListTokens;
    hide Values;
    hide ParseLiteral;
    hide ParseMoreLiterals;
    var body, tail := ListTokens(ls), [RPAREN] + rest;
    Headed(LPAREN, body, tail);
    Headed(RPAREN, [], rest);
    assert [LPAREN] + body + [RPAREN] + rest == ([LPAREN] + body) + tail && [RPAREN] + [] == [RPAREN] && [] + rest == rest;
    ParseListTokens([], ls, tail);
    assert forall x: seq<Value> :: [] + x == x;
  }

  lemma ParseOneToken(l: Literal, rest: seq<Token>)
    ensures ParseLiterals([LiteralToken(l)] + rest) == Some(Parsed(Values([l]), rest))
  {
    LiteralTokenValue(l);
    OneValue(l);
    Headed(LiteralToken(l), [], rest);
    hide LiteralOf;
    hide LiteralToken;
    hide ValueOf;
    hide Values;
    assert [LiteralToken(l)] + [] == [LiteralToken(l)] && [] + rest == rest;
  }

  lemma ParseLiteralTokens(ls: seq<Literal>, listed: bool, rest: seq<Token>)
    requires ls != []
    ensures ParseLiterals(LiteralTokens(ls, listed) + rest) == Some(Parsed(Values(ls), rest))
  {
    hide ParseLiterals;
    hide ListTokens;
    hide Values;
    if listed || |ls| != 1 {
      ParseListedTokens(ls, rest);
    } else {
      ParseOneToken(ls[0], rest);
      assert ls == [ls[0]];
    }
  }

  lemma OperatorTokenMeans(op: Operator)
    ensures OperatorOf(OperatorToken(op)) == Some(op)
  {
  }

  lemma ParseCondTokens(a: Atom, rest: seq<Token>)
    requires a.Cond?
    ensures ParseAtom(AtomTokens(a) + rest) == Some(Parsed(AtomTree(a), rest))
  {
    ParseLiteralTokens(a.literals, a.listed, rest);
    OperatorTokenMeans(a.op);
    hide ParseLiterals;
    hide LiteralTokens;
    hide OperatorOf;
    hide OperatorToken;
    hide Values;
    hide ParseOr;
    var body := LiteralTokens(a.literals, a.listed);
    Headed(Field(a.field), [OperatorToken(a.op)] + body, rest);
    Headed(OperatorToken(a.op), body, rest);
    assert [Field(a.field)] + ([OperatorToken(a.op)] + body) == AtomTokens(a);
    var ts := AtomTokens(a) + rest;
    assert ts[1] == ts[1..][0] && ts[2..] == ts[1..][1..];
  }

  lemma {:induction false} ParseAtomTokens(a: Atom, rest: seq<Token>)
    ensures ParseAtom(AtomTokens(a) + rest) == Some(Parsed(AtomTree(a), rest))
    decreases a, 0
  {
    match a
    case Group(body) =>
      hide ParseOr;
      hide ParseLiterals;
      var inner, tail := DisjTokens(body), [RPAREN] + rest;
      ParseDisjTokens(body, tail);
      Headed(LPAREN, inner, tail);
      assert AtomTokens(a) + rest == ([LPAREN] + inner) + tail && tail[1..] == rest;
    case Cond(_, _, _, _) => ParseCondTokens(a, rest);
  }

  lemma {:induction false} ParseNegTokens(n: Neg, rest: seq<Token>)
    ensures ParseNot(NegTokens(n) + rest) == Some(Parsed(NegTree(n), rest))
    decreases n, 1
  {
    match n
    case Negated(inner, _) =>
      assert (NegTokens(n) + rest)[1..] == NegTokens(inner) + rest;
      ParseNegTokens(inner, rest);
    case Plain(atom) =>
      ParseAtomTokens(atom, rest);
      AtomStart(atom);
      assert (NegTokens(n) + rest)[0] == AtomTokens(atom)[0];
  }

  lemma AtomStart(a: Atom)
    ensures AtomTokens(a) != [] && (AtomTokens(a)[0] == LPAREN || AtomTokens(a)[0].Field?)
  {
  }

  lemma {:induction false} ParseConjTokens(c: Conj, rest: seq<Token>)
    ensures ParseAnd(ConjTokens(c) + rest) == ParseMoreAnd(ConjTree(c), rest)
    decreases c, 2
  {
    match c
    case Single(only) => ParseNegTokens(only, rest);
    case AndAlso(before, after) =>
      var tail := [AND] + (NegTokens(after) + rest);
      ParseConjTokens(before, tail);
      assert ConjTokens(c) + rest == ConjTokens(before) + tail;
      assert tail[1..] == NegTokens(after) + rest;
      ParseNegTokens(after, rest);
  }

  lemma {:induction false} ParseDisjMore(d: Disj, rest: seq<Token>)
    requires !Next(rest, AND)
    ensures ParseOr(DisjTokens(d) + rest) == ParseMoreOr(DisjTree(d), rest)
    decreases d, 3
  {
    match d
    case One(first) => ParseConjTokens(first, rest);
    case OrElse(left, right) =>
      var tail := [OR] + (ConjTokens(right) + rest);
      ParseDisjMore(left, tail);
      assert DisjTokens(d) + rest == DisjTokens(left) + tail;
      assert tail[1..] == ConjTokens(right) + rest;
      ParseConjTokens(right, rest);
  }

  lemma {:induction false} ParseDisjTokens(d: Disj, rest: seq<Token>)
    requires !Next(rest, AND) && !Next(rest, OR)
    ensures ParseOr(DisjTokens(d) + rest) == Some(Parsed(DisjTree(d), rest))
    decreases d, 4
  {
    ParseDisjMore(d, rest);
  }

  // ----- the tree means what the grammar says, and never raises

  lemma {:induction false} ValuesAre(ls: seq<Literal>)
    ensures forall v :: v in Values(ls) <==> exists l :: l in ls && ValueOf(l) == v
    ensures forall l :: l in ls ==> ValueOf(l) in Values(ls)
  {
    if ls != [] {
      assert ls[0] in ls && forall l :: l in ls <==> l == ls[0] || l in ls[1..];
      ValuesAre(ls[1..]);
    }
  }

  lemma NullIsTheWord(l: Literal)
    ensures ValueOf(l) == Null <==> l == NullWord
  {
  }

  lemma MatchOneMeans(lib: Library, op: Operator, v: Value, l: Literal)
    requires op != Ne && (IsWildcard(op) ==> l.Quoted?)
    ensures MatchOne(lib, op, v, ValueOf(l)) == Some(Matches(lib, op, v, l))
  {
    if IsWildcard(op) { RegexIsGlob(Same(lib, op), l.value, lib.show(v)); }
    if op == Like { RegexIsGlob((c: char, d: char) => c == d, l.value, lib.show(v)); GlobCongruent(Same(lib, op), (c: char, d: char) => c == d, l.value, lib.show(v)); }
  }

  lemma {:induction false} GlobCongruent(a: SameChar, b: SameChar, pattern: string, s: string)
    requires forall c, d :: a(c, d) == b(c, d)
    ensures Glob(a, pattern, s) == Glob(b, pattern, s)
    decreases |pattern| + |s|
  {
    if pattern != "" {
      GlobCongruent(a, b, pattern[1..], s);
      if s != "" {
        GlobCongruent(a, b, pattern, s[1..]);
        GlobCongruent(a, b, pattern[1..], s[1..]);
      }
    }
  }

  lemma {:induction false} AnyLiteralMeans(lib: Library, op: Operator, v: Value, ls: seq<Literal>)
    requires op != Ne && (IsWildcard(op) ==> forall l :: l in ls ==> l.Quoted?)
    ensures AnyLiteral(lib, op, v, Values(ls)) == Some(exists l :: l in ls && Matches(lib, op, v, l))
  {
    hide MatchOne;
    hide Matches;
    hide ValueOf;
    if ls != [] {
      assert ls[0] in ls && forall l :: l in ls <==> l == ls[0] || l in ls[1..];
      MatchOneMeans(lib, op, v, ls[0]);
      AnyLiteralMeans(lib, op, v, ls[1..]);
      assert Values(ls)[1..] == Values(ls[1..]);
    }
  }

  lemma {:induction false} AnyValueMeans(lib: Library, op: Operator, vs: seq<Value>, ls: seq<Literal>)
    requires op != Ne && (IsWildcard(op) ==> forall l :: l in ls ==> l.Quoted?)
    ensures AnyValue(lib, op, vs, Values(ls)) == Some(exists v, l :: v in vs && l in ls && Matches(lib, op, v, l))
  {
    hide Matches;
    hide Values;
    hide AnyLiteral;
    if vs != [] {
      assert vs[0] in vs && forall v :: v in vs <==> v == vs[0] || v in vs[1..];
      AnyLiteralMeans(lib, op, vs[0], ls);
      AnyValueMeans(lib, op, vs[1..], ls);
    }
  }

  lemma NullAmong(ls: seq<Literal>)
    ensures Null in Values(ls) <==> NullWord in ls
  {
    ValuesAre(ls);
    forall l ensures ValueOf(l) == Null <==> l == NullWord { NullIsTheWord(l); }
    hide Values;
  }

  lemma CompareMeans(lib: Library, field: string, op: Operator, ls: seq<Literal>, event: Value)
    requires IsWildcard(op) ==> forall l :: l in ls ==> l.Quoted?
    ensures Compare(lib, field, op, Values(ls), event) == Some(CondMeans(lib, field, op, ls, event))
  {
    hide ValuesAt;
    NullAmong(ls);
    if op == Ne {
      ValuesAre(ls);
      hide Values;
      assert forall v, l: Literal :: Matches(lib, Eq, v, l) == Equal(v, ValueOf(l));
    } else {
      AnyValueMeans(lib, op, ValuesAt(event, field), ls);
      hide Values;
      hide AnyValue;
      hide Matches;
    }
  }

  lemma {:induction false} DisjTreeMeans(lib: Library, d: Disj, event: Value)
    requires DisjOk(d)
    ensures Evaluate(lib, DisjTree(d), event) == Some(DisjMeans(lib, d, event)) && Fields(DisjTree(d)) == DisjFields(d)
  {
    match d
    case One(first) => ConjTreeMeans(lib, first, event);
    case OrElse(left, right) => DisjTreeMeans(lib, left, event); ConjTreeMeans(lib, right, event);
  }

  lemma {:induction false} ConjTreeMeans(lib: Library, c: Conj, event: Value)
    requires ConjOk(c)
    ensures Evaluate(lib, ConjTree(c), event) == Some(ConjMeans(lib, c, event)) && Fields(ConjTree(c)) == ConjFields(c)
  {
    match c
    case Single(only) => NegTreeMeans(lib, only, event);
    case AndAlso(before, after) => ConjTreeMeans(lib, before, event); NegTreeMeans(lib, after, event);
  }

  lemma {:induction false} NegTreeMeans(lib: Library, n: Neg, event: Value)
    requires NegOk(n)
    ensures Evaluate(lib, NegTree(n), event) == Some(NegMeans(lib, n, event)) && Fields(NegTree(n)) == NegFields(n)
  {
    match n
    case Negated(inner, _) => NegTreeMeans(lib, inner, event);
    case Plain(atom) => AtomTreeMeans(lib, atom, event);
  }

  lemma {:induction false} AtomTreeMeans(lib: Library, a: Atom, event: Value)
    requires AtomOk(a)
    ensures Evaluate(lib, AtomTree(a), event) == Some(AtomMeans(lib, a, event)) && Fields(AtomTree(a)) == AtomFields(a)
  {
    match a
    case Group(body) => DisjTreeMeans(lib, body, event);
    case Cond(field, op, literals, _) =>
      CompareMeans(lib, field, op, literals, event);
      hide Compare;
      hide CondMeans;
  }

  // ----- down to the text

  lemma {:induction false} DisjPrintable(d: Disj)
    requires DisjOk(d)
    ensures forall t :: t in DisjTokens(d) ==> Printable(t)
  {
    match d
    case One(first) => ConjPrintable(first);
    case OrElse(left, right) => DisjPrintable(left); ConjPrintable(right);
  }

  lemma {:induction false} ConjPrintable(c: Conj)
    requires ConjOk(c)
    ensures forall t :: t in ConjTokens(c) ==> Printable(t)
  {
    match c
    case Single(only) => NegPrintable(only);
    case AndAlso(before, after) => ConjPrintable(before); NegPrintable(after);
  }

  lemma {:induction false} NegPrintable(n: Neg)
    requires NegOk(n)
    ensures forall t :: t in NegTokens(n) ==> Printable(t)
  {
    match n
    case Negated(inner, _) => NegPrintable(inner);
    case Plain(atom) => AtomPrintable(atom);
  }

  lemma {:induction false} AtomPrintable(a: Atom)
    requires AtomOk(a)
    ensures forall t :: t in AtomTokens(a) ==> Printable(t)
  {
    match a
    case Group(body) => DisjPrintable(body);
    case Cond(_, op, literals, _) =>
      ListPrintable(literals);
      assert literals[0] in literals && Printable(LiteralToken(literals[0])) && Printable(OperatorToken(op));
  }

  lemma {:induction false} ListPrintable(ls: seq<Literal>)
    requires forall l :: l in ls && l.Numeral? ==> NumberLexeme(l.lexeme)
    ensures forall t :: t in ListTokens(ls) ==> Printable(t)
  {
    if ls != [] {
      assert ls[0] in ls;
      ListPrintable(ls[1..]);
    }
  }

  function QueryTokens(d: Disj): seq<Token> { [Keyword("any"), Keyword("where")] + DisjTokens(d) }

  function QueryText(d: Disj): string { Join(QueryTokens(d)) }

  /** The text of every query of the grammar parses to its tree. */
  lemma TextParses(d: Disj)
    requires DisjOk(d)
    ensures ParseText(QueryText(d)) == Some(DisjTree(d))
  {
    DisjPrintable(d);
    TokenizeJoin(QueryTokens(d));
    ParseDisjTokens(d, []);
    hide Join;
    hide Tokenize;
    hide ParseOr;
    assert DisjTokens(d) + [] == DisjTokens(d) && QueryTokens(d)[2..] == DisjTokens(d);
  }

  /**
    Compiling the text of any query of the documented grammar (strings for the wildcard operators)
    gives a predicate equal, on every event, to the query's direct meaning, and its exact fields.
  */
  method CompileMeans(lib: Library, d: Disj) returns (q: CompiledQuery)
    requires DisjOk(d)
    ensures forall event :: q.predicate_(event) == Some(DisjMeans(lib, d, event))
    ensures q.fields == DisjFields(d)
  {
    TextParses(d);
    var compiled := CompileQuery(lib, QueryText(d));
    q := compiled.value;
    forall event ensures q.predicate_(event) == Some(DisjMeans(lib, d, event)) { DisjTreeMeans(lib, d, event); }
    DisjTreeMeans(lib, d, Null);
  }

  // ----- the edges of the grammar

  /** `field != null` holds of every event whose field has no null inside a list, present or not. */
  lemma NotNullIsVacuous(lib: Library, field: string, event: Value)
    ensures CondMeans(lib, field, Ne, [NullWord], event) <==> Null !in ValuesAt(event, field)
  {
    var values := ValuesAt(event, field);
    hide ValuesAt;
    assert NullWord in [NullWord];
    if Null in values { assert Matches(lib, Eq, Null, NullWord); }
  }

  predicate Misses(lib: Library, op: Operator, v: Value, l: Value) { l.Str? && MatchOne(lib, op, v, l) == Some(false) }

  predicate FirstNonString(lib: Library, op: Operator, v: Value, ls: seq<Value>, j: nat)
    requires j < |ls|
  {
    !ls[j].Str? && forall l :: l in ls[..j] ==> Misses(lib, op, v, l)
  }

  /** Some literal is no string, and the value matches none before it. */
  predicate MeetsNonString(lib: Library, op: Operator, v: Value, ls: seq<Value>) {
    exists j :: 0 <= j < |ls| && FirstNonString(lib, op, v, ls, j)
  }

  lemma FirstNonStringStep(lib: Library, op: Operator, v: Value, ls: seq<Value>, j: nat)
    requires 0 < j < |ls|
    ensures FirstNonString(lib, op, v, ls, j) <==> Misses(lib, op, v, ls[0]) && FirstNonString(lib, op, v, ls[1..], j - 1)
  {
    hide Misses;
    assert ls[..j] == [ls[0]] + ls[1..][..j - 1];
  }

  lemma MeetsNonStringStep(lib: Library, op: Operator, v: Value, ls: seq<Value>)
    requires ls != []
    ensures MeetsNonString(lib, op, v, ls) <==> !ls[0].Str? || (Misses(lib, op, v, ls[0]) && MeetsNonString(lib, op, v, ls[1..]))
  {
    if !ls[0].Str? {
      assert FirstNonString(lib, op, v, ls, 0);
    } else {
      hide Misses;
      if MeetsNonString(lib, op, v, ls) {
        var j :| 0 <= j < |ls| && FirstNonString(lib, op, v, ls, j);
        FirstNonStringStep(lib, op, v, ls, j);
      }
      if Misses(lib, op, v, ls[0]) && MeetsNonString(lib, op, v, ls[1..]) {
        var j :| 0 <= j < |ls[1..]| && FirstNonString(lib, op, v, ls[1..], j);
        FirstNonStringStep(lib, op, v, ls, j + 1);
      }
    }
  }

  lemma {:induction false} LiteralRaisesIff(lib: Library, op: Operator, v: Value, ls: seq<Value>)
    requires IsWildcard(op)
    ensures AnyLiteral(lib, op, v, ls).None? <==> MeetsNonString(lib, op, v, ls)
    ensures AnyLiteral(lib, op, v, ls) == Some(false) ==> forall l :: l in ls ==> l.Str?
  {
    if ls != [] {
      LiteralRaisesIff(lib, op, v, ls[1..]);
      MeetsNonStringStep(lib, op, v, ls);
      MatchRaisesIff(lib, op, v, ls[0]);
      assert ls == [ls[0]] + ls[1..];
    }
    hide MatchOne;
    hide MeetsNonString;
  }

  lemma MatchRaisesIff(lib: Library, op: Operator, v: Value, l: Value)
    requires IsWildcard(op)
    ensures MatchOne(lib, op, v, l).None? <==> !l.Str?
  {
    hide FullMatch;
  }

  lemma {:induction false} StringsNeverRaise(lib: Library, op: Operator, values: seq<Value>, ls: seq<Value>)
    requires IsWildcard(op) && forall l :: l in ls ==> l.Str?
    ensures AnyValue(lib, op, values, ls).Some?
  {
    if values != [] {
      LiteralRaisesIff(lib, op, values[0], ls);
      StringsNeverRaise(lib, op, values[1..], ls);
    }
    hide AnyLiteral;
  }

  /**
    A comparison raises exactly when its operator is a wildcard one, no literal is null, the event has a
    value there, and some literal is no string while the first value matches no literal before it.
  */
  lemma CompareRaisesIff(lib: Library, field: string, op: Operator, ls: seq<Value>, event: Value)
    ensures var values := ValuesAt(event, field);
            Compare(lib, field, op, ls, event).None? <==>
              && IsWildcard(op) && Null !in ls && values != []
              && MeetsNonString(lib, op, values[0], ls)
  {
    var values := ValuesAt(event, field);
    hide ValuesAt;
    if IsWildcard(op) {
      if values != [] {
        LiteralRaisesIff(lib, op, values[0], ls);
        if AnyLiteral(lib, op, values[0], ls) == Some(false) { StringsNeverRaise(lib, op, values[1..], ls); }
      }
    } else if op != Ne {
      OthersNeverRaise(lib, op, values, ls);
    }
    hide AnyLiteral;
    hide MeetsNonString;
  }

  lemma {:induction false} OthersNeverRaise(lib: Library, op: Operator, values: seq<Value>, ls: seq<Value>)
    requires op in {Eq, In, InTilde}
    ensures AnyValue(lib, op, values, ls).Some?
  {
    if values != [] {
      LiteralSettles(lib, op, values[0], ls);
      OthersNeverRaise(lib, op, values[1..], ls);
    }
  }

  lemma {:induction false} LiteralSettles(lib: Library, op: Operator, v: Value, ls: seq<Value>)
    requires op in {Eq, In, InTilde}
    ensures AnyLiteral(lib, op, v, ls).Some?
  {
    if ls != [] { LiteralSettles(lib, op, v, ls[1..]); }
  }
}
