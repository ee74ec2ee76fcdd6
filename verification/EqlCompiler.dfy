/**
  Values, comparisons and the parser of `scripts/sigma/eql_eval.py`.  The parser builds no tree: it
  returns predicates on events.  The tree exists only in the specification.
*/
module EqlCompiling {
  import opened Wrappers
  import opened DottedPaths
  import opened Wildcards
  import opened EqlLexer

  datatype Value =
    | Null | Bool(on: bool) | Int(n: int) | Float(r: real) | Str(s: string)
    | List(items: seq<Value>) | Object(members: map<string, Value>)

  /** `str`, `lower`, and how a regular expression compares characters when it ignores case. */
  datatype Library = Library(show: Value -> string, lower: string -> string, sameIgnoringCase: SameChar)

  // ----- values of a field

  function Walk(v: Value, parts: seq<string>): Option<Value>
    decreases |parts|
  {
    if parts == [] then Some(v)
    else if v.Object? && parts[0] in v.members then Walk(v.members[parts[0]], parts[1..])
    else None
  }

  /** `_values`: arrays flatten at the end of the path, a missing or null value gives none. */
  function ValuesAt(event: Value, dotted: string): seq<Value> {
    var v := Walk(event, Split(dotted));
    if v.None? || v.value == Null then [] else if v.value.List? then v.value.items else [v.value]
  }

  /** The loop of `_values` over the parts of the path, for all items reached so far. */
  method CollectValues(event: Value, dotted: string) returns (flat: seq<Value>)
    ensures flat == ValuesAt(event, dotted)
  {
    var parts := Split(dotted);
    var current := [event];
    for n := 0 to |parts|
      invariant |current| <= 1
      invariant Walk(event, parts) == if current == [] then None else Walk(current[0], parts[n..])
    {
      assert parts[n..][1..] == parts[n + 1..];
      var next := [];
      if current != [] && current[0].Object? && parts[n] in current[0].members {
        next := next + [current[0].members[parts[n]]];
      }
      current := next;
    }
    assert parts[|parts|..] == [];
    flat := [];
    if current != [] {
      if current[0].List? {
        flat := current[0].items;
      } else if current[0] != Null {
        flat := [current[0]];
      }
    }
  }

  // ----- comparisons

  function Numeric(v: Value): Option<real> {
    match v
    case Bool(on) => Some(if on then 1.0 else 0.0)
    case Int(n) => Some(n as real)
    case Float(r) => Some(r)
    case _ => None
  }

  /** Python's equality against a literal: numbers and booleans compare by value. */
  predicate Equal(v: Value, literal: Value) {
    if Numeric(v).Some? && Numeric(literal).Some? then Numeric(v) == Numeric(literal) else v == literal
  }

  datatype Operator = Colon | LikeTilde | Like | Eq | Ne | InTilde | In

  predicate IsWildcard(op: Operator) { op in {Colon, LikeTilde, Like} }

  function Same(lib: Library, op: Operator): SameChar {
    if op == Like then (c: char, d: char) => c == d else lib.sameIgnoringCase
  }

  /** `match_one`; None is the raised UnsupportedQueryError. */
  function MatchOne(lib: Library, op: Operator, v: Value, literal: Value): Option<bool> {
    match op
    case Ne => None
    case Eq => Some(Equal(v, literal))
    case In => Some(Equal(v, literal))
    case InTilde => Some(lib.lower(lib.show(v)) == lib.lower(lib.show(literal)))
    case _ => if literal.Str? then Some(FullMatch(Same(lib, op), Translate(literal.s), lib.show(v))) else None
  }

  /** `any` over values and, for each, over literals: stops at the first truth or the first error. */
  function AnyLiteral(lib: Library, op: Operator, v: Value, literals: seq<Value>): Option<bool> {
    if literals == [] then Some(false)
    else
      var first := MatchOne(lib, op, v, literals[0]);
      if first != Some(false) then first else AnyLiteral(lib, op, v, literals[1..])
  }

  function AnyValue(lib: Library, op: Operator, values: seq<Value>, literals: seq<Value>): Option<bool> {
    if values == [] then Some(false)
    else
      var first := AnyLiteral(lib, op, values[0], literals);
      if first != Some(false) then first else AnyValue(lib, op, values[1..], literals)
  }

  function Compare(lib: Library, field: string, op: Operator, literals: seq<Value>, event: Value): Option<bool> {
    var values := ValuesAt(event, field);
    if op == Ne then Some(!exists v, l :: v in values && l in literals && Equal(v, l))
    else if Null in literals then Some(values == [])
    else AnyValue(lib, op, values, literals)
  }

  // ----- predicates

  /** A compiled predicate; None is an error raised while it runs. */
  type Predicate = Value -> Option<bool>

  function AnyOf(parts: seq<Predicate>, event: Value): Option<bool> {
    if parts == [] then Some(false)
    else
      var first := parts[0](event);
      if first != Some(false) then first else AnyOf(parts[1..], event)
  }

  function AllOf(parts: seq<Predicate>, event: Value): Option<bool> {
    if parts == [] then Some(true)
    else
      var first := parts[0](event);
      if first != Some(true) then first else AllOf(parts[1..], event)
  }

  lemma {:induction false} AnyOfAppend(parts: seq<Predicate>, p: Predicate, event: Value)
    ensures AnyOf(parts + [p], event) == if AnyOf(parts, event) == Some(false) then p(event) else AnyOf(parts, event)
  {
    if parts != [] {
      AnyOfAppend(parts[1..], p, event);
      assert (parts + [p])[1..] == parts[1..] + [p];
    } else {
      assert [p][1..] == [] && parts + [p] == [p];
    }
  }

  lemma {:induction false} AllOfAppend(parts: seq<Predicate>, p: Predicate, event: Value)
    ensures AllOf(parts + [p], event) == if AllOf(parts, event) == Some(true) then p(event) else AllOf(parts, event)
  {
    if parts != [] {
      AllOfAppend(parts[1..], p, event);
      assert (parts + [p])[1..] == parts[1..] + [p];
    } else {
      assert [p][1..] == [] && parts + [p] == [p];
    }
  }

  // ----- trees and their evaluation, for the specification

  datatype Tree =
    | Comparison(field: string, op: Operator, literals: seq<Value>)
    | Not(operand: Tree) | And(left: Tree, right: Tree) | Or(left: Tree, right: Tree)

  function Evaluate(lib: Library, t: Tree, event: Value): Option<bool> {
    match t
    case Comparison(field, op, literals) => Compare(lib, field, op, literals, event)
    case Not(operand) =>
      var b := Evaluate(lib, operand, event);
      if b.Some? then Some(!b.value) else None
    case And(left, right) =>
      var b := Evaluate(lib, left, event);
      if b == Some(true) then Evaluate(lib, right, event) else b
    case Or(left, right) =>
      var b := Evaluate(lib, left, event);
      if b == Some(false) then Evaluate(lib, right, event) else b
  }

  function Fields(t: Tree): set<string> {
    match t
    case Comparison(field, _, _) => {field}
    case Not(operand) => Fields(operand)
    case And(left, right) => Fields(left) + Fields(right)
    case Or(left, right) => Fields(left) + Fields(right)
  }

  // ----- the grammar on tokens; None is the source's UnsupportedQueryError

  datatype Parsed<T> = Parsed(value: T, rest: seq<Token>)

  predicate Next(ts: seq<Token>, t: Token) { ts != [] && ts[0] == t }

  const OR := Keyword("or")
  const AND := Keyword("and")
  const LPAREN := Op("(")
  const RPAREN := Op(")")
  const COMMA := Op(",")

  function DigitsValue(s: string): int {
    if s == "" then 0 else DigitsValue(s[..|s| - 1]) * 10 + (s[|s| - 1] as int - '0' as int)
  }

  function Scale(n: nat): (r: real)
    ensures r > 0.0
  { if n == 0 then 1.0 else 10.0 * Scale(n - 1) }

  /** `int` or `float` of a number lexeme; floats are exact here. */
  function NumberValue(lexeme: string): Value {
    var negative := lexeme != "" && lexeme[0] == '-';
    var unsigned := if negative then lexeme[1..] else lexeme;
    var whole := Digits(unsigned);
    if '.' !in lexeme then Int(if negative then -DigitsValue(unsigned) else DigitsValue(unsigned))
    else
      var fraction := if whole < |unsigned| then unsigned[whole + 1..] else "";
      var r := DigitsValue(unsigned[..whole]) as real + DigitsValue(fraction) as real / Scale(|fraction|);
      Float(if negative then -r else r)
  }

  function LiteralOf(t: Token): Option<Value> {
    match t
    case Str(value) => Some(Value.Str(value))
    case Number(lexeme) => Some(NumberValue(lexeme))
    case Keyword(word) =>
      if word == "null" then Some(Null) else if word == "true" then Some(Bool(true))
      else if word == "false" then Some(Bool(false)) else None
    case _ => None
  }

  function OperatorOf(t: Token): Option<Operator> {
    if t == Keyword("like") then Some(Like) else if t == Keyword("in") then Some(In)
    else if t == Op(":") then Some(Colon) else if t == Op("==") then Some(Eq) else if t == Op("!=") then Some(Ne)
    else if t == Op("like~") then Some(LikeTilde) else if t == Op("in~") then Some(InTilde) else None
  }

  function ParseLiteral(ts: seq<Token>): (r: Option<Parsed<Value>>)
    ensures r.Some? ==> |r.value.rest| < |ts|
  {
    if ts == [] || LiteralOf(ts[0]).None? then None else Some(Parsed(LiteralOf(ts[0]).value, ts[1..]))
  }

  function ParseMoreLiterals(found: seq<Value>, ts: seq<Token>): (r: Option<Parsed<seq<Value>>>)
    ensures r.Some? ==> |r.value.rest| <= |ts|
    decreases |ts|
  {
    if !Next(ts, COMMA) then Some(Parsed(found, ts))
    else
      var next := ParseLiteral(ts[1..]);
      if next.None? then None else ParseMoreLiterals(found + [next.value.value], next.value.rest)
  }

  function ParseLiterals(ts: seq<Token>): (r: Option<Parsed<seq<Value>>>)
    ensures r.Some? ==> |r.value.rest| < |ts|
  {
    if !Next(ts, LPAREN) then
      var only := ParseLiteral(ts);
      if only.None? then None else Some(Parsed([only.value.value], only.value.rest))
    else
      var first := ParseLiteral(ts[1..]);
      if first.None? then None
      else
        var all := ParseMoreLiterals([first.value.value], first.value.rest);
        if all.None? || !Next(all.value.rest, RPAREN) then None else Some(Parsed(all.value.value, all.value.rest[1..]))
  }

  function ParseOr(ts: seq<Token>): (r: Option<Parsed<Tree>>)
    ensures r.Some? ==> |r.value.rest| < |ts|
    decreases |ts|, 4
  {
    var first := ParseAnd(ts);
    if first.None? then None else ParseMoreOr(first.value.value, first.value.rest)
  }

  function ParseMoreOr(node: Tree, ts: seq<Token>): (r: Option<Parsed<Tree>>)
    ensures r.Some? ==> |r.value.rest| <= |ts|
    decreases |ts|, 3
  {
    if !Next(ts, OR) then Some(Parsed(node, ts))
    else
      var next := ParseAnd(ts[1..]);
      if next.None? then None else ParseMoreOr(Or(node, next.value.value), next.value.rest)
  }

  function ParseAnd(ts: seq<Token>): (r: Option<Parsed<Tree>>)
    ensures r.Some? ==> |r.value.rest| < |ts|
    decreases |ts|, 2
  {
    var first := ParseNot(ts);
    if first.None? then None else ParseMoreAnd(first.value.value, first.value.rest)
  }

  function ParseMoreAnd(node: Tree, ts: seq<Token>): (r: Option<Parsed<Tree>>)
    ensures r.Some? ==> |r.value.rest| <= |ts|
    decreases |ts|, 1
  {
    if !Next(ts, AND) then Some(Parsed(node, ts))
    else
      var next := ParseNot(ts[1..]);
      if next.None? then None else ParseMoreAnd(And(node, next.value.value), next.value.rest)
  }

  function ParseNot(ts: seq<Token>): (r: Option<Parsed<Tree>>)
    ensures r.Some? ==> |r.value.rest| < |ts|
    decreases |ts|, 1
  {
    if Next(ts, Keyword("not")) || Next(ts, Op("!")) then
      var inner := ParseNot(ts[1..]);
      if inner.None? then None else Some(Parsed(Not(inner.value.value), inner.value.rest))
    else ParseAtom(ts)
  }

  function ParseAtom(ts: seq<Token>): (r: Option<Parsed<Tree>>)
    ensures r.Some? ==> |r.value.rest| < |ts|
    decreases |ts|, 0
  {
    if Next(ts, LPAREN) then
      var inner := ParseOr(ts[1..]);
      if inner.None? || !Next(inner.value.rest, RPAREN) then None else Some(Parsed(inner.value.value, inner.value.rest[1..]))
    else if |ts| < 2 || !ts[0].Field? || OperatorOf(ts[1]).None? then None
    else
      var literals := ParseLiterals(ts[2..]);
      if literals.None? then None
      else Some(Parsed(Comparison(ts[0].name, OperatorOf(ts[1]).value, literals.value.value), literals.value.rest))
  }

  function Parse(ts: seq<Token>): Option<Tree> {
    if |ts| < 2 || ts[0] != Keyword("any") || ts[1] != Keyword("where") then None
    else
      var r := ParseOr(ts[2..]);
      if r.Some? && r.value.rest == [] then Some(r.value.value) else None
  }

  // ----- the parser object

  ghost predicate Denotes(lib: Library, p: Predicate, t: Tree) { forall event :: p(event) == Evaluate(lib, t, event) }

  class Parser {
    const lib: Library
    const tokens: seq<Token>
    var index: nat
    var fields: set<string>

    ghost predicate Valid()
      reads this
    {
      index <= |tokens|
    }

    constructor (lib: Library, tokens: seq<Token>)
      ensures Valid() && this.lib == lib && this.tokens == tokens && index == 0 && fields == {}
    {
      this.lib, this.tokens, index, fields := lib, tokens, 0, {};
    }

    ghost function Left(): seq<Token>
      requires Valid()
      reads this
    {
      tokens[index..]
    }

    /** The outcome of a parsing method, against what the grammar says of the tokens it started from. */
    ghost predicate Yields(r: Option<Parsed<Tree>>, p: Option<Predicate>, t: Tree, before: set<string>)
      requires Valid()
      reads this
    {
      if r.None? then p == None
      else p.Some? && Left() == r.value.rest && t == r.value.value && Denotes(lib, p.value, t) && fields == before + Fields(t)
    }

    method Take() returns (token: Option<Token>)
      requires Valid()
      modifies `index
      ensures Valid()
      ensures if old(Left()) == [] then token == None && index == old(index)
              else token == Some(old(Left())[0]) && Left() == old(Left())[1..]
    {
      if index == |tokens| { return None; }
      token := Some(tokens[index]);
      index := index + 1;
    }

    method TakeIf(t: Token) returns (taken: bool)
      requires Valid()
      modifies `index
      ensures Valid()
      ensures taken == Next(old(Left()), t)
      ensures if taken then Left() == old(Left())[1..] else index == old(index)
    {
      taken := index < |tokens| && tokens[index] == t;
      if taken { index := index + 1; }
    }

    method Literal() returns (v: Option<Value>)
      requires Valid()
      modifies `index
      ensures Valid()
      ensures var r := ParseLiteral(old(Left())); if r.None? then v == None else v == Some(r.value.value) && Left() == r.value.rest
    {
      var token := Take();
      v := if token.Some? then LiteralOf(token.value) else None;
    }

    method Literals() returns (vs: Option<seq<Value>>)
      requires Valid()
      modifies `index
      ensures Valid()
      ensures var r := ParseLiterals(old(Left())); if r.None? then vs == None else vs == Some(r.value.value) && Left() == r.value.rest
    {
      hide LiteralOf;
      var listed := TakeIf(LPAREN);
      var first := Literal();
      if first.None? { return None; }
      var found := [first.value];
      if !listed { return Some(found); }
      var more := TakeIf(COMMA);
      while more
        invariant Valid()
        invariant ParseMoreLiterals([first.value], ParseLiteral(old(Left())[1..]).value.rest)
                  == if more then LiteralsAfter(found, Left()) else Some(Parsed(found, Left()))
        decreases |Left()| + (if more then 1 else 0)
      {
        var next := Literal();
        if next.None? { return None; }
        found := found + [next.value];
        more := TakeIf(COMMA);
      }
      var close := TakeIf(RPAREN);
      vs := if close then Some(found) else None;
    }

    method Disjunction() returns (p: Option<Predicate>, ghost t: Tree)
      requires Valid()
      modifies `index, `fields
      ensures Valid()
      ensures Yields(ParseOr(old(Left())), p, t, old(fields))
      decreases |tokens| - index, 3
    {
      hide ParseAnd;
      var first, node := Conjunction();
      t := node;
      if first.None? { return None, t; }
      var parts := [first.value];
      forall event ensures AnyOf(parts, event) == Evaluate(lib, node, event) { AnyOfAppend([], first.value, event); }
      var more := TakeIf(OR);
      while more
        invariant Valid() && |Left()| + (if more then 1 else 0) < old(|Left()|)
        invariant ParseOr(old(Left())) == if more then OrAfter(node, Left()) else Some(Parsed(node, Left()))
        invariant parts != [] && (|parts| == 1 ==> Denotes(lib, parts[0], node))
        invariant forall event :: AnyOf(parts, event) == Evaluate(lib, node, event)
        invariant fields == old(fields) + Fields(node)
        decreases |Left()| + (if more then 1 else 0)
      {
        var next, right := Conjunction();
        if next.None? { return None, t; }
        forall event ensures AnyOf(parts + [next.value], event) == Evaluate(lib, Or(node, right), event) {
          AnyOfAppend(parts, next.value, event);
        }
        parts := parts + [next.value];
        node := Or(node, right);
        more := TakeIf(OR);
      }
      t := node;
      p := Some(if |parts| == 1 then parts[0] else event => AnyOf(parts, event));
    }

    method Conjunction() returns (p: Option<Predicate>, ghost t: Tree)
      requires Valid()
      modifies `index, `fields
      ensures Valid()
      ensures Yields(ParseAnd(old(Left())), p, t, old(fields))
      decreases |tokens| - index, 2
    {
      hide ParseNot;
      var first, node := Negation();
      t := node;
      if first.None? { return None, t; }
      var parts := [first.value];
      forall event ensures AllOf(parts, event) == Evaluate(lib, node, event) { AllOfAppend([], first.value, event); }
      var more := TakeIf(AND);
      while more
        invariant Valid() && |Left()| + (if more then 1 else 0) < old(|Left()|)
        invariant ParseAnd(old(Left())) == if more then AndAfter(node, Left()) else Some(Parsed(node, Left()))
        invariant parts != [] && (|parts| == 1 ==> Denotes(lib, parts[0], node))
        invariant forall event :: AllOf(parts, event) == Evaluate(lib, node, event)
        invariant fields == old(fields) + Fields(node)
        decreases |Left()| + (if more then 1 else 0)
      {
        var next, right := Negation();
        if next.None? { return None, t; }
        forall event ensures AllOf(parts + [next.value], event) == Evaluate(lib, And(node, right), event) {
          AllOfAppend(parts, next.value, event);
        }
        parts := parts + [next.value];
        node := And(node, right);
        more := TakeIf(AND);
      }
      t := node;
      p := Some(if |parts| == 1 then parts[0] else event => AllOf(parts, event));
    }

    method Negation() returns (p: Option<Predicate>, ghost t: Tree)
      requires Valid()
      modifies `index, `fields
      ensures Valid()
      ensures Yields(ParseNot(old(Left())), p, t, old(fields))
      decreases |tokens| - index, 1
    {
      var negated := TakeIf(Keyword("not"));
      if !negated { negated := TakeIf(Op("!")); }
      if negated {
        var inner, operand := Negation();
        t := Not(operand);
        if inner.None? { return None, t; }
        var f := inner.value;
        p := Some(event => var b := f(event); if b.Some? then Some(!b.value) else None);
      } else {
        p, t := Atom();
      }
    }

    method Atom() returns (p: Option<Predicate>, ghost t: Tree)
      requires Valid()
      modifies `index, `fields
      ensures Valid()
      ensures Yields(ParseAtom(old(Left())), p, t, old(fields))
      decreases |tokens| - index, 0
    {
      hide ParseLiterals;
      hide OperatorOf;
      hide Compare;
      ghost var before := Left();
      t := Comparison("", Eq, []);
      var token := Take();
      if token.None? { return None, t; }
      if token.value == LPAREN {
        p, t := Disjunction();
        if p.None? { return None, t; }
        var close := TakeIf(RPAREN);
        if !close { return None, t; }
        return p, t;
      }
      if !token.value.Field? { return None, t; }
      var field := token.value.name;
      fields := fields + {field};
      var operator := Take();
      if operator.None? || OperatorOf(operator.value).None? { return None, t; }
      var op := OperatorOf(operator.value).value;
      assert Left() == before[2..];
      var literals := Literals();
      if literals.None? { return None, t; }
      t := Comparison(field, op, literals.value);
      var l, vs := lib, literals.value;
      p := Some(event => Compare(l, field, op, vs, event));
    }

    /** `parse`: the compiled predicate means what the tree of the query means. */
    method ParseQuery() returns (p: Option<Predicate>)
      requires Valid() && index == 0 && fields == {}
      modifies `index, `fields
      ensures var t := Parse(tokens);
              if t.None? then p == None else p.Some? && Denotes(lib, p.value, t.value) && fields == Fields(t.value)
    {
      hide ParseOr;
      var any := TakeIf(Keyword("any"));
      if !any { return None; }
      var wherever := TakeIf(Keyword("where"));
      if !wherever { return None; }
      assert Left() == tokens[2..];
      ghost var t;
      p, t := Disjunction();
      if p.Some? && index != |tokens| { return None; }
    }
  }

  // The loops stand between taking an operator and parsing its right-hand side.
  ghost function LiteralsAfter(found: seq<Value>, ts: seq<Token>): Option<Parsed<seq<Value>>> {
    var next := ParseLiteral(ts);
    if next.None? then None else ParseMoreLiterals(found + [next.value.value], next.value.rest)
  }

  ghost function OrAfter(node: Tree, ts: seq<Token>): Option<Parsed<Tree>> {
    var next := ParseAnd(ts);
    if next.None? then None else ParseMoreOr(Or(node, next.value.value), next.value.rest)
  }

  ghost function AndAfter(node: Tree, ts: seq<Token>): Option<Parsed<Tree>> {
    var next := ParseNot(ts);
    if next.None? then None else ParseMoreAnd(And(node, next.value.value), next.value.rest)
  }

  datatype CompiledQuery = CompiledQuery(fields: set<string>, predicate_: Predicate)

  function ParseText(text: string): Option<Tree> {
    var ts := Tokenize(text);
    if ts.None? then None else Parse(ts.value)
  }

  /** `compile_query`. */
  method CompileQuery(lib: Library, text: string) returns (q: Option<CompiledQuery>)
    ensures var t := ParseText(text);
            if t.None? then q == None
            else q.Some? && q.value.fields == Fields(t.value) && Denotes(lib, q.value.predicate_, t.value)
  {
    hide Tokenize;
    hide Parse;
    var tokens := TokenizeQuery(text);
    if tokens.None? { return None; }
    var parser := new Parser(lib, tokens.value);
    var p := parser.ParseQuery();
    if p.None? { return None; }
    q := Some(CompiledQuery(parser.fields, p.value));
  }
}
