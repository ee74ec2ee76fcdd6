/** `KqlParser`: recursive descent over the tokens, against the grammar as functions. */
module KqlParsing {
  import opened Wrappers
  import opened KqlLexer

  datatype Tree =
    | Condition(field: string, values: seq<string>)
    | Not(operand: Tree)
    | And(left: Tree, right: Tree)
    | Or(left: Tree, right: Tree)

  /** What a parsing function found, and the tokens after it. */
  datatype Parsed<T> = Parsed(value: T, rest: seq<Token>)

  predicate Peek(ts: seq<Token>, kind: Kind) { ts != [] && ts[0].kind == kind }

  // ----- the grammar, as functions; None is the source's ValueError

  function ParseScalar(ts: seq<Token>): (r: Option<Parsed<string>>)
    ensures r.Some? ==> |r.value.rest| < |ts|
  {
    if Peek(ts, StringLiteral) || Peek(ts, Bare) then Some(Parsed(ts[0].value, ts[1..])) else None
  }

  function ParseMoreScalars(found: seq<string>, ts: seq<Token>): (r: Option<Parsed<seq<string>>>)
    ensures r.Some? ==> |r.value.rest| <= |ts|
    decreases |ts|
  {
    if !Peek(ts, OrWord) then Some(Parsed(found, ts))
    else
      var next := ParseScalar(ts[1..]);
      if next.None? then None else ParseMoreScalars(found + [next.value.value], next.value.rest)
  }

  function ParseValues(ts: seq<Token>): (r: Option<Parsed<seq<string>>>)
    ensures r.Some? ==> |r.value.rest| < |ts|
  {
    if !Peek(ts, LParen) then
      var only := ParseScalar(ts);
      if only.None? then None else Some(Parsed([only.value.value], only.value.rest))
    else
      var first := ParseScalar(ts[1..]);
      if first.None? then None
      else
        var all := ParseMoreScalars([first.value.value], first.value.rest);
        if all.None? || !Peek(all.value.rest, RParen) then None else Some(Parsed(all.value.value, all.value.rest[1..]))
  }

  function ParseOr(ts: seq<Token>): (r: Option<Parsed<Tree>>)
    ensures r.Some? ==> |r.value.rest| < |ts|
    decreases |ts|, 4
  {
    var first := ParseAnd(ts);
    if first.None? then None else ParseMoreOr(first.value.value, first.value.rest)
  }

  function ParseMoreOr(node: Tree, ts: seq<Token>): (r: Option<Parsed<Tree>>)
    ensures r.Some? ==> |r.value.rest| <= |ts|
    decreases |ts|, 3
  {
    if !Peek(ts, OrWord) then Some(Parsed(node, ts))
    else
      var next := ParseAnd(ts[1..]);
      if next.None? then None else ParseMoreOr(Or(node, next.value.value), next.value.rest)
  }

  function ParseAnd(ts: seq<Token>): (r: Option<Parsed<Tree>>)
    ensures r.Some? ==> |r.value.rest| < |ts|
    decreases |ts|, 2
  {
    var first := ParseUnary(ts);
    if first.None? then None else ParseMoreAnd(first.value.value, first.value.rest)
  }

  function ParseMoreAnd(node: Tree, ts: seq<Token>): (r: Option<Parsed<Tree>>)
    ensures r.Some? ==> |r.value.rest| <= |ts|
    decreases |ts|, 1
  {
    if !Peek(ts, AndWord) then Some(Parsed(node, ts))
    else
      var next := ParseUnary(ts[1..]);
      if next.None? then None else ParseMoreAnd(And(node, next.value.value), next.value.rest)
  }

  function ParseUnary(ts: seq<Token>): (r: Option<Parsed<Tree>>)
    ensures r.Some? ==> |r.value.rest| < |ts|
    decreases |ts|, 1
  {
    if Peek(ts, NotWord) then
      var inner := ParseUnary(ts[1..]);
      if inner.None? then None else Some(Parsed(Not(inner.value.value), inner.value.rest))
    else ParsePrimary(ts)
  }

  function ParsePrimary(ts: seq<Token>): (r: Option<Parsed<Tree>>)
    ensures r.Some? ==> |r.value.rest| < |ts|
    decreases |ts|, 0
  {
    if Peek(ts, LParen) then
      var inner := ParseOr(ts[1..]);
      if inner.None? || !Peek(inner.value.rest, RParen) then None else Some(Parsed(inner.value.value, inner.value.rest[1..]))
    else if !Peek(ts, Bare) || !Peek(ts[1..], Colon) then None
    else
      var values := ParseValues(ts[2..]);
      if values.None? then None else Some(Parsed(Condition(ts[0].value, values.value.value), values.value.rest))
  }

  function Parse(ts: seq<Token>): Option<Tree> {
    var r := ParseOr(ts);
    if r.Some? && r.value.rest == [] then Some(r.value.value) else None
  }

  function ParseText(query: string): Option<Tree> {
    var ts := Tokenize(query);
    if ts.None? then None else Parse(ts.value)
  }

  // ----- the parser object

  class KqlParser {
    const tokens: seq<Token>
    var position: nat

    ghost predicate Valid()
      reads this
    {
      position <= |tokens|
    }

    constructor (tokens: seq<Token>)
      ensures Valid() && this.tokens == tokens && position == 0
    {
      this.tokens, position := tokens, 0;
    }

    ghost function Left(): seq<Token>
      requires Valid()
      reads this
    {
      tokens[position..]
    }

    method Take(kind: Kind) returns (token: Option<Token>)
      requires Valid()
      modifies this
      ensures Valid()
      ensures if Peek(old(Left()), kind) then token == Some(old(Left())[0]) && Left() == old(Left())[1..]
              else token == None && position == old(position)
    {
      if position < |tokens| && tokens[position].kind == kind {
        token := Some(tokens[position]);
        position := position + 1;
      } else {
        token := None;
      }
    }

    method Scalar() returns (value: Option<string>)
      requires Valid()
      modifies this
      ensures Valid()
      ensures var r := ParseScalar(old(Left())); if r.None? then value == None else value == Some(r.value.value) && Left() == r.value.rest
    {
      var token := Take(StringLiteral);
      if token.None? { token := Take(Bare); }
      value := if token.Some? then Some(token.value.value) else None;
    }

    method Values() returns (values: Option<seq<string>>)
      requires Valid()
      modifies this
      ensures Valid()
      ensures var r := ParseValues(old(Left())); if r.None? then values == None else values == Some(r.value.value) && Left() == r.value.rest
    {
      var open := Take(LParen);
      var first := Scalar();
      if first.None? { return None; }
      var found := [first.value];
      if open.None? { return Some(found); }
      var more := Take(OrWord);
      while more.Some?
        invariant Valid()
        invariant ParseMoreScalars([first.value], ParseScalar(old(Left())[1..]).value.rest)
                  == if more.Some? then MoreAfterOr(found, Left()) else Some(Parsed(found, Left()))
        decreases |Left()| + (if more.Some? then 1 else 0)
      {
        var next := Scalar();
        if next.None? { return None; }
        found := found + [next.value];
        more := Take(OrWord);
      }
      var close := Take(RParen);
      values := if close.Some? then Some(found) else None;
    }

    method Disjunction() returns (tree: Option<Tree>)
      requires Valid()
      modifies this
      ensures Valid()
      ensures var r := ParseOr(old(Left())); if r.None? then tree == None else tree == Some(r.value.value) && Left() == r.value.rest
      decreases |tokens| - position, 3
    {
      hide ParseAnd;
      var first := Conjunction();
      if first.None? { return None; }
      var node := first.value;
      var more := Take(OrWord);
      while more.Some?
        invariant Valid() && |Left()| + (if more.Some? then 1 else 0) < old(|Left()|)
        invariant ParseOr(old(Left())) == if more.Some? then OrAfter(node, Left()) else Some(Parsed(node, Left()))
        decreases |Left()| + (if more.Some? then 1 else 0)
      {
        var next := Conjunction();
        if next.None? { return None; }
        node := Or(node, next.value);
        more := Take(OrWord);
      }
      tree := Some(node);
    }

    method Conjunction() returns (tree: Option<Tree>)
      requires Valid()
      modifies this
      ensures Valid()
      ensures var r := ParseAnd(old(Left())); if r.None? then tree == None else tree == Some(r.value.value) && Left() == r.value.rest
      decreases |tokens| - position, 2
    {
      hide ParseUnary;
      var first := Unary();
      if first.None? { return None; }
      var node := first.value;
      var more := Take(AndWord);
      while more.Some?
        invariant Valid() && |Left()| + (if more.Some? then 1 else 0) < old(|Left()|)
        invariant ParseAnd(old(Left())) == if more.Some? then AndAfter(node, Left()) else Some(Parsed(node, Left()))
        decreases |Left()| + (if more.Some? then 1 else 0)
      {
        var next := Unary();
        if next.None? { return None; }
        node := And(node, next.value);
        more := Take(AndWord);
      }
      tree := Some(node);
    }

    method Unary() returns (tree: Option<Tree>)
      requires Valid()
      modifies this
      ensures Valid()
      ensures var r := ParseUnary(old(Left())); if r.None? then tree == None else tree == Some(r.value.value) && Left() == r.value.rest
      decreases |tokens| - position, 1
    {
      var negation := Take(NotWord);
      if negation.Some? {
        tree := Unary();
        if tree.Some? { tree := Some(Not(tree.value)); }
      } else {
        tree := Primary();
      }
    }

    method Primary() returns (tree: Option<Tree>)
      requires Valid()
      modifies this
      ensures Valid()
      ensures var r := ParsePrimary(old(Left())); if r.None? then tree == None else tree == Some(r.value.value) && Left() == r.value.rest
      decreases |tokens| - position, 0
    {
      var open := Take(LParen);
      if open.Some? {
        tree := Disjunction();
        if tree.None? { return None; }
        var close := Take(RParen);
        if close.None? { return None; }
        return tree;
      }
      var field := Take(Bare);
      if field.None? { return None; }
      var colon := Take(Colon);
      if colon.None? { return None; }
      var values := Values();
      tree := if values.Some? then Some(Condition(field.value.value, values.value)) else None;
    }

    method ParseQuery() returns (tree: Option<Tree>)
      requires Valid() && position == 0
      modifies this
      ensures tree == Parse(tokens)
    {
      if tokens == [] { return None; }
      tree := Disjunction();
      if position != |tokens| { return None; }
    }
  }

  // The loops stand between taking an operator and parsing its right-hand side.
  ghost function MoreAfterOr(found: seq<string>, ts: seq<Token>): Option<Parsed<seq<string>>> {
    var next := ParseScalar(ts);
    if next.None? then None else ParseMoreScalars(found + [next.value.value], next.value.rest)
  }

  ghost function OrAfter(node: Tree, ts: seq<Token>): Option<Parsed<Tree>> {
    var next := ParseAnd(ts);
    if next.None? then None else ParseMoreOr(Or(node, next.value.value), next.value.rest)
  }

  ghost function AndAfter(node: Tree, ts: seq<Token>): Option<Parsed<Tree>> {
    var next := ParseUnary(ts);
    if next.None? then None else ParseMoreAnd(And(node, next.value.value), next.value.rest)
  }
}
