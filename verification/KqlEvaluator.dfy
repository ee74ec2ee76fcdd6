/** Evaluation of KQL trees on events, and the field analysis it is used with. */
module KqlEvaluation {
  import opened DottedPaths
  import opened KqlParsing

  datatype Json =
    | Null | Bool(on: bool) | Text(text: string) | Number(shown: string)
    | List(items: seq<Json>) | Object(members: map<string, Json>)

  /** Library calls: `casefold`, `fnmatchcase` and `str` on lists and objects. */
  datatype Library = Library(fold: string -> string, fnmatch: (string, string) -> bool, show: Json -> string)

  /** `dotted_value`; a missing part gives None, which is Null here. */
  function Walk(v: Json, parts: seq<string>): Json
    decreases |parts|
  {
    if parts == [] then v
    else if v.Object? && parts[0] in v.members then Walk(v.members[parts[0]], parts[1..])
    else Null
  }

  function Dotted(event: Json, field: string): Json { Walk(event, Split(field)) }

  function Normalized(lib: Library, v: Json): string {
    match v
    case Bool(on) => if on then "true" else "false"
    case Text(text) => text
    case Number(shown) => shown
    case _ => lib.show(v)
  }

  predicate MatchOne(lib: Library, v: Json, expected: string, wildcard: bool) {
    v != Null &&
    if wildcard then lib.fnmatch(lib.fold(Normalized(lib, v)), lib.fold(expected))
    else lib.fold(Normalized(lib, v)) == lib.fold(expected)
  }

  predicate MatchValue(lib: Library, actual: Json, expected: string, wildcard: bool) {
    if actual.List? then exists v :: v in actual.items && MatchOne(lib, v, expected, wildcard)
    else MatchOne(lib, actual, expected, wildcard)
  }

  predicate Evaluate(lib: Library, t: Tree, event: Json) {
    match t
    case And(left, right) => Evaluate(lib, left, event) && Evaluate(lib, right, event)
    case Or(left, right) => Evaluate(lib, left, event) || Evaluate(lib, right, event)
    case Not(operand) => !Evaluate(lib, operand, event)
    case Condition(field, values) =>
      exists v :: v in values && MatchValue(lib, Dotted(event, field), v, '*' in v || '?' in v)
  }

  function Fields(t: Tree): set<string> {
    match t
    case Condition(field, _) => {field}
    case Not(operand) => Fields(operand)
    case And(left, right) => Fields(left) + Fields(right)
    case Or(left, right) => Fields(left) + Fields(right)
  }

  /** The verdict on an event depends only on the event's values at the tree's fields. */
  lemma {:induction false} EvaluationReadsFields(lib: Library, t: Tree, a: Json, b: Json)
    requires forall f :: f in Fields(t) ==> Dotted(a, f) == Dotted(b, f)
    ensures Evaluate(lib, t, a) == Evaluate(lib, t, b)
  {
    match t
    case Condition(field, _) => assert field in Fields(t);
    case Not(operand) => EvaluationReadsFields(lib, operand, a, b);
    case And(left, right) => EvaluationReadsFields(lib, left, a, b); EvaluationReadsFields(lib, right, a, b);
    case Or(left, right) => EvaluationReadsFields(lib, left, a, b); EvaluationReadsFields(lib, right, a, b);
  }

  // ----- kql_conditions

  predicate Mentions(t: Tree, field: string, value: string) {
    match t
    case Condition(f, values) => f == field && value in values
    case Not(operand) => Mentions(operand, field, value)
    case And(left, right) => Mentions(left, field, value) || Mentions(right, field, value)
    case Or(left, right) => Mentions(left, field, value) || Mentions(right, field, value)
  }

  /** `result.setdefault(field, set()).update(values)` for each field of the right operand. */
  function Merge(a: map<string, set<string>>, b: map<string, set<string>>): map<string, set<string>> {
    map f | f in a.Keys + b.Keys :: (if f in a then a[f] else {}) + (if f in b then b[f] else {})
  }

  function Conditions(t: Tree): map<string, set<string>> {
    match t
    case Condition(field, values) => map[field := set v | v in values]
    case Not(operand) => Conditions(operand)
    case And(left, right) => Merge(Conditions(left), Conditions(right))
    case Or(left, right) => Merge(Conditions(left), Conditions(right))
  }

  /** The grouping has one entry per field, holding exactly the values the tree compares it with. */
  lemma {:induction false} ConditionsExact(t: Tree, field: string, value: string)
    ensures Conditions(t).Keys == Fields(t)
    ensures field in Conditions(t) && value in Conditions(t)[field] <==> Mentions(t, field, value)
  {
    match t
    case Condition(_, _) =>
    case Not(operand) => ConditionsExact(operand, field, value);
    case And(left, right) => ConditionsExact(left, field, value); ConditionsExact(right, field, value);
    case Or(left, right) => ConditionsExact(left, field, value); ConditionsExact(right, field, value);
  }
}
