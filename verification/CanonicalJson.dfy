/**
  `canonicalize`: members sorted at every depth, then printed.  Equal texts mean equal values, and the
  text is that of section 3.2.3 of RFC 8785 exactly when no two keys of an object cross.
*/
module CanonicalJson {
  import opened Wrappers
  import opened CodePoints
  import opened JsonText
  import opened JsonRoundTrip
  import opened Rfc8785

  /** The order of Python's `sorted` on strings, and the one RFC 8785 asks for. */
  datatype Order = CodePoint | Utf16Unit

  predicate Before(o: Order, a: Text, b: Text) { if o == CodePoint then Less(a, b) else Less(Utf16(a), Utf16(b)) }

  predicate Sorted(o: Order, ms: seq<Member>) { forall i, j :: 0 <= i < j < |ms| ==> Before(o, ms[i].key, ms[j].key) }

  function Insert(o: Order, m: Member, ms: seq<Member>): seq<Member> {
    if ms == [] || Before(o, m.key, ms[0].key) then [m] + ms else [ms[0]] + Insert(o, m, ms[1..])
  }

  function Sort(o: Order, ms: seq<Member>): seq<Member> { if ms == [] then [] else Insert(o, ms[0], Sort(o, ms[1..])) }

  function Canon(o: Order, v: Json): Json
    decreases v
  {
    match v
    case Arr(items) => Arr(CanonItems(o, items))
    case Obj(members) => Obj(Sort(o, CanonMembers(o, members)))
    case _ => v
  }

  function CanonItems(o: Order, items: seq<Json>): (r: seq<Json>)
    ensures |r| == |items| && forall i :: 0 <= i < |items| ==> r[i] == Canon(o, items[i])
    decreases items
  {
    if items == [] then [] else [Canon(o, items[0])] + CanonItems(o, items[1..])
  }

  function CanonMember(o: Order, m: Member): Member
    decreases m
  {
    Member(m.key, Canon(o, m.value))
  }

  function CanonMembers(o: Order, ms: seq<Member>): (r: seq<Member>)
    ensures |r| == |ms| && forall i :: 0 <= i < |ms| ==> r[i] == CanonMember(o, ms[i])
    decreases ms
  {
    if ms == [] then [] else [CanonMember(o, ms[0])] + CanonMembers(o, ms[1..])
  }

  function Canonicalize(v: Json): Option<Text> { if Accepted(v) then Some(Print(Canon(CodePoint, v))) else None }

  // ----- values up to member order

  datatype Plain =
    | Nothing | Truth(on: bool) | Whole(n: int) | Fractional(r: real) | Chars(s: Text)
    | Items(items: seq<Plain>) | Table(members: map<Text, Plain>)

  function Meaning(v: Json): Plain
    decreases v
  {
    match v
    case Null => Nothing
    case Bool(on) => Truth(on)
    case Int(n) => Whole(n)
    case Float(r) => Fractional(r)
    case Str(s) => Chars(s)
    case Arr(items) => Items(Meanings(items))
    case Obj(members) => Table(TableOf(members))
  }

  function Meanings(items: seq<Json>): (r: seq<Plain>)
    ensures |r| == |items| && forall i :: 0 <= i < |items| ==> r[i] == Meaning(items[i])
    decreases items
  {
    if items == [] then [] else [Meaning(items[0])] + Meanings(items[1..])
  }

  function TableOf(ms: seq<Member>): map<Text, Plain>
    decreases ms
  {
    if ms == [] then map[] else TableOf(ms[1..])[ms[0].key := Meaning(ms[0].value)]
  }

  lemma {:induction false} TableHas(ms: seq<Member>)
    requires Distinct(ms)
    ensures forall k :: k in TableOf(ms) <==> HasKey(ms, k)
    ensures forall m :: m in ms ==> m.key in TableOf(ms) && TableOf(ms)[m.key] == Meaning(m.value)
  {
    hide Meaning;
    if ms != [] {
      assert ms[0] in ms && forall m :: m in ms <==> m == ms[0] || m in ms[1..];
      TableHas(ms[1..]);
      forall m | m in ms[1..] ensures m.key != ms[0].key {
        var i :| 0 <= i < |ms[1..]| && ms[1..][i] == m;
        assert ms[i + 1] == m;
      }
    }
  }

  // ----- the two orders on the keys of one object

  lemma BeforeTotal(o: Order, a: Text, b: Text)
    requires Scalars(a) && Scalars(b)
    ensures if a == b then !Before(o, a, b) else Before(o, a, b) != Before(o, b, a)
  {
    LessTotal(a, b);
    LessTotal(Utf16(a), Utf16(b));
    if Less(a, b) { OrdersAgreeIff(a, b); } else if Less(b, a) { OrdersAgreeIff(b, a); }
  }

  lemma BeforeTransitive(o: Order, a: Text, b: Text, c: Text)
    requires Before(o, a, b) && Before(o, b, c)
    ensures Before(o, a, c)
  {
    if o == CodePoint { LessTransitive(a, b, c); } else { LessTransitive(Utf16(a), Utf16(b), Utf16(c)); }
  }

  predicate ScalarKeys(ms: seq<Member>) { forall m :: m in ms ==> Scalars(m.key) }

  ghost predicate SameMembers(a: seq<Member>, b: seq<Member>) { forall m :: m in a <==> m in b }

  lemma {:induction false} InsertHas(o: Order, m: Member, ms: seq<Member>)
    ensures SameMembers(Insert(o, m, ms), [m] + ms)
  {
    if ms != [] && !Before(o, m.key, ms[0].key) {
      InsertHas(o, m, ms[1..]);
      assert ms == [ms[0]] + ms[1..];
    }
  }

  lemma SortedCons(o: Order, m: Member, ms: seq<Member>)
    requires Sorted(o, ms) && forall x :: x in ms ==> Before(o, m.key, x.key)
    ensures Sorted(o, [m] + ms)
  {
  }

  lemma SortedFirst(o: Order, ms: seq<Member>, x: Member)
    requires Sorted(o, ms) && ms != [] && x in ms[1..]
    ensures Before(o, ms[0].key, x.key)
  {
    hide Before;
    var i :| 0 <= i < |ms[1..]| && ms[1..][i] == x;
    assert x == ms[i + 1];
  }

  lemma {:induction false} InsertSorts(o: Order, m: Member, ms: seq<Member>)
    requires Sorted(o, ms) && ScalarKeys([m] + ms) && !HasKey(ms, m.key)
    ensures Sorted(o, Insert(o, m, ms))
  {
    assert m in [m] + ms && forall x :: x in ms ==> x in [m] + ms;
    hide Scalars;
    hide Before;
    if ms == [] {
    } else if Before(o, m.key, ms[0].key) {
      forall x | x in ms ensures Before(o, m.key, x.key) {
        if x != ms[0] {
          assert ms == [ms[0]] + ms[1..];
          SortedFirst(o, ms, x);
          BeforeTransitive(o, m.key, ms[0].key, x.key);
        }
      }
      SortedCons(o, m, ms);
    } else {
      assert ms[0] in ms && forall x :: x in ms[1..] ==> x in ms;
      InsertSorts(o, m, ms[1..]);
      InsertHas(o, m, ms[1..]);
      BeforeTotal(o, m.key, ms[0].key);
      forall x | x in ms[1..] ensures Before(o, ms[0].key, x.key) { SortedFirst(o, ms, x); }
      SortedCons(o, ms[0], Insert(o, m, ms[1..]));
    }
  }

  lemma {:induction false} SortSorts(o: Order, ms: seq<Member>)
    requires Distinct(ms) && ScalarKeys(ms)
    ensures Sorted(o, Sort(o, ms)) && SameMembers(Sort(o, ms), ms) && Distinct(Sort(o, ms))
  {
    if ms != [] {
      assert ms[0] in ms && forall x :: x in ms <==> x == ms[0] || x in ms[1..];
      SortSorts(o, ms[1..]);
      var rest := Sort(o, ms[1..]);
      forall m | m in rest ensures m.key != ms[0].key {
        var i :| 0 <= i < |ms[1..]| && ms[1..][i] == m;
        assert ms[i + 1] == m;
      }
      InsertSorts(o, ms[0], rest);
      InsertHas(o, ms[0], rest);
      SortedDistinct(o, Sort(o, ms));
    }
  }

  lemma SortedDistinct(o: Order, ms: seq<Member>)
    requires Sorted(o, ms)
    ensures Distinct(ms)
  {
    forall i, j | 0 <= i < j < |ms| ensures ms[i].key != ms[j].key {
      LessTotal(ms[i].key, ms[j].key);
      LessTotal(Utf16(ms[i].key), Utf16(ms[j].key));
    }
  }

  lemma {:induction false} SortedUnique(o: Order, a: seq<Member>, b: seq<Member>)
    requires Sorted(o, a) && Sorted(o, b) && SameMembers(a, b) && ScalarKeys(a)
    ensures a == b
    decreases |a|
  {
    assert (a != [] ==> a[0] in b) && (b != [] ==> b[0] in a);
    if a != [] && b != [] {
      SortedDistinct(o, a);
      SortedDistinct(o, b);
      hide Before;
      assert a[0] in b && b[0] in a && a[0] in a;
      if a[0] != b[0] { BeforeTotal(o, a[0].key, b[0].key); }
      SameRest(a, b);
      assert forall m :: m in a[1..] ==> m in a;
      SortedUnique(o, a[1..], b[1..]);
      assert a == [a[0]] + a[1..] && b == [b[0]] + b[1..];
    }
  }

  lemma RestHas(ms: seq<Member>, m: Member)
    requires ms != [] && Distinct(ms)
    ensures m in ms[1..] <==> m in ms && m != ms[0]
  {
    if m in ms[1..] {
      var i :| 0 <= i < |ms[1..]| && ms[1..][i] == m;
      assert ms[i + 1] == m;
    }
    assert ms == [ms[0]] + ms[1..];
  }

  lemma SameRest(a: seq<Member>, b: seq<Member>)
    requires a != [] && b != [] && a[0] == b[0] && SameMembers(a, b) && Distinct(a) && Distinct(b)
    ensures SameMembers(a[1..], b[1..])
  {
    hide Distinct;
    forall m ensures m in a[1..] <==> m in b[1..] {
      RestHas(a, m);
      RestHas(b, m);
    }
  }

  // ----- the canonical value

  lemma CanonKeys(o: Order, ms: seq<Member>)
    requires Distinct(ms) && ScalarKeys(ms)
    ensures Distinct(CanonMembers(o, ms)) && ScalarKeys(CanonMembers(o, ms))
  {
    hide Canon;
    hide Scalars;
  }

  /** Sorting changes neither the value nor whether it is accepted. */
  lemma {:induction false} CanonMeaning(o: Order, v: Json)
    requires Accepted(v) && WellFormed(v)
    ensures Meaning(Canon(o, v)) == Meaning(v) && Accepted(Canon(o, v)) && WellFormed(Canon(o, v))
    decreases v
  {
    match v
    case Arr(items) =>
      forall x | x in items ensures Meaning(Canon(o, x)) == Meaning(x) && Accepted(Canon(o, x)) && WellFormed(Canon(o, x)) {
        CanonMeaning(o, x);
      }
      assert Meanings(CanonItems(o, items)) == Meanings(items);
    case Obj(members) =>
      forall m | m in members
        ensures Meaning(Canon(o, m.value)) == Meaning(m.value) && Accepted(Canon(o, m.value)) && WellFormed(Canon(o, m.value))
      {
        CanonMeaning(o, m.value);
      }
      MembersMeaning(o, members);
    case _ =>
  }

  lemma CanonElements(o: Order, ms: seq<Member>)
    ensures forall m :: m in ms ==> CanonMember(o, m) in CanonMembers(o, ms)
    ensures forall m :: m in CanonMembers(o, ms) ==> exists x :: x in ms && m == CanonMember(o, x)
  {
    hide CanonMember;
    var c := CanonMembers(o, ms);
    forall m | m in ms ensures CanonMember(o, m) in c {
      var i :| 0 <= i < |ms| && ms[i] == m;
      assert c[i] in c;
    }
    forall m | m in c ensures exists x :: x in ms && m == CanonMember(o, x) {
      var i :| 0 <= i < |c| && c[i] == m;
      assert ms[i] in ms;
    }
  }

  lemma MembersMeaning(o: Order, ms: seq<Member>)
    requires Distinct(ms) && ScalarKeys(ms)
    requires forall m :: m in ms ==>
      Meaning(Canon(o, m.value)) == Meaning(m.value) && Accepted(Canon(o, m.value)) && WellFormed(Canon(o, m.value))
    ensures var r := Sort(o, CanonMembers(o, ms));
            TableOf(r) == TableOf(ms) && Accepted(Obj(r)) && WellFormed(Obj(r))
  {
    var c := CanonMembers(o, ms);
    var r := Sort(o, c);
    CanonKeys(o, ms);
    CanonElements(o, ms);
    SortSorts(o, c);
    hide Canon;
    hide CanonMembers;
    hide Meaning;
    hide Sort;
    hide TableOf;
    hide Scalars;
    hide Sorted;
    TablesAgree(o, ms, r);
    assert Accepted(Obj(r)) && WellFormed(Obj(r));
  }

  lemma TablesAgree(o: Order, ms: seq<Member>, r: seq<Member>)
    requires Distinct(ms) && Distinct(r)
    requires forall m :: m in ms ==> CanonMember(o, m) in r && Meaning(Canon(o, m.value)) == Meaning(m.value)
    requires forall m :: m in r ==> exists x :: x in ms && m == CanonMember(o, x)
    ensures TableOf(r) == TableOf(ms)
  {
    TableHas(ms);
    TableHas(r);
    hide Canon;
    hide Meaning;
    hide TableOf;
    hide Distinct;
    assert forall k :: HasKey(r, k) <==> HasKey(ms, k) by {
      forall k | HasKey(ms, k) ensures HasKey(r, k) { var m :| m in ms && m.key == k; assert CanonMember(o, m) in r; }
    }
    forall k | k in TableOf(ms) ensures TableOf(r)[k] == TableOf(ms)[k] {
      var m :| m in ms && m.key == k;
      assert CanonMember(o, m) in r;
    }
  }

  /** Values equal up to member order have one canonical value. */
  lemma {:induction false} CanonUnique(o: Order, v: Json, w: Json)
    requires Accepted(v) && WellFormed(v) && Accepted(w) && WellFormed(w) && Meaning(v) == Meaning(w)
    ensures Canon(o, v) == Canon(o, w)
    decreases v
  {
    match v
    case Arr(items) =>
      var others := w.items;
      assert |items| == |Meanings(items)| == |Meanings(others)| == |others|;
      forall i | 0 <= i < |items| ensures Canon(o, items[i]) == Canon(o, others[i]) {
        assert Meanings(items)[i] == Meanings(others)[i];
        CanonUnique(o, items[i], others[i]);
      }
      assert CanonItems(o, items) == CanonItems(o, others);
    case Obj(members) =>
      forall m, x | m in members && x in w.members && Meaning(m.value) == Meaning(x.value)
        ensures Canon(o, m.value) == Canon(o, x.value)
      {
        CanonUnique(o, m.value, x.value);
      }
      MembersUnique(o, members, w.members);
    case _ =>
  }

  lemma MembersUnique(o: Order, a: seq<Member>, b: seq<Member>)
    requires Distinct(a) && Distinct(b) && ScalarKeys(a) && ScalarKeys(b) && TableOf(a) == TableOf(b)
    requires forall m, x :: m in a && x in b && Meaning(m.value) == Meaning(x.value) ==> Canon(o, m.value) == Canon(o, x.value)
    ensures Sort(o, CanonMembers(o, a)) == Sort(o, CanonMembers(o, b))
  {
    var c, d := CanonMembers(o, a), CanonMembers(o, b);
    CanonKeys(o, a);
    CanonKeys(o, b);
    SortSorts(o, c);
    SortSorts(o, d);
    MembersWithin(o, a, b);
    MembersWithin(o, b, a);
    hide Canon;
    hide CanonMembers;
    hide Meaning;
    hide Sort;
    hide TableOf;
    hide Scalars;
    hide Before;
    hide Sorted;
    hide Distinct;
    SortedUnique(o, Sort(o, c), Sort(o, d));
  }

  lemma MembersWithin(o: Order, a: seq<Member>, b: seq<Member>)
    requires Distinct(a) && Distinct(b) && TableOf(a) == TableOf(b)
    requires forall m, x :: m in a && x in b && Meaning(m.value) == Meaning(x.value) ==> Canon(o, m.value) == Canon(o, x.value)
    ensures forall m :: m in CanonMembers(o, a) ==> m in CanonMembers(o, b)
  {
    TableHas(a);
    TableHas(b);
    CanonElements(o, a);
    CanonElements(o, b);
    hide Canon;
    hide CanonMembers;
    hide Meaning;
    hide TableOf;
    hide Distinct;
    forall m | m in CanonMembers(o, a) ensures m in CanonMembers(o, b) {
      var x :| x in a && m == CanonMember(o, x);
      assert HasKey(b, x.key);
      var y :| y in b && y.key == x.key;
      assert CanonMember(o, y) in CanonMembers(o, b);
    }
  }

  /** The loader reads the canonical text back as the same value, its members now in order. */
  lemma LoadCanonical(v: Json)
    requires WellFormed(v) && Accepted(v)
    ensures Load(Canonicalize(v).value) == Some(Canon(CodePoint, v)) && Meaning(Canon(CodePoint, v)) == Meaning(v)
  {
    CanonMeaning(CodePoint, v);
    LoadPrint(Canon(CodePoint, v));
    hide Load;
  }

  /** Equal canonical texts, exactly for values equal up to member order. */
  lemma EqualTextsIff(v: Json, w: Json)
    requires WellFormed(v) && WellFormed(w) && Accepted(v) && Accepted(w)
    ensures Canonicalize(v) == Canonicalize(w) <==> Meaning(v) == Meaning(w)
  {
    LoadCanonical(v);
    LoadCanonical(w);
    if Meaning(v) == Meaning(w) { CanonUnique(CodePoint, v, w); }
  }

  /** What the loader accepts is a fixed point of canonicalising twice. */
  lemma CanonicalIsStable(t: Text)
    requires Load(t).Some?
    ensures var c := Canonicalize(Load(t).value); c.Some? && Load(c.value).Some? && Canonicalize(Load(c.value).value) == c
  {
    var v := Load(t).value;
    LoadCanonical(v);
    CanonMeaning(CodePoint, v);
    CanonUnique(CodePoint, Canon(CodePoint, v), v);
    hide Load;
  }

  // ----- against RFC 8785

  predicate UncrossedKeys(ms: seq<Member>) { forall x, y :: x in ms && y in ms ==> !Crossed(x.key, y.key) }

  predicate Uncrossed(v: Json) {
    match v
    case Arr(items) => forall x :: x in items ==> Uncrossed(x)
    case Obj(members) => UncrossedKeys(members) && forall m :: m in members ==> Uncrossed(m.value)
    case _ => true
  }

  lemma OneOrderIff(ms: seq<Member>)
    requires Distinct(ms) && ScalarKeys(ms)
    ensures Sort(CodePoint, ms) == Sort(Utf16Unit, ms) <==> UncrossedKeys(ms)
  {
    var a, b := Sort(CodePoint, ms), Sort(Utf16Unit, ms);
    SortSorts(CodePoint, ms);
    SortSorts(Utf16Unit, ms);
    SortedBothIff(a);
    hide Sort;
    hide Sorted;
    hide Crossed;
    hide Distinct;
    if UncrossedKeys(ms) { SortedUnique(Utf16Unit, a, b); }
  }

  /** Members in code-point order are in UTF-16 order as well, exactly when no keys cross. */
  lemma SortedBothIff(ms: seq<Member>)
    requires Sorted(CodePoint, ms) && ScalarKeys(ms)
    ensures Sorted(Utf16Unit, ms) <==> UncrossedKeys(ms)
  {
    forall i, j | 0 <= i < j < |ms| ensures Before(Utf16Unit, ms[i].key, ms[j].key) == !Crossed(ms[i].key, ms[j].key) {
      assert ms[i] in ms && ms[j] in ms && Before(CodePoint, ms[i].key, ms[j].key);
      OrdersAgreeIff(ms[i].key, ms[j].key);
    }
    hide Crossed;
    hide Before;
    hide Scalars;
    if UncrossedKeys(ms) {
      forall i, j | 0 <= i < j < |ms| ensures Before(Utf16Unit, ms[i].key, ms[j].key) { assert ms[i] in ms && ms[j] in ms; }
    } else {
      var x, y :| x in ms && y in ms && Crossed(x.key, y.key);
      CrossedSymmetric(x.key, y.key);
      CrossedNotSelf(x.key);
      var i :| 0 <= i < |ms| && ms[i] == x;
      var j :| 0 <= j < |ms| && ms[j] == y;
      var low, high := if i < j then i else j, if i < j then j else i;
      assert !Before(Utf16Unit, ms[low].key, ms[high].key);
    }
  }

  lemma {:induction false} CrossedNotSelf(a: Text)
    ensures !Crossed(a, a)
  {
    if a != [] { CrossedNotSelf(a[1..]); }
  }

  /** Both orders give one canonical value, exactly when no object inside has two keys that cross. */
  lemma {:induction false} OneCanonIff(v: Json)
    requires Accepted(v) && WellFormed(v)
    ensures Canon(CodePoint, v) == Canon(Utf16Unit, v) <==> Uncrossed(v)
    decreases v
  {
    match v
    case Arr(items) =>
      forall x | x in items ensures Canon(CodePoint, x) == Canon(Utf16Unit, x) <==> Uncrossed(x) { OneCanonIff(x); }
      var c, u := CanonItems(CodePoint, items), CanonItems(Utf16Unit, items);
      assert c == u <==> forall i :: 0 <= i < |items| ==> c[i] == u[i];
    case Obj(members) =>
      forall m | m in members ensures Canon(CodePoint, m.value) == Canon(Utf16Unit, m.value) <==> Uncrossed(m.value) {
        OneCanonIff(m.value);
      }
      OneTableIff(members);
    case _ =>
  }

  lemma CanonUncrossed(o: Order, ms: seq<Member>)
    ensures UncrossedKeys(CanonMembers(o, ms)) <==> UncrossedKeys(ms)
  {
    CanonElements(o, ms);
    hide CanonMembers;
    hide Canon;
    hide Crossed;
    if !UncrossedKeys(ms) {
      var x, y :| x in ms && y in ms && Crossed(x.key, y.key);
      assert CanonMember(o, x).key == x.key && CanonMember(o, y).key == y.key;
    }
  }

  lemma SameAligned(a: seq<Member>, b: seq<Member>)
    requires |a| == |b| && (forall i :: 0 <= i < |a| ==> a[i].key == b[i].key) && Distinct(a) && SameMembers(a, b)
    ensures a == b
  {
    forall i | 0 <= i < |a| ensures a[i] == b[i] {
      assert a[i] in b;
      var j :| 0 <= j < |b| && b[j] == a[i];
      assert a[j].key == a[i].key;
    }
  }

  lemma OneTableIff(ms: seq<Member>)
    requires Distinct(ms) && ScalarKeys(ms)
    ensures Sort(CodePoint, CanonMembers(CodePoint, ms)) == Sort(Utf16Unit, CanonMembers(Utf16Unit, ms))
      <==> UncrossedKeys(ms) && forall m :: m in ms ==> Canon(CodePoint, m.value) == Canon(Utf16Unit, m.value)
  {
    var c, u := CanonMembers(CodePoint, ms), CanonMembers(Utf16Unit, ms);
    CanonKeys(CodePoint, ms);
    OneOrderIff(c);
    CanonUncrossed(CodePoint, ms);
    if Sort(CodePoint, c) == Sort(Utf16Unit, u) { SameSorted(ms); }
    SameCanon(ms);
  }

  lemma SameCanon(ms: seq<Member>)
    ensures CanonMembers(CodePoint, ms) == CanonMembers(Utf16Unit, ms)
      <==> forall m :: m in ms ==> Canon(CodePoint, m.value) == Canon(Utf16Unit, m.value)
  {
    hide Canon;
    var c, u := CanonMembers(CodePoint, ms), CanonMembers(Utf16Unit, ms);
    if forall m :: m in ms ==> Canon(CodePoint, m.value) == Canon(Utf16Unit, m.value) {
      forall i | 0 <= i < |ms| ensures c[i] == u[i] { assert ms[i] in ms; }
    } else {
      var m :| m in ms && Canon(CodePoint, m.value) != Canon(Utf16Unit, m.value);
      var i :| 0 <= i < |ms| && ms[i] == m;
      assert c[i] != u[i];
    }
  }

  lemma SameSorted(ms: seq<Member>)
    requires Distinct(ms) && ScalarKeys(ms)
    requires Sort(CodePoint, CanonMembers(CodePoint, ms)) == Sort(Utf16Unit, CanonMembers(Utf16Unit, ms))
    ensures CanonMembers(CodePoint, ms) == CanonMembers(Utf16Unit, ms)
  {
    var c, u := CanonMembers(CodePoint, ms), CanonMembers(Utf16Unit, ms);
    CanonSame(CodePoint, ms);
    CanonSame(Utf16Unit, ms);
    KeysAligned(ms);
    CanonKeys(CodePoint, ms);
    hide CanonMembers;
    hide Sort;
    hide Distinct;
    hide ScalarKeys;
    SameAligned(c, u);
  }

  lemma CanonSame(o: Order, ms: seq<Member>)
    requires Distinct(ms) && ScalarKeys(ms)
    ensures SameMembers(Sort(o, CanonMembers(o, ms)), CanonMembers(o, ms))
  {
    CanonKeys(o, ms);
    SortSorts(o, CanonMembers(o, ms));
  }

  lemma KeysAligned(ms: seq<Member>)
    ensures var c, u := CanonMembers(CodePoint, ms), CanonMembers(Utf16Unit, ms);
            |c| == |u| && forall i :: 0 <= i < |c| ==> c[i].key == u[i].key
  {
    hide Canon;
  }

  /** Members stand in UTF-16 order at every depth, as section 3.2.3 of RFC 8785 asks. */
  predicate Arranged(v: Json)
    decreases v
  {
    match v
    case Arr(items) => forall x :: x in items ==> Arranged(x)
    case Obj(members) => Sorted(Utf16Unit, members) && forall m :: m in members ==> Arranged(m.value)
    case _ => true
  }

  /** The text of RFC 8785 for v: that of an arranged value equal to it up to member order. */
  ghost predicate IsJcs(t: Text, v: Json) {
    exists w :: WellFormed(w) && Accepted(w) && Meaning(w) == Meaning(v) && Arranged(w) && IsText(t, w)
  }

  lemma {:induction false} CanonIsArranged(v: Json)
    requires WellFormed(v) && Accepted(v)
    ensures Arranged(Canon(Utf16Unit, v))
    decreases v
  {
    match v
    case Arr(items) => forall x | x in items ensures Arranged(Canon(Utf16Unit, x)) { CanonIsArranged(x); }
    case Obj(members) =>
      forall m | m in members ensures Arranged(Canon(Utf16Unit, m.value)) { CanonIsArranged(m.value); }
      CanonKeys(Utf16Unit, members);
      SortSorts(Utf16Unit, CanonMembers(Utf16Unit, members));
      CanonElements(Utf16Unit, members);
      hide Sort;
      hide Sorted;
      hide Distinct;
    case _ =>
  }

  lemma {:induction false} ArrangedIsCanon(v: Json)
    requires WellFormed(v) && Accepted(v) && Arranged(v)
    ensures Canon(Utf16Unit, v) == v
    decreases v
  {
    match v
    case Arr(items) =>
      forall i | 0 <= i < |items| ensures Canon(Utf16Unit, items[i]) == items[i] {
        assert items[i] in items;
        ArrangedIsCanon(items[i]);
      }
      assert CanonItems(Utf16Unit, items) == items;
    case Obj(members) =>
      forall i | 0 <= i < |members| ensures CanonMember(Utf16Unit, members[i]) == members[i] {
        assert members[i] in members;
        ArrangedIsCanon(members[i].value);
      }
      assert CanonMembers(Utf16Unit, members) == members;
      SortSorts(Utf16Unit, members);
      SortedUnique(Utf16Unit, Sort(Utf16Unit, members), members);
    case _ =>
  }

  /** There is exactly one such text. */
  lemma JcsIs(t: Text, v: Json)
    requires WellFormed(v) && Accepted(v)
    ensures IsJcs(t, v) <==> t == Print(Canon(Utf16Unit, v))
  {
    var canonical := Canon(Utf16Unit, v);
    CanonMeaning(Utf16Unit, v);
    CanonIsArranged(v);
    TextIs(t, canonical);
    forall w | WellFormed(w) && Accepted(w) && Meaning(w) == Meaning(v) && Arranged(w) && IsText(t, w) ensures t == Print(canonical) {
      CanonUnique(Utf16Unit, v, w);
      ArrangedIsCanon(w);
      TextIs(t, w);
    }
    hide Canon;
    hide Print;
    hide IsText;
    hide Arranged;
    hide Meaning;
    hide WellFormed;
    hide Accepted;
  }

  /** The canonical text is the one of RFC 8785, exactly for values without crossed keys. */
  lemma CanonicalIsJcsIff(v: Json)
    requires WellFormed(v) && Accepted(v)
    ensures Canonicalize(v).Some? && (IsJcs(Canonicalize(v).value, v) <==> Uncrossed(v))
  {
    OneCanonIff(v);
    CanonMeaning(CodePoint, v);
    CanonMeaning(Utf16Unit, v);
    LoadPrint(Canon(CodePoint, v));
    LoadPrint(Canon(Utf16Unit, v));
    JcsIs(Canonicalize(v).value, v);
    hide Load;
    hide Canon;
    hide IsJcs;
  }

  predicate BasicKeys(v: Json) {
    match v
    case Arr(items) => forall x :: x in items ==> BasicKeys(x)
    case Obj(members) => forall m :: m in members ==> (forall c :: c in m.key ==> c < 0x10000) && BasicKeys(m.value)
    case _ => true
  }

  lemma {:induction false} BasicNeverCross(a: Text, b: Text)
    requires (forall c :: c in a ==> c < 0x10000) && (forall c :: c in b ==> c < 0x10000)
    ensures !Crossed(a, b)
  {
    if a != [] && b != [] {
      assert a[0] in a && b[0] in b && (forall c :: c in a[1..] ==> c in a) && forall c :: c in b[1..] ==> c in b;
      BasicNeverCross(a[1..], b[1..]);
    }
  }

  lemma {:induction false} BasicIsUncrossed(v: Json)
    requires BasicKeys(v)
    ensures Uncrossed(v)
    decreases v
  {
    match v
    case Arr(items) => forall x | x in items ensures Uncrossed(x) { BasicIsUncrossed(x); }
    case Obj(members) =>
      forall m | m in members ensures Uncrossed(m.value) { BasicIsUncrossed(m.value); }
      forall x, y | x in members && y in members ensures !Crossed(x.key, y.key) { BasicNeverCross(x.key, y.key); }
    case _ =>
  }

  /** Keys of the basic plane alone: the canonical text is that of RFC 8785. */
  lemma BasicPlaneIsJcs(v: Json)
    requires WellFormed(v) && Accepted(v) && BasicKeys(v)
    ensures Canonicalize(v).Some? && IsJcs(Canonicalize(v).value, v)
  {
    BasicIsUncrossed(v);
    CanonicalIsJcsIff(v);
  }

  /** An accepted object whose canonical text is not that of RFC 8785. */
  lemma SomeAcceptedValueDiffers()
    ensures exists v :: WellFormed(v) && Accepted(v) && Canonicalize(v).Some? && !IsJcs(Canonicalize(v).value, v)
  {
    var a, b: Text := [0xFB33], [0x1F600];
    var m, n := Member(a, Null), Member(b, Null);
    var v := Obj([m, n]);
    assert a[0] != b[0] && Crossed(m.key, n.key);
    assert m in v.members && n in v.members && !UncrossedKeys(v.members);
    assert WellFormed(v) && Accepted(v);
    CanonicalIsJcsIff(v);
  }
}
