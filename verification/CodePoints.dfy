/**
  Text as code points, and the two orders a sorted object can follow: the code-point order of Python's
  strings, and the UTF-16 order section 3.2.3 of RFC 8785 asks for.
*/
module CodePoints {
  /** Surrogates are included: a Python string may hold them alone. */
  type Code = c: nat | c <= 0x10FFFF

  type Text = seq<Code>

  predicate Surrogate(c: Code) { 0xD800 <= c <= 0xDFFF }

  predicate Scalars(t: Text) { forall c :: c in t ==> !Surrogate(c) }

  /** Lexicographic order by code, for code points and for UTF-16 units alike. */
  predicate Less(a: Text, b: Text) {
    b != [] && (a == [] || a[0] < b[0] || (a[0] == b[0] && Less(a[1..], b[1..])))
  }

  function Units(c: Code): Text {
    if c < 0x10000 then [c] else [0xD800 + (c - 0x10000) / 0x400, 0xDC00 + (c - 0x10000) % 0x400]
  }

  function Utf16(t: Text): Text { if t == [] then [] else Units(t[0]) + Utf16(t[1..]) }

  /** At the first difference one text has a supplementary character and the other one from U+E000 up. */
  predicate Crossed(a: Text, b: Text) {
    && a != [] && b != []
    && if a[0] == b[0] then Crossed(a[1..], b[1..]) else Apart(a[0], b[0]) || Apart(b[0], a[0])
  }

  predicate Apart(c: Code, d: Code) { c >= 0x10000 && 0xE000 <= d < 0x10000 }

  lemma {:induction false} LessTotal(a: Text, b: Text)
    ensures if a == b then !Less(a, b) else Less(a, b) != Less(b, a)
  {
    if a != [] && b != [] {
      LessTotal(a[1..], b[1..]);
      assert a == [a[0]] + a[1..] && b == [b[0]] + b[1..];
    }
  }

  lemma {:induction false} LessTransitive(a: Text, b: Text, c: Text)
    requires Less(a, b) && Less(b, c)
    ensures Less(a, c)
  {
    if a != [] && a[0] == b[0] == c[0] { LessTransitive(a[1..], b[1..], c[1..]); }
  }

  lemma {:induction false} LessAfter(p: Text, a: Text, b: Text)
    ensures Less(p + a, p + b) == Less(a, b)
  {
    if p == [] {
      assert p + a == a && p + b == b;
    } else {
      assert (p + a)[1..] == p[1..] + a && (p + b)[1..] == p[1..] + b;
      LessAfter(p[1..], a, b);
    }
  }

  lemma UnitsOrder(c: Code, d: Code, x: Text, y: Text)
    requires c < d && !Surrogate(c) && !Surrogate(d)
    ensures Less(Units(c) + x, Units(d) + y) == !Apart(d, c)
    ensures Less(Units(d) + y, Units(c) + x) == Apart(d, c)
  {
    var a, b := Units(c) + x, Units(d) + y;
    if c >= 0x10000 {
      assert a[1..][0] == Units(c)[1] && b[1..][0] == Units(d)[1];
    } else {
      assert a[0] == c && b[0] == Units(d)[0];
    }
  }

  /** Texts of scalar values sort alike by code point and by UTF-16 unit exactly when they do not cross. */
  lemma {:induction false} OrdersAgreeIff(a: Text, b: Text)
    requires Scalars(a) && Scalars(b) && Less(a, b)
    ensures Less(Utf16(a), Utf16(b)) == !Crossed(a, b)
    ensures Less(Utf16(b), Utf16(a)) == Crossed(a, b)
  {
    if a != [] {
      assert a[0] in a && b[0] in b;
      if a[0] == b[0] {
        OrdersAgreeIff(a[1..], b[1..]);
        LessAfter(Units(a[0]), Utf16(a[1..]), Utf16(b[1..]));
        LessAfter(Units(a[0]), Utf16(b[1..]), Utf16(a[1..]));
      } else {
        UnitsOrder(a[0], b[0], Utf16(a[1..]), Utf16(b[1..]));
      }
    }
  }

  lemma {:induction false} CrossedSymmetric(a: Text, b: Text)
    ensures Crossed(a, b) == Crossed(b, a)
  {
    if a != [] && b != [] && a[0] == b[0] { CrossedSymmetric(a[1..], b[1..]); }
  }
}
