/** Covering extents: ranges with inclusive, exclusive and infinite ends, and bounding boxes. */
module Extents {
  /** A position between the values of an ordered domain: just before or just after `at`. */
  datatype Cut = MinusInfinity | At(at: real, after: bool) | PlusInfinity

  predicate CutLess(a: Cut, b: Cut) {
    match (a, b)
    case (MinusInfinity, _) => b != MinusInfinity
    case (At(x, xAfter), At(y, yAfter)) => x < y || (x == y && !xAfter && yAfter)
    case (_, PlusInfinity) => a != PlusInfinity
    case _ => false
  }

  function CutMin(a: Cut, b: Cut): Cut { if CutLess(b, a) then b else a }

  function CutMax(a: Cut, b: Cut): Cut { if CutLess(a, b) then b else a }

  datatype Span = Span(lo: Cut, hi: Cut)

  const LINE := Span(MinusInfinity, PlusInfinity)

  /**
   * What an overlap operator sees of a value. `Nowhere` is the empty range or geometry. A
   * geometry is its bounding box; a range is a box that is as high as the plane.
   */
  datatype Extent = Nowhere | Box(x: Span, y: Span)

  predicate SpansMeet(a: Span, b: Span) {
    CutLess(a.lo, b.hi) && CutLess(b.lo, a.hi)
  }

  predicate Overlaps(a: Extent, b: Extent) {
    a.Box? && b.Box? && SpansMeet(a.x, b.x) && SpansMeet(a.y, b.y)
  }

  predicate Inside(a: Span, b: Span) {
    !CutLess(a.lo, b.lo) && !CutLess(b.hi, a.hi)
  }

  /** `a` lies within `b`. */
  predicate Within(a: Extent, b: Extent) {
    a.Nowhere? || (b.Box? && Inside(a.x, b.x) && Inside(a.y, b.y))
  }

  function Join(a: Extent, b: Extent): Extent {
    if a.Nowhere? then b else if b.Nowhere? then a else
    Box(Span(CutMin(a.x.lo, b.x.lo), CutMax(a.x.hi, b.x.hi)),
        Span(CutMin(a.y.lo, b.y.lo), CutMax(a.y.hi, b.y.hi)))
  }

  lemma {:induction false} WithinReflexive(a: Extent)
    ensures Within(a, a)
  {
  }

  lemma {:induction false} WithinTransitive(a: Extent, b: Extent, c: Extent)
    requires Within(a, b) && Within(b, c)
    ensures Within(a, c)
  {
  }

  lemma {:induction false} WithinAntisymmetric(a: Extent, b: Extent)
    requires Within(a, b) && Within(b, a)
    ensures a == b
  {
  }

  /** `Join` is the least extent that both lie within. */
  lemma {:induction false} JoinIsLeast(a: Extent, b: Extent, c: Extent)
    ensures Within(Join(a, b), c) <==> Within(a, c) && Within(b, c)
  {
  }

  lemma {:induction false} JoinUpper(a: Extent, b: Extent)
    ensures Within(a, Join(a, b)) && Within(b, Join(a, b))
  {
    JoinIsLeast(a, b, Join(a, b));
    WithinReflexive(Join(a, b));
  }

  lemma {:induction false} JoinAbsorbs(a: Extent, b: Extent)
    requires Within(b, a)
    ensures Join(a, b) == a
  {
    JoinUpper(a, b);
    WithinReflexive(a);
    JoinIsLeast(a, b, a);
    WithinAntisymmetric(Join(a, b), a);
  }

  /** What a value overlaps, everything it lies within overlaps too. */
  lemma {:induction false} OverlapMonotone(a: Extent, b: Extent, k: Extent)
    requires Within(a, b) && Overlaps(a, k)
    ensures Overlaps(b, k)
  {
  }

  /** The join of a sequence, in one pass from the left. */
  function JoinAll(es: seq<Extent>): Extent {
    if es == [] then Nowhere else Join(JoinAll(es[..|es| - 1]), es[|es| - 1])
  }

  lemma {:induction false} JoinAllIsLeast(es: seq<Extent>, c: Extent)
    ensures Within(JoinAll(es), c) <==> forall e | e in es :: Within(e, c)
  {
    if es != [] {
      var init, last := es[..|es| - 1], es[|es| - 1];
      assert es == init + [last];
      JoinAllIsLeast(init, c);
      JoinIsLeast(JoinAll(init), last, c);
    }
  }

  lemma {:induction false} JoinAllUpper(es: seq<Extent>, e: Extent)
    requires e in es
    ensures Within(e, JoinAll(es))
  {
    JoinAllIsLeast(es, JoinAll(es));
    WithinReflexive(JoinAll(es));
  }

  /** Joining in pieces gives the join of the whole. */
  lemma {:induction false} JoinAllConcat(a: seq<Extent>, b: seq<Extent>)
    ensures JoinAll(a + b) == Join(JoinAll(a), JoinAll(b))
  {
    var ab, j := JoinAll(a + b), Join(JoinAll(a), JoinAll(b));
    JoinIsLeast(JoinAll(a), JoinAll(b), j);
    WithinReflexive(j);
    JoinAllIsLeast(a, j);
    JoinAllIsLeast(b, j);
    JoinAllIsLeast(a + b, j);
    JoinAllIsLeast(a + b, ab);
    WithinReflexive(ab);
    JoinAllIsLeast(a, ab);
    JoinAllIsLeast(b, ab);
    JoinIsLeast(JoinAll(a), JoinAll(b), ab);
    WithinAntisymmetric(ab, j);
  }

  lemma {:induction false} JoinCommutes(a: Extent, b: Extent)
    ensures Join(a, b) == Join(b, a)
  {
  }
}
