/**
 * When everything prints and fits, a column kept up by inserts in any sessions means exactly what a
 * build would store.
 */
module SnugColumns {
  import opened Base
  import opened Extents
  import opened Format
  import opened Coverage
  import opened Widening
  import opened Build
  import opened Rebuild

  /**
   * What is kept of a column that holds `vs` while nothing is lost: its bounds are the lowest and the
   * highest rank, its extent is the values' own, and its null flags are exact, but for the all-NULL
   * flag, which only a build over some rows sets (`flag`).
   */
  ghost predicate Snug(t: TypeOps, a: IndexAttr, flag: bool, vs: seq<Option<Datum>>, w: ColSummary) {
    && Describes(t, a, w)
    && (w.unbounded <==> t.Kind() == Unsupported)
    && (w.hasNulls <==> None in vs)
    && (w.allNulls <==> flag && NonNull(vs) == [])
    && (t.Kind() == Scalar ==> SnugBounds(t, a.collation, NonNull(vs), w))
    && (t.Kind() == Range || t.Kind() == Geometry ==> SnugExtent(t, NonNull(vs), w))
  }

  ghost predicate SnugBounds(t: TypeOps, collation: Oid, ds: seq<Datum>, w: ColSummary)
    requires t.cmp.Some?
  {
    if ds == [] then w.min.None? && w.max.None? else
    && BoundsParse(t, w)
    && t.rank(collation, t.input(w.min.value).value) == t.rank(collation, Least(t, collation, ds))
    && t.rank(collation, t.input(w.max.value).value) == t.rank(collation, Greatest(t, collation, ds))
  }

  ghost predicate SnugExtent(t: TypeOps, ds: seq<Datum>, w: ColSummary) {
    (w.min.Some? ==> t.input(w.min.value).Some?) && StoredExtent(t, w.min) == Hull(t, ds)
  }

  // ---- a build --------------------------------------------------------------------------------

  lemma {:induction false} BuiltIsSnug(t: TypeOps, a: IndexAttr, name: Text, vs: seq<Option<Datum>>)
    requires Lawful(t) && AllStorable(t, vs) && NamesGeometry(name) == (t.Kind() == Geometry)
    ensures Snug(t, a, vs != [], vs, BuiltCol(t, a, name, vs))
  {
    BuiltDescribes(t, a, name, vs);
    AllNullsIff(t, a, name, vs);
    NullFlagsExact(t, a, name, vs);
    BoundsStorable(t, a, vs);
    if t.Kind() == Scalar {
      BuiltBounds(t, a, name, vs);
    } else if t.Kind() != Unsupported {
      ExtentIsTight(t, a, name, vs);
      BuiltReads(t, a, name, vs);
    }
    hide Lawful, NonNull, Hull, Bounds, SnugBounds, Describes, AllStorable;
  }

  lemma {:induction false} BuiltBounds(t: TypeOps, a: IndexAttr, name: Text, vs: seq<Option<Datum>>)
    requires Lawful(t) && AllStorable(t, vs) && t.Kind() == Scalar
    ensures SnugBounds(t, a.collation, NonNull(vs), BuiltCol(t, a, name, vs))
  {
    ScalarStorable(t, a, vs);
    hide Lawful, NonNull, AllStorable;
    var ds := NonNull(vs);
    if ds != [] {
      Reads(t, Least(t, a.collation, ds));
      Reads(t, Greatest(t, a.collation, ds));
    }
  }

  lemma {:induction false} BuiltReads(t: TypeOps, a: IndexAttr, name: Text, vs: seq<Option<Datum>>)
    requires Lawful(t) && (t.Kind() == Range || t.Kind() == Geometry)
    ensures var c := BuiltCol(t, a, name, vs); c.min.Some? ==> t.input(c.min.value).Some?
  {
    hide Lawful, NonNull, Hull;
    var ds := NonNull(vs);
    if t.Kind() == Geometry {
      HullReads(t, ds);
    } else if ds != [] && t.output(Merged(t, ds)).Some? {
      Reads(t, Merged(t, ds));
    }
  }

  // ---- an insert --------------------------------------------------------------------------------

  lemma {:induction false} NullStaysSnug(t: TypeOps, a: IndexAttr, flag: bool, vs: seq<Option<Datum>>, w: ColSummary,
                                         second: Oid)
    requires Lawful(t) && Snug(t, a, flag, vs, w)
    ensures Snug(t, a, flag, vs + [None], WidenCol(t, second, w, None).col)
  {
    WidenColDescribes(t, a, second, w, None);
    NonNullAppend(vs, None);
    assert NonNull(vs + [None]) == NonNull(vs);
    hide Lawful, NonNull, Hull, Describes, Least, Greatest;
  }

  /** Comparing by rank with the bounds is comparing with the extreme values. */
  lemma {:induction false} ScalarStaysSnug(t: TypeOps, a: IndexAttr, ds: seq<Datum>, d: Datum, w: ColSummary)
    requires Lawful(t) && t.Kind() == Scalar && t.output(d).Some? && SnugBounds(t, a.collation, ds, w)
    ensures WidenMinMax(t, a.collation, w, d).Some?
    ensures SnugBounds(t, a.collation, ds + [d], WidenMinMax(t, a.collation, w, d).value.col)
  {
    hide Lawful, TypeOps.Kind;
    assert (ds + [d])[..|ds|] == ds;
    Reads(t, d);
    if ds != [] {
      Compares(t, a.collation, d, t.input(w.min.value).value);
      Compares(t, a.collation, d, t.input(w.max.value).value);
      Compares(t, a.collation, d, Least(t, a.collation, ds));
      Compares(t, a.collation, d, Greatest(t, a.collation, ds));
    }
  }

  /** What moves a bound of its own rank or beyond under `second`, on the side it lies on, has that rank. */
  lemma {:induction false} BoundAgain(t: TypeOps, first: Oid, second: Oid, bound: Text, d: Datum)
    requires Lawful(t) && t.cmp.Some? && t.output(d).Some? && Refines(t, first, second)
    requires t.writes(bound) && t.input(bound).Some?
    ensures var b, text := t.input(bound).value, t.output(d).value;
      && t.input(text).Some? && t.rank(first, t.input(text).value) == t.rank(first, d)
      && (t.cmp.value(second, d, b) < 0 ==> t.rank(first, d) <= t.rank(first, b))
      && (t.cmp.value(second, d, b) > 0 ==> t.rank(first, b) <= t.rank(first, d))
  {
    hide Lawful, Refines;
    Reads(t, d);
    Compares(t, second, d, t.input(bound).value);
    RefinesAt(t, first, second, t.output(d).value, bound);
    RefinesAt(t, first, second, bound, t.output(d).value);
  }

  lemma {:induction false} InBetween(t: TypeOps, collation: Oid, ds: seq<Datum>, d: Datum)
    requires Lawful(t) && t.cmp.Some? && d in ds
    ensures t.rank(collation, Least(t, collation, ds)) <= t.rank(collation, d)
    ensures t.rank(collation, d) <= t.rank(collation, Greatest(t, collation, ds))
  {
    LeastIsLeast(t, collation, ds);
    GreatestIsGreatest(t, collation, ds);
  }

  /** A value the bounds take in moves no bound, but to a value of the same rank. */
  lemma {:induction false} ScalarAgain(t: TypeOps, a: IndexAttr, ds: seq<Datum>, d: Datum, w: ColSummary, second: Oid)
    requires Lawful(t) && t.Kind() == Scalar && t.output(d).Some? && SnugBounds(t, a.collation, ds, w) && d in ds
    requires Written(t, w) && Refines(t, a.collation, second)
    ensures WidenMinMax(t, second, w, d).Some?
    ensures SnugBounds(t, a.collation, ds, WidenMinMax(t, second, w, d).value.col)
  {
    InBetween(t, a.collation, ds, d);
    var low, high := t.rank(a.collation, Least(t, a.collation, ds)), t.rank(a.collation, Greatest(t, a.collation, ds));
    MinMaxKept(t, a.collation, second, w, d, low, high);
    hide Lawful, TypeOps.Kind, Refines, Least, Greatest, WidenMinMax, Written;
  }

  lemma {:induction false} MinMaxKept(t: TypeOps, first: Oid, second: Oid, w: ColSummary, d: Datum, low: real,
                                      high: real)
    requires Lawful(t) && t.cmp.Some? && t.output(d).Some? && Refines(t, first, second)
    requires Written(t, w) && BoundsParse(t, w) && low <= t.rank(first, d) <= high
    requires t.rank(first, t.input(w.min.value).value) == low && t.rank(first, t.input(w.max.value).value) == high
    ensures WidenMinMax(t, second, w, d).Some?
    ensures var c := WidenMinMax(t, second, w, d).value.col;
      && BoundsParse(t, c)
      && t.rank(first, t.input(c.min.value).value) == low && t.rank(first, t.input(c.max.value).value) == high
  {
    hide Lawful, TypeOps.Kind, Refines;
    BoundAgain(t, first, second, w.min.value, d);
    BoundAgain(t, first, second, w.max.value, d);
  }

  /** The extent of `ds` is stored, and so is that of `es`, which is the join of it and the value. */
  lemma {:induction false} ExtentStaysSnug(t: TypeOps, ds: seq<Datum>, d: Datum, es: seq<Datum>, w: ColSummary)
    requires Lawful(t) && (t.Kind() == Range || t.Kind() == Geometry) && t.output(d).Some? && SnugExtent(t, ds, w)
    requires NamesGeometry(w.typeName) == (t.Kind() == Geometry)
    requires Hull(t, es) == Join(Hull(t, ds), t.extent(d))
    requires t.Kind() == Range ==> PrintsByExtent(t) && es != [] && t.output(Merged(t, es)).Some?
    ensures WidenOverlap(t, w, d).Some?
    ensures SnugExtent(t, es, WidenOverlap(t, w, d).value.col)
  {
    hide Lawful, Hull, NamesGeometry, Merged;
    Reads(t, d);
    if t.Kind() == Range {
      MergedIsHull(t, es);
      MergedExtent(t, w, d);
      var merged := if w.min.None? then d else t.merge(t.input(w.min.value).value, d);
      assert t.extent(merged) == t.extent(Merged(t, es));
      Reads(t, merged);
    } else {
      HullReads(t, [t.input(t.output(d).value).value] + if w.min.None? then [] else [t.input(w.min.value).value]);
    }
    GrownExtentIsJoin(t, w, d);
  }

  lemma {:induction false} Stored(t: TypeOps, vs: seq<Option<Datum>>, d: Datum)
    requires AllStorable(t, vs) && Some(d) in vs
    ensures t.output(d).Some? && d in NonNull(vs)
    ensures t.Kind() == Range ==> t.output(Merged(t, NonNull(vs))).Some?
  {
    NonNullMembers(vs);
    assert NonNull(vs)[..|NonNull(vs)|] == NonNull(vs);
  }

  lemma {:induction false} InsertStaysSnug(t: TypeOps, a: IndexAttr, flag: bool, vs: seq<Option<Datum>>,
                                           v: Option<Datum>, w: ColSummary)
    requires Lawful(t) && PrintsByExtent(t) && AllStorable(t, vs + [v]) && Snug(t, a, flag, vs, w)
    ensures Snug(t, a, flag, vs + [v], WidenCol(t, a.collation, w, v).col)
  {
    if v.None? {
      NullStaysSnug(t, a, flag, vs, w, a.collation);
    } else {
      var d, ds, seen := v.value, NonNull(vs), w.(allNulls := false);
      WidenColDescribes(t, a, a.collation, w, v);
      NonNullAppend(vs, v);
      assert v in vs + [v];
      Stored(t, vs + [v], d);
      hide Lawful, NonNull, Least, Greatest, AllStorable, PrintsByExtent, Merged;
      if t.Kind() == Scalar {
        ScalarStaysSnug(t, a, ds, d, seen);
      } else if t.Kind() != Unsupported {
        HullConcat(t, ds, [d]);
        HullOne(t, d);
        ExtentStaysSnug(t, ds, d, ds + [d], seen);
      }
      hide Hull, SnugBounds, SnugExtent, WidenMinMax, WidenOverlap, NamesGeometry, Written;
      Assembled(t, a, flag, vs + [v], w, a.collation, d);
    }
  }

  /** The parts of a widened column. */
  lemma {:induction false} Assembled(t: TypeOps, a: IndexAttr, flag: bool, vs: seq<Option<Datum>>, w: ColSummary,
                                     second: Oid, d: Datum)
    requires Describes(t, a, w) && (w.unbounded <==> t.Kind() == Unsupported) && (w.hasNulls <==> None in vs)
    requires Describes(t, a, WidenCol(t, second, w, Some(d)).col) && NonNull(vs) != []
    requires var seen, ds := w.(allNulls := false), NonNull(vs);
      && (t.Kind() == Scalar ==>
            WidenMinMax(t, second, seen, d).Some?
            && SnugBounds(t, a.collation, ds, WidenMinMax(t, second, seen, d).value.col))
      && (t.Kind() == Range || t.Kind() == Geometry ==>
            WidenOverlap(t, seen, d).Some? && SnugExtent(t, ds, WidenOverlap(t, seen, d).value.col))
    ensures Snug(t, a, flag, vs, WidenCol(t, second, w, Some(d)).col)
  {
    hide NonNull, Hull, SnugBounds, SnugExtent, GrownExtent, Written, NamesGeometry;
  }

  lemma {:induction false} AgainStaysSnug(t: TypeOps, a: IndexAttr, flag: bool, vs: seq<Option<Datum>>,
                                          v: Option<Datum>, w: ColSummary, second: Oid)
    requires Lawful(t) && PrintsByExtent(t) && AllStorable(t, vs) && Snug(t, a, flag, vs, w) && v in vs
    requires t.Kind() == Scalar ==> Refines(t, a.collation, second)
    ensures Snug(t, a, flag, vs, WidenCol(t, second, w, v).col)
  {
    WidenColDescribes(t, a, second, w, v);
    if v.None? {
      hide Lawful, NonNull, Hull, Describes, Least, Greatest;
    } else {
      var d, ds, seen := v.value, NonNull(vs), w.(allNulls := false);
      Stored(t, vs, d);
      HullUpper(t, ds, d);
      JoinAbsorbs(Hull(t, ds), t.extent(d));
      hide Lawful, NonNull, Least, Greatest, AllStorable, PrintsByExtent, Merged, Hull, Refines;
      if t.Kind() == Scalar {
        ScalarAgain(t, a, ds, d, seen, second);
      } else if t.Kind() != Unsupported {
        ExtentStaysSnug(t, ds, d, ds, seen);
      }
      hide SnugBounds, SnugExtent, WidenMinMax, WidenOverlap, NamesGeometry, Written;
      Assembled(t, a, flag, vs, w, second, d);
    }
  }

  // ---- what it means ----------------------------------------------------------------------------

  /** Two snug columns over the same values admit the same. */
  lemma {:induction false} SnugAdmits(t: TypeOps, a: IndexAttr, flag: bool, other: bool, vs: seq<Option<Datum>>,
                                      w: ColSummary, c: ColSummary)
    requires Snug(t, a, flag, vs, w) && Snug(t, a, other, vs, c)
    ensures forall v: Option<Datum> :: Covers(t, w, v) <==> Covers(t, c.(allNulls := flag && NonNull(vs) == []), v)
  {
    hide NonNull, Hull, Least, Greatest, NamesGeometry, Written;
  }

  lemma {:induction false} StorableAlike(t: TypeOps, u: TypeOps, vs: seq<Option<Datum>>)
    requires Alike(t, u) && AllStorable(t, vs)
    ensures AllStorable(u, vs)
  {
    hide Lawful, SameRead, NonNull;
    assert u.Kind() == t.Kind();
    forall v | v in vs && v.Some? ensures u.output(v.value).Some? {
      PrintsLike(t, u, v.value);
    }
    forall n | t.Kind() == Range && 0 < n <= |NonNull(vs)| ensures u.output(Merged(u, NonNull(vs)[..n])).Some? {
      FoldsAlike(t, u, 0, NonNull(vs)[..n]);
      PrintsLike(t, u, Merged(t, NonNull(vs)[..n]));
    }
  }

  lemma {:induction false} PrintsLike(t: TypeOps, u: TypeOps, d: Datum)
    requires Alike(t, u)
    ensures u.output(d).Some? == t.output(d).Some?
  {
    hide Lawful, SameRead;
  }

  /** Being snug does not depend on the session. */
  lemma {:induction false} SnugAlike(t: TypeOps, u: TypeOps, a: IndexAttr, flag: bool, vs: seq<Option<Datum>>,
                                     w: ColSummary)
    requires Alike(t, u)
    ensures Snug(t, a, flag, vs, w) <==> Snug(u, a, flag, vs, w)
  {
    hide Lawful, NonNull, SameRead;
    assert Describes(t, a, w) == Describes(u, a, w) && u.Kind() == t.Kind() && u.cmp == t.cmp && u.rank == t.rank;
    if Describes(t, a, w) {
      StoredAlike(t, u, w.min);
      HullAlike(t, u, NonNull(vs));
      FoldsAlike(t, u, a.collation, NonNull(vs));
      BoundAlike(t, u, w.min);
      BoundAlike(t, u, w.max);
    }
    hide Hull, Describes, StoredExtent, Least, Greatest, Alike, TypeOps.Kind;
  }

  lemma {:induction false} BoundAlike(t: TypeOps, u: TypeOps, text: Option<Text>)
    requires Alike(t, u) && (text.Some? ==> t.writes(text.value))
    ensures text.Some? ==> u.input(text.value).Some? == t.input(text.value).Some?
    ensures text.Some? && t.input(text.value).Some? ==>
      forall c: Oid :: u.rank(c, u.input(text.value).value) == t.rank(c, t.input(text.value).value)
  {
    hide Lawful;
  }
}
