/** Widening value by value against building in one scan: index_am.rs against summary_build.rs. */
module Rebuild {
  import opened Base
  import opened Extents
  import opened Format
  import opened Coverage
  import opened Widening
  import opened Build

  /** The summary after each of `vs` has been inserted in turn. */
  function WidenMany(t: TypeOps, a: IndexAttr, c: ColSummary, vs: seq<Option<Datum>>): ColSummary {
    if vs == [] then c
    else WidenCol(t, a.collation, WidenMany(t, a, c, vs[..|vs| - 1]), vs[|vs| - 1]).col
  }

  // ---- with values that print ------------------------------------------------------------

  /** Every value and, for ranges, every extent the scan goes through, can be stored. */
  ghost predicate AllStorable(t: TypeOps, vs: seq<Option<Datum>>) {
    && (forall v | v in vs && v.Some? :: t.output(v.value).Some?)
    && (t.Kind() == Range ==> forall n :: 0 < n <= |NonNull(vs)| ==> t.output(Merged(t, NonNull(vs)[..n])).Some?)
  }

  /** Merging with a range read back from its text gives the same text. */
  ghost predicate MergeByText(t: TypeOps) {
    t.Kind() == Range ==> forall d: Datum, e: Datum | t.output(d).Some? && t.input(t.output(d).value).Some? ::
      t.output(t.merge(t.input(t.output(d).value).value, e)) == t.output(t.merge(d, e))
  }

  lemma {:induction false} NonNullAppend(vs: seq<Option<Datum>>, v: Option<Datum>)
    ensures NonNull(vs + [v]) == NonNull(vs) + if v.None? then [] else [v.value]
  {
    assert (vs + [v])[..|vs|] == vs;
  }

  lemma {:induction false} StorablePrefix(t: TypeOps, vs: seq<Option<Datum>>, v: Option<Datum>)
    requires AllStorable(t, vs + [v])
    ensures AllStorable(t, vs)
    ensures v.Some? ==> t.output(v.value).Some?
    ensures t.Kind() == Range && v.Some? ==> t.output(Merged(t, NonNull(vs) + [v.value])).Some?
  {
    NonNullAppend(vs, v);
    var ds := NonNull(vs);
    assert forall u | u in vs :: u in vs + [v];
    assert v in vs + [v];
    if t.Kind() == Range {
      forall n | 0 < n <= |ds| ensures t.output(Merged(t, ds[..n])).Some? {
        assert NonNull(vs + [v])[..n] == ds[..n];
      }
      if v.Some? {
        assert NonNull(vs + [v])[..|ds| + 1] == ds + [v.value];
      }
    }
  }

  lemma {:induction false} ScalarStep(t: TypeOps, a: IndexAttr, ds: seq<Datum>, d: Datum)
    requires Lawful(t) && t.Kind() == Scalar
    requires ds != [] ==> t.output(Least(t, a.collation, ds)).Some? && t.output(Greatest(t, a.collation, ds)).Some?
    requires t.output(d).Some?
    ensures var was, now := Bounds(t, a.collation, ds), Bounds(t, a.collation, ds + [d]);
      forall c: ColSummary :: c.min == was.0 && c.max == was.1 ==>
        WidenMinMax(t, a.collation, c, d).Some?
        && WidenMinMax(t, a.collation, c, d).value.col == c.(min := now.0, max := now.1)
  {
    hide Lawful, TypeOps.Kind;
    assert (ds + [d])[..|ds|] == ds;
    if ds != [] {
      var lo, hi := Least(t, a.collation, ds), Greatest(t, a.collation, ds);
      Reads(t, lo);
      Reads(t, hi);
      SameOrder(t, a.collation, d, t.input(t.output(lo).value).value, lo);
      SameOrder(t, a.collation, d, t.input(t.output(hi).value).value, hi);
    }
  }

  /** Comparing with a value read back from its text is comparing with the value. */
  lemma {:induction false} SameOrder(t: TypeOps, c: Oid, d: Datum, read: Datum, e: Datum)
    requires Lawful(t) && t.cmp.Some? && SameValue(t, read, e)
    ensures t.cmp.value(c, d, read) < 0 <==> t.cmp.value(c, d, e) < 0
    ensures t.cmp.value(c, d, read) > 0 <==> t.cmp.value(c, d, e) > 0
  {
    hide Lawful;
    Compares(t, c, d, read);
    Compares(t, c, d, e);
  }

  lemma {:induction false} RangeStepText(t: TypeOps, a: IndexAttr, ds: seq<Datum>, d: Datum, c: ColSummary)
    requires Lawful(t) && MergeByText(t) && t.Kind() == Range && !NamesGeometry(c.typeName)
    requires c.min == Bounds(t, a.collation, ds).0
    requires ds != [] ==> t.output(Merged(t, ds)).Some?
    requires t.output(Merged(t, ds + [d])).Some?
    ensures WidenOverlap(t, c, d).Some?
    ensures WidenOverlap(t, c, d).value.col == c.(min := Bounds(t, a.collation, ds + [d]).0)
  {
    hide Lawful, MergeByText, NamesGeometry;
    assert (ds + [d])[..|ds|] == ds;
    if ds != [] {
      Reads(t, Merged(t, ds));
      MergesText(t, Merged(t, ds), d);
    }
  }

  lemma {:induction false} MergesText(t: TypeOps, d: Datum, e: Datum)
    requires MergeByText(t) && t.Kind() == Range && t.output(d).Some? && t.input(t.output(d).value).Some?
    ensures t.output(t.merge(t.input(t.output(d).value).value, e)) == t.output(t.merge(d, e))
  {
  }

  lemma {:induction false} GeometryStepText(t: TypeOps, a: IndexAttr, ds: seq<Datum>, d: Datum, c: ColSummary)
    requires Lawful(t) && t.Kind() == Geometry && NamesGeometry(c.typeName)
    requires c.min == Bounds(t, a.collation, ds).0
    requires t.output(d).Some?
    ensures WidenOverlap(t, c, d).Some?
    ensures WidenOverlap(t, c, d).value.col == c.(min := Bounds(t, a.collation, ds + [d]).0)
  {
    hide Lawful, Hull;
    Reads(t, d);
    HullReads(t, ds);
    HullReads(t, ds + [d]);
    var read := t.input(t.output(d).value).value;
    HullConcat(t, ds, [d]);
    HullOne(t, d);
    HullOne(t, read);
    JoinCommutes(Hull(t, ds), t.extent(d));
    if c.min.Some? {
      var stored := t.input(c.min.value).value;
      HullConcat(t, [read], [stored]);
      HullOne(t, stored);
      SameHullSameText(t, [read] + [stored], ds + [d]);
    } else {
      assert [read] + [] == [read];
      SameHullSameText(t, [read], ds + [d]);
    }
    assert t.stExtent(ds + [d]) == GrownExtent(t, c, d).value;
  }

  lemma {:induction false} SameHullSameText(t: TypeOps, ds: seq<Datum>, es: seq<Datum>)
    requires Lawful(t) && t.Kind() == Geometry && Hull(t, ds) == Hull(t, es)
    ensures t.stExtent(ds) == t.stExtent(es)
  {
    hide Hull;
  }

  /** What folding `d` in makes of the summary of `ds`, when its bounds grow to those of `ds + [d]`. */
  lemma {:induction false} GrownIsBuilt(t: TypeOps, a: IndexAttr, name: Text, vs: seq<Option<Datum>>, d: Datum,
                                        flag: bool)
    requires t.Kind() != Unsupported
    requires NonNull(vs) != [] ==> !LostBound(t, Bounds(t, a.collation, NonNull(vs)))
    requires !LostBound(t, Bounds(t, a.collation, NonNull(vs) + [d]))
    requires var c, grown := BuiltCol(t, a, name, vs).(allNulls := false), Bounds(t, a.collation, NonNull(vs) + [d]);
      var w := if c.overlap then WidenOverlap(t, c, d) else WidenMinMax(t, a.collation, c, d);
      w.Some? && w.value.col == c.(min := grown.0, max := grown.1)
    ensures WidenCol(t, a.collation, BuiltCol(t, a, name, vs).(allNulls := flag), Some(d)).col
         == BuiltCol(t, a, name, vs + [Some(d)]).(allNulls := false)
  {
    NonNullAppend(vs, Some(d));
    NonNullMembers(vs);
    hide NonNull, Bounds, LostBound, WidenMinMax, WidenOverlap;
  }

  lemma {:induction false} UnsupportedMatches(t: TypeOps, a: IndexAttr, name: Text, vs: seq<Option<Datum>>, d: Datum,
                                              flag: bool)
    requires t.Kind() == Unsupported
    ensures WidenCol(t, a.collation, BuiltCol(t, a, name, vs).(allNulls := flag), Some(d)).col
         == BuiltCol(t, a, name, vs + [Some(d)]).(allNulls := false)
  {
    NonNullAppend(vs, Some(d));
    hide NonNull, WidenMinMax, WidenOverlap, TypeOps.Kind;
  }

  lemma {:induction false} NullKeepsBuilt(t: TypeOps, a: IndexAttr, name: Text, vs: seq<Option<Datum>>, flag: bool)
    ensures WidenCol(t, a.collation, BuiltCol(t, a, name, vs).(allNulls := flag), None).col
         == BuiltCol(t, a, name, vs + [None]).(allNulls := flag)
  {
    NonNullAppend(vs, None);
    NonNullMembers(vs);
    assert NonNull(vs) + [] == NonNull(vs);
    hide NonNull, Bounds, LostBound, WidenMinMax, WidenOverlap;
  }

  /** One insert keeps the summary equal to a rebuild's, but for the all-NULL flag. */
  lemma {:induction false} InsertMatchesRebuild(t: TypeOps, a: IndexAttr, name: Text, vs: seq<Option<Datum>>,
                                                v: Option<Datum>, flag: bool)
    requires Lawful(t) && MergeByText(t) && NamesGeometry(name) == (t.Kind() == Geometry)
    requires AllStorable(t, vs + [v])
    requires flag ==> NonNull(vs) == []
    ensures WidenCol(t, a.collation, BuiltCol(t, a, name, vs).(allNulls := flag), v).col
         == BuiltCol(t, a, name, vs + [v]).(allNulls := flag && v.None?)
  {
    if v.None? {
      NullKeepsBuilt(t, a, name, vs, flag);
    } else if t.Kind() == Unsupported {
      UnsupportedMatches(t, a, name, vs, v.value, flag);
    } else {
      hide Lawful, AllStorable, MergeByText, BuiltCol, NonNull, Bounds, LostBound, WidenCol, WidenMinMax, WidenOverlap;
      StorablePrefix(t, vs, v);
      BoundsStorable(t, a, vs);
      BoundsStorable(t, a, vs + [v]);
      NonNullAppend(vs, v);
      InsertGrows(t, a, name, vs, v.value);
      GrownIsBuilt(t, a, name, vs, v.value, flag);
    }
  }

  lemma {:induction false} InsertGrows(t: TypeOps, a: IndexAttr, name: Text, vs: seq<Option<Datum>>, d: Datum)
    requires Lawful(t) && MergeByText(t) && NamesGeometry(name) == (t.Kind() == Geometry) && t.Kind() != Unsupported
    requires AllStorable(t, vs + [Some(d)])
    ensures var c, grown := BuiltCol(t, a, name, vs).(allNulls := false), Bounds(t, a.collation, NonNull(vs) + [d]);
      var w := if c.overlap then WidenOverlap(t, c, d) else WidenMinMax(t, a.collation, c, d);
      w.Some? && w.value.col == c.(min := grown.0, max := grown.1)
  {
    var ds := NonNull(vs);
    StorablePrefix(t, vs, Some(d));
    BoundsStorable(t, a, vs);
    BoundsByKind(t, a, ds + [d]);
    BoundsByKind(t, a, ds);
    if t.Kind() == Scalar {
      ScalarStorable(t, a, vs);
      ScalarStep(t, a, ds, d);
    } else if t.Kind() == Range {
      RangeStorable(t, a, vs);
      RangeStepText(t, a, ds, d, BuiltCol(t, a, name, vs).(allNulls := false));
    } else {
      GeometryStepText(t, a, ds, d, BuiltCol(t, a, name, vs).(allNulls := false));
    }
  }

  lemma {:induction false} BoundsByKind(t: TypeOps, a: IndexAttr, ds: seq<Datum>)
    ensures t.Kind() != Scalar ==> Bounds(t, a.collation, ds).1.None?
  {
  }

  lemma {:induction false} RangeStorable(t: TypeOps, a: IndexAttr, vs: seq<Option<Datum>>)
    requires AllStorable(t, vs)
    ensures t.Kind() == Range && NonNull(vs) != [] ==> t.output(Merged(t, NonNull(vs))).Some?
  {
    var ds := NonNull(vs);
    assert ds[..|ds|] == ds;
  }

  lemma {:induction false} ScalarStorable(t: TypeOps, a: IndexAttr, vs: seq<Option<Datum>>)
    requires Lawful(t) && t.Kind() == Scalar && AllStorable(t, vs)
    ensures var ds := NonNull(vs);
      ds != [] ==> t.output(Least(t, a.collation, ds)).Some? && t.output(Greatest(t, a.collation, ds)).Some?
  {
    var ds := NonNull(vs);
    NonNullMembers(vs);
    if ds != [] {
      LeastIsLeast(t, a.collation, ds);
      GreatestIsGreatest(t, a.collation, ds);
    }
  }

  lemma {:induction false} BoundsStorable(t: TypeOps, a: IndexAttr, vs: seq<Option<Datum>>)
    requires Lawful(t) && AllStorable(t, vs)
    ensures NonNull(vs) != [] ==> !LostBound(t, Bounds(t, a.collation, NonNull(vs)))
  {
    if t.Kind() == Scalar {
      ScalarStorable(t, a, vs);
    } else {
      RangeStorable(t, a, vs);
    }
  }

  /**
   * Building over `xs` and inserting `ys` one by one stores what building over `xs + ys` stores.
   * Only the all-NULL flag can differ: inserts never set it.
   */
  lemma {:induction false} IncrementalIsRebuild(t: TypeOps, a: IndexAttr, name: Text,
                                                xs: seq<Option<Datum>>, ys: seq<Option<Datum>>)
    requires Lawful(t) && MergeByText(t) && NamesGeometry(name) == (t.Kind() == Geometry)
    requires AllStorable(t, xs + ys)
    ensures var rebuilt := BuiltCol(t, a, name, xs + ys);
      WidenMany(t, a, BuiltCol(t, a, name, xs), ys) == rebuilt.(allNulls := xs != [] && rebuilt.allNulls)
  {
    hide WidenCol, AllStorable, Lawful, MergeByText, BuiltCol, NonNull;
    if ys == [] {
      assert xs + ys == xs;
      AllNullsIff(t, a, name, xs);
    } else {
      var init, last := ys[..|ys| - 1], ys[|ys| - 1];
      assert xs + ys == (xs + init) + [last];
      StorablePrefix(t, xs + init, last);
      IncrementalIsRebuild(t, a, name, xs, init);
      AllNullsIff(t, a, name, xs + init);
      AllNullsIff(t, a, name, xs + ys);
      NonNullAppend(xs + init, last);
      var flag := xs != [] && BuiltCol(t, a, name, xs + init).allNulls;
      InsertMatchesRebuild(t, a, name, xs + init, last, flag);
    }
  }

  lemma {:induction false} AllNullsIff(t: TypeOps, a: IndexAttr, name: Text, vs: seq<Option<Datum>>)
    ensures BuiltCol(t, a, name, vs).allNulls <==> vs != [] && NonNull(vs) == []
  {
  }

  // ---- in general ------------------------------------------------------------------------

  /**
   * What is kept of a column that holds `vs`, however it was built, widened and made unbounded:
   * it admits all of `vs`, is unbounded wherever a build would be, and stores no less than the
   * extent of `vs`.
   */
  ghost predicate KeepsUp(t: TypeOps, a: IndexAttr, name: Text, vs: seq<Option<Datum>>, w: ColSummary) {
    && Describes(t, a, w)
    && (forall v | v in vs :: Covers(t, w, v))
    && (w.allNulls ==> vs != [] && NonNull(vs) == [])
    && (BuiltCol(t, a, name, vs).unbounded ==> w.unbounded)
    && (t.Kind() == Range && !w.unbounded ==> StoredExtent(t, w.min) == Hull(t, NonNull(vs)))
  }

  lemma {:induction false} BuiltKeepsUp(t: TypeOps, a: IndexAttr, name: Text, vs: seq<Option<Datum>>)
    requires Lawful(t) && NamesGeometry(name) == (t.Kind() == Geometry)
    ensures KeepsUp(t, a, name, vs, BuiltCol(t, a, name, vs))
  {
    hide Lawful, Covers, NonNull, Hull, Describes;
    BuiltDescribes(t, a, name, vs);
    forall v | v in vs ensures Covers(t, BuiltCol(t, a, name, vs), v) {
      BuiltCovers(t, a, name, vs, v);
    }
    AllNullsIff(t, a, name, vs);
    if t.Kind() == Range && !BuiltCol(t, a, name, vs).unbounded {
      ExtentIsTight(t, a, name, vs);
    }
    hide BuiltCol;
  }

  lemma {:induction false} DropKeepsUp(t: TypeOps, a: IndexAttr, name: Text, vs: seq<Option<Datum>>, w: ColSummary)
    requires KeepsUp(t, a, name, vs, w)
    ensures KeepsUp(t, a, name, vs, w.MadeUnbounded())
  {
    hide BuiltCol, NonNull, Hull, NamesGeometry, TypeOps.Kind;
  }

  /** A build that loses a bound to one more value had lost it before, or the value does not print. */
  lemma {:induction false} ScalarLoses(t: TypeOps, a: IndexAttr, name: Text, vs: seq<Option<Datum>>, d: Datum)
    requires Lawful(t) && t.Kind() == Scalar
    requires BuiltCol(t, a, name, vs + [Some(d)]).unbounded
    ensures BuiltCol(t, a, name, vs).unbounded || t.output(d).None?
  {
    NonNullAppend(vs, Some(d));
    var ds := NonNull(vs);
    hide Lawful, NonNull;
    assert (ds + [d])[..|ds|] == ds;
  }

  /** Widening by `d` makes the column unbounded wherever a build over one more value is. */
  lemma {:induction false} WidenLoses(t: TypeOps, a: IndexAttr, name: Text, vs: seq<Option<Datum>>, d: Datum,
                                      w: ColSummary)
    requires Lawful(t) && PrintsByExtent(t) && KeepsUp(t, a, name, vs, w) && !w.unbounded
    requires BuiltCol(t, a, name, vs + [Some(d)]).unbounded
    requires t.Kind() == Scalar || t.Kind() == Range
    ensures WidenCol(t, a.collation, w, Some(d)).col.unbounded
  {
    var seen := w.(allNulls := false);
    if t.Kind() == Scalar {
      ScalarLoses(t, a, name, vs, d);
      hide Lawful, BuiltCol, NonNull, Hull, Covers, NamesGeometry;
    } else {
      RangeLost(t, a, name, vs + [Some(d)]);
      NonNullAppend(vs, Some(d));
      hide Lawful, BuiltCol, NonNull, Covers, NamesGeometry, PrintsByExtent;
      HullConcat(t, NonNull(vs), [d]);
      HullOne(t, d);
      hide Hull;
      if GrownExtent(t, seen, d).Some? {
        MergedExtent(t, seen, d);
      }
    }
  }

  lemma {:induction false} MergedExtent(t: TypeOps, c: ColSummary, d: Datum)
    requires Lawful(t) && t.Kind() == Range && (c.min.Some? ==> t.input(c.min.value).Some?)
    ensures var merged := if c.min.None? then d else t.merge(t.input(c.min.value).value, d);
      t.extent(merged) == Join(StoredExtent(t, c.min), t.extent(d))
  {
    hide Lawful;
    if c.min.Some? {
      Merges(t, t.input(c.min.value).value, d);
    }
  }

  lemma {:induction false} NullKeepsUp(t: TypeOps, a: IndexAttr, name: Text, vs: seq<Option<Datum>>, w: ColSummary)
    requires Lawful(t) && KeepsUp(t, a, name, vs, w)
    ensures KeepsUp(t, a, name, vs + [None], WidenCol(t, a.collation, w, None).col)
  {
    WidenColCovers(t, a, w, None);
    NonNullAppend(vs, None);
    assert NonNull(vs + [None]) == NonNull(vs);
    NullKeepsBuilt(t, a, name, vs, false);
    hide Lawful, BuiltCol, NonNull, Hull, Covers, Describes;
    assert BuiltCol(t, a, name, vs + [None]).unbounded == BuiltCol(t, a, name, vs).unbounded;
  }

  /** The extent after one more value, if it is still known. */
  lemma {:induction false} RangeGrows(t: TypeOps, a: IndexAttr, name: Text, vs: seq<Option<Datum>>, d: Datum,
                                      w: ColSummary)
    requires Lawful(t) && t.Kind() == Range && KeepsUp(t, a, name, vs, w)
    ensures var after := WidenCol(t, a.collation, w, Some(d)).col;
      !after.unbounded ==> StoredExtent(t, after.min) == Hull(t, NonNull(vs + [Some(d)]))
  {
    var seen := w.(allNulls := false);
    hide Lawful, BuiltCol, NonNull, Covers, PrintsByExtent;
    NonNullAppend(vs, Some(d));
    HullConcat(t, NonNull(vs), [d]);
    HullOne(t, d);
    hide Hull;
    if !w.unbounded && GrownExtent(t, seen, d).Some? {
      GrownExtentIsJoin(t, seen, d);
    }
  }

  /** An insert keeps up with the build. */
  lemma {:induction false} InsertKeepsUp(t: TypeOps, a: IndexAttr, name: Text, vs: seq<Option<Datum>>, v: Option<Datum>,
                                         w: ColSummary)
    requires Lawful(t) && PrintsByExtent(t) && KeepsUp(t, a, name, vs, w)
    ensures KeepsUp(t, a, name, vs + [v], WidenCol(t, a.collation, w, v).col)
  {
    if v.None? {
      NullKeepsUp(t, a, name, vs, w);
    } else {
      var d, after := v.value, WidenCol(t, a.collation, w, v).col;
      WidenColCovers(t, a, w, v);
      if t.Kind() == Range {
        RangeGrows(t, a, name, vs, d, w);
      }
      if BuiltCol(t, a, name, vs + [v]).unbounded && !w.unbounded && (t.Kind() == Scalar || t.Kind() == Range) {
        WidenLoses(t, a, name, vs, d, w);
      }
      StaysUnbounded(t, a.collation, w, d);
      KindLoses(t, a, name, vs + [v]);
      hide Lawful, BuiltCol, NonNull, Hull, Covers, PrintsByExtent, WidenCol, Describes;
      DescribedUnbounded(t, a, after);
    }
  }

  /** Folding one of the values in again, under a collation that refines the entry's, keeps up. */
  lemma {:induction false} AgainKeepsUp(t: TypeOps, a: IndexAttr, name: Text, vs: seq<Option<Datum>>, v: Option<Datum>,
                                        w: ColSummary, second: Oid)
    requires Lawful(t) && KeepsUp(t, a, name, vs, w) && v in vs
    requires t.Kind() == Scalar ==> Refines(t, a.collation, second)
    ensures KeepsUp(t, a, name, vs, WidenCol(t, second, w, v).col)
  {
    WidenColDescribes(t, a, second, w, v);
    WidenColAgain(t, a, second, w, v);
    if v.Some? {
      StaysUnbounded(t, second, w, v.value);
      if t.Kind() == Range {
        SameExtent(t, a, name, vs, v.value, w, second);
      }
    }
    hide Lawful, BuiltCol, NonNull, Hull, Covers, Describes, Refines, GrownExtent, WidenMinMax;
  }

  /** The extent already takes the value in. */
  lemma {:induction false} SameExtent(t: TypeOps, a: IndexAttr, name: Text, vs: seq<Option<Datum>>, d: Datum,
                                      w: ColSummary, second: Oid)
    requires Lawful(t) && t.Kind() == Range && KeepsUp(t, a, name, vs, w) && Some(d) in vs
    ensures var after := WidenCol(t, second, w, Some(d)).col;
      !after.unbounded ==> StoredExtent(t, after.min) == Hull(t, NonNull(vs))
  {
    var seen := w.(allNulls := false);
    NonNullMembers(vs);
    HullUpper(t, NonNull(vs), d);
    JoinAbsorbs(Hull(t, NonNull(vs)), t.extent(d));
    hide Lawful, BuiltCol, NonNull, Covers, Hull;
    if !w.unbounded && GrownExtent(t, seen, d).Some? {
      GrownExtentIsJoin(t, seen, d);
    }
  }

  lemma {:induction false} StaysUnbounded(t: TypeOps, collation: Oid, w: ColSummary, d: Datum)
    ensures w.unbounded ==> WidenCol(t, collation, w, Some(d)).col.unbounded
    ensures !WidenCol(t, collation, w, Some(d)).col.allNulls
  {
    hide GrownExtent;
  }

  lemma {:induction false} KindLoses(t: TypeOps, a: IndexAttr, name: Text, vs: seq<Option<Datum>>)
    ensures t.Kind() == Geometry ==> !BuiltCol(t, a, name, vs).unbounded
  {
  }

  lemma {:induction false} DescribedUnbounded(t: TypeOps, a: IndexAttr, c: ColSummary)
    requires Describes(t, a, c)
    ensures t.Kind() == Unsupported ==> c.unbounded
  {
  }

  /** Keeping up does not depend on the session. */
  lemma {:induction false} KeepsUpAlike(t: TypeOps, u: TypeOps, a: IndexAttr, name: Text, vs: seq<Option<Datum>>,
                                        w: ColSummary)
    requires Lawful(t) && Alike(t, u)
    ensures KeepsUp(t, a, name, vs, w) <==> KeepsUp(u, a, name, vs, w)
  {
    hide Lawful, Covers, NonNull, SameRead;
    assert Describes(t, a, w) == Describes(u, a, w);
    BuiltAlike(t, u, a, name, vs);
    if Describes(t, a, w) {
      forall v ensures Covers(u, w, v) == Covers(t, w, v) {
        CoversAlike(t, u, w, v);
      }
      StoredAlike(t, u, w.min);
      HullAlike(t, u, NonNull(vs));
    }
    hide BuiltCol, Hull, Describes, StoredExtent, Alike;
  }

  lemma {:induction false} StoredAlike(t: TypeOps, u: TypeOps, text: Option<Text>)
    requires Alike(t, u) && (text.Some? ==> t.writes(text.value))
    ensures StoredExtent(u, text) == StoredExtent(t, text)
  {
    hide Lawful;
  }

  lemma {:induction false} HullAlike(t: TypeOps, u: TypeOps, ds: seq<Datum>)
    requires Alike(t, u)
    ensures Hull(u, ds) == Hull(t, ds)
  {
    hide Lawful;
    assert ExtentsOf(u, ds) == ExtentsOf(t, ds);
  }

  lemma {:induction false} BuiltAlike(t: TypeOps, u: TypeOps, a: IndexAttr, name: Text, vs: seq<Option<Datum>>)
    requires Alike(t, u)
    ensures BuiltCol(t, a, name, vs).unbounded == BuiltCol(u, a, name, vs).unbounded
  {
    hide Lawful, NonNull;
    FoldsAlike(t, u, a.collation, NonNull(vs));
    hide Least, Greatest, Merged;
  }

  lemma {:induction false} FoldsAlike(t: TypeOps, u: TypeOps, collation: Oid, ds: seq<Datum>)
    requires Alike(t, u)
    ensures ds != [] && t.cmp.Some? ==>
      Least(u, collation, ds) == Least(t, collation, ds) && Greatest(u, collation, ds) == Greatest(t, collation, ds)
    ensures ds != [] ==> Merged(u, ds) == Merged(t, ds)
  {
    hide Lawful;
    if |ds| > 1 {
      FoldsAlike(t, u, collation, ds[..|ds| - 1]);
    }
  }

  // ---- tightness ---------------------------------------------------------------------------

  lemma {:induction false} HullWithin(t: TypeOps, ds: seq<Datum>, e: Extent)
    requires forall i :: 0 <= i < |ds| ==> Within(t.extent(ds[i]), e)
    ensures Within(Hull(t, ds), e)
  {
    JoinAllIsLeast(ExtentsOf(t, ds), e);
  }

  /**
   * A built summary whose bounds were not lost admits no more than any summary that covers its values,
   * but that one of ranges or geometries built over nothing admits the empty ones.
   */
  lemma {:induction false} BuiltIsTightest(t: TypeOps, a: IndexAttr, name: Text, vs: seq<Option<Datum>>, c: ColSummary)
    requires Lawful(t) && Describes(t, a, c)
    requires !BuiltCol(t, a, name, vs).unbounded && (vs != [] || t.Kind() == Scalar)
    requires forall v | v in vs :: Covers(t, c, v)
    ensures Wider(t, BuiltCol(t, a, name, vs), c)
  {
    NullFlagsExact(t, a, name, vs);
    if NonNull(vs) == [] {
      NullsOnly(t, a, name, vs, c);
      return;
    }
    hide Lawful, NonNull, Hull, BuiltCol, TypeOps.Kind, Describes;
    NonNullMembers(vs);
    forall i | 0 <= i < |NonNull(vs)| ensures Covers(t, c, Some(NonNull(vs)[i])) {
      assert NonNull(vs)[i] in NonNull(vs);
    }
    DescribedUnbounded(t, a, c);
    BuiltDescribed(t, a, name, vs);
    if t.Kind() == Scalar {
      ScalarIsTightest(t, a, name, vs, c);
    } else if t.Kind() == Range || t.Kind() == Geometry {
      ExtentIsTightest(t, a, name, vs, c);
    }
  }

  /** Over NULLs only, the built summary admits NULL, if it admits anything. */
  lemma {:induction false} NullsOnly(t: TypeOps, a: IndexAttr, name: Text, vs: seq<Option<Datum>>, c: ColSummary)
    requires NonNull(vs) == [] && !BuiltCol(t, a, name, vs).unbounded && (vs != [] || t.Kind() == Scalar)
    requires forall v | v in vs :: Covers(t, c, v)
    ensures Wider(t, BuiltCol(t, a, name, vs), c)
  {
    NullFlagsExact(t, a, name, vs);
    hide NonNull, NamesGeometry;
  }

  lemma {:induction false} BuiltDescribed(t: TypeOps, a: IndexAttr, name: Text, vs: seq<Option<Datum>>)
    ensures t.Kind() == Unsupported ==> BuiltCol(t, a, name, vs).unbounded
  {
  }

  lemma {:induction false} ScalarIsTightest(t: TypeOps, a: IndexAttr, name: Text, vs: seq<Option<Datum>>, c: ColSummary)
    requires Lawful(t) && Describes(t, a, c) && t.Kind() == Scalar
    requires NonNull(vs) != [] && !BuiltCol(t, a, name, vs).unbounded
    requires forall v | v in vs :: Covers(t, c, v)
    ensures Wider(t, BuiltCol(t, a, name, vs), c)
  {
    NullFlagsExact(t, a, name, vs);
    var lo, hi := BoundsAreTight(t, a, name, vs);
    assert Covers(t, c, Some(lo)) && Covers(t, c, Some(hi));
    assert BuiltCol(t, a, name, vs).collation == a.collation && !BuiltCol(t, a, name, vs).overlap;
    hide Lawful, NonNull, Hull, BuiltCol, NamesGeometry;
  }

  lemma {:induction false} ExtentIsTightest(t: TypeOps, a: IndexAttr, name: Text, vs: seq<Option<Datum>>, c: ColSummary)
    requires Lawful(t) && Describes(t, a, c) && (t.Kind() == Range || t.Kind() == Geometry)
    requires NonNull(vs) != [] && !BuiltCol(t, a, name, vs).unbounded
    requires forall v | v in vs :: Covers(t, c, v)
    requires forall i :: 0 <= i < |NonNull(vs)| ==> Covers(t, c, Some(NonNull(vs)[i]))
    ensures Wider(t, BuiltCol(t, a, name, vs), c)
  {
    hide Lawful, NonNull, Hull, NamesGeometry, BuiltCol;
    NullFlagsExact(t, a, name, vs);
    ExtentIsTight(t, a, name, vs);
    BuiltOverlaps(t, a, name, vs);
    ExtentsCovered(t, NonNull(vs), c);
    forall v: Option<Datum> | Covers(t, BuiltCol(t, a, name, vs), v) ensures Covers(t, c, v) {
      if v.Some? && !c.unbounded {
        WithinTransitive(t.extent(v.value), Hull(t, NonNull(vs)), StoredExtent(t, c.min));
      }
    }
  }

  lemma {:induction false} BuiltOverlaps(t: TypeOps, a: IndexAttr, name: Text, vs: seq<Option<Datum>>)
    ensures t.Kind() == Range || t.Kind() == Geometry ==> BuiltCol(t, a, name, vs).overlap
  {
    hide Bounds, LostBound;
  }

  lemma {:induction false} ExtentsCovered(t: TypeOps, ds: seq<Datum>, c: ColSummary)
    requires c.overlap && ds != [] && forall i :: 0 <= i < |ds| ==> Covers(t, c, Some(ds[i]))
    ensures !c.allNulls && (c.unbounded || Within(Hull(t, ds), StoredExtent(t, c.min)))
  {
    assert Covers(t, c, Some(ds[0]));
    if !c.unbounded {
      HullWithin(t, ds, StoredExtent(t, c.min));
    }
  }

  lemma {:induction false} UnboundedIsWider(t: TypeOps, a: IndexAttr, name: Text, vs: seq<Option<Datum>>, w: ColSummary)
    requires w.unbounded && (w.allNulls ==> vs != [] && NonNull(vs) == []) && forall v | v in vs :: Covers(t, w, v)
    ensures Wider(t, BuiltCol(t, a, name, vs), w)
  {
    NullFlagsExact(t, a, name, vs);
    AllNullsIff(t, a, name, vs);
    hide NonNull, BuiltCol;
  }

  /** A column without values: nothing is admitted, or only what every column of its kind admits. */
  lemma {:induction false} EmptyIsWider(t: TypeOps, a: IndexAttr, name: Text, vs: seq<Option<Datum>>, w: ColSummary)
    requires KeepsUp(t, a, name, vs, w) && NonNull(vs) == [] && Lawful(t)
    ensures Wider(t, BuiltCol(t, a, name, vs), w)
  {
    NullFlagsExact(t, a, name, vs);
    HullEmpty(t);
    hide Lawful, Hull, NamesGeometry;
  }

  /** Whatever happened to it, a column that keeps up admits everything the built one does. */
  lemma {:induction false} KeepsUpIsWider(t: TypeOps, a: IndexAttr, name: Text, vs: seq<Option<Datum>>, w: ColSummary)
    requires Lawful(t) && KeepsUp(t, a, name, vs, w)
    ensures Wider(t, BuiltCol(t, a, name, vs), w)
  {
    assert vs == [] ==> NonNull(vs) == [];
    hide Lawful, Describes, Covers, BuiltCol, NonNull, Hull;
    if w.unbounded {
      UnboundedIsWider(t, a, name, vs, w);
    } else if NonNull(vs) == [] {
      EmptyIsWider(t, a, name, vs, w);
    } else {
      BuiltIsTightest(t, a, name, vs, w);
    }
  }
}
