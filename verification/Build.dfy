/** Building a leaf's summary by scanning it: summary_build.rs. */
module Build {
  import opened Base
  import opened Extents
  import opened Format
  import opened Coverage

  /** How many geometries are gathered before their extent is taken. */
  const GEOMETRY_BATCH: nat := 1000

  datatype Accumulator =
    | MinMaxAcc(min: Option<Datum>, max: Option<Datum>)
    | RangeAcc(extent: Option<Datum>)
    | GeometryAcc(batch: seq<Datum>, text: Option<Text>)
    | UnsupportedAcc

  // ---- what the scan of a column gives ---------------------------------------------------

  function NonNull(vs: seq<Option<Datum>>): seq<Datum> {
    if vs == [] then [] else
    var init, last := NonNull(vs[..|vs| - 1]), vs[|vs| - 1];
    if last.None? then init else init + [last.value]
  }

  /** The first of the least values. */
  function Least(t: TypeOps, collation: Oid, ds: seq<Datum>): Datum
    requires ds != [] && t.cmp.Some?
  {
    var last := ds[|ds| - 1];
    if |ds| == 1 then last else
    var m := Least(t, collation, ds[..|ds| - 1]);
    if t.cmp.value(collation, last, m) < 0 then last else m
  }

  /** The first of the greatest values. */
  function Greatest(t: TypeOps, collation: Oid, ds: seq<Datum>): Datum
    requires ds != [] && t.cmp.Some?
  {
    var last := ds[|ds| - 1];
    if |ds| == 1 then last else
    var m := Greatest(t, collation, ds[..|ds| - 1]);
    if t.cmp.value(collation, last, m) > 0 then last else m
  }

  function Merged(t: TypeOps, ds: seq<Datum>): Datum
    requires ds != []
  {
    var last := ds[|ds| - 1];
    if |ds| == 1 then last else t.merge(Merged(t, ds[..|ds| - 1]), last)
  }

  /** `min` and `max` of the summary of non-NULL values `ds`, before a lost bound is noticed. */
  function Bounds(t: TypeOps, collation: Oid, ds: seq<Datum>): (Option<Text>, Option<Text>)
  {
    match t.Kind()
    case Scalar => if ds == [] then (None, None)
                   else (t.output(Least(t, collation, ds)), t.output(Greatest(t, collation, ds)))
    case Range => (if ds == [] then None else t.output(Merged(t, ds)), None)
    case Geometry => (t.stExtent(ds), None)
    case Unsupported => (None, None)
  }

  /** When a bound that is needed does not print, nothing is known of the values. */
  predicate LostBound(t: TypeOps, bounds: (Option<Text>, Option<Text>)) {
    match t.Kind()
    case Scalar => bounds.0.None? || bounds.1.None?
    case Range => bounds.0.None?
    case _ => false
  }

  /** The summary of a column that holds exactly `vs`. */
  function BuiltCol(t: TypeOps, a: IndexAttr, typeName: Text, vs: seq<Option<Datum>>): ColSummary
  {
    var ds := NonNull(vs);
    var bounds := Bounds(t, a.collation, ds);
    var c := ColSummary(a.attnum, t.Kind() == Range || t.Kind() == Geometry, typeName, a.collation,
                        bounds.0, bounds.1, |ds| < |vs|, ds == [] && vs != [], t.Kind() == Unsupported);
    if c.unbounded || (ds != [] && LostBound(t, bounds)) then c.MadeUnbounded() else c
  }

  lemma {:induction false} NonNullMembers(vs: seq<Option<Datum>>)
    ensures forall d | d in NonNull(vs) :: Some(d) in vs
    ensures forall v | v in vs && v.Some? :: v.value in NonNull(vs)
    ensures |NonNull(vs)| <= |vs|
    ensures None in vs <==> |NonNull(vs)| < |vs|
  {
    if vs != [] {
      NonNullMembers(vs[..|vs| - 1]);
      assert vs == vs[..|vs| - 1] + [vs[|vs| - 1]];
    }
  }

  lemma {:induction false} LeastIsLeast(t: TypeOps, collation: Oid, ds: seq<Datum>)
    requires Lawful(t) && ds != [] && t.cmp.Some?
    ensures Least(t, collation, ds) in ds
    ensures forall d | d in ds :: t.rank(collation, Least(t, collation, ds)) <= t.rank(collation, d)
  {
    var init, last := ds[..|ds| - 1], ds[|ds| - 1];
    assert ds == init + [last];
    if |ds| > 1 {
      LeastIsLeast(t, collation, init);
      var m := Least(t, collation, init);
      assert SignIs(t.cmp.value(collation, last, m), t.rank(collation, last), t.rank(collation, m));
    }
  }

  lemma {:induction false} GreatestIsGreatest(t: TypeOps, collation: Oid, ds: seq<Datum>)
    requires Lawful(t) && ds != [] && t.cmp.Some?
    ensures Greatest(t, collation, ds) in ds
    ensures forall d | d in ds :: t.rank(collation, d) <= t.rank(collation, Greatest(t, collation, ds))
  {
    var init, last := ds[..|ds| - 1], ds[|ds| - 1];
    assert ds == init + [last];
    if |ds| > 1 {
      GreatestIsGreatest(t, collation, init);
      var m := Greatest(t, collation, init);
      assert SignIs(t.cmp.value(collation, last, m), t.rank(collation, last), t.rank(collation, m));
    }
  }

  lemma {:induction false} MergedIsHull(t: TypeOps, ds: seq<Datum>)
    requires Lawful(t) && t.Kind() == Range && ds != []
    ensures t.extent(Merged(t, ds)) == Hull(t, ds)
  {
    hide Lawful, Hull, TypeOps.Kind;
    var init, last := ds[..|ds| - 1], ds[|ds| - 1];
    HullOne(t, last);
    if |ds| == 1 {
      assert ds == [last];
    } else {
      MergedIsHull(t, init);
      assert ds == init + [last];
      HullConcat(t, init, [last]);
      Merges(t, Merged(t, init), last);
    }
  }

  /** The null flags say exactly which values were scanned. */
  lemma {:induction false} NullFlagsExact(t: TypeOps, a: IndexAttr, typeName: Text, vs: seq<Option<Datum>>)
    ensures var c := BuiltCol(t, a, typeName, vs);
      && (c.hasNulls <==> None in vs)
      && (c.allNulls <==> vs != [] && forall v | v in vs :: v.None?)
  {
    NonNullMembers(vs);
    if vs != [] && NonNull(vs) == [] {
      forall v | v in vs ensures v.None? {
        if v.Some? {
          assert false; // its value would be in `NonNull(vs)`
        }
      }
    }
    if vs != [] && NonNull(vs) != [] {
      var d := NonNull(vs)[0];
      assert d in NonNull(vs);
    }
  }

  /** A covering extent is the least one that every scanned value lies within. */
  lemma {:induction false} ExtentIsTight(t: TypeOps, a: IndexAttr, typeName: Text, vs: seq<Option<Datum>>)
    requires Lawful(t) && (t.Kind() == Range || t.Kind() == Geometry)
    requires !BuiltCol(t, a, typeName, vs).unbounded
    ensures StoredExtent(t, BuiltCol(t, a, typeName, vs).min) == Hull(t, NonNull(vs))
  {
    var ds := NonNull(vs);
    if ds == [] {
      HullEmpty(t);
    } else if t.Kind() == Range {
      MergedIsHull(t, ds);
      var m := Merged(t, ds);
      assert SameValue(t, t.input(t.output(m).value).value, m);
    }
  }

  /** A scalar's bounds are scanned values, up to rank. */
  lemma {:induction false} BoundsAreTight(t: TypeOps, a: IndexAttr, typeName: Text, vs: seq<Option<Datum>>)
    returns (lo: Datum, hi: Datum)
    requires Lawful(t) && t.Kind() == Scalar && NonNull(vs) != []
    requires !BuiltCol(t, a, typeName, vs).unbounded
    ensures Some(lo) in vs && Some(hi) in vs
    ensures var c := BuiltCol(t, a, typeName, vs);
      && BoundsParse(t, c)
      && SameValue(t, t.input(c.min.value).value, lo)
      && SameValue(t, t.input(c.max.value).value, hi)
      && forall d | d in NonNull(vs) :: t.rank(a.collation, lo) <= t.rank(a.collation, d) <= t.rank(a.collation, hi)
  {
    var ds := NonNull(vs);
    lo, hi := Least(t, a.collation, ds), Greatest(t, a.collation, ds);
    LeastIsLeast(t, a.collation, ds);
    GreatestIsGreatest(t, a.collation, ds);
    NonNullMembers(vs);
    assert SameValue(t, t.input(t.output(lo).value).value, lo);
    assert SameValue(t, t.input(t.output(hi).value).value, hi);
  }

  /**
   * What the catalogs say of a type decides what is stored. A type that can be copied, is no range and no
   * geometry and has a compare function is bounded by values that were scanned, if they all print.
   */
  lemma {:induction false} ScalarIsBracketed(t: TypeOps, a: IndexAttr, typeName: Text, vs: seq<Option<Datum>>)
    returns (lo: Datum, hi: Datum)
    requires Lawful(t) && t.typlen != -2 && t.typtype != 'r' && t.cmp.Some?
    requires t.name != [103, 101, 111, 109, 101, 116, 114, 121]
    requires NonNull(vs) != [] && forall v | v in vs && v.Some? :: t.output(v.value).Some?
    ensures Some(lo) in vs && Some(hi) in vs
    ensures var c := BuiltCol(t, a, typeName, vs);
      && !c.unbounded && !c.overlap && BoundsParse(t, c)
      && SameValue(t, t.input(c.min.value).value, lo) && SameValue(t, t.input(c.max.value).value, hi)
      && forall d | Some(d) in vs :: t.rank(a.collation, lo) <= t.rank(a.collation, d) <= t.rank(a.collation, hi)
  {
    var ds := NonNull(vs);
    NonNullMembers(vs);
    LeastIsLeast(t, a.collation, ds);
    GreatestIsGreatest(t, a.collation, ds);
    PrintedIsBounded(t, a, typeName, vs);
    hide Lawful, NonNull, Least, Greatest, BuiltCol;
    lo, hi := BoundsAreTight(t, a, typeName, vs);
  }

  lemma {:induction false} PrintedIsBounded(t: TypeOps, a: IndexAttr, typeName: Text, vs: seq<Option<Datum>>)
    requires t.typlen != -2 && t.typtype != 'r' && t.cmp.Some? && t.name != [103, 101, 111, 109, 101, 116, 114, 121]
    requires var ds := NonNull(vs);
      ds != [] && t.output(Least(t, a.collation, ds)).Some? && t.output(Greatest(t, a.collation, ds)).Some?
    ensures t.Kind() == Scalar && !BuiltCol(t, a, typeName, vs).unbounded && !BuiltCol(t, a, typeName, vs).overlap
  {
    hide NonNull, Least, Greatest;
  }

  /** A range, or a type named geometry, that can be copied, stores the extent of what was scanned. */
  lemma {:induction false} ExtentIsStored(t: TypeOps, a: IndexAttr, typeName: Text, vs: seq<Option<Datum>>)
    requires Lawful(t) && t.typlen != -2
    requires if t.typtype == 'r' then forall d: Datum | t.extent(d) == Hull(t, NonNull(vs)) :: t.output(d).Some?
             else t.name == [103, 101, 111, 109, 101, 116, 114, 121]
    ensures var c := BuiltCol(t, a, typeName, vs);
      c.overlap && !c.unbounded && c.max.None? && StoredExtent(t, c.min) == Hull(t, NonNull(vs))
  {
    if t.typtype == 'r' {
      RangeLost(t, a, typeName, vs);
    }
    ExtentIsTight(t, a, typeName, vs);
    hide Lawful, NonNull, Hull;
  }

  /** Before anything is scanned only the types in neither case are unbounded, and the entry is its column's. */
  lemma {:induction false} StartsUnbounded(t: TypeOps, a: IndexAttr, typeName: Text, vs: seq<Option<Datum>>)
    ensures var c := BuiltCol(t, a, typeName, vs);
      c.attnum == a.attnum && c.collation == a.collation && c.typeName == typeName
    ensures BuiltCol(t, a, typeName, []).unbounded <==>
      t.typlen == -2 || (t.typtype != 'r' && t.name != [103, 101, 111, 109, 101, 116, 114, 121] && t.cmp.None?)
  {
    hide Least, Greatest, Merged;
  }

  ghost predicate Lowest(t: TypeOps, collation: Oid, ds: seq<Datum>, d: Datum) {
    d in ds && forall e | e in ds :: t.rank(collation, d) <= t.rank(collation, e)
  }

  ghost predicate Highest(t: TypeOps, collation: Oid, ds: seq<Datum>, d: Datum) {
    d in ds && forall e | e in ds :: t.rank(collation, e) <= t.rank(collation, d)
  }

  /**
   * A scalar column is unbounded only if an extreme value does not print, and is unbounded if none
   * of the lowest values prints, or none of the highest.
   */
  lemma {:induction false} ScalarLost(t: TypeOps, a: IndexAttr, typeName: Text, vs: seq<Option<Datum>>)
    requires Lawful(t) && t.Kind() == Scalar && NonNull(vs) != []
    ensures var c, ds := BuiltCol(t, a, typeName, vs), NonNull(vs);
      && (c.unbounded ==> exists d ::
            t.output(d).None? && (Lowest(t, a.collation, ds, d) || Highest(t, a.collation, ds, d)))
      && ((forall d | Lowest(t, a.collation, ds, d) :: t.output(d).None?) ==> c.unbounded)
      && ((forall d | Highest(t, a.collation, ds, d) :: t.output(d).None?) ==> c.unbounded)
  {
    var ds := NonNull(vs);
    LeastIsLeast(t, a.collation, ds);
    GreatestIsGreatest(t, a.collation, ds);
    hide Lawful, NonNull, Least, Greatest, TypeOps.Kind;
    assert Lowest(t, a.collation, ds, Least(t, a.collation, ds));
    assert Highest(t, a.collation, ds, Greatest(t, a.collation, ds));
  }

  /** Whether a range prints depends on what it covers, not on how it came about. */
  ghost predicate PrintsByExtent(t: TypeOps) {
    t.Kind() == Range ==>
      forall d: Datum, e: Datum | t.extent(d) == t.extent(e) :: t.output(d).Some? == t.output(e).Some?
  }

  /**
   * A range column is unbounded if no range that covers just its values prints, and bounded if every
   * such range does; where all ranges that cover the same print alike, that is exact.
   */
  lemma {:induction false} RangeLost(t: TypeOps, a: IndexAttr, typeName: Text, vs: seq<Option<Datum>>)
    requires Lawful(t) && t.Kind() == Range
    ensures var c, ds := BuiltCol(t, a, typeName, vs), NonNull(vs);
      && (ds != [] && (forall d: Datum | t.extent(d) == Hull(t, ds) :: t.output(d).None?) ==> c.unbounded)
      && (c.unbounded ==> ds != [] && exists d: Datum :: t.extent(d) == Hull(t, ds) && t.output(d).None?)
      && (PrintsByExtent(t) ==>
            (c.unbounded <==> ds != [] && forall d: Datum | t.extent(d) == Hull(t, ds) :: t.output(d).None?))
  {
    var ds := NonNull(vs);
    if ds != [] {
      MergedIsHull(t, ds);
      hide Lawful, NonNull, Hull, Merged;
      assert t.extent(Merged(t, ds)) == Hull(t, ds);
    }
  }

  lemma {:induction false} BuiltDescribes(t: TypeOps, a: IndexAttr, typeName: Text, vs: seq<Option<Datum>>)
    requires Lawful(t) && NamesGeometry(typeName) == (t.Kind() == Geometry)
    ensures Describes(t, a, BuiltCol(t, a, typeName, vs))
  {
    hide Lawful, NonNull, Least, Greatest, Merged, NamesGeometry;
    var ds := NonNull(vs);
    match t.Kind()
    case Scalar =>
      if ds != [] {
        var lo, hi := Least(t, a.collation, ds), Greatest(t, a.collation, ds);
        if t.output(lo).Some? { Reads(t, lo); }
        if t.output(hi).Some? { Reads(t, hi); }
      }
    case Range =>
      if ds != [] && t.output(Merged(t, ds)).Some? {
        Reads(t, Merged(t, ds));
      }
    case Geometry => HullReads(t, ds);
    case Unsupported =>
  }

  /** Every scanned value is admitted. */
  lemma {:induction false} BuiltCovers(t: TypeOps, a: IndexAttr, typeName: Text, vs: seq<Option<Datum>>,
                                       v: Option<Datum>)
    requires Lawful(t) && v in vs
    ensures Covers(t, BuiltCol(t, a, typeName, vs), v)
  {
    NullFlagsExact(t, a, typeName, vs);
    if v.Some? && !BuiltCol(t, a, typeName, vs).unbounded {
      NonNullMembers(vs);
      if t.Kind() == Scalar {
        var lo, hi := BoundsAreTight(t, a, typeName, vs);
      } else {
        ExtentIsTight(t, a, typeName, vs);
        HullUpper(t, NonNull(vs), v.value);
      }
    }
  }

  // ---- a whole summary -------------------------------------------------------------------

  /** The values at one position of a sequence of index tuples. */
  function ColumnAt(tuples: seq<seq<Option<Datum>>>, p: nat): (vs: seq<Option<Datum>>)
    ensures |vs| == |tuples|
    ensures forall i :: 0 <= i < |tuples| ==> vs[i] == if p < |tuples[i]| then tuples[i][p] else None
  {
    seq(|tuples|, i requires 0 <= i < |tuples| => if p < |tuples[i]| then tuples[i][p] else None)
  }

  /** The summary of a table whose index tuples are `tuples`. */
  ghost function Built(types: Types, names: Oid -> Text, attrs: seq<IndexAttr>, tuples: seq<seq<Option<Datum>>>)
    : (cols: seq<ColSummary>)
    ensures |cols| == |Positions(attrs)|
  {
    var ps := Positions(attrs);
    seq(|ps|, k requires 0 <= k < |ps| =>
      BuiltCol(types(attrs[ps[k]].typ), attrs[ps[k]], names(attrs[ps[k]].typ), ColumnAt(tuples, ps[k])))
  }

  /** Type names end in ".geometry" for the geometry type only. */
  ghost predicate NamesLaw(types: Types, names: Oid -> Text) {
    forall o: Oid :: NamesGeometry(names(o)) == (types(o).Kind() == Geometry)
  }

  /** The built summary admits every scanned row. */
  lemma {:induction false} BuildCovers(types: Types, names: Oid -> Text, attrs: seq<IndexAttr>,
                    tuples: seq<seq<Option<Datum>>>, row: Row, i: nat)
    requires LawfulTypes(types) && NamesLaw(types, names)
    requires i < |tuples| && TupleOf(attrs, row, tuples[i])
    ensures var cols := Built(types, names, attrs, tuples);
      DescribesAll(types, attrs, cols) && CoversRow(types, attrs, cols, row)
  {
    BuildDescribes(types, names, attrs, tuples);
    var s, ps := Summarized(attrs), Positions(attrs);
    forall k | 0 <= k < |s|
      ensures Covers(types(s[k].typ), Built(types, names, attrs, tuples)[k], Value(row, s[k].attnum))
    {
      var p := ps[k];
      assert ColumnAt(tuples, p)[i] == Value(row, s[k].attnum);
      BuiltCovers(types(s[k].typ), s[k], names(s[k].typ), ColumnAt(tuples, p), Value(row, s[k].attnum));
    }
  }

  lemma {:induction false} BuildDescribes(types: Types, names: Oid -> Text, attrs: seq<IndexAttr>,
                                          tuples: seq<seq<Option<Datum>>>)
    requires LawfulTypes(types) && NamesLaw(types, names)
    ensures DescribesAll(types, attrs, Built(types, names, attrs, tuples))
  {
    hide BuiltCol, Describes, Lawful;
    var s, ps := Summarized(attrs), Positions(attrs);
    forall k | 0 <= k < |s|
      ensures Describes(types(s[k].typ), s[k], Built(types, names, attrs, tuples)[k])
    {
      BuiltDescribes(types(s[k].typ), s[k], names(s[k].typ), ColumnAt(tuples, ps[k]));
    }
  }

  // ---- the code --------------------------------------------------------------------------

  class ColumnBuild {
    const indexPos: nat
    const attr: IndexAttr
    const t: TypeOps
    const typeName: Text
    const batchLimit: nat
    var nonnull: nat
    var nulls: nat
    var acc: Accumulator
    /** The values added so far, and how many of the non-NULL ones the stored extent accounts for. */
    ghost var seen: seq<Option<Datum>>
    ghost var flushed: nat

    ghost predicate Valid()
      reads this
    {
      && Lawful(t) && nonnull == |NonNull(seen)| && nonnull + nulls == |seen| && batchLimit > 0
      && Accumulated(NonNull(seen))
    }

    ghost predicate Accumulated(ds: seq<Datum>)
      reads this
    {
      match t.Kind()
      case Scalar => acc == if ds == [] then MinMaxAcc(None, None)
        else MinMaxAcc(Some(Least(t, attr.collation, ds)), Some(Greatest(t, attr.collation, ds)))
      case Range => acc == RangeAcc(if ds == [] then None else Some(Merged(t, ds)))
      case Geometry => flushed <= |ds| && acc == GeometryAcc(ds[flushed..], t.stExtent(ds[..flushed]))
      case Unsupported => acc == UnsupportedAcc
    }

    constructor (indexPos: nat, attr: IndexAttr, t: TypeOps, typeName: Text, batchLimit: nat)
      requires Lawful(t) && batchLimit > 0
      ensures Valid() && seen == []
      ensures this.indexPos == indexPos && this.attr == attr && this.t == t && this.typeName == typeName
    {
      this.indexPos, this.attr, this.t, this.typeName, this.batchLimit := indexPos, attr, t, typeName, batchLimit;
      nonnull, nulls, seen, flushed := 0, 0, [], 0;
      acc := match t.Kind()
        case Scalar => MinMaxAcc(None, None)
        case Range => RangeAcc(None)
        case Geometry => GeometryAcc([], None)
        case Unsupported => UnsupportedAcc;
      new;
      HullEmpty(t);
    }

    /** One column's part of `build_callback`. */
    method AddValue(value: Option<Datum>)
      requires Valid()
      modifies this
      ensures Valid() && seen == old(seen) + [value]
    {
      seen := seen + [value];
      assert seen[..|seen| - 1] == old(seen);
      if value.None? {
        nulls := nulls + 1;
        return;
      }
      nonnull := nonnull + 1;
      Add(value.value, NonNull(old(seen)));
    }

    method Add(value: Datum, ghost ds: seq<Datum>)
      requires Lawful(t) && Accumulated(ds) && batchLimit > 0
      modifies this`acc, this`flushed
      ensures Accumulated(ds + [value])
    {
      assert (ds + [value])[..|ds + [value]| - 1] == ds;
      match acc {
        case MinMaxAcc(lo, hi) =>
          if lo.Some? && hi.Some? {
            if t.cmp.value(attr.collation, value, lo.value) < 0 {
              acc := acc.(min := Some(value));
            }
            if t.cmp.value(attr.collation, value, hi.value) > 0 {
              acc := acc.(max := Some(value));
            }
          } else {
            acc := MinMaxAcc(Some(value), Some(value));
          }
        case RangeAcc(extent) =>
          acc := RangeAcc(Some(if extent.None? then value else t.merge(extent.value, value)));
        case GeometryAcc(batch, extent) =>
          acc := GeometryAcc(batch + [value], extent);
          assert ds[flushed..] + [value] == (ds + [value])[flushed..];
          assert ds[..flushed] == (ds + [value])[..flushed];
          if |batch| + 1 >= batchLimit {
            FlushGeometry(ds + [value]);
          }
        case UnsupportedAcc =>
      }
    }

    /** The extent so far joins the batch, so no batch boundary shows in the result. */
    method FlushGeometry(ghost ds: seq<Datum>)
      requires Lawful(t) && t.Kind() == Geometry && Accumulated(ds)
      modifies this`acc, this`flushed
      ensures Accumulated(ds) && acc == GeometryAcc([], t.stExtent(ds))
    {
      var batch := acc.batch;
      var extent := acc.text;
      BatchIsAll(t, ds, flushed);
      hide Lawful, Hull;
      if extent.Some? {
        match t.input(extent.value) {
          case Some(d) =>
            batch := batch + [d];
          case None =>
            assert false; // an extent that was stored can always be read again
        }
      }
      if batch == [] {
        return;
      }
      flushed := |ds|;
      acc := GeometryAcc([], t.stExtent(batch));
    }

    /** One column's part of `finish`. */
    method Finish() returns (out: ColSummary)
      requires Valid()
      modifies this`acc, this`flushed
      ensures Valid() && out == BuiltCol(t, attr, typeName, seen)
    {
      hide Lawful;
      if acc.GeometryAcc? {
        FlushGeometry(NonNull(seen));
      }
      var overlap, min, max, unbounded := false, None, None, false;
      match acc {
        case MinMaxAcc(lo, hi) =>
          min := if lo.None? then None else t.output(lo.value);
          max := if hi.None? then None else t.output(hi.value);
        case RangeAcc(extent) =>
          overlap := true;
          min := if extent.None? then None else t.output(extent.value);
        case GeometryAcc(_, extent) =>
          overlap := true;
          min := extent;
        case UnsupportedAcc =>
          unbounded := true;
      }
      out := ColSummary(attr.attnum, overlap, typeName, attr.collation, min, max,
                        nulls > 0, nonnull == 0 && nulls > 0, unbounded);
      var lostBound := match acc
        case MinMaxAcc(_, _) => min.None? || max.None?
        case RangeAcc(_) => min.None?
        case _ => false;
      if out.unbounded || (nonnull > 0 && lostBound) {
        out := out.MadeUnbounded();
      }
    }
  }

  lemma {:induction false} HullEmpty(t: TypeOps)
    requires Lawful(t)
    ensures Hull(t, []).Nowhere?
    ensures t.Kind() == Geometry ==> t.stExtent([]).None?
  {
    assert ExtentsOf(t, []) == [];
  }

  /** The batch with the extent of the first `n` values put in it has the extent of all of them. */
  lemma {:induction false} BatchIsAll(t: TypeOps, ds: seq<Datum>, n: nat)
    requires Lawful(t) && t.Kind() == Geometry && n <= |ds|
    ensures var extent := t.stExtent(ds[..n]);
      && (extent.Some? ==>
            t.input(extent.value).Some? && t.stExtent(ds[n..] + [t.input(extent.value).value]) == t.stExtent(ds))
      && (extent.None? ==> t.stExtent(ds[n..]) == t.stExtent(ds))
    ensures ds[n..] == [] ==> ds[..n] == ds
    ensures ds[|ds|..] == [] && ds[..|ds|] == ds
  {
    FlushedExtent(t, ds[..n], ds[n..]);
    hide Lawful, Hull;
    assert ds[..n] + ds[n..] == ds;
  }

  /** Taking the extent of a batch with the earlier extent in it is taking it of everything. */
  lemma {:induction false} FlushedExtent(t: TypeOps, before: seq<Datum>, batch: seq<Datum>)
    requires Lawful(t) && t.Kind() == Geometry
    ensures var extent := t.stExtent(before);
      && (extent.None? ==> t.stExtent(batch) == t.stExtent(before + batch))
      && (extent.Some? ==>
            t.input(extent.value).Some?
            && t.stExtent(batch + [t.input(extent.value).value]) == t.stExtent(before + batch))
  {
    HullConcat(t, before, batch);
    var extent := t.stExtent(before);
    if extent.None? {
      assert Hull(t, batch) == Hull(t, before + batch);
    } else {
      var d := t.input(extent.value).value;
      HullConcat(t, batch, [d]);
      HullOne(t, d);
      JoinCommutes(Hull(t, before), Hull(t, batch));
      assert Hull(t, batch + [d]) == Hull(t, before + batch);
    }
  }

  ghost predicate Separate(cols: seq<ColumnBuild>) {
    forall i, j :: 0 <= i < j < |cols| ==> cols[i] != cols[j]
  }

  /** `build_callback`: adds one index tuple to every column. */
  method BuildCallback(cols: seq<ColumnBuild>, values: seq<Option<Datum>>)
    requires Separate(cols)
    requires forall c | c in cols :: c.Valid() && c.indexPos < |values|
    modifies set c | c in cols
    ensures forall c | c in cols :: c.Valid() && c.seen == old(c.seen) + [values[c.indexPos]]
  {
    hide ColumnBuild.Valid;
    for i := 0 to |cols|
      invariant forall j :: 0 <= j < |cols| ==> cols[j].Valid()
      invariant forall j :: 0 <= j < i ==> cols[j].seen == old(cols[j].seen) + [values[cols[j].indexPos]]
      invariant forall j :: i <= j < |cols| ==> cols[j].seen == old(cols[j].seen)
    {
      assert forall j :: 0 <= j < |cols| && j != i ==> cols[j] != cols[i];
      cols[i].AddValue(values[cols[i].indexPos]);
    }
  }

  lemma {:induction false} PositionsStep(attrs: seq<IndexAttr>, i: nat)
    requires i < |attrs|
    ensures Positions(attrs[..i + 1]) == Positions(attrs[..i]) + if attrs[i].attnum > 0 then [i] else []
  {
    assert attrs[..i + 1][..i] == attrs[..i];
  }

  method PlanColumn(types: Types, names: Oid -> Text, attrs: seq<IndexAttr>, i: nat) returns (c: ColumnBuild)
    requires LawfulTypes(types) && i < |attrs|
    ensures fresh(c) && Gathered(types, names, attrs, c, i, [])
  {
    c := new ColumnBuild(i, attrs[i], types(attrs[i].typ), names(attrs[i].typ), GEOMETRY_BATCH);
  }

  /** `plan_columns`: expression columns are not summarized. */
  method PlanColumns(types: Types, names: Oid -> Text, attrs: seq<IndexAttr>) returns (cols: seq<ColumnBuild>)
    requires LawfulTypes(types)
    ensures Separate(cols) && |cols| == |Positions(attrs)|
    ensures forall c | c in cols :: fresh(c)
    ensures forall k :: 0 <= k < |cols| ==> Gathered(types, names, attrs, cols[k], Positions(attrs)[k], [])
  {
    hide LawfulTypes, Lawful, ColumnBuild.Valid, Positions, Gathered, Separate;
    assert Separate([]) by { SeparateNone(); }
    cols := [];
    ghost var ps: seq<nat> := [];
    assert Positions(attrs[..0]) == [] by { EmptyPositions(attrs); }
    for i := 0 to |attrs|
      invariant ps == Positions(attrs[..i]) && |cols| == |ps|
      invariant Separate(cols) && forall c | c in cols :: fresh(c)
      invariant forall k :: 0 <= k < |cols| ==> Gathered(types, names, attrs, cols[k], ps[k], [])
    {
      PositionsStep(attrs, i);
      if attrs[i].attnum > 0 {
        var c := PlanColumn(types, names, attrs, i);
        assert c !in cols;
        SeparateSnoc(cols, c);
        cols, ps := cols + [c], ps + [i];
      }
    }
    assert attrs[..|attrs|] == attrs;
  }

  lemma {:induction false} SeparateNone()
    ensures Separate([])
  {
  }

  lemma {:induction false} SeparateSnoc(cols: seq<ColumnBuild>, c: ColumnBuild)
    requires Separate(cols) && c !in cols
    ensures Separate(cols + [c])
  {
  }

  lemma {:induction false} EmptyPositions(attrs: seq<IndexAttr>)
    ensures Positions(attrs[..0]) == []
  {
  }

  /** `build_leaf_summary`: the summary of the tuples the build scan yields. */
  method BuildLeafSummary(types: Types, names: Oid -> Text, attrs: seq<IndexAttr>, scan: seq<seq<Option<Datum>>>)
    returns (summary: seq<ColSummary>)
    requires LawfulTypes(types) && forall tuple | tuple in scan :: |tuple| == |attrs|
    ensures summary == Built(types, names, attrs, scan)
  {
    hide LawfulTypes, Lawful, BuiltCol, ColumnBuild.Accumulated, NonNull, Positions;
    var cols := PlanColumns(types, names, attrs);
    ghost var ps := Positions(attrs);
    for n := 0 to |scan|
      invariant Separate(cols) && forall c | c in cols :: fresh(c)
      invariant forall k :: 0 <= k < |cols| ==> Gathered(types, names, attrs, cols[k], ps[k], scan[..n])
    {
      BuildCallback(cols, scan[n]);
      assert scan[..n + 1] == scan[..n] + [scan[n]];
    }
    assert scan[..|scan|] == scan;
    summary := FinishColumns(types, names, attrs, cols, scan);
  }

  /** `finish` */
  method FinishColumns(types: Types, names: Oid -> Text, attrs: seq<IndexAttr>, cols: seq<ColumnBuild>,
                       ghost scan: seq<seq<Option<Datum>>>)
    returns (summary: seq<ColSummary>)
    requires Separate(cols)
    requires |cols| == |Positions(attrs)|
    requires forall k :: 0 <= k < |cols| ==> Gathered(types, names, attrs, cols[k], Positions(attrs)[k], scan)
    modifies set c | c in cols
    ensures summary == Built(types, names, attrs, scan)
  {
    hide Lawful, BuiltCol, ColumnBuild.Accumulated, NonNull, Positions;
    ghost var ps := Positions(attrs);
    summary := [];
    for k := 0 to |cols|
      invariant forall j :: 0 <= j < |cols| ==> Gathered(types, names, attrs, cols[j], ps[j], scan)
      invariant |summary| == k
      invariant forall j :: 0 <= j < k ==> summary[j] == Built(types, names, attrs, scan)[j]
    {
      assert cols[k] in cols;
      var out := cols[k].Finish();
      summary := summary + [out];
    }
  }

  /** `c` has been added the values at position `p` of `tuples`. */
  ghost predicate Gathered(types: Types, names: Oid -> Text, attrs: seq<IndexAttr>, c: ColumnBuild, p: nat,
                           tuples: seq<seq<Option<Datum>>>)
    reads c
  {
    && p < |attrs| && c.Valid() && c.seen == ColumnAt(tuples, p)
    && c.indexPos == p && c.attr == attrs[p] && c.t == types(attrs[p].typ) && c.typeName == names(attrs[p].typ)
  }
}
