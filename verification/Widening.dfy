/** Incremental maintenance: `widen_summary` and the functions it calls in index_am.rs. */
module Widening {
  import opened Base
  import opened Extents
  import opened Format
  import opened Fitting
  import MetaPage
  import opened Coverage

  datatype Widened = Widened(col: ColSummary, changed: bool)

  // ---- what an insert makes of a summary -----------------------------------------------

  /** `None` when the bounds cannot be read or compared, or the value has no text. */
  function WidenMinMax(t: TypeOps, collation: Oid, c: ColSummary, d: Datum): Option<Widened> {
    var text := t.output(d);
    if text.None? || c.min.Some? != c.max.Some? then None
    else if c.min.None? then Some(Widened(c.(min := text, max := text), true))
    else if t.cmp.None? || !BoundsParse(t, c) then None
    else
      var below := t.cmp.value(collation, d, t.input(c.min.value).value) < 0;
      var above := t.cmp.value(collation, d, t.input(c.max.value).value) > 0;
      Some(Widened(c.(min := if below then text else c.min, max := if above then text else c.max), below || above))
  }

  /** The stored extent grown by `d`: `None` if unknown, `Some(None)` if there is no extent still. */
  function GrownExtent(t: TypeOps, c: ColSummary, d: Datum): Option<Option<Text>> {
    var stored := if c.min.None? then None else t.input(c.min.value);
    if c.min.Some? && stored.None? then None
    else if NamesGeometry(c.typeName) then
      // The value travels through its text, like the stored extent.
      var text := t.output(d);
      if text.None? || t.input(text.value).None? then None
      else Some(t.stExtent([t.input(text.value).value] + if stored.None? then [] else [stored.value]))
    else
      var text := t.output(if stored.None? then d else t.merge(stored.value, d));
      if text.None? then None else Some(text)
  }

  function WidenOverlap(t: TypeOps, c: ColSummary, d: Datum): Option<Widened> {
    match GrownExtent(t, c, d)
    case None => None
    case Some(None) => Some(Widened(c, false))
    case Some(Some(text)) => Some(Widened(c.(min := Some(text)), c.min != Some(text)))
  }

  function WidenCol(t: TypeOps, collation: Oid, c: ColSummary, v: Option<Datum>): Widened {
    match v
    case None => Widened(c.(hasNulls := true), !c.hasNulls)
    case Some(d) =>
      var seen := c.(allNulls := false);
      if c.unbounded then Widened(seen, c.allNulls) else
      match (if c.overlap then WidenOverlap(t, seen, d) else WidenMinMax(t, collation, seen, d))
      case None => Widened(seen.MadeUnbounded(), true)
      case Some(w) => w.(changed := c.allNulls || w.changed)
  }

  datatype WidenedAll = WidenedAll(cols: seq<ColSummary>, changed: bool)

  /** The first entry with this attnum. */
  function FindCol(cols: seq<ColSummary>, attnum: I16): (k: Option<nat>)
    ensures k.Some? ==> k.value < |cols| && cols[k.value].attnum == attnum
    ensures k.Some? ==> forall j :: 0 <= j < k.value ==> cols[j].attnum != attnum
    ensures k.None? ==> forall j :: 0 <= j < |cols| ==> cols[j].attnum != attnum
  {
    FindFrom(cols, attnum, 0)
  }

  function FindFrom(cols: seq<ColSummary>, attnum: I16, i: nat): (k: Option<nat>)
    requires i <= |cols|
    ensures k.Some? ==> i <= k.value < |cols| && cols[k.value].attnum == attnum
    ensures k.Some? ==> forall j :: i <= j < k.value ==> cols[j].attnum != attnum
    ensures k.None? ==> forall j :: i <= j < |cols| ==> cols[j].attnum != attnum
    decreases |cols| - i
  {
    if i == |cols| then None
    else if cols[i].attnum == attnum then Some(i)
    else FindFrom(cols, attnum, i + 1)
  }

  /** The summary after the first `n` key columns of an index tuple have been folded in. */
  function WidenFirst(types: Types, attrs: seq<IndexAttr>, cols: seq<ColSummary>, values: seq<Option<Datum>>, n: nat)
    : (w: WidenedAll)
    requires n <= |attrs| == |values|
    ensures |w.cols| == |cols|
  {
    if n == 0 then WidenedAll(cols, false) else
    var w := WidenFirst(types, attrs, cols, values, n - 1);
    var a := attrs[n - 1];
    match FindCol(w.cols, a.attnum)
    case None => w
    case Some(k) =>
      var wk := WidenCol(types(a.typ), a.collation, w.cols[k], values[n - 1]);
      WidenedAll(w.cols[k := wk.col], w.changed || wk.changed)
  }

  function WidenRow(types: Types, attrs: seq<IndexAttr>, cols: seq<ColSummary>,
                    values: seq<Option<Datum>>)
    : (w: WidenedAll)
    requires |attrs| == |values|
    ensures |w.cols| == |cols|
  {
    WidenFirst(types, attrs, cols, values, |attrs|)
  }

  // ---- one column ----------------------------------------------------------------------

  lemma {:induction false} MinMaxStep(t: TypeOps, c: ColSummary, d: Datum)
    requires Lawful(t) && !c.overlap && !c.unbounded && !c.allNulls
    requires WidenMinMax(t, c.collation, c, d).Some?
    ensures var w := WidenMinMax(t, c.collation, c, d).value;
      Covers(t, w.col, Some(d)) && Wider(t, c, w.col) && (w.changed <==> w.col != c)
  {
    hide Lawful, TypeOps.Kind;
    Reads(t, d);
    if c.min.Some? {
      Compares(t, c.collation, d, t.input(c.min.value).value);
      Compares(t, c.collation, d, t.input(c.max.value).value);
    }
  }

  /** The grown extent is the join of what was stored and the value. */
  lemma {:induction false} GrownExtentIsJoin(t: TypeOps, c: ColSummary, d: Datum)
    requires Lawful(t) && (t.Kind() == Range || t.Kind() == Geometry)
    requires NamesGeometry(c.typeName) == (t.Kind() == Geometry)
    requires GrownExtent(t, c, d).Some?
    ensures StoredExtent(t, GrownExtent(t, c, d).value) == Join(StoredExtent(t, c.min), t.extent(d))
    ensures GrownExtent(t, c, d).value.None? ==> StoredExtent(t, c.min).Nowhere? && t.extent(d).Nowhere?
  {
    if t.Kind() == Geometry {
      var text := t.output(d).value;
      var read := t.input(text).value;
      assert SameValue(t, read, d);
      var ds := [read] + if c.min.None? then [] else [t.input(c.min.value).value];
      HullOne(t, read);
      if c.min.Some? {
        var stored := t.input(c.min.value).value;
        HullConcat(t, [read], [stored]);
        HullOne(t, stored);
        JoinCommutes(t.extent(read), t.extent(stored));
      } else {
        assert ds == [read];
      }
      assert Hull(t, ds) == Join(StoredExtent(t, c.min), t.extent(d));
    } else {
      var merged := if c.min.None? then d else t.merge(t.input(c.min.value).value, d);
      var text := t.output(merged).value;
      assert SameValue(t, t.input(text).value, merged);
      if c.min.Some? {
        var stored := t.input(c.min.value).value;
        assert t.extent(t.merge(stored, d)) == Join(t.extent(stored), t.extent(d));
      }
    }
  }

  lemma {:induction false} OverlapStep(t: TypeOps, c: ColSummary, d: Datum)
    requires Lawful(t) && (t.Kind() == Range || t.Kind() == Geometry)
    requires NamesGeometry(c.typeName) == (t.Kind() == Geometry)
    requires c.overlap && !c.unbounded && !c.allNulls
    requires WidenOverlap(t, c, d).Some?
    ensures var w := WidenOverlap(t, c, d).value;
      Covers(t, w.col, Some(d)) && Wider(t, c, w.col) && (w.changed <==> w.col != c)
  {
    var w := WidenOverlap(t, c, d).value;
    GrownExtentIsJoin(t, c, d);
    var before, after := StoredExtent(t, c.min), StoredExtent(t, w.col.min);
    JoinUpper(before, t.extent(d));
    assert after == Join(before, t.extent(d));
    forall v: Option<Datum> | Covers(t, c, v) ensures Covers(t, w.col, v) {
      if v.Some? {
        WithinTransitive(t.extent(v.value), before, after);
      }
    }
  }

  /** Folding a value in, whatever the collation, leaves a summary of the same column. */
  lemma {:induction false} WidenColDescribes(t: TypeOps, a: IndexAttr, collation: Oid, c: ColSummary, v: Option<Datum>)
    requires Lawful(t) && Describes(t, a, c)
    ensures var w := WidenCol(t, collation, c, v); Describes(t, a, w.col) && (w.changed <==> w.col != c)
  {
    hide Lawful, WidenMinMax, GrownExtent, NamesGeometry;
    if v.Some? && !c.unbounded {
      if c.overlap {
        GrownIsWritten(t, c.(allNulls := false), v.value);
      } else {
        MinMaxChanges(t, c.(allNulls := false), collation, v.value);
      }
    }
  }

  lemma {:induction false} GrownIsWritten(t: TypeOps, c: ColSummary, d: Datum)
    requires Lawful(t) && t.Kind() in {Range, Geometry} && NamesGeometry(c.typeName) == (t.Kind() == Geometry)
    ensures var g := GrownExtent(t, c, d); g.Some? && g.value.Some? ==> t.writes(g.value.value)
  {
    hide Lawful;
    var stored := if c.min.None? then None else t.input(c.min.value);
    if t.Kind() == Geometry {
      if t.output(d).Some? && t.input(t.output(d).value).Some? {
        HullReads(t, [t.input(t.output(d).value).value] + if stored.None? then [] else [stored.value]);
      }
    } else {
      var merged := if stored.None? then d else t.merge(stored.value, d);
      if t.output(merged).Some? {
        Reads(t, merged);
      }
    }
  }

  lemma {:induction false} MinMaxChanges(t: TypeOps, c: ColSummary, collation: Oid, d: Datum)
    requires Lawful(t) && Written(t, c)
    ensures WidenMinMax(t, collation, c, d).Some? ==>
      var w := WidenMinMax(t, collation, c, d).value;
      && w.col == c.(min := w.col.min, max := w.col.max) && Written(t, w.col)
      && (w.changed <==> w.col != c)
  {
    hide Lawful, TypeOps.Kind;
    if WidenMinMax(t, collation, c, d).Some? {
      var text := t.output(d).value;
      Reads(t, d);
      if c.min.Some? {
        var lo, hi := t.input(c.min.value).value, t.input(c.max.value).value;
        Compares(t, collation, d, lo);
        Compares(t, collation, d, hi);
      }
    }
  }

  /**
   * Folding a value in under the entry's own collation admits it and everything admitted before,
   * and reports a change exactly when there is one.
   */
  lemma {:induction false} WidenColCovers(t: TypeOps, a: IndexAttr, c: ColSummary, v: Option<Datum>)
    requires Lawful(t) && Describes(t, a, c)
    ensures var w := WidenCol(t, a.collation, c, v);
      && Covers(t, w.col, v)
      && Wider(t, c, w.col)
      && (w.changed <==> w.col != c)
      && Describes(t, a, w.col)
  {
    WidenColDescribes(t, a, a.collation, c, v);
    if v.Some? && !c.unbounded {
      var seen := c.(allNulls := false);
      assert Wider(t, c, seen);
      if c.overlap {
        if WidenOverlap(t, seen, v.value).Some? {
          OverlapStep(t, seen, v.value);
        }
      } else if WidenMinMax(t, a.collation, seen, v.value).Some? {
        MinMaxStep(t, seen, v.value);
      }
    }
  }

  lemma {:induction false} MinMaxAgain(t: TypeOps, c: ColSummary, second: Oid, d: Datum)
    requires Lawful(t) && Written(t, c) && !c.overlap && !c.unbounded && Refines(t, c.collation, second)
    requires Covers(t, c, Some(d)) && WidenMinMax(t, second, c, d).Some?
    ensures var w := WidenMinMax(t, second, c, d).value.col; Covers(t, w, Some(d)) && Wider(t, c, w)
  {
    hide Lawful, Refines, TypeOps.Kind;
    Reads(t, d);
    var lo, hi := t.input(c.min.value).value, t.input(c.max.value).value;
    Compares(t, second, d, lo);
    Compares(t, second, d, hi);
    RefinesAt(t, c.collation, second, t.output(d).value, c.min.value);
    RefinesAt(t, c.collation, second, c.max.value, t.output(d).value);
  }

  lemma {:induction false} RefinesAt(t: TypeOps, first: Oid, second: Oid, x: Text, y: Text)
    requires Refines(t, first, second) && t.writes(x) && t.writes(y) && t.input(x).Some? && t.input(y).Some?
    ensures t.rank(second, t.input(x).value) < t.rank(second, t.input(y).value) ==>
      t.rank(first, t.input(x).value) <= t.rank(first, t.input(y).value)
  {
  }

  /** Folding an admitted value in again, under a collation that refines the entry's, loses nothing. */
  lemma {:induction false} WidenColAgain(t: TypeOps, a: IndexAttr, second: Oid, c: ColSummary, v: Option<Datum>)
    requires Lawful(t) && Describes(t, a, c) && Covers(t, c, v)
    requires t.Kind() == Scalar ==> Refines(t, a.collation, second)
    ensures var w := WidenCol(t, second, c, v).col; Covers(t, w, v) && Wider(t, c, w)
  {
    if v.Some? && !c.unbounded {
      assert c.(allNulls := false) == c;
      if c.overlap {
        if WidenOverlap(t, c, v.value).Some? {
          OverlapStep(t, c, v.value);
        }
      } else if WidenMinMax(t, second, c, v.value).Some? {
        MinMaxAgain(t, c, second, v.value);
      }
    }
  }

  lemma {:induction false} MinMaxGivesUp(t: TypeOps, collation: Oid, c: ColSummary, d: Datum)
    requires t.cmp.Some? && c.min.Some? == c.max.Some?
    ensures var w := WidenMinMax(t, collation, c, d);
      && (w.None? <==> t.output(d).None? || (c.min.Some? && !BoundsParse(t, c)))
      && (w.Some? ==> w.value.col.unbounded == c.unbounded)
  {
  }

  lemma {:induction false} OverlapGivesUp(t: TypeOps, c: ColSummary, d: Datum)
    requires Lawful(t)
    ensures var w, stored := WidenOverlap(t, c, d), if c.min.None? then None else t.input(c.min.value);
      && (c.min.Some? && stored.None? ==> w.None?)
      && (NamesGeometry(c.typeName) ==> (w.None? <==> t.output(d).None? || (c.min.Some? && stored.None?)))
      && (!NamesGeometry(c.typeName) && (c.min.Some? ==> stored.Some?) ==>
            (w.None? <==> t.output(if stored.None? then d else t.merge(stored.value, d)).None?))
      && (w.Some? ==> w.value.col.unbounded == c.unbounded)
  {
    if t.output(d).Some? {
      Reads(t, d);
    }
    hide Lawful, NamesGeometry;
  }

  /**
   * A column is given up by a value exactly when the value does not print or a stored bound does not read;
   * of a range, when the stored one does not read or the merged one does not print.
   */
  lemma {:induction false} GivesUpIff(t: TypeOps, a: IndexAttr, c: ColSummary, d: Datum)
    requires Lawful(t) && Describes(t, a, c) && !c.unbounded && (!c.overlap ==> c.min.Some? == c.max.Some?)
    ensures var stored := if c.min.None? then None else t.input(c.min.value);
      var after := WidenCol(t, a.collation, c, Some(d)).col;
      && (c.min.Some? && stored.None? ==> after.unbounded)
      && (t.Kind() == Scalar ==> (after.unbounded <==> t.output(d).None? || (c.min.Some? && !BoundsParse(t, c))))
      && (t.Kind() == Geometry ==> (after.unbounded <==> t.output(d).None? || (c.min.Some? && stored.None?)))
      && (t.Kind() == Range && (c.min.Some? ==> stored.Some?) ==>
            (after.unbounded <==> t.output(if stored.None? then d else t.merge(stored.value, d)).None?))
  {
    var seen := c.(allNulls := false);
    if c.overlap {
      OverlapGivesUp(t, seen, d);
    } else {
      MinMaxGivesUp(t, a.collation, seen, d);
    }
    hide Lawful, Coverage.Written, NamesGeometry, WidenMinMax, WidenOverlap;
  }

  /** Bounds come in pairs and stay in pairs, or the column is unbounded. */
  lemma {:induction false} WidenColKeepsPairs(t: TypeOps, collation: Oid, c: ColSummary, v: Option<Datum>)
    requires !c.overlap && c.min.Some? == c.max.Some?
    ensures var w := WidenCol(t, collation, c, v).col; !w.overlap && w.min.Some? == w.max.Some?
  {
  }

  // ---- a whole row ---------------------------------------------------------------------

  /** Some key before the `n`-th is on the column `attnum`. */
  ghost predicate Reached(attrs: seq<IndexAttr>, attnum: I16, n: nat)
    requires n <= |attrs|
  {
    exists i :: 0 <= i < n && attrs[i].attnum == attnum
  }

  /** The first entries of the columns reached admit their values. */
  ghost predicate CoversFirst(types: Types, attrs: seq<IndexAttr>, cols: seq<ColSummary>, row: Row, n: nat)
    requires n <= |attrs| && |cols| == |Summarized(attrs)|
  {
    var s := Summarized(attrs);
    forall k :: 0 <= k < |s| && IsFirst(s, k) && Reached(attrs, s[k].attnum, n)
      ==> Covers(types(s[k].typ), cols[k], Value(row, s[k].attnum))
  }

  /** The search by attnum ends at a column's first entry, if the column has one. */
  lemma {:induction false} FoundIsFirst(types: Types, attrs: seq<IndexAttr>, cols: seq<ColSummary>, attnum: I16)
    requires DescribesAll(types, attrs, cols)
    ensures var s, k := Summarized(attrs), FindCol(cols, attnum);
      && (k.Some? ==> IsFirst(s, k.value) && s[k.value].attnum == attnum)
      && (k.None? ==> forall j :: 0 <= j < |s| ==> s[j].attnum != attnum)
  {
    var s, k := Summarized(attrs), FindCol(cols, attnum);
    assert forall j :: 0 <= j < |s| ==> cols[j].attnum == s[j].attnum by {
      forall j | 0 <= j < |s| ensures cols[j].attnum == s[j].attnum {
        assert Describes(types(s[j].typ), s[j], cols[j]);
      }
    }
  }

  /** The first key on a column is the one its first entry describes. */
  lemma {:induction false} FirstKey(attrs: seq<IndexAttr>, n: nat, k: nat)
    requires n < |attrs| && IsFirst(Summarized(attrs), k) && Summarized(attrs)[k].attnum == attrs[n].attnum
    ensures !Reached(attrs, attrs[n].attnum, n) ==> Summarized(attrs)[k] == attrs[n]
    ensures exists j :: k <= j < |Summarized(attrs)| && Summarized(attrs)[j] == attrs[n]
  {
    var s, ps := Summarized(attrs), Positions(attrs);
    assert attrs[ps[k]].attnum > 0;
    var j := SummarizedComplete(attrs, n);
    assert k <= j;
    if k < j {
      assert ps[k] < n && attrs[ps[k]].attnum == attrs[n].attnum;
    }
  }

  /** A later key on a column has its first entry's type, and a collation that refines the entry's. */
  lemma {:induction false} LaterKey(types: Types, attrs: seq<IndexAttr>, n: nat, k: nat)
    requires OneType(attrs) && Agreeing(types, attrs)
    requires n < |attrs| && IsFirst(Summarized(attrs), k) && Summarized(attrs)[k].attnum == attrs[n].attnum
    ensures var first := Summarized(attrs)[k];
      && first.typ == attrs[n].typ
      && (first == attrs[n]
          || (Reached(attrs, attrs[n].attnum, n)
              && (types(first.typ).Kind() == Scalar ==>
                    Refines(types(first.typ), first.collation, attrs[n].collation))))
  {
    FirstKey(attrs, n, k);
    hide Refines, TypeOps.Kind, Summarized, Reached;
    var s := Summarized(attrs);
    var j :| k <= j < |s| && s[j] == attrs[n];
    assert s[k].typ == s[j].typ;
  }

  /** Folding one key's value into the entry found for it. */
  lemma {:induction false} WidenEntry(types: Types, attrs: seq<IndexAttr>, c: ColSummary, v: Option<Datum>, n: nat,
                                      k: nat)
    requires LawfulTypes(types) && OneType(attrs) && Agreeing(types, attrs)
    requires n < |attrs| && IsFirst(Summarized(attrs), k) && Summarized(attrs)[k].attnum == attrs[n].attnum
    requires Describes(types(attrs[n].typ), Summarized(attrs)[k], c)
    requires Reached(attrs, attrs[n].attnum, n) ==> Covers(types(attrs[n].typ), c, v)
    ensures var t := types(attrs[n].typ);
      var w := WidenCol(t, attrs[n].collation, c, v);
      && t == types(Summarized(attrs)[k].typ)
      && Covers(t, w.col, v) && Wider(t, c, w.col)
      && Describes(t, Summarized(attrs)[k], w.col) && (w.changed <==> w.col != c)
  {
    LaterKey(types, attrs, n, k);
    var first, t := Summarized(attrs)[k], types(attrs[n].typ);
    assert Lawful(t);
    hide WidenCol, Covers, Lawful, Describes, Wider, Refines, Reached, Summarized, Agreeing, OneType, TypeOps.Kind;
    WidenColDescribes(t, first, attrs[n].collation, c, v);
    if first == attrs[n] {
      WidenColCovers(t, first, c, v);
    } else {
      WidenColAgain(t, first, attrs[n].collation, c, v);
    }
  }

  lemma {:induction false} WidenStepCovers(types: Types, attrs: seq<IndexAttr>, cols: seq<ColSummary>, row: Row,
                                           n: nat, k: nat)
    requires LawfulTypes(types) && OneType(attrs) && Agreeing(types, attrs) && DescribesAll(types, attrs, cols)
    requires n < |attrs| && IsFirst(Summarized(attrs), k) && Summarized(attrs)[k].attnum == attrs[n].attnum
    requires CoversFirst(types, attrs, cols, row, n)
    ensures var w := WidenCol(types(attrs[n].typ), attrs[n].collation, cols[k], Value(row, attrs[n].attnum));
      var after := cols[k := w.col];
      && DescribesAll(types, attrs, after)
      && WiderAll(types, attrs, cols, after)
      && CoversFirst(types, attrs, after, row, n + 1)
      && (!w.changed ==> after == cols)
  {
    hide WidenCol, Covers, LawfulTypes, Describes, Agreeing, OneType, Reached, Summarized, Wider;
    LaterKey(types, attrs, n, k);
    WidenEntry(types, attrs, cols[k], Value(row, attrs[n].attnum), n, k);
    var w := WidenCol(types(attrs[n].typ), attrs[n].collation, cols[k], Value(row, attrs[n].attnum));
    var after := cols[k := w.col];
    assert after[k] == w.col;
    NowCovered(types, attrs, cols, after, row, n, k);
    WiderOne(types, attrs, cols, k, w.col);
  }

  lemma {:induction false} WiderOne(types: Types, attrs: seq<IndexAttr>, cols: seq<ColSummary>, k: nat, c: ColSummary)
    requires |cols| == |Summarized(attrs)| && k < |cols| && Wider(types(Summarized(attrs)[k].typ), cols[k], c)
    ensures WiderAll(types, attrs, cols, cols[k := c])
  {
    hide Covers;
  }

  lemma {:induction false} ReachedSooner(attrs: seq<IndexAttr>, attnum: I16, n: nat)
    requires n < |attrs| && Reached(attrs, attnum, n + 1) && attnum != attrs[n].attnum
    ensures Reached(attrs, attnum, n)
  {
  }

  /** Once the first entry of its column admits the `n`-th key's value, the columns reached by then are covered. */
  lemma {:induction false} NowCovered(types: Types, attrs: seq<IndexAttr>, cols: seq<ColSummary>,
                                      after: seq<ColSummary>,
                                      row: Row, n: nat, k: nat)
    requires n < |attrs| && IsFirst(Summarized(attrs), k) && Summarized(attrs)[k].attnum == attrs[n].attnum
    requires |cols| == |Summarized(attrs)| && CoversFirst(types, attrs, cols, row, n)
    requires |after| == |cols| && after == cols[k := after[k]]
    requires Covers(types(Summarized(attrs)[k].typ), after[k], Value(row, attrs[n].attnum))
    ensures CoversFirst(types, attrs, after, row, n + 1)
  {
    hide Covers, Summarized, Reached;
    var s := Summarized(attrs);
    forall j | 0 <= j < |s| && IsFirst(s, j) && Reached(attrs, s[j].attnum, n + 1)
      ensures Covers(types(s[j].typ), after[j], Value(row, s[j].attnum))
    {
      if s[j].attnum == attrs[n].attnum {
        assert j == k;
      } else {
        ReachedSooner(attrs, s[j].attnum, n);
      }
    }
  }

  lemma {:induction false} SkipCovers(types: Types, attrs: seq<IndexAttr>, cols: seq<ColSummary>, row: Row, n: nat)
    requires n < |attrs| && |cols| == |Summarized(attrs)|
    requires CoversFirst(types, attrs, cols, row, n)
    requires forall j :: 0 <= j < |Summarized(attrs)| ==> Summarized(attrs)[j].attnum != attrs[n].attnum
    ensures CoversFirst(types, attrs, cols, row, n + 1)
  {
    hide Covers;
    var s := Summarized(attrs);
    forall j | 0 <= j < |s| && IsFirst(s, j) && Reached(attrs, s[j].attnum, n + 1)
      ensures Covers(types(s[j].typ), cols[j], Value(row, s[j].attnum))
    {
      assert Reached(attrs, s[j].attnum, n);
    }
  }

  lemma {:induction false} WidenFirstCovers(types: Types, attrs: seq<IndexAttr>, cols: seq<ColSummary>,
                                            values: seq<Option<Datum>>, row: Row, n: nat)
    requires LawfulTypes(types) && OneType(attrs) && Agreeing(types, attrs) && DescribesAll(types, attrs, cols)
    requires n <= |attrs| && TupleOf(attrs, row, values)
    ensures var w := WidenFirst(types, attrs, cols, values, n);
      && DescribesAll(types, attrs, w.cols)
      && WiderAll(types, attrs, cols, w.cols)
      && CoversFirst(types, attrs, w.cols, row, n)
      && (!w.changed ==> w.cols == cols)
  {
    hide WidenCol, Covers, LawfulTypes, Describes, Agreeing, OneType, FindCol, WiderAll, DescribesAll, CoversFirst;
    hide Summarized;
    SizesMatch(types, attrs, cols);
    if n == 0 {
      NothingReached(types, attrs, cols, row);
    } else {
      WidenFirstCovers(types, attrs, cols, values, row, n - 1);
      var before := WidenFirst(types, attrs, cols, values, n - 1).cols;
      FoundIsFirst(types, attrs, before, attrs[n - 1].attnum);
      var k := FindCol(before, attrs[n - 1].attnum);
      if k.Some? {
        FoundValue(types, attrs, before, values, row, n - 1);
        WidenStepCovers(types, attrs, before, row, n - 1, k.value);
        WiderAllTransitive(types, attrs, cols, before, WidenFirst(types, attrs, cols, values, n).cols);
      } else {
        SkipCovers(types, attrs, before, row, n - 1);
      }
    }
  }

  lemma {:induction false} SizesMatch(types: Types, attrs: seq<IndexAttr>, cols: seq<ColSummary>)
    requires DescribesAll(types, attrs, cols)
    ensures |cols| == |Summarized(attrs)|
  {
    hide Describes;
  }

  lemma {:induction false} NothingReached(types: Types, attrs: seq<IndexAttr>, cols: seq<ColSummary>, row: Row)
    requires |cols| == |Summarized(attrs)|
    ensures WiderAll(types, attrs, cols, cols) && CoversFirst(types, attrs, cols, row, 0)
  {
    hide Covers;
  }

  lemma {:induction false} FoundValue(types: Types, attrs: seq<IndexAttr>, cols: seq<ColSummary>,
                                      values: seq<Option<Datum>>, row: Row, n: nat)
    requires TupleOf(attrs, row, values) && DescribesAll(types, attrs, cols)
    requires n < |attrs| && FindCol(cols, attrs[n].attnum).Some?
    ensures values[n] == Value(row, attrs[n].attnum)
  {
    FoundIsFirst(types, attrs, cols, attrs[n].attnum);
    var s := Summarized(attrs);
    var k := FindCol(cols, attrs[n].attnum).value;
    assert s[k].attnum == attrs[Positions(attrs)[k]].attnum > 0;
  }

  /** An insert's row is admitted by the summary it leaves, with every row admitted before. */
  lemma {:induction false} WidenRowCovers(types: Types, attrs: seq<IndexAttr>, cols: seq<ColSummary>,
                                          values: seq<Option<Datum>>, row: Row)
    requires LawfulTypes(types) && OneType(attrs) && Agreeing(types, attrs)
    requires DescribesAll(types, attrs, cols) && TupleOf(attrs, row, values)
    ensures var w := WidenRow(types, attrs, cols, values);
      && CoversRow(types, attrs, w.cols, row)
      && WiderAll(types, attrs, cols, w.cols)
      && DescribesAll(types, attrs, w.cols)
      && (!w.changed ==> w.cols == cols)
  {
    WidenFirstCovers(types, attrs, cols, values, row, |attrs|);
    var s := Summarized(attrs);
    var w := WidenRow(types, attrs, cols, values);
    forall k | 0 <= k < |s| && IsFirst(s, k) ensures Covers(types(s[k].typ), w.cols[k], Value(row, s[k].attnum)) {
      assert Reached(attrs, s[k].attnum, |attrs|) by {
        assert attrs[Positions(attrs)[k]] == s[k];
      }
    }
  }

  lemma {:induction false} KeepsAttnums(types: Types, key: IndexAttr, cols: seq<ColSummary>, v: Option<Datum>)
    ensures forall k :: 0 <= k < |cols| ==>
      WidenCol(types(key.typ), key.collation, cols[k], v).col.attnum == cols[k].attnum
  {
    hide WidenMinMax, GrownExtent;
    forall k | 0 <= k < |cols|
      ensures WidenCol(types(key.typ), key.collation, cols[k], v).col.attnum == cols[k].attnum
    {
      KeepsAttnum(types(key.typ), key.collation, cols[k], v);
    }
  }

  lemma {:induction false} KeepsAttnum(t: TypeOps, collation: Oid, c: ColSummary, v: Option<Datum>)
    ensures WidenCol(t, collation, c, v).col.attnum == c.attnum
  {
    hide GrownExtent;
  }

  /** With no column indexed twice, each entry is widened by its own key's value, and by nothing else. */
  lemma {:induction false} WidensByColumn(types: Types, attrs: seq<IndexAttr>, cols: seq<ColSummary>,
                                          values: seq<Option<Datum>>, n: nat)
    requires Distinct(attrs) && |cols| == |Summarized(attrs)| && n <= |attrs| == |values|
    requires forall k :: 0 <= k < |cols| ==> cols[k].attnum == Summarized(attrs)[k].attnum
    ensures var s, ps, w := Summarized(attrs), Positions(attrs), WidenFirst(types, attrs, cols, values, n).cols;
      && (forall k :: 0 <= k < |s| ==> w[k].attnum == s[k].attnum)
      && (forall k :: 0 <= k < |s| ==>
            w[k] == if ps[k] < n then WidenCol(types(s[k].typ), s[k].collation, cols[k], values[ps[k]]).col
                    else cols[k])
  {
    hide WidenCol, FindCol, Summarized, Positions;
    if n > 0 {
      WidensByColumn(types, attrs, cols, values, n - 1);
      var w := WidenFirst(types, attrs, cols, values, n - 1).cols;
      KeepsAttnums(types, attrs[n - 1], w, values[n - 1]);
      FindsOwn(attrs, w, n - 1);
    }
  }

  lemma {:induction false} FindsOwn(attrs: seq<IndexAttr>, cols: seq<ColSummary>, n: nat)
    requires Distinct(attrs) && n < |attrs| && |cols| == |Summarized(attrs)|
    requires forall k :: 0 <= k < |cols| ==> cols[k].attnum == Summarized(attrs)[k].attnum
    ensures var s, ps := Summarized(attrs), Positions(attrs);
      match FindCol(cols, attrs[n].attnum)
      case None => forall k :: 0 <= k < |s| ==> ps[k] != n
      case Some(k) => ps[k] == n && s[k] == attrs[n] && forall j :: 0 <= j < |s| && ps[j] == n ==> j == k
  {
    var s, ps := Summarized(attrs), Positions(attrs);
    if attrs[n].attnum > 0 {
      var k := SummarizedComplete(attrs, n);
      assert cols[k].attnum == attrs[n].attnum;
    } else {
      forall k | 0 <= k < |s| ensures ps[k] != n && cols[k].attnum != attrs[n].attnum {
        assert attrs[ps[k]].attnum > 0;
      }
    }
  }

  /** Giving bounds up to fit the page only widens. */
  lemma {:induction false} FittedWidens(types: Types, attrs: seq<IndexAttr>, cols: seq<ColSummary>)
    requires DescribesAll(types, attrs, cols)
    ensures DescribesAll(types, attrs, Fitted(cols)) && WiderAll(types, attrs, cols, Fitted(cols))
  {
    hide Covers, FittedIn, LongestFirst;
    FittedIsDropped(cols, MetaPage.MAX_BLOB_LEN);
    var s, mask := Summarized(attrs), Dropped(cols);
    forall k | 0 <= k < |s|
      ensures Describes(types(s[k].typ), s[k], Fitted(cols)[k]) && Wider(types(s[k].typ), cols[k], Fitted(cols)[k])
    {
      assert Describes(types(s[k].typ), s[k], cols[k]);
      UnboundedWidens(types(s[k].typ), s[k], cols[k]);
    }
  }

  lemma {:induction false} UnboundedWidens(t: TypeOps, a: IndexAttr, c: ColSummary)
    requires Describes(t, a, c)
    ensures Describes(t, a, c.MadeUnbounded()) && Wider(t, c, c.MadeUnbounded()) && Wider(t, c, c)
  {
    hide NamesGeometry, TypeOps.Kind;
  }

  // ---- the code ------------------------------------------------------------------------

  method TryWidenMinMax(summary: IndexSummary, k: nat, t: TypeOps, collation: Oid, value: Datum)
    returns (changed: Option<bool>)
    requires k < |summary.cols|
    modifies summary
    ensures var w := WidenMinMax(t, collation, old(summary.cols[k]), value);
      if w.None? then changed.None? && summary.cols == old(summary.cols)
      else changed == Some(w.value.changed) && summary.cols == old(summary.cols)[k := w.value.col]
  {
    var newText := t.output(value);
    if newText.None? { return None; }
    var col := summary.cols[k];
    match (col.min, col.max) {
      case (Some(min), Some(max)) =>
        if t.cmp.None? { return None; }
        var minD := t.input(min);
        if minD.None? { return None; }
        var maxD := t.input(max);
        if maxD.None? { return None; }
        var c := false;
        if t.cmp.value(collation, value, minD.value) < 0 {
          summary.cols := summary.cols[k := summary.cols[k].(min := newText)];
          c := true;
        }
        if t.cmp.value(collation, value, maxD.value) > 0 {
          summary.cols := summary.cols[k := summary.cols[k].(max := newText)];
          c := true;
        }
        changed := Some(c);
      case (None, None) =>
        summary.cols := summary.cols[k := col.(min := newText, max := newText)];
        changed := Some(true);
      case _ =>
        changed := None;
    }
  }

  method TryWidenOverlap(summary: IndexSummary, k: nat, t: TypeOps, value: Datum)
    returns (changed: Option<bool>)
    requires k < |summary.cols|
    modifies summary
    ensures var w := WidenOverlap(t, old(summary.cols[k]), value);
      if w.None? then changed.None? && summary.cols == old(summary.cols)
      else changed == Some(w.value.changed) && summary.cols == old(summary.cols)[k := w.value.col]
  {
    var col := summary.cols[k];
    var widened := GrownExtent(t, col, value);
    match widened {
      case None =>
        changed := None;
      case Some(Some(w)) =>
        if col.min != Some(w) {
          summary.cols := summary.cols[k := col.(min := Some(w))];
          changed := Some(true);
        } else {
          changed := Some(false);
        }
      case Some(None) =>
        changed := Some(false);
    }
  }

  method WidenColumn(summary: IndexSummary, k: nat, t: TypeOps, collation: Oid, value: Option<Datum>)
    returns (changed: bool)
    requires k < |summary.cols|
    modifies summary
    ensures var w := WidenCol(t, collation, old(summary.cols[k]), value);
      changed == w.changed && summary.cols == old(summary.cols)[k := w.col]
  {
    if value.None? {
      if !summary.cols[k].hasNulls {
        summary.cols := summary.cols[k := summary.cols[k].(hasNulls := true)];
        return true;
      }
      return false;
    }
    changed := false;
    if summary.cols[k].allNulls {
      summary.cols := summary.cols[k := summary.cols[k].(allNulls := false)];
      changed := true;
    }
    if summary.cols[k].unbounded {
      return;
    }
    var widened;
    if summary.cols[k].overlap {
      widened := TryWidenOverlap(summary, k, t, value.value);
    } else {
      widened := TryWidenMinMax(summary, k, t, collation, value.value);
    }
    match widened {
      case Some(c) =>
        changed := changed || c;
      case None =>
        summary.cols := summary.cols[k := summary.cols[k].MadeUnbounded()];
        changed := true;
    }
  }

  method WidenSummary(summary: IndexSummary, types: Types, attrs: seq<IndexAttr>, values: seq<Option<Datum>>)
    returns (changed: bool)
    requires |attrs| == |values|
    modifies summary
    ensures var w := WidenRow(types, attrs, old(summary.cols), values);
      changed == w.changed && summary.cols == w.cols
  {
    changed := false;
    for i := 0 to |attrs|
      invariant WidenFirst(types, attrs, old(summary.cols), values, i) == WidenedAll(summary.cols, changed)
    {
      var k := FindCol(summary.cols, attrs[i].attnum);
      if k.Some? {
        var c := WidenColumn(summary, k.value, types(attrs[i].typ), attrs[i].collation, values[i]);
        changed := changed || c;
      }
    }
  }
}
