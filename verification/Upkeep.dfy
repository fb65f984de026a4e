/**
 * The summary an index stores after inserts, against the one a rebuild would store: the column loop,
 * the page limit and the state machine included, whatever is given up on the way.
 */
module Upkeep {
  import opened Base
  import opened Format
  import opened MetaPage
  import opened Fitting
  import opened Coverage
  import opened Widening
  import opened FirstEntries
  import opened Build
  import opened Rebuild
  import opened Protocol
  import opened Serial
  import opened Sessions

  // ---- inserts that give bounds up -----------------------------------------------------------

  /** The entry the planner reads of every column keeps up with a build over `tuples`. */
  ghost predicate AllKeepUp(types: Types, names: Oid -> Text, attrs: seq<IndexAttr>, tuples: seq<seq<Option<Datum>>>,
                            cols: seq<ColSummary>)
  {
    && DescribesAll(types, attrs, cols)
    && forall k :: 0 <= k < |cols| && IsFirst(Summarized(attrs), k) ==> KeepsUpAt(types, names, attrs, tuples, cols[k],
        k)
  }

  /** The entry `c` of the index's column `k`. */
  ghost predicate KeepsUpAt(types: Types, names: Oid -> Text, attrs: seq<IndexAttr>, tuples: seq<seq<Option<Datum>>>,
                            c: ColSummary, k: nat)
    requires k < |Summarized(attrs)|
  {
    var a := Summarized(attrs)[k];
    KeepsUp(types(a.typ), a, names(a.typ), ColumnAt(tuples, Positions(attrs)[k]), c)
  }

  lemma {:induction false} DescribedInOrder(types: Types, attrs: seq<IndexAttr>, cols: seq<ColSummary>)
    requires DescribesAll(types, attrs, cols)
    ensures InOrder(attrs, cols) && |cols| == |Summarized(attrs)|
  {
    hide Summarized, Coverage.Written, NamesGeometry, TypeOps.Kind;
    forall k | 0 <= k < |cols| ensures cols[k].attnum == Summarized(attrs)[k].attnum {
      assert Describes(types(Summarized(attrs)[k].typ), Summarized(attrs)[k], cols[k]);
    }
  }

  lemma {:induction false} LawsAt(types: Types, names: Oid -> Text, o: Oid)
    requires LawfulTypes(types) && NamesLaw(types, names)
    ensures Lawful(types(o)) && NamesGeometry(names(o)) == (types(o).Kind() == Geometry)
  {
    hide Lawful, NamesGeometry;
  }

  lemma {:induction false} BuiltKeepUp(types: Types, names: Oid -> Text, attrs: seq<IndexAttr>,
                                       tuples: seq<seq<Option<Datum>>>)
    requires LawfulTypes(types) && NamesLaw(types, names)
    ensures AllKeepUp(types, names, attrs, tuples, Built(types, names, attrs, tuples))
  {
    BuildDescribes(types, names, attrs, tuples);
    hide KeepsUp, LawfulTypes, NamesLaw, BuiltCol, Summarized, Positions, DescribesAll, Lawful, NamesGeometry;
    forall k | 0 <= k < |Summarized(attrs)|
      ensures KeepsUpAt(types, names, attrs, tuples, Built(types, names, attrs, tuples)[k], k)
    {
      var a := Summarized(attrs)[k];
      LawsAt(types, names, a.typ);
      BuiltKeepsUp(types(a.typ), a, names(a.typ), ColumnAt(tuples, Positions(attrs)[k]));
    }
  }

  lemma {:induction false} FittedKeepUp(types: Types, names: Oid -> Text, attrs: seq<IndexAttr>,
                                        tuples: seq<seq<Option<Datum>>>, cols: seq<ColSummary>)
    requires AllKeepUp(types, names, attrs, tuples, cols)
    ensures AllKeepUp(types, names, attrs, tuples, Fitted(cols))
  {
    FittedIsDropped(cols, MAX_BLOB_LEN);
    FittedWidens(types, attrs, cols);
    DescribedInOrder(types, attrs, cols);
    hide KeepsUp, FittedIn, DroppedIn, LongestFirst, Summarized, Positions, DescribesAll, InOrder, WiderAll;
    forall k | 0 <= k < |cols| && IsFirst(Summarized(attrs), k)
      ensures KeepsUpAt(types, names, attrs, tuples, Fitted(cols)[k], k)
    {
      var a := Summarized(attrs)[k];
      assert KeepsUpAt(types, names, attrs, tuples, cols[k], k);
      DropKeepsUp(types(a.typ), a, names(a.typ), ColumnAt(tuples, Positions(attrs)[k]), cols[k]);
    }
  }

  lemma {:induction false} AllKeepUpAlike(types: Types, seen: Types, names: Oid -> Text, attrs: seq<IndexAttr>,
                                          tuples: seq<seq<Option<Datum>>>, cols: seq<ColSummary>)
    requires LawfulTypes(types) && AlikeTypes(types, seen)
    ensures AllKeepUp(types, names, attrs, tuples, cols) <==> AllKeepUp(seen, names, attrs, tuples, cols)
  {
    DescribesAlike(types, seen, attrs, cols);
    hide KeepsUp, Lawful, Alike, Summarized, Positions, Describes;
    if DescribesAll(types, attrs, cols) {
      forall k | 0 <= k < |cols|
        ensures KeepsUpAt(types, names, attrs, tuples, cols[k], k) <==> KeepsUpAt(seen, names, attrs, tuples, cols[k],
            k)
      {
        var a := Summarized(attrs)[k];
        KeepsUpAlike(types(a.typ), seen(a.typ), a, names(a.typ), ColumnAt(tuples, Positions(attrs)[k]), cols[k]);
      }
    }
  }

  ghost predicate PrintsByExtentAll(types: Types) {
    forall o: Oid :: PrintsByExtent(types(o))
  }

  lemma {:induction false} PrintsAlike(types: Types, seen: Types)
    requires AlikeTypes(types, seen) && PrintsByExtentAll(types)
    ensures PrintsByExtentAll(seen)
  {
    hide Lawful, SameRead;
    forall o: Oid ensures PrintsByExtent(seen(o)) {
      assert Alike(types(o), seen(o)) && PrintsByExtent(types(o));
    }
  }

  lemma {:induction false} PrintsAt(types: Types, o: Oid)
    requires LawfulTypes(types) && PrintsByExtentAll(types)
    ensures Lawful(types(o)) && PrintsByExtent(types(o))
  {
    hide Lawful, PrintsByExtent;
  }

  /** An insert keeps every column up, however often the column is indexed. */
  lemma {:induction false} RowKeepsUp(types: Types, names: Oid -> Text, attrs: seq<IndexAttr>,
                                      tuples: seq<seq<Option<Datum>>>, cols: seq<ColSummary>, row: Row,
                                      tuple: seq<Option<Datum>>)
    requires LawfulTypes(types) && PrintsByExtentAll(types) && OneType(attrs) && Agreeing(types, attrs)
    requires TupleOf(attrs, row, tuple) && AllKeepUp(types, names, attrs, tuples, cols)
    ensures AllKeepUp(types, names, attrs, tuples + [tuple], WidenRow(types, attrs, cols, tuple).cols)
  {
    WidenRowCovers(types, attrs, cols, tuple, row);
    DescribedInOrder(types, attrs, cols);
    hide WidenRow, KeepsUpAt, Summarized, LawfulTypes, PrintsByExtentAll, DescribesAll, OneType, Agreeing, TupleOf;
    hide InOrder, CoversRow, WiderAll;
    forall k | 0 <= k < |cols| && IsFirst(Summarized(attrs), k)
      ensures KeepsUpAt(types, names, attrs, tuples + [tuple], WidenRow(types, attrs, cols, tuple).cols[k], k)
    {
      RowKeepsUpAt(types, names, attrs, tuples, cols, row, tuple, k);
    }
  }

  lemma {:induction false} RowKeepsUpAt(types: Types, names: Oid -> Text, attrs: seq<IndexAttr>,
                                        tuples: seq<seq<Option<Datum>>>, cols: seq<ColSummary>, row: Row,
                                        tuple: seq<Option<Datum>>, k: nat)
    requires LawfulTypes(types) && PrintsByExtentAll(types) && OneType(attrs) && Agreeing(types, attrs)
    requires TupleOf(attrs, row, tuple) && InOrder(attrs, cols) && IsFirst(Summarized(attrs), k) && k < |cols|
    requires KeepsUpAt(types, names, attrs, tuples, cols[k], k)
    ensures KeepsUpAt(types, names, attrs, tuples + [tuple], WidenRow(types, attrs, cols, tuple).cols[k], k)
  {
    var a, p := Summarized(attrs)[k], Positions(attrs)[k];
    var t, name, vs, v := types(a.typ), names(a.typ), ColumnAt(tuples, p), tuple[p];
    assert ColumnAt(tuples + [tuple], p) == vs + [v];
    PrintsAt(types, a.typ);
    hide WidenRow, KeepsUp, Summarized, Positions, WidenCol, Lawful, PrintsByExtent, InOrder, LawfulTypes;
    hide PrintsByExtentAll, OneType, Agreeing, TupleOf, Refines, TypeOps.Kind;
    InsertKeepsUp(t, a, name, vs, v, cols[k]);
    var holds := (c: ColSummary) => KeepsUp(t, a, name, vs + [v], c);
    assert v in vs + [v];
    forall c: ColSummary, second: Oid | holds(c) && (t.Kind() == Scalar ==> Refines(t, a.collation, second))
      ensures holds(WidenCol(t, second, c, v).col)
    {
      AgainKeepsUp(t, a, name, vs + [v], v, c, second);
    }
    RowInduces(types, attrs, cols, row, tuple, k, holds);
  }

  /** For the entries the planner reads, `after` admits everything `before` does. */
  ghost predicate WiderSeen(types: Types, attrs: seq<IndexAttr>, before: seq<ColSummary>, after: seq<ColSummary>) {
    var s := Summarized(attrs);
    && |before| == |after| == |s|
    && forall k :: 0 <= k < |s| && IsFirst(s, k) ==> Wider(types(s[k].typ), before[k], after[k])
  }

  /** Whatever was given up on the way, the summary admits everything the built one does. */
  lemma {:induction false} KeepUpIsWider(types: Types, names: Oid -> Text, attrs: seq<IndexAttr>,
                                         tuples: seq<seq<Option<Datum>>>, cols: seq<ColSummary>)
    requires LawfulTypes(types)
    requires AllKeepUp(types, names, attrs, tuples, cols)
    ensures WiderSeen(types, attrs, Built(types, names, attrs, tuples), cols)
  {
    DescribedInOrder(types, attrs, cols);
    hide KeepsUp, Lawful, BuiltCol, Wider, Summarized, Positions, DescribesAll, InOrder;
    var s, ps := Summarized(attrs), Positions(attrs);
    forall k | 0 <= k < |s| && IsFirst(s, k) ensures Wider(types(s[k].typ), Built(types, names, attrs, tuples)[k],
                                                           cols[k]) {
      assert KeepsUpAt(types, names, attrs, tuples, cols[k], k);
      KeepsUpIsWider(types(s[k].typ), s[k], names(s[k].typ), ColumnAt(tuples, ps[k]), cols[k]);
    }
  }

  // ---- against what a rebuild stores ---------------------------------------------------------

  /** The entry rules no value out. */
  ghost predicate AdmitsEvery(t: TypeOps, c: ColSummary) {
    forall d: Datum :: Covers(t, c, Some(d))
  }

  /** No bounds take in every value of the type. */
  ghost predicate Limitless(t: TypeOps) {
    forall c: ColSummary :: AdmitsEvery(t, c) ==> c.unbounded
  }

  /** A column the rebuild gives up holds a value, so giving it up admits every value. */
  lemma {:induction false} GivenUp(t: TypeOps, a: IndexAttr, name: Text, vs: seq<Option<Datum>>, w: ColSummary)
    requires Lawful(t) && KeepsUp(t, a, name, vs, w) && BoundLen(BuiltCol(t, a, name, vs)) > 0
    ensures Wider(t, BuiltCol(t, a, name, vs).MadeUnbounded(), w) <==> AdmitsEvery(t, w)
    ensures w.unbounded ==> AdmitsEvery(t, w)
  {
    var built := BuiltCol(t, a, name, vs);
    HoldsValue(t, a, name, vs);
    AllNullsIff(t, a, name, vs);
    NullFlagsExact(t, a, name, vs);
    hide Lawful, NonNull, BuiltCol, Describes, BoundLen, Hull;
    if Wider(t, built.MadeUnbounded(), w) {
      forall d: Datum ensures Covers(t, w, Some(d)) {
        assert Covers(t, built.MadeUnbounded(), Some(d));
      }
    }
    if AdmitsEvery(t, w) {
      forall v: Option<Datum> | Covers(t, built.MadeUnbounded(), v) ensures Covers(t, w, v) {
        if v.Some? {
          assert Covers(t, w, Some(v.value));
        }
      }
    }
  }

  lemma {:induction false} HoldsValue(t: TypeOps, a: IndexAttr, name: Text, vs: seq<Option<Datum>>)
    requires Lawful(t) && BoundLen(BuiltCol(t, a, name, vs)) > 0
    ensures NonNull(vs) != []
  {
    HullEmpty(t);
    hide Lawful, NonNull, Hull;
  }

  /** For every column that the mask drops, of those the planner reads, the entry rules no value out. */
  ghost predicate NothingRuledOut(types: Types, attrs: seq<IndexAttr>, mask: seq<bool>, cols: seq<ColSummary>)
    requires |mask| == |cols| == |Summarized(attrs)|
  {
    var s := Summarized(attrs);
    forall k :: 0 <= k < |s| && IsFirst(s, k) && mask[k] ==> AdmitsEvery(types(s[k].typ), cols[k])
  }

  /** The same, asked of the flag. */
  ghost predicate AllUnbounded(attrs: seq<IndexAttr>, mask: seq<bool>, cols: seq<ColSummary>)
    requires |mask| == |cols| == |Summarized(attrs)|
  {
    forall k :: 0 <= k < |cols| && IsFirst(Summarized(attrs), k) && mask[k] ==> cols[k].unbounded
  }

  ghost predicate DroppedLimitless(types: Types, attrs: seq<IndexAttr>, mask: seq<bool>)
    requires |mask| == |Summarized(attrs)|
  {
    var s := Summarized(attrs);
    forall k :: 0 <= k < |s| && IsFirst(s, k) && mask[k] ==> Limitless(types(s[k].typ))
  }

  /**
   * What the page holds admits all a rebuild's page would, if and only if every column the rebuild
   * gives up for space is one for which the page rules no value out. Where no bounds of those columns
   * take in every value, that is to say that they are unbounded on the page already.
   */
  lemma {:induction false} StoredIsWiderIff(types: Types, names: Oid -> Text, attrs: seq<IndexAttr>,
                                            tuples: seq<seq<Option<Datum>>>, cols: seq<ColSummary>)
    requires LawfulTypes(types)
    requires AllKeepUp(types, names, attrs, tuples, cols)
    ensures |cols| == |Summarized(attrs)|
    ensures var built := Built(types, names, attrs, tuples);
      && (WiderSeen(types, attrs, Fitted(built), cols) <==> NothingRuledOut(types, attrs, Dropped(built), cols))
      && (DroppedLimitless(types, attrs, Dropped(built)) ==>
            (WiderSeen(types, attrs, Fitted(built), cols) <==> AllUnbounded(attrs, Dropped(built), cols)))
  {
    var s, built := Summarized(attrs), Built(types, names, attrs, tuples);
    FittedIsDropped(built, MAX_BLOB_LEN);
    KeepUpIsWider(types, names, attrs, tuples, cols);
    DescribedInOrder(types, attrs, cols);
    hide KeepsUpAt, BuiltCol, Built, Wider, Summarized, Positions, FittedIn, DroppedIn, AdmitsEvery, BoundLen;
    hide LongestFirst, DescribesAll, InOrder, Limitless, LawfulTypes, WiderSeen, NothingRuledOut, AllUnbounded;
    hide DroppedLimitless;
    forall k | 0 <= k < |s| && IsFirst(s, k) && Dropped(built)[k]
      ensures Wider(types(s[k].typ), built[k].MadeUnbounded(), cols[k]) <==> AdmitsEvery(types(s[k].typ), cols[k])
      ensures cols[k].unbounded ==> AdmitsEvery(types(s[k].typ), cols[k])
    {
      GivenUpAt(types, names, attrs, tuples, cols, k);
    }
    DropsDecide(types, attrs, built, Dropped(built), cols);
  }

  lemma {:induction false} GivenUpAt(types: Types, names: Oid -> Text, attrs: seq<IndexAttr>,
                                     tuples: seq<seq<Option<Datum>>>, cols: seq<ColSummary>, k: nat)
    requires LawfulTypes(types) && AllKeepUp(types, names, attrs, tuples, cols)
    requires |cols| == |Summarized(attrs)| && k < |cols| && IsFirst(Summarized(attrs), k)
    requires BoundLen(Built(types, names, attrs, tuples)[k]) > 0
    ensures var t := types(Summarized(attrs)[k].typ);
      && (Wider(t, Built(types, names, attrs, tuples)[k].MadeUnbounded(), cols[k]) <==> AdmitsEvery(t, cols[k]))
      && (cols[k].unbounded ==> AdmitsEvery(t, cols[k]))
  {
    assert KeepsUpAt(types, names, attrs, tuples, cols[k], k);
    var a := Summarized(attrs)[k];
    hide KeepsUp, BuiltCol, Wider, Summarized, Positions, AdmitsEvery, BoundLen, DescribesAll;
    GivenUp(types(a.typ), a, names(a.typ), ColumnAt(tuples, Positions(attrs)[k]), cols[k]);
  }

  /** Whether `cols` admits all that `built` does without the columns of the mask is decided by those columns. */
  lemma {:induction false} DropsDecide(types: Types, attrs: seq<IndexAttr>, built: seq<ColSummary>, mask: seq<bool>,
                                       cols: seq<ColSummary>)
    requires |built| == |mask| == |cols| == |Summarized(attrs)| && WiderSeen(types, attrs, built, cols)
    requires var s := Summarized(attrs);
      forall k :: 0 <= k < |s| && IsFirst(s, k) && mask[k] ==>
        && (Wider(types(s[k].typ), built[k].MadeUnbounded(), cols[k]) <==> AdmitsEvery(types(s[k].typ), cols[k]))
        && (cols[k].unbounded ==> AdmitsEvery(types(s[k].typ), cols[k]))
    ensures WiderSeen(types, attrs, Drop(built, mask), cols) <==> NothingRuledOut(types, attrs, mask, cols)
    ensures DroppedLimitless(types, attrs, mask) ==>
      (NothingRuledOut(types, attrs, mask, cols) <==> AllUnbounded(attrs, mask, cols))
  {
    hide Wider, AdmitsEvery, Summarized, IsFirst;
    var s, fitted := Summarized(attrs), Drop(built, mask);
    if NothingRuledOut(types, attrs, mask, cols) {
      forall k | 0 <= k < |s| && IsFirst(s, k) ensures Wider(types(s[k].typ), fitted[k], cols[k]) {
        assert fitted[k] == if mask[k] then built[k].MadeUnbounded() else built[k];
      }
    }
    if WiderSeen(types, attrs, fitted, cols) {
      forall k | 0 <= k < |s| && IsFirst(s, k) && mask[k] ensures AdmitsEvery(types(s[k].typ), cols[k]) {
        assert Wider(types(s[k].typ), fitted[k], cols[k]);
      }
    }
  }

  /** So where the rebuild has room for everything, the page is at least as wide, whatever was given up on the way. */
  lemma {:induction false} StoredIsWider(types: Types, names: Oid -> Text, attrs: seq<IndexAttr>,
                                         tuples: seq<seq<Option<Datum>>>, cols: seq<ColSummary>)
    requires LawfulTypes(types)
    requires AllKeepUp(types, names, attrs, tuples, cols)
    requires Fits(Built(types, names, attrs, tuples))
    ensures WiderSeen(types, attrs, Fitted(Built(types, names, attrs, tuples)), cols)
  {
    KeepUpIsWider(types, names, attrs, tuples, cols);
    hide AllKeepUp, LawfulTypes, WiderSeen, Built;
  }

  // ---- on the page -----------------------------------------------------------------------------

  function Tuples(arrivals: seq<Arrival>): (tuples: seq<seq<Option<Datum>>>)
    ensures |tuples| == |arrivals| && forall i :: 0 <= i < |tuples| ==> tuples[i] == arrivals[i].values
  {
    seq(|arrivals|, i requires 0 <= i < |arrivals| => arrivals[i].values)
  }

  lemma {:induction false} StartKeepsUp(ix: Index, session: Settings, xs: seq<seq<Option<Datum>>>)
    requires LawfulIndex(ix)
    ensures AllKeepUp(ix.types, ix.names, ix.attrs, xs, Fitted(Built(TypesIn(ix, session), ix.names, ix.attrs, xs)))
  {
    SeenLawful(ix, session);
    hide LawfulIndex, AllKeepUp, Built, FittedIn, AlikeTypes, NamesLaw, LawfulTypes;
    var built := Built(TypesIn(ix, session), ix.names, ix.attrs, xs);
    BuiltKeepUp(TypesIn(ix, session), ix.names, ix.attrs, xs);
    IndexTypes(ix);
    AllKeepUpAlike(ix.types, TypesIn(ix, session), ix.names, ix.attrs, xs, built);
    FittedKeepUp(ix.types, ix.names, ix.attrs, xs, built);
  }

  lemma {:induction false} IndexTypes(ix: Index)
    requires LawfulIndex(ix)
    ensures LawfulTypes(ix.types)
  {
  }

  lemma {:induction false} IndexAgrees(ix: Index, session: Settings)
    requires LawfulIndex(ix)
    ensures OneType(ix.attrs) && Agreeing(TypesIn(ix, session), ix.attrs)
  {
    SeenLawful(ix, session);
    hide LawfulTypes, AlikeTypes, NamesLaw;
    AgreeingAlike(ix.types, TypesIn(ix, session), ix.attrs);
    hide Agreeing, OneType;
  }

  lemma {:induction false} ArrivalKeepsUp(ix: Index, tuples: seq<seq<Option<Datum>>>, cols: seq<ColSummary>, n: Arrival)
    requires LawfulIndex(ix) && PrintsByExtentAll(ix.types) && TupleOf(ix.attrs, n.row, n.values)
    requires AllKeepUp(ix.types, ix.names, ix.attrs, tuples, cols)
    ensures AllKeepUp(ix.types, ix.names, ix.attrs, tuples + [n.values], Kept(ix, cols, n))
  {
    var seen := TypesIn(ix, n.session);
    SeenLawful(ix, n.session);
    IndexTypes(ix);
    IndexAgrees(ix, n.session);
    PrintsAlike(ix.types, seen);
    assert DescribesAll(ix.types, ix.attrs, cols);
    InsertCovers(ix, n.session, cols, n.values, n.row);
    hide LawfulIndex, AllKeepUp, FittedIn, AlikeTypes, NamesLaw, LawfulTypes, WidenRow, PrintsByExtentAll, OneType;
    hide Agreeing, TupleOf, DescribesAll, CoversRow, WiderAll;
    var after := WidenRow(seen, ix.attrs, cols, n.values).cols;
    AllKeepUpAlike(ix.types, seen, ix.names, ix.attrs, tuples, cols);
    RowKeepsUp(seen, ix.names, ix.attrs, tuples, cols, n.row, n.values);
    AllKeepUpAlike(ix.types, seen, ix.names, ix.attrs, tuples + [n.values], after);
    FittedKeepUp(ix.types, ix.names, ix.attrs, tuples + [n.values], after);
  }

  /** A chain of inserts in any sessions, on what a build in any session stored, keeps up with a build over it all. */
  lemma {:induction false} KeptAllKeepUp(ix: Index, session: Settings, xs: seq<seq<Option<Datum>>>,
                                         arrivals: seq<Arrival>)
    requires LawfulIndex(ix) && PrintsByExtentAll(ix.types)
    requires ArriveWell(ix, arrivals)
    ensures var start := Fitted(Built(TypesIn(ix, session), ix.names, ix.attrs, xs));
      AllKeepUp(ix.types, ix.names, ix.attrs, xs + Tuples(arrivals), KeptAll(ix, start, arrivals))
  {
    hide LawfulIndex, AllKeepUp, Built, Fitted, PrintsByExtentAll, Kept;
    if arrivals == [] {
      assert xs + Tuples(arrivals) == xs;
      StartKeepsUp(ix, session, xs);
    } else {
      var init, last := arrivals[..|arrivals| - 1], arrivals[|arrivals| - 1];
      assert last in arrivals && forall n | n in init :: n in arrivals;
      KeptAllKeepUp(ix, session, xs, init);
      assert xs + Tuples(arrivals) == (xs + Tuples(init)) + [last.values];
      var start := Fitted(Built(TypesIn(ix, session), ix.names, ix.attrs, xs));
      ArrivalKeepsUp(ix, xs + Tuples(init), KeptAll(ix, start, init), last);
    }
  }

  // ---- the page against a rebuilt page -------------------------------------------------------------

  /**
   * After a build and any interleaving of inserts and rebuilds in any sessions: the page compared with the
   * one a rebuild in the session `again` would write over what was last built and inserted since.
   */
  lemma {:induction false} PageIsWiderIff(ix: Index, session: Settings, s: State, xs: seq<seq<Option<Datum>>>,
                                          steps: seq<Step>, again: Settings)
    requires LawfulIndex(ix) && PrintsByExtentAll(ix.types)
    requires s.active == map[] && OnPage(s, Fitted(Built(TypesIn(ix, session), ix.names, ix.attrs, xs)))
    requires TuplesMatch(ix, s)
    ensures EraSince(ix, s, session, xs, steps).origin.BuiltBy?
    ensures var cols := PageCols(Exec(ix, s, steps).page);
      var types, e := TypesIn(ix, again), EraSince(ix, s, session, xs, steps);
      var built := Built(types, ix.names, ix.attrs, e.origin.scan + Tuples(e.arrivals));
      && cols.Some? && |cols.value| == |Summarized(ix.attrs)|
      && (WiderSeen(types, ix.attrs, Fitted(built), cols.value) <==>
            NothingRuledOut(types, ix.attrs, Dropped(built), cols.value))
      && (DroppedLimitless(types, ix.attrs, Dropped(built)) ==>
            (WiderSeen(types, ix.attrs, Fitted(built), cols.value) <==>
               AllUnbounded(ix.attrs, Dropped(built), cols.value)))
      && (Fits(built) ==> WiderSeen(types, ix.attrs, Fitted(built), cols.value))
  {
    hide LawfulIndex, LawfulTypes, AlikeTypes, NamesLaw, AllKeepUp, Built, FittedIn, DroppedIn, WiderSeen, KeptAll;
    hide NothingRuledOut, AllUnbounded, DroppedLimitless, TuplesMatch, PrintsByExtentAll, Exec, OnPage, PageCols;
    hide FitsIn, EraSince, ArriveWell;
    PageSince(ix, s, session, xs, steps);
    var e, types := EraSince(ix, s, session, xs, steps), TypesIn(ix, again);
    KeptAllKeepUp(ix, e.origin.session, e.origin.scan, e.arrivals);
    IndexTypes(ix);
    SeenLawful(ix, again);
    var tuples, kept := e.origin.scan + Tuples(e.arrivals), PageCols(Exec(ix, s, steps).page).value;
    AllKeepUpAlike(ix.types, types, ix.names, ix.attrs, tuples, kept);
    StoredIsWiderIff(types, ix.names, ix.attrs, tuples, kept);
    if Fits(Built(types, ix.names, ix.attrs, tuples)) {
      StoredIsWider(types, ix.names, ix.attrs, tuples, kept);
    }
  }
}
