/**
 * The page after inserts against the page of a rebuild, when everything prints and fits: entry by entry
 * the same in one session, and of the same meaning across sessions.
 */
module RebuiltPage {
  import opened Base
  import opened Format
  import opened Fitting
  import opened Coverage
  import opened Widening
  import opened FirstEntries
  import opened Build
  import opened Rebuild
  import opened SnugColumns
  import opened Protocol
  import opened Serial
  import opened Upkeep
  import opened Sessions

  // ---- inserts that all fit ----------------------------------------------------------------

  ghost predicate Sized(attrs: seq<IndexAttr>, tuples: seq<seq<Option<Datum>>>) {
    forall tuple | tuple in tuples :: |tuple| == |attrs|
  }

  /** The summary after each of `tuples` has been folded in, without a page limit. */
  function WidenRows(types: Types, attrs: seq<IndexAttr>, cols: seq<ColSummary>, tuples: seq<seq<Option<Datum>>>)
    : (r: seq<ColSummary>)
    requires Sized(attrs, tuples)
    ensures |r| == |cols|
  {
    if tuples == [] then cols else
    var init, last := tuples[..|tuples| - 1], tuples[|tuples| - 1];
    WidenRow(types, attrs, WidenRows(types, attrs, cols, init), last).cols
  }

  /** Every value of a column, and every range its scan goes through, can be stored. */
  ghost predicate Storable(types: Types, attrs: seq<IndexAttr>, tuples: seq<seq<Option<Datum>>>)
  {
    var s, ps := Summarized(attrs), Positions(attrs);
    forall k :: 0 <= k < |s| ==>
      MergeByText(types(s[k].typ)) && AllStorable(types(s[k].typ), ColumnAt(tuples, ps[k]))
  }

  lemma {:induction false} RowAt(types: Types, attrs: seq<IndexAttr>, cols: seq<ColSummary>,
                                 values: seq<Option<Datum>>, k: nat)
    requires Distinct(attrs) && InOrder(attrs, cols) && |values| == |attrs| && k < |cols|
    ensures var a := Summarized(attrs)[k];
      WidenRow(types, attrs, cols, values).cols[k]
      == WidenCol(types(a.typ), a.collation, cols[k], values[Positions(attrs)[k]]).col
    ensures InOrder(attrs, WidenRow(types, attrs, cols, values).cols)
  {
    WidensByColumn(types, attrs, cols, values, |attrs|);
    hide WidenCol, Distinct, WidenFirst;
  }

  lemma {:induction false} RowsAt(types: Types, attrs: seq<IndexAttr>, cols: seq<ColSummary>,
                                  tuples: seq<seq<Option<Datum>>>, k: nat)
    requires Distinct(attrs) && InOrder(attrs, cols) && k < |cols| && Sized(attrs, tuples)
    ensures InOrder(attrs, WidenRows(types, attrs, cols, tuples))
    ensures var a := Summarized(attrs)[k];
      WidenRows(types, attrs, cols, tuples)[k]
      == WidenMany(types(a.typ), a, cols[k], ColumnAt(tuples, Positions(attrs)[k]))
  {
    hide WidenRow, WidenCol, Distinct, InOrder, Summarized, Positions;
    InOrderSize(attrs, cols);
    if tuples != [] {
      var init, last := tuples[..|tuples| - 1], tuples[|tuples| - 1];
      assert last in tuples && forall tuple | tuple in init :: tuple in tuples;
      RowsAt(types, attrs, cols, init, k);
      RowAt(types, attrs, WidenRows(types, attrs, cols, init), last, k);
      var p := Positions(attrs)[k];
      var vs := ColumnAt(tuples, p);
      assert vs[..|vs| - 1] == ColumnAt(init, p) && vs[|vs| - 1] == last[p];
    }
  }

  /**
   * Building over `xs` and folding `ys` in row by row gives the summary a build over both gives,
   * column by column. Only an all-NULL flag can differ: inserts never set it.
   */
  lemma {:induction false} RowsAreRebuilt(types: Types, names: Oid -> Text, attrs: seq<IndexAttr>,
                                          xs: seq<seq<Option<Datum>>>, ys: seq<seq<Option<Datum>>>)
    requires LawfulTypes(types) && NamesLaw(types, names) && Distinct(attrs)
    requires Sized(attrs, ys) && Storable(types, attrs, xs + ys)
    ensures var rebuilt := Built(types, names, attrs, xs + ys);
      var w := WidenRows(types, attrs, Built(types, names, attrs, xs), ys);
      |w| == |rebuilt| && forall k :: 0 <= k < |w| ==>
        w[k] == rebuilt[k].(allNulls := xs != [] && rebuilt[k].allNulls)
  {
    var w := WidenRows(types, attrs, Built(types, names, attrs, xs), ys);
    hide Storable, LawfulTypes, NamesLaw, Distinct, WidenRows, Sized;
    forall k | 0 <= k < |w|
      ensures var rebuilt := Built(types, names, attrs, xs + ys)[k];
        w[k] == rebuilt.(allNulls := xs != [] && rebuilt.allNulls)
    {
      RowsAreRebuiltAt(types, names, attrs, xs, ys, k);
    }
  }

  lemma {:induction false} BuiltInOrder(types: Types, names: Oid -> Text, attrs: seq<IndexAttr>,
                                        tuples: seq<seq<Option<Datum>>>)
    ensures InOrder(attrs, Built(types, names, attrs, tuples))
  {
    hide BuiltCol, Summarized, Positions;
    forall k | 0 <= k < |Summarized(attrs)|
      ensures Built(types, names, attrs, tuples)[k].attnum == Summarized(attrs)[k].attnum
    {
      var a := Summarized(attrs)[k];
      BuiltAttnum(types(a.typ), a, names(a.typ), ColumnAt(tuples, Positions(attrs)[k]));
    }
  }

  lemma {:induction false} BuiltAttnum(t: TypeOps, a: IndexAttr, name: Text, vs: seq<Option<Datum>>)
    ensures BuiltCol(t, a, name, vs).attnum == a.attnum
  {
    hide Bounds, LostBound, NonNull;
  }

  lemma {:induction false} BuiltAt(types: Types, names: Oid -> Text, attrs: seq<IndexAttr>,
                                   tuples: seq<seq<Option<Datum>>>, k: nat)
    requires k < |Positions(attrs)|
    ensures var a := Summarized(attrs)[k];
      Built(types, names, attrs, tuples)[k]
      == BuiltCol(types(a.typ), a, names(a.typ), ColumnAt(tuples, Positions(attrs)[k]))
  {
    hide BuiltCol;
  }

  lemma {:induction false} RowsAreRebuiltAt(types: Types, names: Oid -> Text, attrs: seq<IndexAttr>,
                                            xs: seq<seq<Option<Datum>>>, ys: seq<seq<Option<Datum>>>, k: nat)
    requires LawfulTypes(types) && NamesLaw(types, names) && Distinct(attrs) && k < |Positions(attrs)|
    requires Sized(attrs, ys)
    requires Storable(types, attrs, xs + ys)
    ensures var rebuilt := Built(types, names, attrs, xs + ys)[k];
      WidenRows(types, attrs, Built(types, names, attrs, xs), ys)[k]
      == rebuilt.(allNulls := xs != [] && rebuilt.allNulls)
  {
    hide LawfulTypes, NamesLaw, Storable, Sized, Lawful, MergeByText, AllStorable, NamesGeometry, TypeOps.Kind;
    hide Distinct, WidenRows, BuiltCol, WidenMany, InOrder, Built, Positions, Summarized;
    var a, p := Summarized(attrs)[k], Positions(attrs)[k];
    StorableAt(types, names, attrs, xs + ys, k);
    BuiltInOrder(types, names, attrs, xs);
    RowsAt(types, attrs, Built(types, names, attrs, xs), ys, k);
    BuiltAt(types, names, attrs, xs, k);
    BuiltAt(types, names, attrs, xs + ys, k);
    assert ColumnAt(xs + ys, p) == ColumnAt(xs, p) + ColumnAt(ys, p);
    IncrementalIsRebuild(types(a.typ), a, names(a.typ), ColumnAt(xs, p), ColumnAt(ys, p));
  }

  lemma {:induction false} StorableAt(types: Types, names: Oid -> Text, attrs: seq<IndexAttr>,
                                      tuples: seq<seq<Option<Datum>>>, k: nat)
    requires LawfulTypes(types) && NamesLaw(types, names) && Storable(types, attrs, tuples) && k < |Positions(attrs)|
    ensures var a := Summarized(attrs)[k];
      && Lawful(types(a.typ)) && MergeByText(types(a.typ))
      && AllStorable(types(a.typ), ColumnAt(tuples, Positions(attrs)[k]))
      && NamesGeometry(names(a.typ)) == (types(a.typ).Kind() == Geometry)
  {
    hide Lawful, MergeByText, AllStorable, NamesGeometry;
  }

  /** Every summary along the way fits the page as it is. */
  ghost predicate AllFit(types: Types, attrs: seq<IndexAttr>, cols: seq<ColSummary>, tuples: seq<seq<Option<Datum>>>) {
    forall n | 0 <= n <= |tuples| && Sized(attrs, tuples[..n]) :: Fits(WidenRows(types, attrs, cols, tuples[..n]))
  }

  lemma {:induction false} PrefixFits(types: Types, attrs: seq<IndexAttr>, cols: seq<ColSummary>,
                                      tuples: seq<seq<Option<Datum>>>, m: nat)
    requires AllFit(types, attrs, cols, tuples) && m <= |tuples| && Sized(attrs, tuples)
    ensures Sized(attrs, tuples[..m]) && AllFit(types, attrs, cols, tuples[..m])
    ensures Fits(WidenRows(types, attrs, cols, tuples[..m]))
  {
    hide Fits, WidenRow;
    assert forall tuple | tuple in tuples[..m] :: tuple in tuples;
    forall n | 0 <= n <= m && Sized(attrs, tuples[..m][..n])
      ensures Fits(WidenRows(types, attrs, cols, tuples[..m][..n]))
    {
      assert tuples[..m][..n] == tuples[..n];
    }
  }

  lemma {:induction false} FitsAsIs(cols: seq<ColSummary>)
    requires Fits(cols)
    ensures Fitted(cols) == cols
  {
    hide FitsIn;
  }

  /** When everything fits all the way, an index kept up in one session stores what folding alone gives. */
  lemma {:induction false} KeptIsWidened(ix: Index, session: Settings, cols: seq<ColSummary>, arrivals: seq<Arrival>)
    requires LawfulIndex(ix) && ArriveWell(ix, arrivals) && DescribesAll(ix.types, ix.attrs, cols)
    requires forall n | n in arrivals :: n.session == session
    requires AllFit(TypesIn(ix, session), ix.attrs, cols, Tuples(arrivals))
    ensures Sized(ix.attrs, Tuples(arrivals))
    ensures KeptAll(ix, cols, arrivals) == WidenRows(TypesIn(ix, session), ix.attrs, cols, Tuples(arrivals))
    ensures DescribesAll(ix.types, ix.attrs, KeptAll(ix, cols, arrivals))
  {
    hide LawfulIndex, Fitted, Fits, WidenRow, DescribesAll, AllFit, Sized, TupleOf, WidenRows;
    var seen, tuples := TypesIn(ix, session), Tuples(arrivals);
    ArriveSized(ix, arrivals);
    if arrivals == [] {
      NoRows(seen, ix.attrs, cols);
    } else {
      var init, last := arrivals[..|arrivals| - 1], arrivals[|arrivals| - 1];
      assert last in arrivals && forall n | n in init :: n in arrivals;
      assert tuples[..|arrivals| - 1] == Tuples(init);
      PrefixFits(seen, ix.attrs, cols, tuples, |init|);
      KeptIsWidened(ix, session, cols, init);
      InsertCovers(ix, session, KeptAll(ix, cols, init), last.values, last.row);
      LastFits(seen, ix.attrs, cols, tuples);
    }
  }

  lemma {:induction false} NoRows(types: Types, attrs: seq<IndexAttr>, cols: seq<ColSummary>)
    ensures Sized(attrs, []) && WidenRows(types, attrs, cols, []) == cols
  {
  }

  /** The last row's summary fits, so folding it in and storing it are the same. */
  lemma {:induction false} LastFits(types: Types, attrs: seq<IndexAttr>, cols: seq<ColSummary>,
                                    tuples: seq<seq<Option<Datum>>>)
    requires AllFit(types, attrs, cols, tuples) && Sized(attrs, tuples) && tuples != []
    ensures var init, last := tuples[..|tuples| - 1], tuples[|tuples| - 1];
      && Sized(attrs, init) && |last| == |attrs|
      && var w := WidenRow(types, attrs, WidenRows(types, attrs, cols, init), last).cols;
      WidenRows(types, attrs, cols, tuples) == w && Fits(w) && Fitted(w) == w
  {
    hide AllFit, Fits, Fitted, WidenRow;
    PrefixFits(types, attrs, cols, tuples, |tuples|);
    assert tuples[..|tuples|] == tuples && tuples[|tuples| - 1] in tuples;
    PrefixFits(types, attrs, cols, tuples, |tuples| - 1);
    FitsAsIs(WidenRows(types, attrs, cols, tuples));
  }

  lemma {:induction false} ArriveSized(ix: Index, arrivals: seq<Arrival>)
    requires ArriveWell(ix, arrivals)
    ensures Sized(ix.attrs, Tuples(arrivals))
    ensures forall n | n in arrivals :: |n.values| == |ix.attrs|
  {
    forall tuple | tuple in Tuples(arrivals) ensures |tuple| == |ix.attrs| {
      var i :| 0 <= i < |arrivals| && Tuples(arrivals)[i] == tuple;
      assert arrivals[i] in arrivals;
    }
  }

  /**
   * After any run in whose last era everything is in one session, prints and fits, the page holds what a
   * rebuild would store, entry by entry.
   */
  lemma {:induction false} PageIsRebuilt(ix: Index, session: Settings, s: State, xs: seq<seq<Option<Datum>>>,
                                         steps: seq<Step>)
    requires LawfulIndex(ix) && Distinct(ix.attrs) && TuplesMatch(ix, s) && s.active == map[]
    requires OnPage(s, Fitted(Built(TypesIn(ix, session), ix.names, ix.attrs, xs)))
    requires EraSince(ix, s, session, xs, steps).origin.BuiltBy?
    requires var e := EraSince(ix, s, session, xs, steps);
      var seen := TypesIn(ix, e.origin.session);
      && (forall n | n in e.arrivals :: n.session == e.origin.session)
      && AllFit(seen, ix.attrs, Built(seen, ix.names, ix.attrs, e.origin.scan), Tuples(e.arrivals))
      && Storable(seen, ix.attrs, e.origin.scan + Tuples(e.arrivals))
    ensures var cols, e := PageCols(Exec(ix, s, steps).page), EraSince(ix, s, session, xs, steps);
      var rebuilt := Built(TypesIn(ix, e.origin.session), ix.names, ix.attrs, e.origin.scan + Tuples(e.arrivals));
      && cols.Some? && |cols.value| == |rebuilt|
      && forall k :: 0 <= k < |rebuilt| ==>
           cols.value[k] == rebuilt[k].(allNulls := e.origin.scan != [] && rebuilt[k].allNulls)
  {
    hide LawfulIndex, LawfulTypes, NamesLaw, AlikeTypes, Distinct, Built, WidenRows, KeptAll, Exec, AllFit, Fitted;
    hide Storable, DescribesAll, TuplesMatch, ArriveWell, Sized, EraSince, OnPage, PageCols, Fits;
    PageSince(ix, s, session, xs, steps);
    var e := EraSince(ix, s, session, xs, steps);
    var seen := TypesIn(ix, e.origin.session);
    var start := Built(seen, ix.names, ix.attrs, e.origin.scan);
    SeenLawful(ix, e.origin.session);
    ScanDescribes(ix, e.origin.session, e.origin.scan);
    ArriveSized(ix, e.arrivals);
    StartFits(seen, ix.attrs, start, Tuples(e.arrivals));
    KeptIsWidened(ix, e.origin.session, start, e.arrivals);
    RowsAreRebuilt(seen, ix.names, ix.attrs, e.origin.scan, Tuples(e.arrivals));
  }

  lemma {:induction false} StartFits(types: Types, attrs: seq<IndexAttr>, cols: seq<ColSummary>,
                                     tuples: seq<seq<Option<Datum>>>)
    requires AllFit(types, attrs, cols, tuples) && Sized(attrs, tuples)
    ensures Fitted(cols) == cols
  {
    PrefixFits(types, attrs, cols, tuples, 0);
    NoRows(types, attrs, cols);
    assert tuples[..0] == [];
    hide AllFit, Fits, Fitted, WidenRows;
    FitsAsIs(cols);
  }

  // ---- across sessions -----------------------------------------------------------------------------

  /** Every value of a column, and every range its scan goes through, prints. */
  ghost predicate Printable(types: Types, attrs: seq<IndexAttr>, tuples: seq<seq<Option<Datum>>>) {
    var s, ps := Summarized(attrs), Positions(attrs);
    forall k :: 0 <= k < |s| ==> AllStorable(types(s[k].typ), ColumnAt(tuples, ps[k]))
  }

  /** The entry the planner reads of every column is snug over `tuples`. */
  ghost predicate AllSnug(types: Types, attrs: seq<IndexAttr>, flag: bool, tuples: seq<seq<Option<Datum>>>,
                          cols: seq<ColSummary>)
  {
    && DescribesAll(types, attrs, cols)
    && forall k :: 0 <= k < |cols| && IsFirst(Summarized(attrs), k) ==> SnugAt(types, attrs, flag, tuples, cols[k], k)
  }

  ghost predicate SnugAt(types: Types, attrs: seq<IndexAttr>, flag: bool, tuples: seq<seq<Option<Datum>>>,
                         c: ColSummary, k: nat)
    requires k < |Summarized(attrs)|
  {
    var a := Summarized(attrs)[k];
    Snug(types(a.typ), a, flag, ColumnAt(tuples, Positions(attrs)[k]), c)
  }

  lemma {:induction false} PrintableAt(types: Types, attrs: seq<IndexAttr>, tuples: seq<seq<Option<Datum>>>, k: nat)
    requires Printable(types, attrs, tuples) && k < |Summarized(attrs)|
    ensures AllStorable(types(Summarized(attrs)[k].typ), ColumnAt(tuples, Positions(attrs)[k]))
  {
    hide AllStorable;
  }

  lemma {:induction false} BuiltSnug(types: Types, names: Oid -> Text, attrs: seq<IndexAttr>,
                                     tuples: seq<seq<Option<Datum>>>)
    requires LawfulTypes(types) && NamesLaw(types, names) && Printable(types, attrs, tuples)
    ensures AllSnug(types, attrs, tuples != [], tuples, Built(types, names, attrs, tuples))
  {
    BuildDescribes(types, names, attrs, tuples);
    hide Snug, LawfulTypes, NamesLaw, BuiltCol, Summarized, Positions, DescribesAll, Lawful, NamesGeometry, Printable;
    hide AllStorable;
    forall k | 0 <= k < |Summarized(attrs)|
      ensures SnugAt(types, attrs, tuples != [], tuples, Built(types, names, attrs, tuples)[k], k)
    {
      var a, vs := Summarized(attrs)[k], ColumnAt(tuples, Positions(attrs)[k]);
      LawsAt(types, names, a.typ);
      PrintableAt(types, attrs, tuples, k);
      BuiltIsSnug(types(a.typ), a, names(a.typ), vs);
      assert vs == [] <==> tuples == [];
    }
  }

  lemma {:induction false} AllSnugAlike(types: Types, seen: Types, attrs: seq<IndexAttr>, flag: bool,
                                        tuples: seq<seq<Option<Datum>>>, cols: seq<ColSummary>)
    requires AlikeTypes(types, seen)
    ensures AllSnug(types, attrs, flag, tuples, cols) <==> AllSnug(seen, attrs, flag, tuples, cols)
  {
    DescribesAlike(types, seen, attrs, cols);
    hide Snug, Alike, Summarized, Positions, Describes;
    if DescribesAll(types, attrs, cols) {
      forall k | 0 <= k < |cols|
        ensures SnugAt(types, attrs, flag, tuples, cols[k], k) <==> SnugAt(seen, attrs, flag, tuples, cols[k], k)
      {
        var a := Summarized(attrs)[k];
        SnugAlike(types(a.typ), seen(a.typ), a, flag, ColumnAt(tuples, Positions(attrs)[k]), cols[k]);
      }
    }
  }

  lemma {:induction false} PrintableAlike(types: Types, seen: Types, attrs: seq<IndexAttr>,
                                          tuples: seq<seq<Option<Datum>>>)
    requires AlikeTypes(types, seen) && Printable(types, attrs, tuples)
    ensures Printable(seen, attrs, tuples)
  {
    hide AllStorable, Alike, Summarized, Positions;
    var s, ps := Summarized(attrs), Positions(attrs);
    forall k | 0 <= k < |s| ensures AllStorable(seen(s[k].typ), ColumnAt(tuples, ps[k])) {
      StorableAlike(types(s[k].typ), seen(s[k].typ), ColumnAt(tuples, ps[k]));
    }
  }

  lemma {:induction false} PrintableSooner(types: Types, attrs: seq<IndexAttr>, tuples: seq<seq<Option<Datum>>>,
                                           tuple: seq<Option<Datum>>)
    requires Printable(types, attrs, tuples + [tuple])
    ensures Printable(types, attrs, tuples)
  {
    hide AllStorable, Summarized, Positions;
    var s, ps := Summarized(attrs), Positions(attrs);
    forall k | 0 <= k < |s| ensures AllStorable(types(s[k].typ), ColumnAt(tuples, ps[k])) {
      var vs := ColumnAt(tuples + [tuple], ps[k]);
      assert vs == ColumnAt(tuples, ps[k]) + [vs[|tuples|]];
      StorablePrefix(types(s[k].typ), ColumnAt(tuples, ps[k]), vs[|tuples|]);
    }
  }

  lemma {:induction false} RowStaysSnug(types: Types, attrs: seq<IndexAttr>, flag: bool,
                                        tuples: seq<seq<Option<Datum>>>, cols: seq<ColSummary>, row: Row,
                                        tuple: seq<Option<Datum>>)
    requires LawfulTypes(types) && PrintsByExtentAll(types) && OneType(attrs) && Agreeing(types, attrs)
    requires TupleOf(attrs, row, tuple) && AllSnug(types, attrs, flag, tuples, cols)
    requires Printable(types, attrs, tuples + [tuple])
    ensures AllSnug(types, attrs, flag, tuples + [tuple], WidenRow(types, attrs, cols, tuple).cols)
  {
    WidenRowCovers(types, attrs, cols, tuple, row);
    DescribedInOrder(types, attrs, cols);
    hide WidenRow, SnugAt, Summarized, LawfulTypes, PrintsByExtentAll, DescribesAll, OneType, Agreeing, TupleOf;
    hide InOrder, CoversRow, WiderAll, Printable;
    forall k | 0 <= k < |cols| && IsFirst(Summarized(attrs), k)
      ensures SnugAt(types, attrs, flag, tuples + [tuple], WidenRow(types, attrs, cols, tuple).cols[k], k)
    {
      RowStaysSnugAt(types, attrs, flag, tuples, cols, row, tuple, k);
    }
  }

  lemma {:induction false} RowStaysSnugAt(types: Types, attrs: seq<IndexAttr>, flag: bool,
                                          tuples: seq<seq<Option<Datum>>>, cols: seq<ColSummary>, row: Row,
                                          tuple: seq<Option<Datum>>, k: nat)
    requires LawfulTypes(types) && PrintsByExtentAll(types) && OneType(attrs) && Agreeing(types, attrs)
    requires TupleOf(attrs, row, tuple) && InOrder(attrs, cols) && IsFirst(Summarized(attrs), k) && k < |cols|
    requires SnugAt(types, attrs, flag, tuples, cols[k], k) && Printable(types, attrs, tuples + [tuple])
    ensures SnugAt(types, attrs, flag, tuples + [tuple], WidenRow(types, attrs, cols, tuple).cols[k], k)
  {
    var a, p := Summarized(attrs)[k], Positions(attrs)[k];
    var t, vs, v := types(a.typ), ColumnAt(tuples, p), tuple[p];
    assert ColumnAt(tuples + [tuple], p) == vs + [v];
    PrintsAt(types, a.typ);
    PrintableAt(types, attrs, tuples + [tuple], k);
    hide WidenRow, Snug, Summarized, Positions, WidenCol, Lawful, PrintsByExtent, InOrder, LawfulTypes;
    hide PrintsByExtentAll, OneType, Agreeing, TupleOf, Refines, TypeOps.Kind, AllStorable, Printable;
    InsertStaysSnug(t, a, flag, vs, v, cols[k]);
    var holds := (c: ColSummary) => Snug(t, a, flag, vs + [v], c);
    assert v in vs + [v];
    forall c: ColSummary, second: Oid | holds(c) && (t.Kind() == Scalar ==> Refines(t, a.collation, second))
      ensures holds(WidenCol(t, second, c, v).col)
    {
      AgainStaysSnug(t, a, flag, vs + [v], v, c, second);
    }
    RowInduces(types, attrs, cols, row, tuple, k, holds);
  }

  /** What every insert makes of the summary it finds fits the page as it is. */
  ghost predicate FitOnTheWay(ix: Index, cols: seq<ColSummary>, arrivals: seq<Arrival>)
    requires forall n | n in arrivals :: |n.values| == |ix.attrs|
  {
    forall k | 0 <= k < |arrivals| ::
      Fits(WidenRow(TypesIn(ix, arrivals[k].session), ix.attrs, KeptAll(ix, cols, arrivals[..k]),
                    arrivals[k].values).cols)
  }

  lemma {:induction false} LastFitsToo(ix: Index, cols: seq<ColSummary>, arrivals: seq<Arrival>)
    requires arrivals != [] && forall n | n in arrivals :: |n.values| == |ix.attrs|
    requires FitOnTheWay(ix, cols, arrivals)
    ensures var init, last := arrivals[..|arrivals| - 1], arrivals[|arrivals| - 1];
      && FitOnTheWay(ix, cols, init)
      && Fits(WidenRow(TypesIn(ix, last.session), ix.attrs, KeptAll(ix, cols, init), last.values).cols)
  {
    hide Fits, WidenRow, KeptAll;
    var init := arrivals[..|arrivals| - 1];
    forall k | 0 <= k < |init|
      ensures Fits(WidenRow(TypesIn(ix, init[k].session), ix.attrs, KeptAll(ix, cols, init[..k]), init[k].values).cols)
    {
      assert init[..k] == arrivals[..k];
    }
  }

  lemma {:induction false} ArrivalStaysSnug(ix: Index, flag: bool, tuples: seq<seq<Option<Datum>>>,
                                            cols: seq<ColSummary>, n: Arrival)
    requires LawfulIndex(ix) && PrintsByExtentAll(ix.types) && TupleOf(ix.attrs, n.row, n.values)
    requires AllSnug(ix.types, ix.attrs, flag, tuples, cols) && Printable(ix.types, ix.attrs, tuples + [n.values])
    requires Fits(WidenRow(TypesIn(ix, n.session), ix.attrs, cols, n.values).cols)
    ensures AllSnug(ix.types, ix.attrs, flag, tuples + [n.values], Kept(ix, cols, n))
  {
    var seen := TypesIn(ix, n.session);
    var after := WidenRow(seen, ix.attrs, cols, n.values).cols;
    SeenLawful(ix, n.session);
    IndexAgrees(ix, n.session);
    PrintsAlike(ix.types, seen);
    assert DescribesAll(ix.types, ix.attrs, cols);
    InsertCovers(ix, n.session, cols, n.values, n.row);
    FitsAsIs(after);
    hide LawfulIndex, AllSnug, Fitted, Fits, AlikeTypes, NamesLaw, LawfulTypes, WidenRow, PrintsByExtentAll, OneType;
    hide Agreeing, TupleOf, DescribesAll, CoversRow, WiderAll, Printable;
    AllSnugAlike(ix.types, seen, ix.attrs, flag, tuples, cols);
    PrintableAlike(ix.types, seen, ix.attrs, tuples + [n.values]);
    RowStaysSnug(seen, ix.attrs, flag, tuples, cols, n.row, n.values);
    AllSnugAlike(ix.types, seen, ix.attrs, flag, tuples + [n.values], after);
  }

  lemma {:induction false} KeptLast(ix: Index, cols: seq<ColSummary>, arrivals: seq<Arrival>)
    requires arrivals != [] && forall n | n in arrivals :: |n.values| == |ix.attrs|
    ensures KeptAll(ix, cols, arrivals)
         == Kept(ix, KeptAll(ix, cols, arrivals[..|arrivals| - 1]), arrivals[|arrivals| - 1])
  {
    hide Kept;
  }

  lemma {:induction false} ArriveSooner(ix: Index, arrivals: seq<Arrival>)
    requires ArriveWell(ix, arrivals) && arrivals != []
    ensures var init, last := arrivals[..|arrivals| - 1], arrivals[|arrivals| - 1];
      && ArriveWell(ix, init) && TupleOf(ix.attrs, last.row, last.values) && |last.values| == |ix.attrs|
    ensures forall n | n in arrivals :: |n.values| == |ix.attrs|
    ensures forall n | n in arrivals[..|arrivals| - 1] :: |n.values| == |ix.attrs|
  {
  }

  lemma {:induction false} StartSnug(ix: Index, session: Settings, xs: seq<seq<Option<Datum>>>)
    requires LawfulIndex(ix) && Printable(ix.types, ix.attrs, xs)
    ensures AllSnug(ix.types, ix.attrs, xs != [], xs, Built(TypesIn(ix, session), ix.names, ix.attrs, xs))
  {
    var seen := TypesIn(ix, session);
    SeenLawful(ix, session);
    hide LawfulIndex, AllSnug, Built, Printable, AlikeTypes, LawfulTypes, NamesLaw;
    PrintableAlike(ix.types, seen, ix.attrs, xs);
    BuiltSnug(seen, ix.names, ix.attrs, xs);
    AllSnugAlike(ix.types, seen, ix.attrs, xs != [], xs, Built(seen, ix.names, ix.attrs, xs));
  }

  lemma {:induction false} TuplesLast(xs: seq<seq<Option<Datum>>>, arrivals: seq<Arrival>)
    ensures xs + Tuples([]) == xs
    ensures arrivals != [] ==>
      xs + Tuples(arrivals) == xs + Tuples(arrivals[..|arrivals| - 1]) + [arrivals[|arrivals| - 1].values]
  {
  }

  lemma {:induction false} KeptAllSnug(ix: Index, session: Settings, xs: seq<seq<Option<Datum>>>,
                                       arrivals: seq<Arrival>)
    requires LawfulIndex(ix) && PrintsByExtentAll(ix.types) && ArriveWell(ix, arrivals)
    requires Printable(ix.types, ix.attrs, xs + Tuples(arrivals))
    requires FitOnTheWay(ix, Built(TypesIn(ix, session), ix.names, ix.attrs, xs), arrivals)
    ensures AllSnug(ix.types, ix.attrs, xs != [], xs + Tuples(arrivals),
                    KeptAll(ix, Built(TypesIn(ix, session), ix.names, ix.attrs, xs), arrivals))
  {
    var start := Built(TypesIn(ix, session), ix.names, ix.attrs, xs);
    TuplesLast(xs, arrivals);
    if arrivals == [] {
      KeptNone(ix, start);
      hide LawfulIndex, AllSnug, Built, PrintsByExtentAll, Printable, FitOnTheWay, KeptAll, Tuples;
      StartSnug(ix, session, xs);
    } else {
      ArriveSooner(ix, arrivals);
      hide ArriveWell, KeptAll, LawfulIndex, AllSnug, Built, PrintsByExtentAll, Kept, Printable, FitOnTheWay, WidenRow;
      hide Fits, TupleOf, Tuples;
      var init, last := arrivals[..|arrivals| - 1], arrivals[|arrivals| - 1];
      PrintableSooner(ix.types, ix.attrs, xs + Tuples(init), last.values);
      LastFitsToo(ix, start, arrivals);
      KeptAllSnug(ix, session, xs, init);
      ArrivalStaysSnug(ix, xs != [], xs + Tuples(init), KeptAll(ix, start, init), last);
      KeptLast(ix, start, arrivals);
    }
  }

  /** The entry the planner reads of every column admits the same values in both. */
  ghost predicate MeansSame(types: Types, attrs: seq<IndexAttr>, flag: bool, cols: seq<ColSummary>,
                            rebuilt: seq<ColSummary>)
  {
    var s := Summarized(attrs);
    && |cols| == |rebuilt| == |s|
    && forall k, v: Option<Datum> :: 0 <= k < |s| && IsFirst(s, k) ==>
         (Covers(types(s[k].typ), cols[k], v)
          <==> Covers(types(s[k].typ), rebuilt[k].(allNulls := flag && rebuilt[k].allNulls), v))
  }

  lemma {:induction false} SnugMeansSame(types: Types, names: Oid -> Text, attrs: seq<IndexAttr>, flag: bool,
                                         tuples: seq<seq<Option<Datum>>>, cols: seq<ColSummary>)
    requires LawfulTypes(types) && NamesLaw(types, names) && Printable(types, attrs, tuples)
    requires AllSnug(types, attrs, flag, tuples, cols) && (flag ==> tuples != [])
    ensures MeansSame(types, attrs, flag, cols, Built(types, names, attrs, tuples))
  {
    BuiltSnug(types, names, attrs, tuples);
    DescribedInOrder(types, attrs, cols);
    var s, rebuilt := Summarized(attrs), Built(types, names, attrs, tuples);
    hide LawfulTypes, NamesLaw, Printable, Built, Summarized, Positions, DescribesAll, InOrder, Covers;
    forall k, v: Option<Datum> | 0 <= k < |s| && IsFirst(s, k)
      ensures Covers(types(s[k].typ), cols[k], v)
         <==> Covers(types(s[k].typ), rebuilt[k].(allNulls := flag && rebuilt[k].allNulls), v)
    {
      var vs := ColumnAt(tuples, Positions(attrs)[k]);
      assert SnugAt(types, attrs, flag, tuples, cols[k], k);
      assert SnugAt(types, attrs, tuples != [], tuples, rebuilt[k], k);
      SnugAdmits(types(s[k].typ), s[k], flag, tuples != [], vs, cols[k], rebuilt[k]);
      SnugFlag(types(s[k].typ), s[k], tuples != [], vs, rebuilt[k]);
    }
  }

  lemma {:induction false} SnugFlag(t: TypeOps, a: IndexAttr, flag: bool, vs: seq<Option<Datum>>, c: ColSummary)
    requires Snug(t, a, flag, vs, c)
    ensures c.allNulls <==> flag && NonNull(vs) == []
  {
    hide NonNull, SnugBounds, SnugExtent, Describes;
  }

  /**
   * After any run of inserts and rebuilds in any sessions in whose last era everything prints and fits: to a
   * reader in any session the page means what a rebuild in that session would store, up to the all-NULL flag.
   */
  lemma {:induction false} PageMeansRebuilt(ix: Index, session: Settings, s: State, xs: seq<seq<Option<Datum>>>,
                                            steps: seq<Step>, again: Settings)
    requires LawfulIndex(ix) && PrintsByExtentAll(ix.types) && TuplesMatch(ix, s) && s.active == map[]
    requires OnPage(s, Fitted(Built(TypesIn(ix, session), ix.names, ix.attrs, xs)))
    requires EraSince(ix, s, session, xs, steps).origin.BuiltBy?
    requires var e := EraSince(ix, s, session, xs, steps);
      var built := Built(TypesIn(ix, e.origin.session), ix.names, ix.attrs, e.origin.scan);
      && ArriveWell(ix, e.arrivals) && Printable(ix.types, ix.attrs, e.origin.scan + Tuples(e.arrivals))
      && Fits(built) && FitOnTheWay(ix, built, e.arrivals)
    ensures var cols, e := PageCols(Exec(ix, s, steps).page), EraSince(ix, s, session, xs, steps);
      var seen := TypesIn(ix, again);
      && cols.Some?
      && MeansSame(seen, ix.attrs, e.origin.scan != [], cols.value,
                   Built(seen, ix.names, ix.attrs, e.origin.scan + Tuples(e.arrivals)))
  {
    hide LawfulIndex, LawfulTypes, NamesLaw, AlikeTypes, Built, KeptAll, Exec, AllSnug, Printable, PrintsByExtentAll;
    hide TuplesMatch, ArriveWell, EraSince, OnPage, PageCols, FitOnTheWay, MeansSame, Fitted, Fits;
    PageSince(ix, s, session, xs, steps);
    var e, seen := EraSince(ix, s, session, xs, steps), TypesIn(ix, again);
    var start, tuples, flag :=
      Built(TypesIn(ix, e.origin.session), ix.names, ix.attrs, e.origin.scan), e.origin.scan + Tuples(e.arrivals),
      e.origin.scan != [];
    FitsAsIs(start);
    ArriveSized(ix, e.arrivals);
    KeptAllSnug(ix, e.origin.session, e.origin.scan, e.arrivals);
    SeenLawful(ix, again);
    PrintableAlike(ix.types, seen, ix.attrs, tuples);
    AllSnugAlike(ix.types, seen, ix.attrs, flag, tuples, KeptAll(ix, start, e.arrivals));
    SnugMeansSame(seen, ix.names, ix.attrs, flag, tuples, KeptAll(ix, start, e.arrivals));
  }
}
