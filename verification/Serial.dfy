/**
 * Every run of the machine leaves on the page what its last build stores and the inserts since then make
 * of it when they are made one at a time, in the order in which they return.
 */
module Serial {
  import opened Base
  import opened Format
  import opened MetaPage
  import opened Fitting
  import opened Coverage
  import opened Widening
  import opened Build
  import opened Protocol
  import opened Sessions

  // ---- inserts one at a time ----------------------------------------------------------------

  /** What an insert stores in place of `cols`. */
  function Kept(ix: Index, cols: seq<ColSummary>, n: Arrival): seq<ColSummary>
    requires |n.values| == |ix.attrs|
  {
    var w := WidenRow(TypesIn(ix, n.session), ix.attrs, cols, n.values);
    if w.changed then Fitted(w.cols) else cols
  }

  ghost predicate ArriveWell(ix: Index, arrivals: seq<Arrival>) {
    forall n | n in arrivals :: TupleOf(ix.attrs, n.row, n.values)
  }

  function KeptAll(ix: Index, cols: seq<ColSummary>, arrivals: seq<Arrival>): seq<ColSummary>
    requires forall n | n in arrivals :: |n.values| == |ix.attrs|
  {
    if arrivals == [] then cols
    else Kept(ix, KeptAll(ix, cols, arrivals[..|arrivals| - 1]), arrivals[|arrivals| - 1])
  }

  lemma {:induction false} KeptNext(ix: Index, cols: seq<ColSummary>, arrivals: seq<Arrival>, n: Arrival)
    requires ArriveWell(ix, arrivals) && TupleOf(ix.attrs, n.row, n.values)
    ensures ArriveWell(ix, arrivals + [n])
    ensures KeptAll(ix, cols, arrivals + [n]) == Kept(ix, KeptAll(ix, cols, arrivals), n)
  {
    assert (arrivals + [n])[..|arrivals|] == arrivals;
    hide Kept;
  }

  // ---- inserts all at once -------------------------------------------------------------------

  /** The insert a step completes: by finding nothing to change, or by a successful swap. */
  ghost function Completes(ix: Index, s: State, step: Step): seq<Arrival>
    requires TuplesMatch(ix, s) && Enabled(ix, s, step)
  {
    if (step.Read? && step.p !in After(ix, s, step).active) || (step.Swap? && SwapSucceeds(s, step.p)) then
      [Arrival(s.active[step.p].row, s.active[step.p].values, s.active[step.p].session)]
    else []
  }

  /** The inserts a run completes, in order. */
  ghost function Completed(ix: Index, s: State, steps: seq<Step>): seq<Arrival>
    requires TuplesMatch(ix, s)
  {
    if steps == [] then [] else
    var init, step := steps[..|steps| - 1], steps[|steps| - 1];
    var before := Exec(ix, s, init);
    Completed(ix, s, init) + if Enabled(ix, before, step) then Completes(ix, before, step) else []
  }

  /** What a summary was before the inserts: given, or built in a session by scanning some tuples. */
  datatype Origin = Given(cols: seq<ColSummary>) | BuiltBy(session: Settings, scan: seq<seq<Option<Datum>>>)

  /** The inserts completed since. */
  datatype Era = Era(origin: Origin, arrivals: seq<Arrival>)

  ghost function Source(ix: Index, o: Origin): seq<ColSummary> {
    match o
    case Given(cols) => cols
    case BuiltBy(session, scan) => Fitted(Built(TypesIn(ix, session), ix.names, ix.attrs, scan))
  }

  ghost function Maintained(ix: Index, e: Era): seq<ColSummary>
    requires forall n | n in e.arrivals :: |n.values| == |ix.attrs|
  {
    KeptAll(ix, Source(ix, e.origin), e.arrivals)
  }

  /** The last build that fits starts a new era; every insert completed goes into the current one. */
  ghost function EraOf(ix: Index, s: State, start: Era, steps: seq<Step>): Era
    requires TuplesMatch(ix, s)
  {
    if steps == [] then start else
    var init, step := steps[..|steps| - 1], steps[|steps| - 1];
    var before, e := Exec(ix, s, init), EraOf(ix, s, start, init);
    if Enabled(ix, before, step) then NextEra(ix, before, step, e) else e
  }

  lemma {:induction false} StaysBuilt(ix: Index, s: State, start: Era, steps: seq<Step>)
    requires TuplesMatch(ix, s) && start.origin.BuiltBy?
    ensures EraOf(ix, s, start, steps).origin.BuiltBy?
  {
    hide TuplesMatch, Enabled, Exec, Completes, Source, Fits;
    if steps != [] {
      StaysBuilt(ix, s, start, steps[..|steps| - 1]);
    }
  }

  ghost predicate OnPage(s: State, cols: seq<ColSummary>) {
    s.page == Some(Encode(cols)) && Fits(cols)
  }

  lemma {:induction false} ReadsFitting(cols: seq<ColSummary>)
    requires Fits(cols)
    ensures Decode(Encode(cols)) == Some(cols) && Stored(Encode(cols)) == Some(Encode(cols))
  {
    FittingRoundTrip(cols, []);
  }

  lemma {:induction false} PageReads(s: State, cols: seq<ColSummary>)
    requires OnPage(s, cols)
    ensures PageCols(s.page) == Some(cols)
  {
    ReadsFitting(cols);
  }

  /** What a backend wants to store is what its insert makes of the bytes it read. */
  ghost predicate HeldIsKept(ix: Index, i: Insert) {
    && |i.values| == |ix.attrs|
    && (i.held.Some? ==>
          var cols := Decode(i.held.value.before);
          && cols.Some? && i.held.value.after == Encode(Kept(ix, cols.value, Arrival(i.row, i.values, i.session))))
  }

  ghost predicate AllHeldKept(ix: Index, s: State) {
    forall p | p in s.active :: HeldIsKept(ix, s.active[p])
  }

  lemma {:induction false} ReadIsSerial(ix: Index, s: State, p: Pid, cols: seq<ColSummary>)
    requires TuplesMatch(ix, s) && OnPage(s, cols) && AllHeldKept(ix, s)
    requires p in s.active && s.active[p].held.None?
    ensures var i := s.active[p];
      var n, r := Arrival(i.row, i.values, i.session), AfterRead(ix, s, p);
      && AllHeldKept(ix, r)
      && (p in r.active ==> OnPage(r, cols) && r.rows == s.rows)
      && (p !in r.active ==> OnPage(r, Kept(ix, cols, n)) && r.rows == s.rows + {n.row})
  {
    ReadsFitting(cols);
    hide WidenRow, FittedIn, FitsIn, Encode, Decode, TuplesMatch;
  }

  lemma {:induction false} SwapIsSerial(ix: Index, s: State, p: Pid, cols: seq<ColSummary>)
    requires TuplesMatch(ix, s) && OnPage(s, cols) && AllHeldKept(ix, s)
    requires p in s.active && s.active[p].held.Some?
    ensures var i := s.active[p];
      var n, r := Arrival(i.row, i.values, i.session), AfterSwap(s, p);
      && AllHeldKept(ix, r)
      && (!SwapSucceeds(s, p) ==> OnPage(r, cols) && r.rows == s.rows)
      && (SwapSucceeds(s, p) ==> OnPage(r, Kept(ix, cols, n)) && r.rows == s.rows + {n.row})
  {
    var i := s.active[p];
    var kept := Kept(ix, cols, Arrival(i.row, i.values, i.session));
    ReadsFitting(cols);
    if SwapSucceeds(s, p) {
      ReadsFitting(kept);
    }
    hide Kept, Encode, Decode, TuplesMatch;
  }

  lemma {:induction false} StepIsSerial(ix: Index, s: State, step: Step, cols: seq<ColSummary>)
    requires TuplesMatch(ix, s) && OnPage(s, cols) && AllHeldKept(ix, s)
    requires Enabled(ix, s, step) && !step.Rebuild?
    ensures var c, r := Completes(ix, s, step), After(ix, s, step);
      && AllHeldKept(ix, r)
      && (c == [] ==> OnPage(r, cols) && r.rows == s.rows)
      && (c != [] ==> |c| == 1 && TupleOf(ix.attrs, c[0].row, c[0].values)
                      && OnPage(r, Kept(ix, cols, c[0])) && r.rows == s.rows + {c[0].row})
  {
    hide Kept, AfterRead, AfterSwap, OnPage;
    match step
    case Begin(p, row, values, session) => SamePage(s, After(ix, s, step), cols);
    case Read(p) => ReadIsSerial(ix, s, p, cols);
    case Swap(p) => SwapIsSerial(ix, s, p, cols);
    case Abort(p) => SamePage(s, After(ix, s, step), cols);
  }

  /**
   * An insert leaves the loop when it is completed, when what it wants to store is too long, or by an error.
   * Otherwise it goes on with the same row, values and session: a swap that finds other bytes reads again.
   */
  lemma {:induction false} LeavesOnlyDone(ix: Index, s: State, step: Step, p: Pid)
    requires TuplesMatch(ix, s) && Enabled(ix, s, step) && p in s.active
    ensures var r, i := After(ix, s, step), s.active[p];
      if p in r.active then
        && r.active[p] == i.(held := r.active[p].held)
        && (step == Swap(p) ==> r.active[p].held.None?)
      else
        || step == Abort(p)
        || (step == Swap(p) && i.held.Some? && |i.held.value.after| > 8128)
        || Completes(ix, s, step) == [Arrival(i.row, i.values, i.session)]
  {
    hide TuplesMatch, WidenRow, EncodeFitted, PageCols, AfterRebuild, Scans;
  }

  lemma {:induction false} SamePage(s: State, r: State, cols: seq<ColSummary>)
    requires OnPage(s, cols) && r.page == s.page
    ensures OnPage(r, cols)
  {
  }

  lemma {:induction false} RebuildOnPage(ix: Index, s: State, scan: seq<seq<Option<Datum>>>, session: Settings)
    ensures var built, r := Source(ix, BuiltBy(session, scan)), AfterRebuild(ix, s, scan, session);
      if Fits(built) then OnPage(r, built) && r == s.(page := r.page) else r == s
  {
    if Fits(Source(ix, BuiltBy(session, scan))) {
      ReadsFitting(Source(ix, BuiltBy(session, scan)));
    }
    hide Built, FittedIn, Encode, Decode;
  }

  /**
   * A rebuild is possible whenever nobody is inserting and its scan yields every row there may be. It leaves
   * its own summary on the page, given what bounds it must, or, if that does not fit, leaves everything.
   */
  lemma {:induction false} RebuildStores(ix: Index, s: State, scan: seq<seq<Option<Datum>>>, session: Settings)
    requires s.active == map[] && Scans(ix, s.rows, scan)
    ensures TuplesMatch(ix, s) && Enabled(ix, s, Rebuild(scan, session))
    ensures var built := Fitted(Built(TypesIn(ix, session), ix.names, ix.attrs, scan));
      var r := After(ix, s, Rebuild(scan, session));
      && r.active == map[] && r.rows == s.rows
      && (Fits(built) ==> OnPage(r, built) && PageCols(r.page) == Some(built))
      && (!Fits(built) ==> r == s)
  {
    hide Built, Fitted, Fits, OnPage, AfterRebuild, PageCols, Scans, TupleOf, TuplesMatch, Enabled, After;
    RebuildEnabled(ix, s, scan, session);
    RebuildOnPage(ix, s, scan, session);
    var built := Fitted(Built(TypesIn(ix, session), ix.names, ix.attrs, scan));
    if Fits(built) {
      PageReads(AfterRebuild(ix, s, scan, session), built);
    }
  }

  lemma {:induction false} RebuildEnabled(ix: Index, s: State, scan: seq<seq<Option<Datum>>>, session: Settings)
    requires s.active == map[] && Scans(ix, s.rows, scan)
    ensures TuplesMatch(ix, s) && Enabled(ix, s, Rebuild(scan, session))
    ensures After(ix, s, Rebuild(scan, session)) == AfterRebuild(ix, s, scan, session)
  {
    hide Scans, TupleOf, AfterRebuild;
  }

  /** The era after a step. */
  ghost function NextEra(ix: Index, s: State, step: Step, e: Era): Era
    requires TuplesMatch(ix, s) && Enabled(ix, s, step)
  {
    if !step.Rebuild? then Era(e.origin, e.arrivals + Completes(ix, s, step))
    else EraRebuilt(ix, step.scan, step.session, e)
  }

  ghost function EraRebuilt(ix: Index, scan: seq<seq<Option<Datum>>>, session: Settings, e: Era): Era {
    if Fits(Source(ix, BuiltBy(session, scan))) then Era(BuiltBy(session, scan), []) else e
  }

  lemma {:induction false} RebuildKeepsEra(ix: Index, s: State, scan: seq<seq<Option<Datum>>>, session: Settings,
                                           e: Era)
    requires s.active == map[] && ArriveWell(ix, e.arrivals) && OnPage(s, Maintained(ix, e))
    ensures var r, next := AfterRebuild(ix, s, scan, session), EraRebuilt(ix, scan, session, e);
      && ArriveWell(ix, next.arrivals) && AllHeldKept(ix, r) && OnPage(r, Maintained(ix, next)) && r.rows == s.rows
  {
    RebuildOnPage(ix, s, scan, session);
    NobodyHolds(ix, AfterRebuild(ix, s, scan, session));
    KeptNone(ix, Source(ix, BuiltBy(session, scan)));
    hide Source, Fits, OnPage, AfterRebuild, Kept, AllHeldKept;
  }

  lemma {:induction false} RebuildStep(ix: Index, s: State, step: Step, e: Era)
    requires TuplesMatch(ix, s) && Enabled(ix, s, step) && step.Rebuild?
    ensures s.active == map[] && Completes(ix, s, step) == []
    ensures After(ix, s, step) == AfterRebuild(ix, s, step.scan, step.session)
    ensures NextEra(ix, s, step, e) == EraRebuilt(ix, step.scan, step.session, e)
  {
    hide TuplesMatch, Scans, Source, Fits, AfterRebuild;
  }

  lemma {:induction false} InsertKeepsEra(ix: Index, s: State, step: Step, e: Era)
    requires TuplesMatch(ix, s) && AllHeldKept(ix, s) && ArriveWell(ix, e.arrivals) && OnPage(s, Maintained(ix, e))
    requires Enabled(ix, s, step) && !step.Rebuild?
    ensures var r, next := After(ix, s, step), NextEra(ix, s, step, e);
      && ArriveWell(ix, next.arrivals) && AllHeldKept(ix, r) && OnPage(r, Maintained(ix, next))
      && r.rows == s.rows + set n | n in Completes(ix, s, step) :: n.row
  {
    hide Kept, TuplesMatch, OnPage, AllHeldKept, After, Enabled, Completes, Source;
    StepIsSerial(ix, s, step, Maintained(ix, e));
    var c := Completes(ix, s, step);
    if c == [] {
      assert e.arrivals + c == e.arrivals && s.rows + (set n: Arrival | n in c :: n.row) == s.rows;
    } else {
      assert c == [c[0]];
      KeptNext(ix, Source(ix, e.origin), e.arrivals, c[0]);
      assert (set n | n in c :: n.row) == {c[0].row};
    }
  }

  /**
   * Over every interleaving: the page holds what the inserts completed since the last build make of that
   * build one after the other, and the rows that have returned are those of all completed inserts.
   */
  lemma {:induction false} RunIsSerial(ix: Index, s: State, steps: seq<Step>, start: Era)
    requires TuplesMatch(ix, s) && AllHeldKept(ix, s) && ArriveWell(ix, start.arrivals)
    requires OnPage(s, Maintained(ix, start))
    ensures var e, r := EraOf(ix, s, start, steps), Exec(ix, s, steps);
      && ArriveWell(ix, e.arrivals) && AllHeldKept(ix, r) && OnPage(r, Maintained(ix, e))
      && r.rows == s.rows + set n | n in Completed(ix, s, steps) :: n.row
  {
    hide Kept, TuplesMatch, OnPage, AllHeldKept, After, Enabled, Completes, ArriveWell, Maintained, NextEra;
    hide EraRebuilt, AfterRebuild;
    if steps == [] {
      assert s.rows + (set n: Arrival | n in [] :: n.row) == s.rows;
    } else {
      var init, step := steps[..|steps| - 1], steps[|steps| - 1];
      RunIsSerial(ix, s, init, start);
      var before, c := Exec(ix, s, init), Completed(ix, s, init);
      if Enabled(ix, before, step) {
        var e := EraOf(ix, s, start, init);
        if step.Rebuild? {
          RebuildStep(ix, before, step, e);
          RebuildKeepsEra(ix, before, step.scan, step.session, e);
          assert c + [] == c;
        } else {
          InsertKeepsEra(ix, before, step, e);
          RowsOfBoth(c, Completes(ix, before, step));
        }
      } else {
        assert c + [] == c;
      }
    }
  }

  lemma {:induction false} RowsOfBoth(a: seq<Arrival>, b: seq<Arrival>)
    ensures (set n | n in a + b :: n.row) == (set n | n in a :: n.row) + (set n | n in b :: n.row)
  {
  }

  /** An index nobody is inserting into. */
  lemma {:induction false} NobodyHolds(ix: Index, s: State)
    requires s.active == map[]
    ensures TuplesMatch(ix, s) && AllHeldKept(ix, s)
  {
  }

  lemma {:induction false} KeptNone(ix: Index, cols: seq<ColSummary>)
    ensures KeptAll(ix, cols, []) == cols
  {
  }

  /** The era a run ends in that starts with what a build over `xs` stored. */
  ghost function EraSince(ix: Index, s: State, session: Settings, xs: seq<seq<Option<Datum>>>, steps: seq<Step>): Era
    requires TuplesMatch(ix, s)
  {
    EraOf(ix, s, Era(BuiltBy(session, xs), []), steps)
  }

  /** After a build and any run, the page holds what the last build stored as the inserts since then keep it. */
  lemma {:induction false} PageSince(ix: Index, s: State, session: Settings, xs: seq<seq<Option<Datum>>>,
                                     steps: seq<Step>)
    requires TuplesMatch(ix, s) && s.active == map[]
    requires OnPage(s, Fitted(Built(TypesIn(ix, session), ix.names, ix.attrs, xs)))
    ensures var e := EraSince(ix, s, session, xs, steps);
      && e.origin.BuiltBy? && ArriveWell(ix, e.arrivals)
      && PageCols(Exec(ix, s, steps).page)
         == Some(KeptAll(ix, Fitted(Built(TypesIn(ix, e.origin.session), ix.names, ix.attrs, e.origin.scan)),
                         e.arrivals))
  {
    hide Built, Fitted, KeptAll, OnPage, PageCols, EraOf, Exec, TuplesMatch, AllHeldKept;
    var start := Era(BuiltBy(session, xs), []);
    KeptNone(ix, Source(ix, start.origin));
    NobodyHolds(ix, s);
    RunIsSerial(ix, s, steps, start);
    StaysBuilt(ix, s, start, steps);
    PageReads(Exec(ix, s, steps), Maintained(ix, EraOf(ix, s, start, steps)));
  }

  // ---- and every such order is some run's --------------------------------------------------------

  /** No insert raises the size error. */
  ghost predicate NoneFails(ix: Index, cols: seq<ColSummary>, arrivals: seq<Arrival>)
    requires forall n | n in arrivals :: |n.values| == |ix.attrs|
  {
    forall k :: 0 <= k <= |arrivals| ==> Fits(KeptAll(ix, cols, arrivals[..k]))
  }

  /** The schedule in which backend `p` makes the inserts one after the other, undisturbed. */
  function Undisturbed(p: Pid, arrivals: seq<Arrival>): seq<Step> {
    if arrivals == [] then [] else
    var init, last := arrivals[..|arrivals| - 1], arrivals[|arrivals| - 1];
    Undisturbed(p, init) + [Begin(p, last.row, last.values, last.session)] + [Read(p)] + [Swap(p)]
  }

  /** The page holds `cols`, and nobody is at an insert. */
  ghost predicate Quiet(s: State, cols: seq<ColSummary>) {
    s.active == map[] && OnPage(s, cols)
  }

  lemma {:induction false} ExecNext(ix: Index, s: State, steps: seq<Step>, step: Step)
    requires TuplesMatch(ix, s)
    ensures var before := Exec(ix, s, steps);
      if Enabled(ix, before, step) then
        && Exec(ix, s, steps + [step]) == After(ix, before, step)
        && Completed(ix, s, steps + [step]) == Completed(ix, s, steps) + Completes(ix, before, step)
      else Exec(ix, s, steps + [step]) == before && Completed(ix, s, steps + [step]) == Completed(ix, s, steps)
  {
    assert (steps + [step])[..|steps|] == steps;
    hide After, Enabled, TuplesMatch, Completes;
  }

  lemma {:induction false} ExecNothing(ix: Index, s: State)
    requires TuplesMatch(ix, s)
    ensures Exec(ix, s, []) == s && Completed(ix, s, []) == []
  {
    hide TuplesMatch;
  }

  /** One insert alone on the index, as far as its read. */
  lemma {:induction false} OneReads(ix: Index, s: State, p: Pid, n: Arrival, cols: seq<ColSummary>)
    requires Quiet(s, cols) && |n.values| == |ix.attrs|
    ensures var w := WidenRow(TypesIn(ix, n.session), ix.attrs, cols, n.values);
      var begun := Insert(n.row, n.values, n.session, None);
      var r := AfterRead(ix, s.(active := map[p := begun]), p);
      r == if w.changed
           then s.(active := map[p := begun.(held := Some(Held(Encode(cols), EncodeFitted(w.cols))))])
           else s.(rows := s.rows + {n.row})
  {
    PageReads(s, cols);
    hide WidenRow, EncodeFitted, Encode, Decode, PageCols, FitsIn;
    var begun := Insert(n.row, n.values, n.session, None);
    var after := EncodeFitted(WidenRow(TypesIn(ix, n.session), ix.attrs, cols, n.values).cols);
    var held := begun.(held := Some(Held(Encode(cols), after)));
    assert map[p := begun][p := held] == map[p := held];
    assert map[p := begun] - {p} == map[];
    assert s.(active := map[]) == s;
  }

  lemma {:induction false} OneSwaps(ix: Index, s: State, p: Pid, n: Arrival, cols: seq<ColSummary>,
                                    after: seq<ColSummary>)
    requires Quiet(s, cols) && Fits(after)
    ensures var held := Insert(n.row, n.values, n.session, Some(Held(Encode(cols), Encode(after))));
      var r := AfterSwap(s.(active := map[p := held]), p);
      SwapSucceeds(s.(active := map[p := held]), p) && Quiet(r, after) && r.rows == s.rows + {n.row}
  {
    ReadsFitting(after);
    hide Encode, Decode;
    var held := Insert(n.row, n.values, n.session, Some(Held(Encode(cols), Encode(after))));
    assert map[p := held] - {p} == map[];
  }

  /** One insert alone on the index. */
  lemma {:induction false} OneArrives(ix: Index, start: State, steps: seq<Step>, s: State, p: Pid, n: Arrival,
                                      cols: seq<ColSummary>)
    requires TuplesMatch(ix, start) && Exec(ix, start, steps) == s && Quiet(s, cols)
    requires TupleOf(ix.attrs, n.row, n.values)
    requires Fits(Kept(ix, cols, n))
    ensures var r := Exec(ix, start, steps + [Begin(p, n.row, n.values, n.session)] + [Read(p)] + [Swap(p)]);
      Quiet(r, Kept(ix, cols, n)) && r.rows == s.rows + {n.row}
    ensures Completed(ix, start, steps + [Begin(p, n.row, n.values, n.session)] + [Read(p)] + [Swap(p)])
         == Completed(ix, start, steps) + [n]
  {
    hide WidenRow, FittedIn, FitsIn, Encode, Decode, TuplesMatch, Exec, AfterRead, AfterSwap, PageCols, Completed;
    var begun := Insert(n.row, n.values, n.session, None);
    var e1 := steps + [Begin(p, n.row, n.values, n.session)];
    ExecNext(ix, start, steps, Begin(p, n.row, n.values, n.session));
    assert s.active[p := begun] == map[p := begun];
    assert Completed(ix, start, e1) == Completed(ix, start, steps);
    ExecNext(ix, start, e1, Read(p));
    OneReads(ix, s, p, n, cols);
    var changed := WidenRow(TypesIn(ix, n.session), ix.attrs, cols, n.values).changed;
    assert Completed(ix, start, e1 + [Read(p)]) == Completed(ix, start, steps) + if changed then [] else [n];
    ExecNext(ix, start, e1 + [Read(p)], Swap(p));
    OneSwaps(ix, s, p, n, cols, Kept(ix, cols, n));
  }

  /** An insert that ends in an error, before or after its read, leaves nothing behind. */
  lemma {:induction false} AbortUndoes(ix: Index, s: State, p: Pid, n: Arrival, cols: seq<ColSummary>)
    requires TuplesMatch(ix, s) && Quiet(s, cols) && TupleOf(ix.attrs, n.row, n.values)
    requires WidenRow(TypesIn(ix, n.session), ix.attrs, cols, n.values).changed
    ensures Exec(ix, s, [] + [Begin(p, n.row, n.values, n.session)] + [Abort(p)]) == s
    ensures Exec(ix, s, [] + [Begin(p, n.row, n.values, n.session)] + [Read(p)] + [Abort(p)]) == s
  {
    hide WidenRow, EncodeFitted, Encode, Decode, TuplesMatch, Exec, AfterRead, PageCols, OnPage, Completed;
    var begun := Insert(n.row, n.values, n.session, None);
    var e1 := [] + [Begin(p, n.row, n.values, n.session)];
    ExecNothing(ix, s);
    ExecNext(ix, s, [], Begin(p, n.row, n.values, n.session));
    assert s.active[p := begun] == map[p := begun];
    OneLeaves(ix, s, p, begun);
    ExecNext(ix, s, e1, Abort(p));
    OneReads(ix, s, p, n, cols);
    ExecNext(ix, s, e1, Read(p));
    OneLeaves(ix, s, p, Exec(ix, s, e1 + [Read(p)]).active[p]);
    ExecNext(ix, s, e1 + [Read(p)], Abort(p));
  }

  lemma {:induction false} OneLeaves(ix: Index, s: State, p: Pid, i: Insert)
    requires s.active == map[] && TuplesMatch(ix, s.(active := map[p := i]))
    ensures Enabled(ix, s.(active := map[p := i]), Abort(p)) && After(ix, s.(active := map[p := i]), Abort(p)) == s
  {
    assert map[p := i] - {p} == map[];
    assert s.(active := map[]) == s;
  }

  /** The run that makes these inserts one after the other completes them all, in that order. */
  lemma {:induction false} UndisturbedStores(ix: Index, s: State, p: Pid, cols: seq<ColSummary>, arrivals: seq<Arrival>)
    requires TuplesMatch(ix, s) && Quiet(s, cols) && ArriveWell(ix, arrivals)
    requires NoneFails(ix, cols, arrivals)
    ensures var r := Exec(ix, s, Undisturbed(p, arrivals));
      && Quiet(r, KeptAll(ix, cols, arrivals)) && r.rows == s.rows + (set n | n in arrivals :: n.row)
      && Completed(ix, s, Undisturbed(p, arrivals)) == arrivals
  {
    hide Kept, TuplesMatch, Quiet, Fits, Exec, Completed;
    ExecNothing(ix, s);
    if arrivals != [] {
      var init, last := arrivals[..|arrivals| - 1], arrivals[|arrivals| - 1];
      assert arrivals == init + [last] && last in arrivals && forall n | n in init :: n in arrivals;
      FailsNoSooner(ix, cols, arrivals);
      UndisturbedStores(ix, s, p, cols, init);
      OneArrives(ix, s, Undisturbed(p, init), Exec(ix, s, Undisturbed(p, init)), p, last, KeptAll(ix, cols, init));
      assert (set n | n in arrivals :: n.row) == (set n | n in init :: n.row) + {last.row};
    } else {
      assert s.rows + (set n | n in arrivals :: n.row) == s.rows;
    }
  }

  lemma {:induction false} FailsNoSooner(ix: Index, cols: seq<ColSummary>, arrivals: seq<Arrival>)
    requires arrivals != [] && forall n | n in arrivals :: |n.values| == |ix.attrs|
    requires NoneFails(ix, cols, arrivals)
    ensures NoneFails(ix, cols, arrivals[..|arrivals| - 1]) && Fits(KeptAll(ix, cols, arrivals))
  {
    hide Kept, Fits;
    var init := arrivals[..|arrivals| - 1];
    forall k | 0 <= k <= |init| ensures Fits(KeptAll(ix, cols, init[..k])) {
      assert init[..k] == arrivals[..k];
    }
    assert arrivals[..|arrivals|] == arrivals;
  }
}
