/**
 * Many backends widening one summary: `widen_on_insert` as a machine whose atomic steps are the
 * read under the share lock and the compare-and-write under the exclusive lock.
 */
module Protocol {
  import opened Base
  import opened Format
  import opened MetaPage
  import opened Fitting
  import opened Coverage
  import opened Widening
  import opened Build
  import opened Sessions

  /**
   * An index: what its columns' types mean, and those types as a session sees them. A session's
   * settings change the text functions, not what values mean.
   */
  datatype Index = Index(types: Types, names: Oid -> Text, attrs: seq<IndexAttr>, seen: Settings -> Types)

  /** The types inside `with_stable_io`. */
  function TypesIn(ix: Index, session: Settings): Types {
    ix.seen(Pinned(session))
  }

  /** What pinned sessions store, pinned sessions read alike; nothing is asked of other settings. */
  ghost predicate LawfulIndex(ix: Index) {
    && LawfulTypes(ix.types) && NamesLaw(ix.types, ix.names) && OneType(ix.attrs) && Agreeing(ix.types, ix.attrs)
    && forall s: Settings :: Stable(s) ==> AlikeTypes(ix.types, ix.seen(s))
  }

  type Pid = nat

  /** An insert to be made: its row, its index tuple and the settings of its session. */
  datatype Arrival = Arrival(row: Row, values: seq<Option<Datum>>, session: Settings)

  /** The bytes an insert read, and the bytes it wants in their place. */
  datatype Held = Held(before: Bytes, after: Bytes)

  /** An insert inside the retry loop; `held` is set between the read and the swap. */
  datatype Insert = Insert(row: Row, values: seq<Option<Datum>>, session: Settings, held: Option<Held>)

  /** `rows` are those the table was built over and those whose insert has returned. */
  datatype State = State(page: Option<Bytes>, active: map<Pid, Insert>, rows: set<Row>, attempts: nat)

  datatype Step =
    | Begin(p: Pid, row: Row, values: seq<Option<Datum>>, session: Settings)
    | Read(p: Pid)
    | Swap(p: Pid)
    | Abort(p: Pid)
    | Rebuild(scan: seq<seq<Option<Datum>>>, session: Settings)

  function PageCols(page: Option<Bytes>): Option<seq<ColSummary>> {
    if page.None? then None else Decode(page.value)
  }

  function EncodeFitted(cols: seq<ColSummary>): Bytes {
    Encode(Fitted(cols))
  }

  ghost predicate Scans(ix: Index, rows: set<Row>, scan: seq<seq<Option<Datum>>>) {
    && (forall tuple | tuple in scan :: |tuple| == |ix.attrs|)
    && forall row | row in rows :: exists i :: 0 <= i < |scan| && TupleOf(ix.attrs, row, scan[i])
  }

  ghost predicate Enabled(ix: Index, s: State, step: Step) {
    match step
    case Begin(p, row, values, _) => p !in s.active && TupleOf(ix.attrs, row, values)
    case Read(p) => p in s.active && s.active[p].held.None?
    case Swap(p) => p in s.active && s.active[p].held.Some?
    // An error, a cancelled statement or a lost connection can end an insert anywhere.
    case Abort(p) => p in s.active
    // REINDEX locks every insert out, and its scan yields every row there may be.
    case Rebuild(scan, _) => s.active == map[] && Scans(ix, s.rows, scan)
  }

  function Left(s: State, p: Pid): State {
    s.(active := s.active - {p})
  }

  /** `widen_on_insert` returned: the statement goes on and may commit. */
  function Returned(s: State, p: Pid): State
    requires p in s.active
  {
    Left(s, p).(rows := s.rows + {s.active[p].row})
  }

  function AfterRead(ix: Index, s: State, p: Pid): State
    requires p in s.active && |s.active[p].values| == |ix.attrs|
  {
    var cols := PageCols(s.page);
    if cols.None? then Returned(s, p) else
    var w := WidenRow(TypesIn(ix, s.active[p].session), ix.attrs, cols.value, s.active[p].values);
    if !w.changed then Returned(s, p)
    else s.(active := s.active[p := s.active[p].(held := Some(Held(s.page.value, EncodeFitted(w.cols))))])
  }

  function AfterSwap(s: State, p: Pid): State
    requires p in s.active && s.active[p].held.Some?
  {
    var held := s.active[p].held.value;
    var tried := s.(attempts := s.attempts + 1);
    if |held.after| > MAX_BLOB_LEN then Left(tried, p)
    else if s.page == Some(held.before) then Returned(tried, p).(page := Stored(held.after))
    else tried.(active := s.active[p := s.active[p].(held := None)])
  }

  /** The swap finds the bytes its insert read, and its own fit the page. */
  predicate SwapSucceeds(s: State, p: Pid) {
    p in s.active && s.active[p].held.Some?
    && |s.active[p].held.value.after| <= MAX_BLOB_LEN && s.page == Some(s.active[p].held.value.before)
  }

  /** The page a build in `session` writes over the tuples `scan`, or would were it not too long. */
  ghost function RebuiltBytes(ix: Index, session: Settings, scan: seq<seq<Option<Datum>>>): Bytes
  {
    EncodeFitted(Built(TypesIn(ix, session), ix.names, ix.attrs, scan))
  }

  ghost function AfterRebuild(ix: Index, s: State, scan: seq<seq<Option<Datum>>>, session: Settings): State
  {
    var bytes := RebuiltBytes(ix, session, scan);
    // A build that does not fit fails, and the old index stays.
    if |bytes| > MAX_BLOB_LEN then s else s.(page := Stored(bytes))
  }

  /** A backend's values always come from its own row. */
  ghost predicate TuplesMatch(ix: Index, s: State) {
    forall p | p in s.active :: TupleOf(ix.attrs, s.active[p].row, s.active[p].values)
  }

  ghost function After(ix: Index, s: State, step: Step): State
    requires TuplesMatch(ix, s) && Enabled(ix, s, step)
  {
    match step
    case Begin(p, row, values, session) => s.(active := s.active[p := Insert(row, values, session, None)])
    case Read(p) => AfterRead(ix, s, p)
    case Swap(p) => AfterSwap(s, p)
    case Abort(p) => Left(s, p)
    case Rebuild(scan, session) => AfterRebuild(ix, s, scan, session)
  }

  /** Steps that are not enabled do nothing. */
  ghost function Exec(ix: Index, s: State, steps: seq<Step>): (r: State)
    requires TuplesMatch(ix, s)
    ensures TuplesMatch(ix, r)
  {
    if steps == [] then s else
    var before := Exec(ix, s, steps[..|steps| - 1]);
    var step := steps[|steps| - 1];
    if Enabled(ix, before, step) then After(ix, before, step) else before
  }

  // ---- safety ----------------------------------------------------------------------------

  /** The page rules `row` out for no query: there is no readable summary, or it covers the row. */
  ghost predicate Admits(ix: Index, page: Option<Bytes>, row: Row) {
    var cols := PageCols(page);
    cols.Some? ==> DescribesAll(ix.types, ix.attrs, cols.value) && CoversRow(ix.types, ix.attrs, cols.value, row)
  }

  ghost predicate WellFormedPage(ix: Index, page: Option<Bytes>) {
    PageCols(page).Some? ==> DescribesAll(ix.types, ix.attrs, PageCols(page).value)
  }

  ghost predicate HeldOk(ix: Index, i: Insert) {
    && TupleOf(ix.attrs, i.row, i.values)
    && (i.held.Some? ==>
          var cols := Decode(i.held.value.before);
          && cols.Some? && DescribesAll(ix.types, ix.attrs, cols.value)
          && i.held.value.after == EncodeFitted(WidenRow(TypesIn(ix, i.session), ix.attrs, cols.value, i.values).cols))
  }

  ghost predicate Inv(ix: Index, s: State) {
    && WellFormedPage(ix, s.page)
    && (forall row | row in s.rows :: Admits(ix, s.page, row))
    && (forall p | p in s.active :: HeldOk(ix, s.active[p]))
  }

  /** An insert in any session: its row and every row before it, whoever reads them. */
  lemma {:induction false} InsertCovers(ix: Index, session: Settings, cols: seq<ColSummary>,
                                        values: seq<Option<Datum>>, row: Row)
    requires LawfulIndex(ix) && DescribesAll(ix.types, ix.attrs, cols) && TupleOf(ix.attrs, row, values)
    ensures var w := WidenRow(TypesIn(ix, session), ix.attrs, cols, values);
      && CoversRow(ix.types, ix.attrs, w.cols, row)
      && WiderAll(ix.types, ix.attrs, cols, w.cols)
      && DescribesAll(ix.types, ix.attrs, w.cols)
      && (!w.changed ==> w.cols == cols)
  {
    var seen := TypesIn(ix, session);
    assert AlikeTypes(ix.types, seen);
    hide LawfulTypes, Agreeing, OneType, AlikeTypes, WidenRow, DescribesAll, CoversRow, WiderAll, NamesLaw;
    AgreeingAlike(ix.types, seen, ix.attrs);
    DescribesAlike(ix.types, seen, ix.attrs, cols);
    WidenRowCovers(seen, ix.attrs, cols, values, row);
    var after := WidenRow(seen, ix.attrs, cols, values).cols;
    DescribesAlike(ix.types, seen, ix.attrs, after);
    CoversRowAlike(ix.types, seen, ix.attrs, after, row);
    WiderAllAlike(ix.types, seen, ix.attrs, cols, after);
  }

  /** A scan in any session: every row it yields, whoever reads them. */
  lemma {:induction false} ScanCovers(ix: Index, session: Settings, scan: seq<seq<Option<Datum>>>, row: Row, i: nat)
    requires LawfulIndex(ix)
    requires i < |scan| && TupleOf(ix.attrs, row, scan[i])
    ensures CoversRow(ix.types, ix.attrs, Built(TypesIn(ix, session), ix.names, ix.attrs, scan), row)
  {
    var seen := TypesIn(ix, session);
    var built := Built(seen, ix.names, ix.attrs, scan);
    ScanDescribes(ix, session, scan);
    SeenLawful(ix, session);
    hide LawfulIndex, LawfulTypes, AlikeTypes, DescribesAll, CoversRow, NamesLaw, Built;
    BuildCovers(seen, ix.names, ix.attrs, scan, row, i);
    CoversRowAlike(ix.types, seen, ix.attrs, built, row);
  }

  lemma {:induction false} SeenLawful(ix: Index, session: Settings)
    requires LawfulIndex(ix)
    ensures var seen := TypesIn(ix, session);
      AlikeTypes(ix.types, seen) && LawfulTypes(seen) && NamesLaw(seen, ix.names)
  {
    var seen := TypesIn(ix, session);
    assert AlikeTypes(ix.types, seen);
    hide Lawful, SameRead, Agreeing, OneType, NamesGeometry;
    forall o: Oid ensures Lawful(seen(o)) && NamesGeometry(ix.names(o)) == (seen(o).Kind() == Geometry) {
      assert Alike(ix.types(o), seen(o));
    }
  }

  lemma {:induction false} ScanDescribes(ix: Index, session: Settings, scan: seq<seq<Option<Datum>>>)
    requires LawfulIndex(ix)
    ensures DescribesAll(ix.types, ix.attrs, Built(TypesIn(ix, session), ix.names, ix.attrs, scan))
  {
    SeenLawful(ix, session);
    hide LawfulIndex, LawfulTypes, AlikeTypes, DescribesAll, NamesLaw, Built;
    BuildDescribes(TypesIn(ix, session), ix.names, ix.attrs, scan);
    DescribesAlike(ix.types, TypesIn(ix, session), ix.attrs, Built(TypesIn(ix, session), ix.names, ix.attrs, scan));
  }

  /** What a successful swap leaves: it admits the inserted row and every row admitted before. */
  lemma {:induction false} SwapWidens(ix: Index, i: Insert)
    requires LawfulIndex(ix) && HeldOk(ix, i) && i.held.Some? && |i.held.value.after| <= MAX_BLOB_LEN
    ensures Stored(i.held.value.after) == Some(i.held.value.after)
    ensures WellFormedPage(ix, Some(i.held.value.after)) && Admits(ix, Some(i.held.value.after), i.row)
    ensures forall row :: Admits(ix, Some(i.held.value.before), row) ==> Admits(ix, Some(i.held.value.after), row)
  {
    var cols := Decode(i.held.value.before).value;
    var w := WidenRow(TypesIn(ix, i.session), ix.attrs, cols, i.values).cols;
    hide LawfulIndex, WidenRow, DescribesAll, WiderAll, CoversRow, FittedIn;
    InsertCovers(ix, i.session, cols, i.values, i.row);
    FittedWidens(ix.types, ix.attrs, w);
    FittingRoundTrip(Fitted(w), []);
    hide Encode, Decode;
    WiderRow(ix.types, ix.attrs, w, Fitted(w), i.row);
    forall row | Admits(ix, Some(i.held.value.before), row) ensures Admits(ix, Some(i.held.value.after), row) {
      WiderRow(ix.types, ix.attrs, cols, w, row);
      WiderRow(ix.types, ix.attrs, w, Fitted(w), row);
    }
  }

  lemma {:induction false} NoChangeAdmits(ix: Index, page: Option<Bytes>, i: Insert)
    requires LawfulIndex(ix) && WellFormedPage(ix, page) && TupleOf(ix.attrs, i.row, i.values)
    requires PageCols(page).Some? ==>
      !WidenRow(TypesIn(ix, i.session), ix.attrs, PageCols(page).value, i.values).changed
    ensures Admits(ix, page, i.row)
  {
    if PageCols(page).Some? {
      InsertCovers(ix, i.session, PageCols(page).value, i.values, i.row);
    }
    hide LawfulIndex, WidenRow, DescribesAll, CoversRow, WiderAll, Decode;
  }

  lemma {:induction false} RebuildAdmits(ix: Index, rows: set<Row>, scan: seq<seq<Option<Datum>>>, session: Settings)
    requires LawfulIndex(ix) && Scans(ix, rows, scan)
    requires |RebuiltBytes(ix, session, scan)| <= MAX_BLOB_LEN
    ensures var page := Stored(RebuiltBytes(ix, session, scan));
      WellFormedPage(ix, page) && forall row | row in rows :: Admits(ix, page, row)
  {
    var built := Built(TypesIn(ix, session), ix.names, ix.attrs, scan);
    hide LawfulIndex, DescribesAll, WiderAll, CoversRow, FittedIn, Built;
    ScanDescribes(ix, session, scan);
    FittedWidens(ix.types, ix.attrs, built);
    FittingRoundTrip(Fitted(built), []);
    hide Encode, Decode;
    forall row | row in rows ensures Admits(ix, Some(EncodeFitted(built)), row) {
      var i :| 0 <= i < |scan| && TupleOf(ix.attrs, row, scan[i]);
      ScanCovers(ix, session, scan, row, i);
      WiderRow(ix.types, ix.attrs, built, Fitted(built), row);
    }
  }

  /** Every step keeps the invariant, and no step but a rebuild makes the page admit less. */
  lemma {:induction false} StepSafe(ix: Index, s: State, step: Step)
    requires LawfulIndex(ix) && TuplesMatch(ix, s) && Inv(ix, s) && Enabled(ix, s, step)
    ensures TuplesMatch(ix, After(ix, s, step)) && Inv(ix, After(ix, s, step))
    ensures !step.Rebuild? ==> forall row :: Admits(ix, s.page, row) ==> Admits(ix, After(ix, s, step).page, row)
  {
    hide LawfulIndex, WidenRow, DescribesAll, CoversRow, Decode, EncodeFitted, RebuiltBytes;
    match step
    case Begin(p, row, values, session) =>
    case Read(p) =>
      var cols := PageCols(s.page);
      if cols.None? || !WidenRow(TypesIn(ix, s.active[p].session), ix.attrs, cols.value, s.active[p].values).changed {
        NoChangeAdmits(ix, s.page, s.active[p]);
      }
    case Swap(p) =>
      if |s.active[p].held.value.after| <= MAX_BLOB_LEN {
        SwapWidens(ix, s.active[p]);
      }
    case Abort(p) =>
    case Rebuild(scan, session) =>
      if |RebuiltBytes(ix, session, scan)| <= MAX_BLOB_LEN {
        RebuildAdmits(ix, s.rows, scan, session);
      }
  }

  /** Over every interleaving, every built or inserted row stays admitted by the page. */
  lemma {:induction false} RunSafe(ix: Index, s: State, steps: seq<Step>)
    requires LawfulIndex(ix) && TuplesMatch(ix, s) && Inv(ix, s)
    ensures Inv(ix, Exec(ix, s, steps))
  {
    if steps != [] {
      RunSafe(ix, s, steps[..|steps| - 1]);
      var before, step := Exec(ix, s, steps[..|steps| - 1]), steps[|steps| - 1];
      if Enabled(ix, before, step) {
        StepSafe(ix, before, step);
      }
    }
  }

  /** Without a rebuild, what the page admits only grows along a run: no widening is ever lost. */
  lemma {:induction false} NoLostWidening(ix: Index, s: State, steps: seq<Step>, row: Row)
    requires LawfulIndex(ix) && TuplesMatch(ix, s) && Inv(ix, s)
    requires forall step | step in steps :: !step.Rebuild?
    requires Admits(ix, s.page, row)
    ensures Admits(ix, Exec(ix, s, steps).page, row)
  {
    if steps != [] {
      var init, step := steps[..|steps| - 1], steps[|steps| - 1];
      NoLostWidening(ix, s, init, row);
      RunSafe(ix, s, init);
      if Enabled(ix, Exec(ix, s, init), step) {
        StepSafe(ix, Exec(ix, s, init), step);
      }
    }
  }
}
