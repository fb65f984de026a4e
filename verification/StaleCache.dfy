/**
 * How a cached summary can miss a committed row for good: the insert found the page wide enough, and
 * the transaction that had widened it rolled back.
 */
module StaleCache {
  import opened Base
  import opened Format
  import opened MetaPage
  import opened Coverage
  import opened Widening
  import opened Protocol
  import opened Cache
  import opened Sessions

  lemma {:induction false} RunOne(ix: Index, start: System, events: seq<Event>, e: Event)
    requires LawfulIndex(ix) && SystemInv(ix, start) && Possible(ix, RunEvents(ix, start, events), e)
    ensures RunEvents(ix, start, events + [e]) == Then(ix, RunEvents(ix, start, events), e)
  {
    assert (events + [e])[..|events|] == events;
    hide Possible, Then, LawfulIndex, SystemInv;
  }

  function Enlarged(s: System, p: Pid, row: Row, page: Option<Bytes>): System {
    s.(inserts := State(page, map[], s.inserts.rows + {row}, s.inserts.attempts + 1),
       history := s.history + [page], owner := s.owner + [p], fate := s.fate + [Open],
       returned := s.returned[row := |s.history|])
  }

  function Found(s: System, row: Row): System
    requires |s.history| > 0
  {
    s.(inserts := s.inserts.(rows := s.inserts.rows + {row}), returned := s.returned[row := |s.history| - 1])
  }

  /** A lookup that misses the cache. */
  lemma {:induction false} LookupEvents(ix: Index, start: System, events: seq<Event>, s: System, b: Pid)
    requires LawfulIndex(ix) && SystemInv(ix, start) && RunEvents(ix, start, events) == s
    requires s.reading == map[] && b !in s.cache
    ensures RunEvents(ix, start, events + [ReadPage(b)] + [PutSummary(b)]) == LookedUp(s, b)
  {
    hide LawfulIndex, SystemInv, RunEvents, Deserialized;
    RunOne(ix, start, events, ReadPage(b));
    RunOne(ix, start, events + [ReadPage(b)], PutSummary(b));
    assert s.reading[b := |s.history| - 1] - {b} == map[];
  }

  lemma {:induction false} BeginEvent(ix: Index, start: System, events: seq<Event>, s: System, p: Pid, row: Row,
                                      values: seq<Option<Datum>>, session: Settings)
    requires LawfulIndex(ix) && SystemInv(ix, start) && RunEvents(ix, start, events) == s
    requires s.inserts.active == map[] && TupleOf(ix.attrs, row, values)
    ensures RunEvents(ix, start, events + [Inserting(Begin(p, row, values, session))])
         == s.(inserts := s.inserts.(active := map[p := Insert(row, values, session, None)]))
  {
    hide LawfulIndex, SystemInv, RunEvents, TupleOf;
    RunOne(ix, start, events, Inserting(Begin(p, row, values, session)));
    assert s.inserts.active[p := Insert(row, values, session, None)] == map[p := Insert(row, values, session, None)];
  }

  /** The read of an insert that will change something. */
  lemma {:induction false} ReadThen(ix: Index, s: System, p: Pid, begun: Insert, cols: seq<ColSummary>)
    requires |s.history| > 0 && |s.owner| == |s.fate| && TuplesMatch(ix, s.inserts)
    requires s.inserts.active == map[p := begun] && begun.held.None? && TupleOf(ix.attrs, begun.row, begun.values)
    requires PageCols(s.inserts.page) == Some(cols)
    requires WidenRow(TypesIn(ix, begun.session), ix.attrs, cols, begun.values).changed
    ensures Possible(ix, s, Inserting(Step.Read(p)))
    ensures var after := EncodeFitted(WidenRow(TypesIn(ix, begun.session), ix.attrs, cols, begun.values).cols);
      var held := begun.(held := Some(Held(s.inserts.page.value, after)));
      Then(ix, s, Inserting(Step.Read(p))) == s.(inserts := s.inserts.(active := map[p := held]))
  {
    hide Format.Decode, EncodeFitted, WidenRow, TuplesMatch;
    var after := EncodeFitted(WidenRow(TypesIn(ix, begun.session), ix.attrs, cols, begun.values).cols);
    var held := begun.(held := Some(Held(s.inserts.page.value, after)));
    assert map[p := begun][p := held] == map[p := held];
  }

  /** The swap of the only insert there is. */
  lemma {:induction false} SwapThen(ix: Index, s: System, p: Pid, held: Insert)
    requires |s.history| > 0 && |s.owner| == |s.fate| && TuplesMatch(ix, s.inserts)
    requires s.inserts.active == map[p := held] && held.held.Some? && held.row !in s.returned
    requires s.inserts.page == Some(held.held.value.before) && 0 < |held.held.value.after| <= MAX_BLOB_LEN
    ensures Possible(ix, s, Inserting(Swap(p)))
    ensures Then(ix, s, Inserting(Swap(p)))
         == Enlarged(s.(inserts := s.inserts.(active := map[])), p, held.row, Some(held.held.value.after))
  {
    hide TuplesMatch;
    assert map[p := held] - {p} == map[];
  }

  /** An insert that begins, reads the page and swaps it undisturbed. */
  lemma {:induction false} SwapEvents(ix: Index, start: System, events: seq<Event>, s: System, p: Pid, row: Row,
                                      values: seq<Option<Datum>>, session: Settings, cols: seq<ColSummary>)
    requires LawfulIndex(ix) && SystemInv(ix, start) && RunEvents(ix, start, events) == s
    requires s.inserts.active == map[] && TupleOf(ix.attrs, row, values) && row !in s.returned
    requires PageCols(s.inserts.page) == Some(cols) && WidenRow(TypesIn(ix, session), ix.attrs, cols, values).changed
    requires var after := EncodeFitted(WidenRow(TypesIn(ix, session), ix.attrs, cols, values).cols);
      0 < |after| <= MAX_BLOB_LEN
    ensures RunEvents(ix, start, events + [Inserting(Begin(p, row, values, session))] + [Inserting(Step.Read(p))]
                                 + [Inserting(Swap(p))])
         == Enlarged(s, p, row, Some(EncodeFitted(WidenRow(TypesIn(ix, session), ix.attrs, cols, values).cols)))
  {
    var begun := Insert(row, values, session, None);
    var e1 := events + [Inserting(Begin(p, row, values, session))];
    var e2 := e1 + [Inserting(Step.Read(p))];
    BeginEvent(ix, start, events, s, p, row, values, session);
    Sized(ix, RunEvents(ix, start, e1));
    ReadThen(ix, RunEvents(ix, start, e1), p, begun, cols);
    RunOne(ix, start, e1, Inserting(Step.Read(p)));
    Sized(ix, RunEvents(ix, start, e2));
    var after := EncodeFitted(WidenRow(TypesIn(ix, session), ix.attrs, cols, values).cols);
    SwapThen(ix, RunEvents(ix, start, e2), p, begun.(held := Some(Held(s.inserts.page.value, after))));
    RunOne(ix, start, e2, Inserting(Swap(p)));
    hide LawfulIndex, SystemInv, RunEvents, Format.Decode, EncodeFitted, WidenRow, Possible, Then, TupleOf, TuplesMatch;
    hide PageCols;
    assert s.inserts.(active := map[]) == s.inserts;
  }

  lemma {:induction false} Sized(ix: Index, s: System)
    requires SystemInv(ix, s)
    ensures |s.history| > 0 && |s.owner| == |s.fate| && TuplesMatch(ix, s.inserts)
  {
    hide Inv, Grows, ReturnedOk, CachesOk, TuplesMatch, WellFormedPage;
  }

  /** An insert that begins, reads the page and finds nothing to widen. */
  lemma {:induction false} KeepEvents(ix: Index, start: System, events: seq<Event>, s: System, p: Pid, row: Row,
                                      values: seq<Option<Datum>>, session: Settings, cols: seq<ColSummary>)
    requires LawfulIndex(ix) && SystemInv(ix, start) && RunEvents(ix, start, events) == s
    requires s.inserts.active == map[] && TupleOf(ix.attrs, row, values) && row !in s.returned
    requires PageCols(s.inserts.page) == Some(cols) && !WidenRow(TypesIn(ix, session), ix.attrs, cols, values).changed
    ensures RunEvents(ix, start, events + [Inserting(Begin(p, row, values, session))] + [Inserting(Step.Read(p))])
         == Found(s, row)
  {
    hide LawfulIndex, SystemInv, RunEvents, Format.Decode, EncodeFitted, WidenRow;
    var begun := Insert(row, values, session, None);
    var e1 := events + [Inserting(Begin(p, row, values, session))];
    BeginEvent(ix, start, events, s, p, row, values, session);
    RunOne(ix, start, e1, Inserting(Step.Read(p)));
    assert map[p := begun] - {p} == map[];
  }

  /**
   * Backend 3 caches the summary. Backend 1 inserts `wide`, which widens the page; backend 2
   * inserts `inner`, which the widened page covers, and commits; backend 1 rolls back.
   */
  function StaleRun(wide: Arrival, inner: Arrival): seq<Event> {
    StaleInserts(wide, inner) + [Commit(2)] + [Rollback(1)]
  }

  function StaleInserts(wide: Arrival, inner: Arrival): seq<Event> {
    [] + [ReadPage(3)] + [PutSummary(3)]
    + [Inserting(Begin(1, wide.row, wide.values, wide.session))] + [Inserting(Step.Read(1))] + [Inserting(Swap(1))]
    + [Inserting(Begin(2, inner.row, inner.values, inner.session))] + [Inserting(Step.Read(2))]
  }

  lemma {:induction false} AfterStaleRun(ix: Index, start: System, cols: seq<ColSummary>, wide: Arrival, inner: Arrival)
    requires LawfulIndex(ix) && SystemInv(ix, start)
    requires start.inserts.active == map[] && start.reading == map[] && start.cache == map[]
    requires |start.history| == 1 && start.owner == [0] && start.fate == [Lost]
    requires wide.row !in start.returned && inner.row !in start.returned && wide.row != inner.row
    requires TupleOf(ix.attrs, wide.row, wide.values) && TupleOf(ix.attrs, inner.row, inner.values)
    requires PageCols(start.inserts.page) == Some(cols)
    requires var w := WidenRow(TypesIn(ix, wide.session), ix.attrs, cols, wide.values);
      && w.changed && 0 < |EncodeFitted(w.cols)| <= MAX_BLOB_LEN
      && Decode(EncodeFitted(w.cols)) == Some(w.cols)
      && !WidenRow(TypesIn(ix, inner.session), ix.attrs, w.cols, inner.values).changed
    ensures var s := RunEvents(ix, start, StaleRun(wide, inner));
      && s.owner == [0, 1] && s.fate == [Lost, Lost] && inner.row in s.inserts.rows
      && |s.history| > 0 && NextLookup(s, 3) == cols
  {
    var page := Some(EncodeFitted(WidenRow(TypesIn(ix, wide.session), ix.attrs, cols, wide.values).cols));
    LastPage(ix, start);
    StaleSteps(ix, start, cols, wide, inner);
    hide LawfulIndex, SystemInv, RunEvents, WidenRow, EncodeFitted, Format.Decode, TupleOf, NextLookup, StaleInserts;
    StaleCols(start, page, wide.row, inner.row, cols);
    hide LookedUp, Enlarged, Found;
    var s := Found(Enlarged(LookedUp(start, 3), 1, wide.row, page), inner.row);
    SettleEvents(ix, start, StaleInserts(wide, inner), s);
  }

  lemma {:induction false} StaleCols(start: System, page: Option<Bytes>, wide: Row, inner: Row, cols: seq<ColSummary>)
    requires |start.history| == 1 && start.owner == [0] && start.fate == [Lost]
    requires start.history[0] == start.inserts.page && PageCols(start.inserts.page) == Some(cols)
    ensures var s := Found(Enlarged(LookedUp(start, 3), 1, wide, page), inner);
      && s.owner == [0, 1] && s.fate == [Lost, Open] && inner in s.inserts.rows
      && |s.history| > 0 && NextLookup(s, 3) == cols && NextLookup(s.(fate := [Lost, Lost]), 3) == cols
  {
    hide Format.Decode;
  }

  lemma {:induction false} LastPage(ix: Index, s: System)
    requires SystemInv(ix, s)
    ensures |s.history| > 0 && s.history[|s.history| - 1] == s.inserts.page
  {
    hide Inv, Grows, ReturnedOk, CachesOk, TuplesMatch;
  }

  lemma {:induction false} StaleSteps(ix: Index, start: System, cols: seq<ColSummary>, wide: Arrival, inner: Arrival)
    requires LawfulIndex(ix) && SystemInv(ix, start) && |start.history| > 0
    requires start.inserts.active == map[] && start.reading == map[] && start.cache == map[]
    requires wide.row !in start.returned && inner.row !in start.returned && wide.row != inner.row
    requires TupleOf(ix.attrs, wide.row, wide.values) && TupleOf(ix.attrs, inner.row, inner.values)
    requires PageCols(start.inserts.page) == Some(cols)
    requires var w := WidenRow(TypesIn(ix, wide.session), ix.attrs, cols, wide.values);
      && w.changed && 0 < |EncodeFitted(w.cols)| <= MAX_BLOB_LEN
      && Decode(EncodeFitted(w.cols)) == Some(w.cols)
      && !WidenRow(TypesIn(ix, inner.session), ix.attrs, w.cols, inner.values).changed
    ensures var page := Some(EncodeFitted(WidenRow(TypesIn(ix, wide.session), ix.attrs, cols, wide.values).cols));
      RunEvents(ix, start, StaleInserts(wide, inner))
      == Found(Enlarged(LookedUp(start, 3), 1, wide.row, page), inner.row)
  {
    var w := WidenRow(TypesIn(ix, wide.session), ix.attrs, cols, wide.values);
    hide LawfulIndex, SystemInv, RunEvents, WidenRow, EncodeFitted, Format.Decode, TupleOf, Admits;
    var e1 := [] + [ReadPage(3)] + [PutSummary(3)];
    assert RunEvents(ix, start, []) == start by { RunNone(ix, start); }
    LookupEvents(ix, start, [], start, 3);
    SwapEvents(ix, start, e1, LookedUp(start, 3), 1, wide.row, wide.values, wide.session, cols);
    var e2 := e1 + [Inserting(Begin(1, wide.row, wide.values, wide.session))] + [Inserting(Step.Read(1))]
              + [Inserting(Swap(1))];
    var s2 := Enlarged(LookedUp(start, 3), 1, wide.row, Some(EncodeFitted(w.cols)));
    EnlargedHolds(LookedUp(start, 3), 1, wide.row, inner.row, EncodeFitted(w.cols), w.cols);
    hide Enlarged, Found, LookedUp, PageCols;
    KeepEvents(ix, start, e2, s2, 2, inner.row, inner.values, inner.session, w.cols);
  }

  lemma {:induction false} EnlargedHolds(s: System, p: Pid, wide: Row, inner: Row, bytes: Bytes, cols: seq<ColSummary>)
    requires wide != inner && inner !in s.returned && Decode(bytes) == Some(cols)
    ensures var r := Enlarged(s, p, wide, Some(bytes));
      r.inserts.active == map[] && inner !in r.returned && PageCols(r.inserts.page) == Some(cols)
  {
    hide Format.Decode;
  }

  lemma {:induction false} RunNone(ix: Index, start: System)
    requires LawfulIndex(ix) && SystemInv(ix, start)
    ensures RunEvents(ix, start, []) == start
  {
    hide LawfulIndex, SystemInv;
  }

  lemma {:induction false} SettleEvents(ix: Index, start: System, events: seq<Event>, s: System)
    requires LawfulIndex(ix) && SystemInv(ix, start) && RunEvents(ix, start, events) == s
    requires s.owner == [0, 1] && s.fate == [Lost, Open]
    ensures RunEvents(ix, start, events + [Commit(2)] + [Rollback(1)]) == s.(fate := [Lost, Lost])
  {
    hide LawfulIndex, SystemInv, RunEvents;
    LastPage(ix, s);
    RunOne(ix, start, events, Commit(2));
    assert Settle(s, 2, Sent(|s.history| - 1)).fate == s.fate;
    RunOne(ix, start, events + [Commit(2)], Rollback(1));
    assert Settle(s, 1, Lost).fate == [Lost, Lost];
  }

  lemma {:induction false} NoneDeliverable(ix: Index, s: System)
    requires s.owner == [0, 1] && s.fate == [Lost, Lost]
    ensures forall v :: !Possible(ix, s, Deliver(3, v)) && !Possible(ix, s, Own(3, v))
  {
  }
}
