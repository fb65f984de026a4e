/**
 * Which broadcasts make a backend's cache safe for a row, over every run of the machine: lookups and
 * processing may fall anywhere between the inserts, commits and rollbacks.
 */
module Announcements {
  import opened Base
  import opened Format
  import opened Coverage
  import opened Protocol
  import opened Cache

  /** The first version the row is admitted by. */
  ghost predicate FirstAdmits(ix: Index, s: System, v: nat, row: Row) {
    0 < v < |s.history| && Admits(ix, s.history[v], row) && !Admits(ix, s.history[v - 1], row)
  }

  /** A row whose insert returned was admitted from the start, or there is a first version, no later, that admits it. */
  lemma {:induction false} FirstVersion(ix: Index, s: System, row: Row) returns (v: nat)
    requires SystemInv(ix, s) && row in s.returned
    ensures v <= s.returned[row] && (v == 0 || FirstAdmits(ix, s, v, row))
    ensures v == 0 ==> Admits(ix, s.history[0], row)
  {
    hide Inv, TuplesMatch, Grows, CachesOk, Admits;
    v := s.returned[row];
    while v > 0 && Admits(ix, s.history[v - 1], row)
      invariant v <= s.returned[row] < |s.history| && Admits(ix, s.history[v], row)
    {
      v := v - 1;
    }
  }

  /** The backend has processed everything that was broadcast. */
  ghost predicate CaughtUp(s: System, b: Pid) {
    forall v | 0 <= v < |s.fate| && s.fate[v].Sent? :: v in Heard(s, b)
  }

  /** Something was broadcast when the page was at version `v` or later, be it for an older swap. */
  ghost predicate Announced(s: System, v: nat) {
    exists u :: 0 <= u < |s.fate| && s.fate[u].Sent? && v <= s.fate[u].at
  }

  /** What is not a backend's own affair. */
  predicate IsPublic(e: Event) {
    e.Inserting? || e.Commit? || e.Rollback?
  }

  /** The inserts, commits and rollbacks of a run, in order. */
  function Public(events: seq<Event>): seq<Event> {
    if events == [] then [] else
    var init, last := Public(events[..|events| - 1]), events[|events| - 1];
    if IsPublic(last) then init + [last] else init
  }

  /**
   * However lookups and processing fall between the inserts, commits and rollbacks of `events`: if
   * backend `b` ends up caught up, its next lookup covers the row.
   */
  ghost predicate SafeFor(ix: Index, start: System, events: seq<Event>, b: Pid, row: Row)
    requires LawfulIndex(ix) && SystemInv(ix, start)
  {
    forall run: seq<Event> | Public(run) == Public(events) && CaughtUp(RunEvents(ix, start, run), b) ::
      AdmitsCols(ix, NextLookup(RunEvents(ix, start, run), b), row)
  }

  // ---- an announcement is enough --------------------------------------------------------------

  lemma {:induction false} AnnouncedCovers(ix: Index, s: System, b: Pid, v: nat, row: Row)
    requires SystemInv(ix, s) && CaughtUp(s, b) && FirstAdmits(ix, s, v, row) && Announced(s, v)
    ensures AdmitsCols(ix, NextLookup(s, b), row)
  {
    hide Inv, TuplesMatch, ReturnedOk, Grows, Admits, Deserialized, WellFormedPage, AdmitsCols;
    var u :| 0 <= u < |s.fate| && s.fate[u].Sent? && v <= s.fate[u].at;
    assert HeardOf(s, b, u);
    var version := if b in s.cache then s.cache[b].version else |s.history| - 1;
    assert v <= version;
    GrowsAt(ix, s.history, v, version, row);
    AdmitsDeserialized(ix, s.history[version], row);
  }

  // ---- runs that differ in lookups only ---------------------------------------------------------

  ghost predicate SamePublic(r: System, s: System) {
    && r.inserts == s.inserts && r.history == s.history && r.owner == s.owner && r.fate == s.fate
    && r.returned == s.returned
  }

  lemma {:induction false} RunNext(ix: Index, start: System, events: seq<Event>, e: Event)
    requires LawfulIndex(ix) && SystemInv(ix, start)
    ensures var before := RunEvents(ix, start, events);
      RunEvents(ix, start, events + [e]) == if Possible(ix, before, e) then Then(ix, before, e) else before
  {
    assert (events + [e])[..|events|] == events;
    hide Possible, Then, LawfulIndex, SystemInv;
  }

  lemma {:induction false} RunAppend(ix: Index, start: System, first: seq<Event>, rest: seq<Event>)
    requires LawfulIndex(ix) && SystemInv(ix, start)
    ensures RunEvents(ix, start, first + rest) == RunEvents(ix, RunEvents(ix, start, first), rest)
  {
    hide Possible, Then, LawfulIndex, SystemInv;
    if rest == [] {
      assert first + rest == first;
    } else {
      var init, last := rest[..|rest| - 1], rest[|rest| - 1];
      assert first + rest == (first + init) + [last] && rest == init + [last];
      RunAppend(ix, start, first, init);
      RunNext(ix, start, first + init, last);
      RunNext(ix, RunEvents(ix, start, first), init, last);
    }
  }

  lemma {:induction false} PublicNext(events: seq<Event>, e: Event)
    ensures Public(events + [e]) == Public(events) + if IsPublic(e) then [e] else []
  {
    assert (events + [e])[..|events|] == events;
  }

  lemma {:induction false} PublicAppend(first: seq<Event>, rest: seq<Event>)
    ensures Public(first + rest) == Public(first) + Public(rest)
  {
    if rest == [] {
      assert first + rest == first;
    } else {
      var init, last := rest[..|rest| - 1], rest[|rest| - 1];
      assert first + rest == (first + init) + [last];
      PublicAppend(first, init);
      PublicNext(first + init, last);
    }
  }

  lemma {:induction false} AllPublic(events: seq<Event>)
    ensures forall e | e in Public(events) :: IsPublic(e)
  {
    if events != [] {
      AllPublic(events[..|events| - 1]);
    }
  }

  lemma {:induction false} PublicOfPublic(events: seq<Event>)
    requires forall e | e in events :: IsPublic(e)
    ensures Public(events) == events
  {
    if events != [] {
      PublicOfPublic(events[..|events| - 1]);
    }
  }

  lemma {:induction false} PrivateStep(ix: Index, s: System, e: Event, q: System)
    requires SystemInv(ix, s) && Possible(ix, s, e) && !IsPublic(e) && SamePublic(s, q)
    ensures SamePublic(Then(ix, s, e), q)
  {
    hide Inv, TuplesMatch, Grows, ReturnedOk, CachesOk, WellFormedPage, AfterInserting, Enabled, Deserialized;
  }

  lemma {:induction false} NotedStep(r: System, s: System, before: State, p: Pid)
    requires p in before.active && |s.history| > 0 && SamePublic(r, s)
    ensures SamePublic(Noted(r, before, p), Noted(s, before, p)) && SameBackends(Noted(s, before, p), s)
  {
    var row := before.active[p].row;
    if p in s.inserts.active || row !in s.inserts.rows || row in s.returned {
    } else {
      assert Noted(r, before, p) == r.(returned := s.returned[row := |s.history| - 1]);
    }
  }

  lemma {:induction false} SwappedStep(r: System, s: System, inserts: State, p: Pid)
    requires SamePublic(r, s)
    ensures SamePublic(Swapped(r, inserts, p), Swapped(s, inserts, p)) && SameBackends(Swapped(s, inserts, p), s)
    ensures |Swapped(s, inserts, p).history| > 0
  {
  }

  lemma {:induction false} InsertsStep(r: System, s: System, inserts: State)
    requires SamePublic(r, s)
    ensures SamePublic(r.(inserts := inserts), s.(inserts := inserts)) && SameBackends(s.(inserts := inserts), s)
  {
  }

  lemma {:induction false} SameBackendsStill(q: System, r: System, s: System)
    requires SameBackends(q, r) && SameBackends(r, s)
    ensures SameBackends(q, s)
  {
  }

  lemma {:induction false} InsertStep(ix: Index, r: System, s: System, step: Step)
    requires TuplesMatch(ix, s.inserts) && Enabled(ix, s.inserts, step) && !step.Rebuild?
    requires |s.history| > 0 && SamePublic(r, s)
    ensures r.inserts == s.inserts && r.history == s.history
    ensures SamePublic(AfterInserting(ix, r, step), AfterInserting(ix, s, step))
    ensures SameBackends(AfterInserting(ix, s, step), s)
  {
    var inserts := After(ix, s.inserts, step);
    InsertsStep(r, s, inserts);
    SwappedStep(r, s, inserts, step.p);
    hide TuplesMatch, After, Noted, Enabled, Swapped, SwapSucceeds, SameBackends;
    match step
    case Read(p) =>
      ReadActive(ix, s.inserts, p);
      NotedStep(r.(inserts := inserts), s.(inserts := inserts), s.inserts, p);
      SameBackendsStill(AfterInserting(ix, s, step), s.(inserts := inserts), s);
    case Swap(p) =>
      if SwapSucceeds(s.inserts, p) {
        SwapActive(s.inserts, p);
        NotedStep(Swapped(r, inserts, p), Swapped(s, inserts, p), s.inserts, p);
        SameBackendsStill(AfterInserting(ix, s, step), Swapped(s, inserts, p), s);
      }
    case _ =>
  }

  lemma {:induction false} SwapActive(s: State, p: Pid)
    requires SwapSucceeds(s, p)
    ensures p in s.active
  {
  }

  lemma {:induction false} ReadActive(ix: Index, s: State, p: Pid)
    requires Enabled(ix, s, Step.Read(p))
    ensures p in s.active
  {
  }

  lemma {:induction false} SettleStep(r: System, s: System, b: Pid, f: Fate)
    requires |s.owner| == |s.fate| && SamePublic(r, s)
    ensures SamePublic(Settle(r, b, f), Settle(s, b, f)) && SameBackends(Settle(s, b, f), s)
  {
    assert Settle(r, b, f).fate == Settle(s, b, f).fate;
  }

  lemma {:induction false} PublicStep(ix: Index, r: System, s: System, e: Event)
    requires SystemInv(ix, r) && SystemInv(ix, s) && SamePublic(r, s) && IsPublic(e)
    ensures Possible(ix, r, e) == Possible(ix, s, e)
    ensures Possible(ix, s, e) ==> SamePublic(Then(ix, r, e), Then(ix, s, e))
    ensures Possible(ix, s, e) ==> SameBackends(Then(ix, s, e), s)
  {
    hide Inv, TuplesMatch, Grows, ReturnedOk, CachesOk, WellFormedPage, AfterInserting, Enabled, Deserialized, Settle;
    if Possible(ix, s, e) {
      match e
      case Inserting(step) => InsertStep(ix, r, s, step);
      case Commit(b) => SettleStep(r, s, b, Sent(|s.history| - 1));
      case Rollback(b) => SettleStep(r, s, b, Lost);
    }
  }

  ghost predicate SameBackends(r: System, s: System) {
    r.heard == s.heard && r.since == s.since && r.reading == s.reading && r.cache == s.cache
  }

  /** What a run does to the page and to transactions depends on its public events only. */
  lemma {:induction false} PublicRun(ix: Index, r: System, s: System, run: seq<Event>)
    requires LawfulIndex(ix) && SystemInv(ix, r) && SystemInv(ix, s) && SamePublic(r, s)
    ensures SamePublic(RunEvents(ix, r, run), RunEvents(ix, s, Public(run)))
  {
    hide LawfulIndex, SystemInv, Possible, Then, SamePublic;
    if run != [] {
      var init, last := run[..|run| - 1], run[|run| - 1];
      PublicRun(ix, r, s, init);
      assert run == init + [last];
      RunNext(ix, r, init, last);
      var was := RunEvents(ix, r, init);
      if IsPublic(last) {
        RunNext(ix, s, Public(init), last);
        PublicStep(ix, was, RunEvents(ix, s, Public(init)), last);
      } else if Possible(ix, was, last) {
        PrivateStep(ix, was, last, RunEvents(ix, s, Public(init)));
      }
    }
  }

  lemma {:induction false} SameRuns(ix: Index, start: System, run: seq<Event>, other: seq<Event>)
    requires LawfulIndex(ix) && SystemInv(ix, start) && Public(run) == Public(other)
    ensures SamePublic(RunEvents(ix, start, run), RunEvents(ix, start, other))
  {
    hide LawfulIndex, SystemInv, RunEvents;
    PublicRun(ix, start, start, run);
    PublicRun(ix, start, start, other);
  }

  // ---- without one, a run that ends behind -------------------------------------------------------

  lemma {:induction false} InsertingGrows(ix: Index, s: System, step: Step, v: nat)
    requires TuplesMatch(ix, s.inserts) && Enabled(ix, s.inserts, step) && !step.Rebuild? && |s.history| == |s.fate| > 0
    ensures var r := AfterInserting(ix, s, step);
      s.history <= r.history && |r.history| <= |s.history| + 1 && NoneSentBelow(s, r, v)
  {
    hide TuplesMatch, After, Enabled, SwapSucceeds;
  }

  lemma {:induction false} SettleGrows(s: System, b: Pid, f: Fate, v: nat)
    requires |s.owner| == |s.fate| && (f.Sent? ==> v <= f.at)
    ensures NoneSentBelow(s, Settle(s, b, f), v)
  {
  }

  /** One event makes at most one version, appends to the history, and sends nothing with an old version. */
  lemma {:induction false} EventGrows(ix: Index, s: System, e: Event, v: nat)
    requires SystemInv(ix, s) && Possible(ix, s, e)
    ensures var r := Then(ix, s, e);
      && s.history <= r.history && |r.history| <= |s.history| + 1
      && (v < |s.history| || |r.history| > |s.history| ==> NoneSentBelow(s, r, v))
  {
    hide TuplesMatch, Inv, Grows, ReturnedOk, CachesOk, WellFormedPage, AfterInserting, Enabled, Deserialized;
    match e
    case Inserting(step) => InsertingGrows(ix, s, step, v);
    case Commit(b) =>
      if v < |s.history| {
        SettleGrows(s, b, Sent(|s.history| - 1), v);
      }
    case Rollback(b) => SettleGrows(s, b, Lost, v);
    case _ =>
  }

  /** Between `s` and `r`, nothing was broadcast with the page at a version before `v`. */
  ghost predicate NoneSentBelow(s: System, r: System, v: nat) {
    forall u | 0 <= u < |r.fate| && r.fate[u].Sent? && r.fate[u].at < v :: u < |s.fate| && s.fate[u] == r.fate[u]
  }

  lemma {:induction false} RunGrows(ix: Index, s: System, run: seq<Event>, v: nat)
    requires LawfulIndex(ix) && SystemInv(ix, s)
    ensures var r := RunEvents(ix, s, run);
      s.history <= r.history && (v < |s.history| ==> NoneSentBelow(s, r, v))
  {
    hide LawfulIndex, SystemInv, Possible, Then;
    if run != [] {
      var init, last := run[..|run| - 1], run[|run| - 1];
      RunGrows(ix, s, init, v);
      assert run == init + [last];
      RunNext(ix, s, init, last);
      if Possible(ix, RunEvents(ix, s, init), last) {
        EventGrows(ix, RunEvents(ix, s, init), last, v);
      }
    }
  }

  /** Where in a run version `v` was made. */
  lemma {:induction false} SwapPoint(ix: Index, start: System, run: seq<Event>, v: nat) returns (i: nat)
    requires LawfulIndex(ix) && SystemInv(ix, start)
    requires |start.history| <= v < |RunEvents(ix, start, run).history|
    ensures i < |run| && |RunEvents(ix, start, run[..i]).history| == v
    ensures |RunEvents(ix, start, run[..i + 1]).history| == v + 1
  {
    hide LawfulIndex, SystemInv, Possible, Then;
    var init, last := run[..|run| - 1], run[|run| - 1];
    assert run == init + [last] && run[..|run|] == run;
    RunNext(ix, start, init, last);
    var before := RunEvents(ix, start, init);
    if v < |before.history| {
      i := SwapPoint(ix, start, init, v);
      assert init[..i] == run[..i] && init[..i + 1] == run[..i + 1];
    } else {
      i := |init|;
      EventGrows(ix, before, last, v);
    }
  }

  lemma {:induction false} PublicKeepsBackends(ix: Index, s: System, run: seq<Event>)
    requires LawfulIndex(ix) && SystemInv(ix, s) && forall e | e in run :: IsPublic(e)
    ensures SameBackends(RunEvents(ix, s, run), s)
  {
    hide LawfulIndex, SystemInv, Possible, Then;
    if run != [] {
      var init, last := run[..|run| - 1], run[|run| - 1];
      PublicKeepsBackends(ix, s, init);
      assert run == init + [last];
      RunNext(ix, s, init, last);
      PublicStep(ix, RunEvents(ix, s, init), RunEvents(ix, s, init), last);
    }
  }

  /** Backend `b` processes whatever was sent of the first `n` swaps. */
  function Delivers(b: Pid, n: nat): seq<Event> {
    if n == 0 then [] else Delivers(b, n - 1) + [Deliver(b, n - 1)]
  }

  /** Backend `b` finishes a lookup, if it is at one, catches up, and looks again. */
  function Peek(b: Pid, n: nat): seq<Event> {
    [PutSummary(b)] + [Flush(b)] + Delivers(b, n) + [ReadPage(b)] + [PutSummary(b)]
  }

  lemma {:induction false} PeekIsPrivate(b: Pid, n: nat)
    ensures Public(Delivers(b, n)) == [] && Public(Peek(b, n)) == []
  {
    if n == 0 {
      PublicOfPublic([]);
    } else {
      PeekIsPrivate(b, n - 1);
      PublicNext(Delivers(b, n - 1), Deliver(b, n - 1));
    }
    var e := [PutSummary(b)] + [Flush(b)];
    PublicNext([], PutSummary(b));
    PublicNext([] + [PutSummary(b)], Flush(b));
    assert [] + [PutSummary(b)] == [PutSummary(b)];
    PublicAppend(e, Delivers(b, n));
    PublicNext(e + Delivers(b, n), ReadPage(b));
    PublicNext(e + Delivers(b, n) + [ReadPage(b)], PutSummary(b));
  }

  lemma {:induction false} DeliverStep(ix: Index, s: System, b: Pid, v: nat)
    requires SystemInv(ix, s) && b !in s.reading && b !in s.cache && v < |s.fate|
    ensures Possible(ix, s, Deliver(b, v)) <==> s.fate[v].Sent?
    ensures s.fate[v].Sent? ==>
      var r := Then(ix, s, Deliver(b, v));
      SamePublic(r, s) && b !in r.reading && b !in r.cache && Heard(r, b) == Heard(s, b) + {v}
  {
    hide Inv, TuplesMatch, Grows, ReturnedOk, CachesOk, WellFormedPage, AfterInserting, Enabled, Deserialized;
  }

  lemma {:induction false} DeliversCatchUp(ix: Index, s: System, b: Pid, n: nat)
    requires LawfulIndex(ix) && SystemInv(ix, s) && b !in s.reading && b !in s.cache && n <= |s.fate|
    ensures var r := RunEvents(ix, s, Delivers(b, n));
      && SamePublic(r, s) && b !in r.reading && b !in r.cache
      && forall v | 0 <= v < n && s.fate[v].Sent? :: v in Heard(r, b)
  {
    hide LawfulIndex, SystemInv, RunEvents, Possible, Then, Heard;
    if n == 0 {
      RunNothing(ix, s);
    } else {
      DeliversCatchUp(ix, s, b, n - 1);
      RunNext(ix, s, Delivers(b, n - 1), Deliver(b, n - 1));
      DeliverStep(ix, RunEvents(ix, s, Delivers(b, n - 1)), b, n - 1);
    }
  }

  lemma {:induction false} LatestPage(ix: Index, s: System)
    requires SystemInv(ix, s)
    ensures |s.history| == |s.fate| > 0
    ensures forall b | b in s.reading :: s.reading[b] < |s.history|
    ensures forall v :: 0 <= v < |s.history| ==> WellFormedPage(ix, s.history[v])
  {
    hide Inv, TuplesMatch, Grows, ReturnedOk, WellFormedPage, Deserialized;
  }

  lemma {:induction false} EndsLookup(ix: Index, s: System, b: Pid)
    requires SystemInv(ix, s)
    ensures var r := if Possible(ix, s, PutSummary(b)) then Then(ix, s, PutSummary(b)) else s;
      SamePublic(r, s) && b !in r.reading
  {
    LatestPage(ix, s);
    hide Inv, TuplesMatch, Grows, ReturnedOk, CachesOk, WellFormedPage, AfterInserting, Deserialized, Enabled;
  }

  lemma {:induction false} Flushes(ix: Index, s: System, b: Pid)
    requires SystemInv(ix, s) && b !in s.reading
    ensures Possible(ix, s, Flush(b))
    ensures var r := Then(ix, s, Flush(b)); SamePublic(r, s) && b !in r.reading && b !in r.cache
  {
    hide Inv, TuplesMatch, Grows, ReturnedOk, CachesOk, WellFormedPage, AfterInserting, Deserialized, Enabled;
  }

  /** A lookup, if the backend is at one, ends, and a flush leaves the backend without an entry. */
  lemma {:induction false} Clears(ix: Index, s: System, b: Pid)
    requires LawfulIndex(ix) && SystemInv(ix, s)
    ensures var r := RunEvents(ix, s, [PutSummary(b)] + [Flush(b)]);
      SamePublic(r, s) && b !in r.reading && b !in r.cache
  {
    hide LawfulIndex, SystemInv, RunEvents, Possible, Then;
    RunNothing(ix, s);
    RunNext(ix, s, [], PutSummary(b));
    assert [] + [PutSummary(b)] == [PutSummary(b)];
    EndsLookup(ix, s, b);
    RunNext(ix, s, [PutSummary(b)], Flush(b));
    Flushes(ix, RunEvents(ix, s, [PutSummary(b)]), b);
  }

  lemma {:induction false} LookStep(ix: Index, s: System, b: Pid)
    requires SystemInv(ix, s) && b !in s.reading && b !in s.cache
    ensures Possible(ix, s, ReadPage(b))
    ensures var m := Then(ix, s, ReadPage(b));
      SystemInv(ix, m) && Possible(ix, m, PutSummary(b)) && Then(ix, m, PutSummary(b)) == LookedUp(s, b)
  {
    hide Inv, TuplesMatch, Grows, ReturnedOk, WellFormedPage, AfterInserting, Deserialized, Enabled;
    BackendKeepsInv(ix, s, ReadPage(b));
    assert s.reading[b := |s.history| - 1] - {b} == s.reading;
  }

  /** A lookup that misses leaves the page as it is in the cache, and nothing else changes. */
  lemma {:induction false} Looks(ix: Index, s: System, events: seq<Event>, b: Pid)
    requires LawfulIndex(ix) && SystemInv(ix, s)
    requires var m := RunEvents(ix, s, events); b !in m.reading && b !in m.cache
    ensures |RunEvents(ix, s, events).history| > 0
    ensures RunEvents(ix, s, events + [ReadPage(b)] + [PutSummary(b)]) == LookedUp(RunEvents(ix, s, events), b)
  {
    LatestPage(ix, RunEvents(ix, s, events));
    LookStep(ix, RunEvents(ix, s, events), b);
    RunNext(ix, s, events, ReadPage(b));
    RunNext(ix, s, events + [ReadPage(b)], PutSummary(b));
    hide LawfulIndex, SystemInv, LookedUp, RunEvents, Possible, Then;
  }

  /** Afterwards the backend is caught up and holds the page as it is. */
  lemma {:induction false} PeekHolds(ix: Index, s: System, b: Pid)
    requires LawfulIndex(ix) && SystemInv(ix, s)
    ensures var r := RunEvents(ix, s, Peek(b, |s.fate|));
      && SamePublic(r, s) && CaughtUp(r, b)
      && b in r.cache && |s.history| > 0 && r.cache[b].cols == Deserialized(s.history[|s.history| - 1])
  {
    hide LawfulIndex, SystemInv, Deserialized, RunEvents;
    var e := [PutSummary(b)] + [Flush(b)];
    var cleared := RunEvents(ix, s, e);
    Clears(ix, s, b);
    LatestPage(ix, cleared);
    DeliversCatchUp(ix, cleared, b, |s.fate|);
    RunAppend(ix, s, e, Delivers(b, |s.fate|));
    Looks(ix, s, e + Delivers(b, |s.fate|), b);
  }

  lemma {:induction false} RunNothing(ix: Index, s: System)
    requires LawfulIndex(ix) && SystemInv(ix, s)
    ensures RunEvents(ix, s, []) == s
  {
    hide LawfulIndex, SystemInv;
  }

  /** The run of `public` in which backend `b` catches up and looks just before event `i`. */
  function LooksBefore(public: seq<Event>, i: nat, b: Pid, n: nat): seq<Event>
    requires i <= |public|
  {
    public[..i] + Peek(b, n) + public[i..]
  }

  lemma {:induction false} LooksBeforePublic(public: seq<Event>, i: nat, b: Pid, n: nat)
    requires i <= |public| && forall e | e in public :: IsPublic(e)
    ensures Public(LooksBefore(public, i, b, n)) == public
  {
    PeekIsPrivate(b, n);
    hide Peek, Public;
    PublicAround(public[..i], Peek(b, n), public[i..]);
    assert public[..i] + public[i..] == public;
  }

  lemma {:induction false} PublicAround(before: seq<Event>, private: seq<Event>, rest: seq<Event>)
    requires (forall e | e in before :: IsPublic(e)) && Public(private) == [] && forall e | e in rest :: IsPublic(e)
    ensures Public(before + private + rest) == before + rest
  {
    PublicOfPublic(before);
    PublicOfPublic(rest);
    hide Public;
    PublicAppend(before + private, rest);
    PublicAppend(before, private);
    assert before + [] == before;
  }

  /** That run up to the swap, and the rest of it. */
  lemma {:induction false} LooksInBetween(ix: Index, start: System, public: seq<Event>, i: nat, b: Pid, n: nat)
    requires LawfulIndex(ix) && SystemInv(ix, start) && i <= |public| && forall e | e in public :: IsPublic(e)
    requires var m := RunEvents(ix, start, public[..i]); |m.fate| == n && |m.history| > 0
    ensures var m, s := RunEvents(ix, start, public[..i]), RunEvents(ix, start, public);
      var r := RunEvents(ix, start, LooksBefore(public, i, b, n));
      && SamePublic(r, s) && (forall v | 0 <= v < |m.fate| && m.fate[v].Sent? :: v in Heard(r, b))
      && b in r.cache && r.cache[b].cols == Deserialized(m.history[|m.history| - 1])
  {
    hide LawfulIndex, SystemInv, RunEvents, Peek, Deserialized;
    var m := RunEvents(ix, start, public[..i]);
    LooksBeforePublic(public, i, b, n);
    PublicOfPublic(public);
    SameRuns(ix, start, LooksBefore(public, i, b, n), public);
    RunAppend(ix, start, public[..i], Peek(b, n));
    PeekHolds(ix, m, b);
    RunAppend(ix, start, public[..i] + Peek(b, n), public[i..]);
    PublicKeepsBackends(ix, RunEvents(ix, start, public[..i] + Peek(b, n)), public[i..]);
  }

  /** If nothing is broadcast at version `v` or later, that run ends with `b` caught up and its entry older than `v`. */
  lemma {:induction false} EndsBehind(ix: Index, start: System, public: seq<Event>, i: nat, b: Pid, v: nat)
    requires LawfulIndex(ix) && SystemInv(ix, start) && i < |public| && forall e | e in public :: IsPublic(e)
    requires var m := RunEvents(ix, start, public[..i]);
      0 < v == |m.history| && |RunEvents(ix, start, public[..i + 1]).history| == v + 1
    requires !Announced(RunEvents(ix, start, public), v)
    ensures var s := RunEvents(ix, start, public);
      var r := RunEvents(ix, start, LooksBefore(public, i, b, |RunEvents(ix, start, public[..i]).fate|));
      && v < |s.history| && CaughtUp(r, b) && |r.history| > 0 && NextLookup(r, b) == Deserialized(s.history[v - 1])
  {
    hide LawfulIndex, SystemInv, RunEvents, Deserialized, LooksBefore;
    var m, s := RunEvents(ix, start, public[..i]), RunEvents(ix, start, public);
    LooksInBetween(ix, start, public, i, b, |m.fate|);
    BeforeSwap(ix, start, public, i, v);
    assert forall u | 0 <= u < |s.fate| && s.fate[u].Sent? :: s.fate[u].at < v;
    assert s.history[v - 1] == m.history[v - 1];
  }

  /** What was sent below version `v` was sent before the event that made it. */
  lemma {:induction false} BeforeSwap(ix: Index, start: System, public: seq<Event>, i: nat, v: nat)
    requires LawfulIndex(ix) && SystemInv(ix, start) && i < |public|
    requires |RunEvents(ix, start, public[..i]).history| == v
    requires |RunEvents(ix, start, public[..i + 1]).history| == v + 1
    ensures var m, s := RunEvents(ix, start, public[..i]), RunEvents(ix, start, public);
      m.history <= s.history && |s.history| > v && NoneSentBelow(m, s, v)
  {
    hide LawfulIndex, SystemInv, Possible, Then, RunEvents;
    var m, n := RunEvents(ix, start, public[..i]), RunEvents(ix, start, public[..i + 1]);
    assert public[..i + 1] == public[..i] + [public[i]] && public == public[..i + 1] + public[i + 1..];
    RunNext(ix, start, public[..i], public[i]);
    EventGrows(ix, m, public[i], v);
    RunAppend(ix, start, public[..i + 1], public[i + 1..]);
    RunGrows(ix, n, public[i + 1..], v);
  }

  lemma {:induction false} NotAdmittedCols(ix: Index, page: Option<Bytes>, row: Row)
    requires WellFormedPage(ix, page) && !Admits(ix, page, row)
    ensures !AdmitsCols(ix, Deserialized(page), row)
  {
    hide Decode, Describes, Covers;
  }

  /**
   * Whatever its lookups and however invalidations reach it, a backend that has caught up is sure to
   * cover a row if and only if something was broadcast after the row's first version was made: for that
   * swap, a later one, or an earlier one of a transaction that committed only then.
   */
  lemma {:induction false} SafeIffAnnounced(ix: Index, start: System, events: seq<Event>, b: Pid, v: nat, row: Row)
    requires LawfulIndex(ix) && SystemInv(ix, start)
    requires |start.history| <= v && FirstAdmits(ix, RunEvents(ix, start, events), v, row)
    ensures SafeFor(ix, start, events, b, row) <==> Announced(RunEvents(ix, start, events), v)
  {
    hide LawfulIndex, SystemInv, RunEvents, Deserialized, NextLookup, AdmitsCols, Announced, CaughtUp, Admits;
    var s := RunEvents(ix, start, events);
    if Announced(s, v) {
      forall run: seq<Event> | Public(run) == Public(events) && CaughtUp(RunEvents(ix, start, run), b)
        ensures |RunEvents(ix, start, run).history| > 0
        ensures AdmitsCols(ix, NextLookup(RunEvents(ix, start, run), b), row)
      {
        LatestPage(ix, RunEvents(ix, start, run));
        SameRuns(ix, start, run, events);
        SameAnnounced(s, RunEvents(ix, start, run), v);
        AnnouncedCovers(ix, RunEvents(ix, start, run), b, v, row);
      }
    } else {
      var run := BehindRun(ix, start, events, b, v, row);
    }
  }

  lemma {:induction false} SameAnnounced(s: System, r: System, v: nat)
    requires Announced(s, v) && r.fate == s.fate
    ensures Announced(r, v)
  {
  }

  lemma {:induction false} BehindRun(ix: Index, start: System, events: seq<Event>, b: Pid, v: nat, row: Row)
    returns (run: seq<Event>)
    requires LawfulIndex(ix) && SystemInv(ix, start)
    requires |start.history| <= v && FirstAdmits(ix, RunEvents(ix, start, events), v, row)
    requires !Announced(RunEvents(ix, start, events), v)
    ensures Public(run) == Public(events) && CaughtUp(RunEvents(ix, start, run), b)
    ensures !AdmitsCols(ix, NextLookup(RunEvents(ix, start, run), b), row)
  {
    hide LawfulIndex, SystemInv, RunEvents, Deserialized, NextLookup, AdmitsCols, CaughtUp, Admits, WellFormedPage;
    hide LooksBefore, Announced;
    var s, public := RunEvents(ix, start, events), Public(events);
    AllPublic(events);
    PublicOfPublic(public);
    SameRuns(ix, start, public, events);
    var i := SwapPoint(ix, start, public, v);
    var n := |RunEvents(ix, start, public[..i]).fate|;
    run := LooksBefore(public, i, b, n);
    LooksBeforePublic(public, i, b, n);
    NotSooner(RunEvents(ix, start, public), s, v);
    EndsBehind(ix, start, public, i, b, v);
    LatestPage(ix, s);
    NotAdmittedCols(ix, s.history[v - 1], row);
  }

  lemma {:induction false} NotSooner(r: System, s: System, v: nat)
    requires !Announced(s, v) && r.fate == s.fate
    ensures !Announced(r, v)
  {
  }

  // ---- a widening that is committed ----------------------------------------------------------------

  /**
   * The swap that made version `v` is backend `p`'s, not yet committed or rolled back; the row's insert
   * returned by then.
   */
  ghost predicate Pending(s: System, p: Pid, v: nat, row: Row) {
    && v < |s.fate| == |s.owner| && s.owner[v] == p && s.fate[v] == Open
    && row in s.returned && s.returned[row] <= v
  }

  lemma {:induction false} SwapPends(ix: Index, s: System, p: Pid)
    requires SystemInv(ix, s) && Possible(ix, s, Inserting(Swap(p))) && SwapSucceeds(s.inserts, p)
    ensures Pending(Then(ix, s, Inserting(Swap(p))), p, |s.history|, s.inserts.active[p].row)
  {
    hide SystemInv, TuplesMatch, Inv, Grows, ReturnedOk, CachesOk, WellFormedPage;
    Lengths(ix, s);
    SwapOpens(ix, s, p);
  }

  lemma {:induction false} SwapOpens(ix: Index, s: System, p: Pid)
    requires |s.owner| == |s.fate| == |s.history| > 0 && TuplesMatch(ix, s.inserts)
    requires forall row | row in s.returned :: s.returned[row] < |s.history|
    requires Possible(ix, s, Inserting(Swap(p))) && SwapSucceeds(s.inserts, p)
    ensures Pending(Then(ix, s, Inserting(Swap(p))), p, |s.history|, s.inserts.active[p].row)
  {
    hide TuplesMatch;
  }

  lemma {:induction false} Lengths(ix: Index, s: System)
    requires SystemInv(ix, s)
    ensures |s.history| == |s.owner| == |s.fate| > 0 && TuplesMatch(ix, s.inserts)
    ensures forall row | row in s.returned :: s.returned[row] < |s.history|
  {
    hide TuplesMatch, Inv, Grows, CachesOk, Admits, WellFormedPage;
  }

  lemma {:induction false} InsertStillPends(ix: Index, s: System, step: Step, p: Pid, v: nat, row: Row)
    requires TuplesMatch(ix, s.inserts) && Enabled(ix, s.inserts, step) && !step.Rebuild? && |s.history| > 0
    requires Pending(s, p, v, row)
    ensures Pending(AfterInserting(ix, s, step), p, v, row)
  {
    hide TuplesMatch, Enabled, After, SwapSucceeds;
  }

  /** Only its own commit or rollback settles it. */
  lemma {:induction false} StillPends(ix: Index, s: System, e: Event, p: Pid, v: nat, row: Row)
    requires SystemInv(ix, s) && Possible(ix, s, e) && e != Commit(p) && e != Rollback(p) && Pending(s, p, v, row)
    ensures Pending(Then(ix, s, e), p, v, row)
  {
    Lengths(ix, s);
    if e.Inserting? {
      InsertStillPends(ix, s, e.step, p, v, row);
    }
    hide SystemInv, TuplesMatch, AfterInserting, Deserialized, Enabled;
  }

  lemma {:induction false} RunStillPends(ix: Index, s: System, run: seq<Event>, p: Pid, v: nat, row: Row)
    requires LawfulIndex(ix) && SystemInv(ix, s) && Pending(s, p, v, row)
    requires forall e | e in run :: e != Commit(p) && e != Rollback(p)
    ensures Pending(RunEvents(ix, s, run), p, v, row)
  {
    hide LawfulIndex, SystemInv, Possible, Then, Pending;
    if run == [] {
      RunNothing(ix, s);
    } else {
      var init, last := run[..|run| - 1], run[|run| - 1];
      assert run == init + [last] && last in run && forall e | e in init :: e in run;
      RunStillPends(ix, s, init, p, v, row);
      RunNext(ix, s, init, last);
      if Possible(ix, RunEvents(ix, s, init), last) {
        StillPends(ix, RunEvents(ix, s, init), last, p, v, row);
      }
    }
  }

  /** Its commit sends it to everyone; a rollback never does. */
  lemma {:induction false} CommitSends(ix: Index, s: System, p: Pid, v: nat, row: Row)
    requires SystemInv(ix, s) && Pending(s, p, v, row)
    ensures Possible(ix, s, Commit(p)) && Possible(ix, s, Rollback(p))
    ensures var r := Then(ix, s, Commit(p));
      && v < |r.fate| && r.fate[v] == Sent(|s.history| - 1) && v < |s.history|
      && row in r.returned && r.returned[row] <= v
      && forall c: Pid | c !in r.reading :: Possible(ix, r, Deliver(c, v))
    ensures forall c: Pid :: !Possible(ix, Then(ix, s, Rollback(p)), Deliver(c, v))
  {
    Lengths(ix, s);
    hide SystemInv, TuplesMatch, AfterInserting, Deserialized, Enabled;
  }

  /**
   * An insert that widens the page itself and is committed is safe: whatever happens before the commit and
   * whatever else is rolled back, every backend that has caught up afterwards covers its row, and every
   * backend can.
   */
  lemma {:induction false} CommittedWideningIsSeen(ix: Index, start: System, before: seq<Event>, p: Pid,
                                                   between: seq<Event>, b: Pid)
    requires LawfulIndex(ix) && SystemInv(ix, start)
    requires var m := RunEvents(ix, start, before);
      Possible(ix, m, Inserting(Swap(p))) && SwapSucceeds(m.inserts, p)
    requires forall e | e in between :: e != Commit(p) && e != Rollback(p)
    ensures var m := RunEvents(ix, start, before);
      var r := RunEvents(ix, start, before + [Inserting(Swap(p))] + between + [Commit(p)]);
      var v, row := |m.history|, m.inserts.active[p].row;
      && |r.history| > 0 && (b !in r.reading ==> Possible(ix, r, Deliver(b, v)))
      && (CaughtUp(r, b) ==> AdmitsCols(ix, NextLookup(r, b), row))
  {
    hide LawfulIndex, SystemInv, Possible, Then, Pending, AdmitsCols, NextLookup, Deserialized, SwapSucceeds;
    var m := RunEvents(ix, start, before);
    var v, row := |m.history|, RowOf(m.inserts, p);
    var e1 := before + [Inserting(Swap(p))];
    RunNext(ix, start, before, Inserting(Swap(p)));
    SwapPends(ix, m, p);
    RunAppend(ix, start, e1, between);
    RunStillPends(ix, RunEvents(ix, start, e1), between, p, v, row);
    var s := RunEvents(ix, start, e1 + between);
    CommitSends(ix, s, p, v, row);
    RunNext(ix, start, e1 + between, Commit(p));
    var r := RunEvents(ix, start, e1 + between + [Commit(p)]);
    Lengths(ix, r);
    if CaughtUp(r, b) {
      SentIsHeard(r, b, v);
      HeardCovers(ix, r, b, v, row);
    }
  }

  function RowOf(s: State, p: Pid): Row
    requires SwapSucceeds(s, p)
  {
    s.active[p].row
  }

  lemma {:induction false} SentIsHeard(s: System, b: Pid, v: nat)
    requires CaughtUp(s, b) && v < |s.fate| && s.fate[v].Sent?
    ensures v in Heard(s, b)
  {
  }

  /**
   * A caught-up backend still holding an entry older than the row's first version: nothing was broadcast
   * since then.
   */
  lemma {:induction false} OlderEntryUnannounced(ix: Index, s: System, b: Pid, v: nat, row: Row)
    requires SystemInv(ix, s) && FirstAdmits(ix, s, v, row) && CaughtUp(s, b)
    requires b in s.cache && s.cache[b].version < v
    ensures !Announced(s, v) && !AdmitsCols(ix, NextLookup(s, b), row)
  {
    hide Inv, TuplesMatch, ReturnedOk, Grows, Deserialized, Admits, AdmitsCols, WellFormedPage;
    CacheCoherent(ix, s, b);
    LatestPage(ix, s);
    hide CachesOk;
    var u := s.cache[b].version;
    NotYet(ix, s.history, u, v - 1, row);
    NotAdmittedCols(ix, s.history[u], row);
  }

  lemma {:induction false} NotYet(ix: Index, history: seq<Option<Bytes>>, u: nat, v: nat, row: Row)
    requires Grows(ix, history) && u <= v < |history| && !Admits(ix, history[v], row)
    ensures !Admits(ix, history[u], row)
  {
  }
}
