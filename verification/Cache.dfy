/** The backend's summary cache: summary_cache.rs, and the lookup in prune_hook.rs that fills it. */
module Cache {
  import opened Base
  import opened Format
  import opened MetaPage
  import opened Coverage
  import opened Protocol

  // ---- the map -----------------------------------------------------------------------------

  /** What a lookup stores for a page; an index without a readable summary has no columns. */
  function Deserialized(page: Option<Bytes>): seq<ColSummary> {
    if PageCols(page).Some? then PageCols(page).value else []
  }

  /** What a lookup of `indexoid` gives with these entries, when the index's page holds `page`. */
  function NextFor(entries: map<Oid, seq<ColSummary>>, indexoid: Oid, page: Option<Bytes>): seq<ColSummary> {
    if indexoid in entries then entries[indexoid] else Deserialized(page)
  }

  class SummaryCache {
    var entries: map<Oid, seq<ColSummary>>

    constructor ()
      ensures forall o: Oid, page: Option<Bytes> :: NextFor(entries, o, page) == Deserialized(page)
    {
      entries := map[];
    }

    method Get(indexoid: Oid) returns (r: Option<seq<ColSummary>>)
      ensures forall page: Option<Bytes> ::
        NextFor(entries, indexoid, page) == if r.Some? then r.value else Deserialized(page)
    {
      r := if indexoid in entries then Some(entries[indexoid]) else None;
    }

    /** From now on this index's lookups give `summary` without reading the page; other indexes' are as before. */
    method Put(indexoid: Oid, summary: seq<ColSummary>)
      modifies this
      ensures forall page: Option<Bytes> :: NextFor(entries, indexoid, page) == summary
      ensures forall o: Oid, page: Option<Bytes> | o != indexoid ::
        NextFor(entries, o, page) == NextFor(old(entries), o, page)
    {
      entries := entries[indexoid := summary];
    }

    /** The next lookup reads the page: of the index invalidated, or of every index if the relid is invalid. */
    method RelcacheCallback(relid: Oid)
      modifies this
      ensures forall o: Oid, page: Option<Bytes> | relid in {o, INVALID_OID} ::
        NextFor(entries, o, page) == Deserialized(page)
      ensures forall o: Oid, page: Option<Bytes> | relid !in {o, INVALID_OID} ::
        NextFor(entries, o, page) == NextFor(old(entries), o, page)
    {
      if relid == INVALID_OID {
        entries := map[];
      } else {
        entries := entries - {relid};
      }
    }

    /** The part of `read_index_summary` after the index is found. */
    method Lookup(indexoid: Oid, page: Page) returns (cols: seq<ColSummary>)
      requires page.Valid()
      modifies this
      ensures cols == old(NextFor(entries, indexoid, page.Blob()))
      ensures forall later: Option<Bytes> :: NextFor(entries, indexoid, later) == cols
      ensures forall o: Oid, later: Option<Bytes> | o != indexoid ::
        NextFor(entries, o, later) == NextFor(old(entries), o, later)
    {
      hide PageBlob, Decode;
      var cached := Get(indexoid);
      if cached.Some? {
        assert forall later: Option<Bytes> :: NextFor(entries, indexoid, later) == cached.value;
        return cached.value;
      }
      var blob := page.ReadBlob();
      var summary := None;
      if blob.Some? {
        summary := Deserialize(blob.value);
      }
      cols := if summary.Some? then summary.value else [];
      Put(indexoid, cols);
    }
  }

  // ---- inserts, transactions and invalidations -----------------------------------------------

  /** What becomes of a widening's invalidation: only a commit broadcasts it, when the page is at version `at`. */
  datatype Fate = Open | Sent(at: nat) | Lost

  datatype Entry = Entry(cols: seq<ColSummary>, version: nat)

  /**
   * One index and its backends. `history[v]` is the page after `v` successful swaps. `returned`
   * records the version of the page when a row's insert first returned. `heard[b]` are the swaps
   * whose broadcast backend `b` has processed, and `since[b]` the version of the page when it last
   * processed an invalidation of any kind.
   */
  datatype System = System(
    inserts: State,
    history: seq<Option<Bytes>>,
    owner: seq<Pid>,
    fate: seq<Fate>,
    returned: map<Row, nat>,
    heard: map<Pid, set<nat>>,
    since: map<Pid, nat>,
    reading: map<Pid, nat>,
    cache: map<Pid, Entry>)

  datatype Event =
    | Inserting(step: Step)        // a step of backend p's insert
    | ReadPage(b: Pid)             // a lookup misses the cache and reads the page
    | PutSummary(b: Pid)           // and stores what it read
    | Commit(b: Pid)
    | Rollback(b: Pid)
    | Deliver(b: Pid, v: nat)      // backend b processes the broadcast of swap v
    | Own(b: Pid, v: nat)          // backend b processes the invalidation its own transaction queued for swap v
    | Flush(b: Pid)                // "flush everything"

  function Heard(s: System, b: Pid): set<nat> {
    if b in s.heard then s.heard[b] else {}
  }

  function Since(s: System, b: Pid): nat {
    if b in s.since then s.since[b] else 0
  }

  ghost predicate Possible(ix: Index, s: System, e: Event) {
    match e
    case Inserting(step) => !step.Rebuild? && Enabled(ix, s.inserts, step)
    case ReadPage(b) => b !in s.cache && b !in s.reading
    case PutSummary(b) => b in s.reading && s.reading[b] < |s.history|
    case Commit(b) => true
    case Rollback(b) => true
    // No invalidation is processed between a lookup's read and its put.
    case Deliver(b, v) => v < |s.fate| && s.fate[v].Sent? && b !in s.reading
    case Own(b, v) => v < |s.owner| && s.owner[v] == b && b !in s.reading
    case Flush(b) => b !in s.reading
  }

  function Settle(s: System, b: Pid, f: Fate): System
    requires |s.owner| == |s.fate|
  {
    s.(fate := seq(|s.fate|, v requires 0 <= v < |s.fate| =>
                     if s.owner[v] == b && s.fate[v] == Open then f else s.fate[v]))
  }

  /** Notes that `p`'s insert returned now, if it did. */
  function Noted(s: System, before: State, p: Pid): System
    requires p in before.active && |s.history| > 0
  {
    var row := before.active[p].row;
    if p in s.inserts.active || row !in s.inserts.rows || row in s.returned then s
    else s.(returned := s.returned[row := |s.history| - 1])
  }

  /** `p`'s swap made a new version of the page and queued its invalidation. */
  function Swapped(s: System, inserts: State, p: Pid): System {
    s.(inserts := inserts, history := s.history + [inserts.page], owner := s.owner + [p], fate := s.fate + [Open])
  }

  /** What processing any invalidation does to the cache. */
  function Invalidated(s: System, b: Pid): System
    requires |s.history| > 0
  {
    s.(since := s.since[b := |s.history| - 1], cache := s.cache - {b})
  }

  ghost function AfterInserting(ix: Index, s: System, step: Step): System
    requires TuplesMatch(ix, s.inserts) && Enabled(ix, s.inserts, step)
    requires !step.Rebuild? && |s.history| > 0
  {
    var next := s.(inserts := After(ix, s.inserts, step));
    match step
    case Read(p) => Noted(next, s.inserts, p)
    case Swap(p) =>
      if SwapSucceeds(s.inserts, p) then Noted(Swapped(s, next.inserts, p), s.inserts, p) else next
    case _ => next
  }

  ghost function Then(ix: Index, s: System, e: Event): System
    requires TuplesMatch(ix, s.inserts) && |s.history| > 0 && |s.owner| == |s.fate|
    requires Possible(ix, s, e)
  {
    match e
    case Inserting(step) => AfterInserting(ix, s, step)
    case ReadPage(b) => s.(reading := s.reading[b := |s.history| - 1])
    case PutSummary(b) =>
      s.(cache := s.cache[b := Entry(Deserialized(s.history[s.reading[b]]), s.reading[b])], reading := s.reading - {b})
    case Commit(b) => Settle(s, b, Sent(|s.history| - 1))
    case Rollback(b) => Settle(s, b, Lost)
    case Deliver(b, v) => Invalidated(s, b).(heard := s.heard[b := Heard(s, b) + {v}])
    case Own(b, v) => Invalidated(s, b)
    case Flush(b) => Invalidated(s, b)
  }

  /** After a lookup that missed: `ReadPage` and `PutSummary`, with nothing in between. */
  function LookedUp(s: System, b: Pid): System
    requires |s.history| > 0
  {
    s.(cache := s.cache[b := Entry(Deserialized(s.history[|s.history| - 1]), |s.history| - 1)])
  }

  /** The cached entry, or what reading the page now would give. */
  function NextLookup(s: System, b: Pid): seq<ColSummary>
    requires |s.history| > 0
  {
    if b in s.cache then s.cache[b].cols else Deserialized(s.history[|s.history| - 1])
  }

  /** A summary that no query is wrongly pruned by, as far as `row` goes. */
  ghost predicate AdmitsCols(ix: Index, cols: seq<ColSummary>, row: Row) {
    cols == [] || (DescribesAll(ix.types, ix.attrs, cols) && CoversRow(ix.types, ix.attrs, cols, row))
  }

  // ---- what holds in every reachable state ------------------------------------------------------

  ghost predicate Grows(ix: Index, history: seq<Option<Bytes>>) {
    forall u, v, row: Row :: 0 <= u <= v < |history| && Admits(ix, history[u], row) ==> Admits(ix, history[v], row)
  }

  /** What a lookup holds was read no earlier than its backend last processed an invalidation. */
  ghost predicate FreshSince(s: System, b: Pid, version: nat) {
    Since(s, b) <= version < |s.history|
  }

  ghost predicate SystemInv(ix: Index, s: System) {
    && TuplesMatch(ix, s.inserts) && Inv(ix, s.inserts)
    && |s.history| > 0 && |s.owner| == |s.fate| == |s.history|
    && s.history[|s.history| - 1] == s.inserts.page
    && Grows(ix, s.history) && (forall v :: 0 <= v < |s.history| ==> WellFormedPage(ix, s.history[v]))
    && ReturnedOk(ix, s)
    && CachesOk(s)
  }

  /** A processed broadcast was sent before the backend last processed anything. */
  ghost predicate HeardOf(s: System, b: Pid, v: nat) {
    v < |s.fate| && s.fate[v].Sent? && s.fate[v].at <= Since(s, b)
  }

  /** The backends' side of the invariant. */
  ghost predicate CachesOk(s: System) {
    && (forall b | b in s.since :: s.since[b] < |s.history|)
    && (forall v | 0 <= v < |s.fate| && s.fate[v].Sent? :: v <= s.fate[v].at < |s.history|)
    && (forall b | b in s.heard :: forall v | v in s.heard[b] :: HeardOf(s, b, v))
    && (forall b | b in s.reading :: FreshSince(s, b, s.reading[b]))
    && (forall b | b in s.cache :: FreshSince(s, b, s.cache[b].version)
                                   && s.cache[b].cols == Deserialized(s.history[s.cache[b].version]))
  }

  ghost predicate ReturnedOk(ix: Index, s: System) {
    forall row | row in s.returned :: s.returned[row] < |s.history| && Admits(ix, s.history[s.returned[row]], row)
  }

  lemma {:induction false} GrowsAppend(ix: Index, history: seq<Option<Bytes>>, page: Option<Bytes>)
    requires Grows(ix, history) && |history| > 0
    requires forall row: Row :: Admits(ix, history[|history| - 1], row) ==> Admits(ix, page, row)
    ensures Grows(ix, history + [page])
  {
    hide Admits;
    var longer := history + [page];
    forall u, v, row: Row | 0 <= u <= v < |longer| && Admits(ix, longer[u], row) ensures Admits(ix, longer[v], row) {
      if v == |history| && u < v {
        assert Admits(ix, history[|history| - 1], row);
      }
    }
  }

  lemma {:induction false} UnchangedPage(ix: Index, s: State, step: Step)
    requires TuplesMatch(ix, s) && Enabled(ix, s, step) && !step.Rebuild?
    requires step.Swap? ==> !SwapSucceeds(s, step.p)
    ensures After(ix, s, step).page == s.page
  {
    hide Widening.WidenRow, EncodeFitted;
  }

  lemma {:induction false} LongerHistory(s: System, r: System)
    requires CachesOk(s) && s.history <= r.history
    requires s.fate <= r.fate && forall v :: |s.fate| <= v < |r.fate| ==> r.fate[v] == Open
    requires r.heard == s.heard && r.since == s.since && r.reading == s.reading && r.cache == s.cache
    ensures CachesOk(r)
  {
    hide Deserialized;
  }

  lemma {:induction false} NotedReturned(ix: Index, s: System, before: State, p: Pid)
    requires p in before.active && |s.history| > 0 && ReturnedOk(ix, s)
    requires var row := before.active[p].row; row in s.inserts.rows ==> Admits(ix, s.history[|s.history| - 1], row)
    ensures ReturnedOk(ix, Noted(s, before, p))
  {
    hide Admits;
  }

  lemma {:induction false} NotedElse(s: System, before: State, p: Pid)
    requires p in before.active && |s.history| > 0
    ensures var r := Noted(s, before, p); r == s.(returned := r.returned)
  {
  }

  lemma {:induction false} NotedKeepsInv(ix: Index, s: System, before: State, p: Pid)
    requires p in before.active && SystemInv(ix, s)
    ensures SystemInv(ix, Noted(s, before, p))
  {
    hide Admits, TuplesMatch, Grows, Inv, WellFormedPage, Deserialized, CachesOk, ReturnedOk, Noted;
    NotedElse(s, before, p);
    LongerHistory(s, Noted(s, before, p));
    if before.active[p].row in s.inserts.rows {
      RowAdmitted(ix, s.inserts, before.active[p].row);
    }
    NotedReturned(ix, s, before, p);
  }

  lemma {:induction false} RowAdmitted(ix: Index, s: State, row: Row)
    requires Inv(ix, s) && row in s.rows
    ensures Admits(ix, s.page, row)
  {
  }

  /** An insert that leaves the page alone. */
  lemma {:induction false} SamePageKeepsInv(ix: Index, s: System, inserts: State)
    requires SystemInv(ix, s) && TuplesMatch(ix, inserts) && Inv(ix, inserts) && inserts.page == s.inserts.page
    ensures SystemInv(ix, s.(inserts := inserts))
  {
    hide Admits, TuplesMatch, Grows, Inv, Deserialized;
  }

  /** An insert that swaps the page for one that admits no less. */
  lemma {:induction false} NewPageKeepsInv(ix: Index, s: System, inserts: State, p: Pid)
    requires SystemInv(ix, s) && TuplesMatch(ix, inserts) && Inv(ix, inserts)
    requires forall row: Row :: Admits(ix, s.inserts.page, row) ==> Admits(ix, inserts.page, row)
    ensures SystemInv(ix, Swapped(s, inserts, p))
  {
    GrowsAppend(ix, s.history, inserts.page);
    hide Admits, TuplesMatch, Grows, Inv, Deserialized;
    var r := Swapped(s, inserts, p);
    assert forall v :: 0 <= v < |s.history| ==> r.history[v] == s.history[v];
    LongerHistory(s, r);
  }

  lemma {:induction false} InsertingKeepsInv(ix: Index, s: System, step: Step)
    requires LawfulIndex(ix) && SystemInv(ix, s) && Possible(ix, s, Inserting(step))
    ensures SystemInv(ix, AfterInserting(ix, s, step))
  {
    StepSafe(ix, s.inserts, step);
    var inserts := After(ix, s.inserts, step);
    if step.Swap? && SwapSucceeds(s.inserts, step.p) {
      NewPageKeepsInv(ix, s, inserts, step.p);
      NotedKeepsInv(ix, Swapped(s, inserts, step.p), s.inserts, step.p);
    } else {
      UnchangedPage(ix, s.inserts, step);
      SamePageKeepsInv(ix, s, inserts);
      if step.Read? {
        NotedKeepsInv(ix, s.(inserts := inserts), s.inserts, step.p);
      }
    }
    hide SystemInv, After, LawfulIndex, Inv, TuplesMatch;
  }

  lemma {:induction false} SettleKeepsCaches(s: System, b: Pid, f: Fate)
    requires CachesOk(s) && |s.history| > 0 && |s.owner| == |s.fate| == |s.history|
    requires f == Lost || f == Sent(|s.history| - 1)
    ensures CachesOk(Settle(s, b, f))
  {
    hide Deserialized;
    var r := Settle(s, b, f);
    assert forall v :: 0 <= v < |s.fate| && s.fate[v].Sent? ==> r.fate[v] == s.fate[v];
  }

  lemma {:induction false} InvalidatedKeepsCaches(s: System, b: Pid)
    requires CachesOk(s) && |s.history| > 0 && b !in s.reading
    ensures CachesOk(Invalidated(s, b)) && Since(s, b) <= Since(Invalidated(s, b), b)
  {
    hide Deserialized;
    var r := Invalidated(s, b);
    assert Since(s, b) <= |s.history| - 1;
    forall c, v | c in r.heard && v in r.heard[c] ensures HeardOf(r, c, v) {
      assert HeardOf(s, c, v);
    }
  }

  lemma {:induction false} ReadKeepsCaches(s: System, b: Pid)
    requires CachesOk(s) && |s.history| > 0
    ensures CachesOk(s.(reading := s.reading[b := |s.history| - 1]))
  {
    hide Deserialized;
    assert Since(s, b) <= |s.history| - 1;
  }

  lemma {:induction false} PutKeepsCaches(s: System, b: Pid)
    requires CachesOk(s) && b in s.reading && s.reading[b] < |s.history|
    ensures CachesOk(s.(cache := s.cache[b := Entry(Deserialized(s.history[s.reading[b]]), s.reading[b])],
                        reading := s.reading - {b}))
  {
    hide Deserialized;
    assert FreshSince(s, b, s.reading[b]);
  }

  lemma {:induction false} HearKeepsCaches(s: System, r: System, b: Pid, v: nat)
    requires CachesOk(s) && CachesOk(r) && |s.history| > 0 && v < |s.fate| && s.fate[v].Sent? && r == Invalidated(s, b)
    ensures CachesOk(r.(heard := s.heard[b := Heard(s, b) + {v}]))
  {
    hide Deserialized;
    assert s.fate[v].at <= |s.history| - 1 && HeardOf(r, b, v);
  }

  lemma {:induction false} BackendKeepsCaches(ix: Index, s: System, e: Event)
    requires TuplesMatch(ix, s.inserts) && |s.history| > 0 && |s.owner| == |s.fate| == |s.history|
    requires Possible(ix, s, e) && !e.Inserting? && CachesOk(s)
    ensures CachesOk(Then(ix, s, e))
  {
    hide TuplesMatch, Deserialized, AfterInserting, Enabled, CachesOk, Settle, Invalidated;
    match e
    case ReadPage(b) => ReadKeepsCaches(s, b);
    case PutSummary(b) => PutKeepsCaches(s, b);
    case Commit(b) => SettleKeepsCaches(s, b, Sent(|s.history| - 1));
    case Rollback(b) => SettleKeepsCaches(s, b, Lost);
    case Deliver(b, v) =>
      InvalidatedKeepsCaches(s, b);
      HearKeepsCaches(s, Invalidated(s, b), b, v);
    case Own(b, v) => InvalidatedKeepsCaches(s, b);
    case Flush(b) => InvalidatedKeepsCaches(s, b);
  }

  lemma {:induction false} BackendKeepsInv(ix: Index, s: System, e: Event)
    requires SystemInv(ix, s) && Possible(ix, s, e) && !e.Inserting?
    ensures SystemInv(ix, Then(ix, s, e))
  {
    hide Admits, Inv, TuplesMatch, Grows, Deserialized, AfterInserting, After, Enabled, WellFormedPage, ReturnedOk;
    BackendKeepsCaches(ix, s, e);
    hide CachesOk;
    KeepsReturned(ix, s, Then(ix, s, e));
  }

  lemma {:induction false} KeepsReturned(ix: Index, s: System, r: System)
    requires ReturnedOk(ix, s) && r.history == s.history && r.returned == s.returned
    ensures ReturnedOk(ix, r)
  {
    hide Admits;
  }

  lemma {:induction false} EventKeepsInv(ix: Index, s: System, e: Event)
    requires LawfulIndex(ix) && SystemInv(ix, s) && Possible(ix, s, e)
    ensures SystemInv(ix, Then(ix, s, e))
  {
    if e.Inserting? {
      InsertingKeepsInv(ix, s, e.step);
    } else {
      BackendKeepsInv(ix, s, e);
    }
    hide SystemInv, AfterInserting, LawfulIndex;
  }

  /** What every event does, in order; impossible events do nothing. */
  ghost function RunEvents(ix: Index, s: System, events: seq<Event>): (r: System)
    requires LawfulIndex(ix) && SystemInv(ix, s)
    ensures SystemInv(ix, r)
  {
    if events == [] then s else
    var before, e := RunEvents(ix, s, events[..|events| - 1]), events[|events| - 1];
    if Possible(ix, before, e) then
      EventKeepsInv(ix, before, e);
      Then(ix, before, e)
    else before
  }

  // ---- what the cache is good for ---------------------------------------------------------------

  /**
   * A cached summary is one the page really held, at a version no older than the last invalidation the
   * backend processed or than the page was when any broadcast it has processed was sent. It is the
   * page's own unless a later swap made another.
   */
  lemma {:induction false} CacheCoherent(ix: Index, s: System, b: Pid)
    requires SystemInv(ix, s) && b in s.cache
    ensures var v := s.cache[b].version;
      && Since(s, b) <= v < |s.history| && s.cache[b].cols == Deserialized(s.history[v])
      && (forall u | u in Heard(s, b) :: u < |s.fate| && s.fate[u].Sent? && u <= s.fate[u].at <= v)
      && (s.cache[b].cols != Deserialized(s.inserts.page) ==> v < |s.history| - 1)
  {
    hide Inv, TuplesMatch, Grows, ReturnedOk, Deserialized;
  }

  lemma {:induction false} AdmitsDeserialized(ix: Index, page: Option<Bytes>, row: Row)
    requires Admits(ix, page, row)
    ensures AdmitsCols(ix, Deserialized(page), row)
  {
  }

  /**
   * Once a backend has processed an invalidation, of whatever kind, its next lookup covers every row
   * whose insert had returned by then: rows that were widened for, and rows that found nothing left to
   * widen.
   */
  lemma {:induction false} LookupCovers(ix: Index, s: System, b: Pid, row: Row)
    requires SystemInv(ix, s) && row in s.returned
    requires s.returned[row] <= Since(s, b) || b !in s.cache || s.returned[row] <= s.cache[b].version
    ensures AdmitsCols(ix, NextLookup(s, b), row)
  {
    hide Inv, TuplesMatch, Admits, Deserialized, AdmitsCols, WellFormedPage;
    var u := if b in s.cache then s.cache[b].version else |s.history| - 1;
    assert s.returned[row] <= u;
    GrowsAt(ix, s.history, s.returned[row], u, row);
    AdmitsDeserialized(ix, s.history[u], row);
  }

  /** Of a broadcast: every row whose insert had returned when it was sent, however late it is processed. */
  lemma {:induction false} HeardCovers(ix: Index, s: System, b: Pid, v: nat, row: Row)
    requires SystemInv(ix, s) && row in s.returned && v in Heard(s, b)
    requires v < |s.fate| && s.fate[v].Sent? && s.returned[row] <= s.fate[v].at
    ensures AdmitsCols(ix, NextLookup(s, b), row)
  {
    hide Inv, TuplesMatch, Grows, ReturnedOk, Deserialized, WellFormedPage, NextLookup, AdmitsCols;
    LookupCovers(ix, s, b, row);
  }

  lemma {:induction false} GrowsAt(ix: Index, history: seq<Option<Bytes>>, u: nat, v: nat, row: Row)
    requires Grows(ix, history) && u <= v < |history| && Admits(ix, history[u], row)
    ensures Admits(ix, history[v], row)
  {
  }

  // ---- the map is the machine's cache ----------------------------------------------------------------

  /** The backend's map gives for the index what the machine's cache gives, whatever the page holds. */
  ghost predicate Represents(entries: map<Oid, seq<ColSummary>>, indexoid: Oid, s: System, b: Pid) {
    forall page: Option<Bytes> ::
      NextFor(entries, indexoid, page) == if b in s.cache then s.cache[b].cols else Deserialized(page)
  }

  /** A lookup is a hit, or `ReadPage` and then `PutSummary`. */
  method BackendLookup(cache: SummaryCache, indexoid: Oid, page: Page, ghost ix: Index, ghost s: System, ghost b: Pid)
    returns (cols: seq<ColSummary>, ghost r: System)
    requires page.Valid() && SystemInv(ix, s) && page.Blob() == s.inserts.page && b !in s.reading
    requires Represents(cache.entries, indexoid, s, b)
    modifies cache
    ensures cols == NextLookup(s, b) && Represents(cache.entries, indexoid, r, b)
    ensures r == if b in s.cache then s else Then(ix, Then(ix, s, ReadPage(b)), PutSummary(b))
  {
    hide Deserialized, Inv, TuplesMatch, Grows, ReturnedOk, CachesOk, MetaPage.PageBlob, After, AfterInserting;
    cols := cache.Lookup(indexoid, page);
    if b in s.cache {
      r := s;
    } else {
      r := Then(ix, Then(ix, s, ReadPage(b)), PutSummary(b));
      assert r.cache[b].cols == Deserialized(s.history[|s.history| - 1]);
    }
  }

  /**
   * An invalidation of the index is `Deliver` or `Own`, one of everything is `Flush`, one of another
   * index is nothing.
   */
  method BackendInvalidated(cache: SummaryCache, indexoid: Oid, relid: Oid, ghost ix: Index, ghost s: System,
                            ghost b: Pid, ghost e: Event)
    returns (ghost r: System)
    requires SystemInv(ix, s) && Represents(cache.entries, indexoid, s, b) && b !in s.reading
    requires relid == INVALID_OID ==> e == Flush(b)
    requires relid == indexoid != INVALID_OID ==> (e.Deliver? || e.Own?) && e.b == b && Possible(ix, s, e)
    modifies cache
    ensures Represents(cache.entries, indexoid, r, b)
    ensures r == if relid in {INVALID_OID, indexoid} then Then(ix, s, e) else s
  {
    hide Deserialized, Inv, TuplesMatch, Grows, ReturnedOk, CachesOk, After, AfterInserting;
    cache.RelcacheCallback(relid);
    r := if relid in {INVALID_OID, indexoid} then Then(ix, s, e) else s;
  }
}
