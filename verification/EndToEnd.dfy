/** The claim the extension makes: a pruned relation had no row to give. */
module EndToEnd {
  import opened Base
  import opened Extents
  import opened Format
  import opened MetaPage
  import opened Coverage
  import opened Prune
  import opened Protocol
  import opened Cache
  import opened Sessions
  import opened StableIo

  /** After CREATE INDEX, in some session, over a table with `rows`, scanned as `scan`. */
  ghost predicate JustBuilt(ix: Index, s: State, scan: seq<seq<Option<Datum>>>, session: Settings) {
    && Scans(ix, s.rows, scan)
    && s.active == map[]
    && |RebuiltBytes(ix, session, scan)| <= MAX_BLOB_LEN
    && s.page == Stored(RebuiltBytes(ix, session, scan))
  }

  lemma {:induction false} BuiltInv(ix: Index, s: State, scan: seq<seq<Option<Datum>>>, session: Settings)
    requires LawfulIndex(ix) && JustBuilt(ix, s, scan, session)
    ensures TuplesMatch(ix, s) && Inv(ix, s)
  {
    hide LawfulIndex, RebuiltBytes, Admits, WellFormedPage;
    RebuildAdmits(ix, s.rows, scan, session);
  }

  lemma {:induction false} PageAdmits(ix: Index, s: State, row: Row)
    requires Inv(ix, s) && row in s.rows
    ensures AdmitsCols(ix, Deserialized(s.page), row)
  {
    hide CoversRow, Describes, Decode;
    assert Admits(ix, s.page, row);
  }

  /**
   * From a built index, after any interleaving of inserts in any sessions, failures and rebuilds: if
   * the summary on the page prunes the relation, then every row that was built or whose insert has
   * returned fails one of the query's clauses.
   */
  lemma {:induction false} PageNeverMisprunes(ix: Index, start: State, scan: seq<seq<Option<Datum>>>, session: Settings,
                                              steps: seq<Step>, cat: Catalog, w: World, regions: Datum -> seq<Extent>,
                                              clauses: seq<Node>, row: Row)
    requires LawfulIndex(ix) && JustBuilt(ix, start, scan, session) && TuplesMatch(ix, start)
    requires forall clause | clause in clauses :: Tame(cat, w, regions, ix.types, ix.attrs, clause)
    requires var s := Exec(ix, start, steps);
      row in s.rows && EvaluateRelation(cat, clauses, Deserialized(s.page))
    ensures exists clause | clause in clauses :: Eval(w, cat, clause, row) != True
  {
    hide Eval, EvaluateRelation, Tame, Exec, LawfulIndex, JustBuilt, TuplesMatch, Inv, Deserialized, CoversRow;
    hide DescribesAll;
    BuiltInv(ix, start, scan, session);
    RunSafe(ix, start, steps);
    var s := Exec(ix, start, steps);
    PageAdmits(ix, s, row);
    RelationSound(cat, w, regions, ix.types, ix.attrs, Deserialized(s.page), clauses, row);
  }

  /**
   * And the sessions that plan with the page agree on it, whatever their settings: its bounds are
   * texts that were stored, whichever session stored them.
   */
  lemma {:induction false} ReadersAgreeOnPage(ix: Index, start: State, scan: seq<seq<Option<Datum>>>, session: Settings,
                                              steps: seq<Step>, cat: Catalog, io: Oid -> TextIo, node: Node, depth: nat,
                                              one: Settings, other: Settings)
    requires LawfulIndex(ix) && JustBuilt(ix, start, scan, session) && TuplesMatch(ix, start)
    requires Portable(cat, io, ix.types, ix.attrs, node)
    ensures var cols := Deserialized(Exec(ix, start, steps).page);
      ClauseProvesPrune(InSession(cat, io, one), node, cols, depth)
      == ClauseProvesPrune(InSession(cat, io, other), node, cols, depth)
  {
    hide Portable, ClauseProvesPrune, Exec, LawfulIndex, JustBuilt, TuplesMatch, Inv, Decode, DescribesAll;
    BuiltInv(ix, start, scan, session);
    RunSafe(ix, start, steps);
    var s := Exec(ix, start, steps);
    assert WellFormedPage(ix, s.page) by { PageWellFormed(ix, s); }
    if PageCols(s.page).Some? {
      ReaderIndependent(cat, io, ix.types, ix.attrs, Deserialized(s.page), node, depth, one, other);
    } else {
      NothingPruned(InSession(cat, io, one), node, depth);
      NothingPruned(InSession(cat, io, other), node, depth);
    }
  }

  lemma {:induction false} PageWellFormed(ix: Index, s: State)
    requires Inv(ix, s)
    ensures WellFormedPage(ix, s.page)
  {
  }

  /** A system right after the build, before any backend has looked. */
  ghost predicate JustStarted(ix: Index, s: System, scan: seq<seq<Option<Datum>>>, session: Settings) {
    && JustBuilt(ix, s.inserts, scan, session)
    && s.history == [s.inserts.page] && |s.owner| == 1 && s.fate == [Lost]
    && (forall row | row in s.returned :: row in s.inserts.rows && s.returned[row] == 0)
    && s.heard == map[] && s.since == map[] && s.reading == map[] && s.cache == map[]
  }

  lemma {:induction false} StartInv(ix: Index, s: System, scan: seq<seq<Option<Datum>>>, session: Settings)
    requires LawfulIndex(ix) && JustStarted(ix, s, scan, session)
    ensures SystemInv(ix, s)
  {
    hide Admits, LawfulIndex, JustBuilt, TuplesMatch, WellFormedPage, HeldOk;
    BuiltInv(ix, s.inserts, scan, session);
  }

  /**
   * The same of a prune decided from a backend's cache, for the rows whose insert had returned when
   * the backend last processed an invalidation, or when it read what it holds.
   */
  lemma {:induction false} CacheNeverMisprunes(ix: Index, start: System, scan: seq<seq<Option<Datum>>>,
                                               session: Settings,
                                               events: seq<Event>, b: Pid, cat: Catalog, w: World,
                                               regions: Datum -> seq<Extent>, clauses: seq<Node>, row: Row)
    requires LawfulIndex(ix) && JustStarted(ix, start, scan, session) && SystemInv(ix, start)
    requires forall clause | clause in clauses :: Tame(cat, w, regions, ix.types, ix.attrs, clause)
    requires var s := RunEvents(ix, start, events);
      && row in s.returned
      && (s.returned[row] <= Since(s, b) || b !in s.cache || s.returned[row] <= s.cache[b].version)
      && EvaluateRelation(cat, clauses, NextLookup(s, b))
    ensures exists clause | clause in clauses :: Eval(w, cat, clause, row) != True
  {
    var s := RunEvents(ix, start, events);
    hide Eval, EvaluateRelation, Tame, RunEvents, LawfulIndex, JustStarted, NextLookup, CoversRow, DescribesAll;
    LookupCovers(ix, s, b, row);
    RelationSound(cat, w, regions, ix.types, ix.attrs, NextLookup(s, b), clauses, row);
  }
}
