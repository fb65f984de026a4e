/** `am_build`, and `widen_on_insert` as the loop it is, against a page other backends write to. */
module InsertLoop {
  import opened Base
  import opened Format
  import opened MetaPage
  import opened Fitting
  import opened Coverage
  import opened Widening
  import opened Build
  import opened Protocol
  import opened Sessions

  /** `am_build`: the page it writes is the one the machine's rebuild leaves, or it fails and nothing changes. */
  method AmBuild(page: Page, ix: Index, session: Settings, scan: seq<seq<Option<Datum>>>) returns (ok: bool)
    requires page.Valid() && LawfulIndex(ix) && forall tuple | tuple in scan :: |tuple| == |ix.attrs|
    modifies page, page.page
    ensures page.Valid()
    ensures forall s: State | s.page == old(page.Blob()) :: AfterRebuild(ix, s, scan,
                                                                         session) == s.(page := page.Blob())
    ensures ok == Fits(Fitted(Built(TypesIn(ix, session), ix.names, ix.attrs, scan)))
    ensures !ok ==> page.Blob() == old(page.Blob())
  {
    SeenLawful(ix, session);
    hide LawfulIndex, AlikeTypes, NamesLaw, LawfulTypes, Built, Fitted, Encode, PageBlob, Stored;
    var cols := BuildLeafSummary(TypesIn(ix, session), ix.names, ix.attrs, scan);
    var summary := new IndexSummary(cols);
    var bytes := EncodeFitting(summary);
    var result := page.WriteBlob(bytes);
    ok := result != TooLong;
  }

  datatype Outcome =
    | Kept      // returned without a write: nothing readable to widen, or nothing to change
    | Swapped   // returned after a successful swap, having sent invalidations
    | Failed    // raised the size error

  /** The blob after other backends' writes in some of the gaps; `None` is a gap without one. */
  function Latest(start: Option<Bytes>, gaps: seq<Option<Bytes>>): Option<Bytes> {
    if gaps == [] then start
    else if gaps[|gaps| - 1].Some? then Stored(gaps[|gaps| - 1].value)
    else Latest(start, gaps[..|gaps| - 1])
  }

  lemma {:induction false} LatestStep(start: Option<Bytes>, gaps: seq<Option<Bytes>>, k: nat)
    requires k < |gaps|
    ensures Latest(start, gaps[..k + 1]) == if gaps[k].Some? then Stored(gaps[k].value) else Latest(start, gaps[..k])
  {
    assert gaps[..k + 1][..k] == gaps[..k];
  }

  /** How many of the gaps see a write. */
  function Writes(gaps: seq<Option<Bytes>>): nat {
    if gaps == [] then 0 else Writes(gaps[..|gaps| - 1]) + if gaps[|gaps| - 1].Some? then 1 else 0
  }

  lemma {:induction false} WritesStep(gaps: seq<Option<Bytes>>, k: nat)
    requires k < |gaps|
    ensures Writes(gaps[..k + 1]) == Writes(gaps[..k]) + if gaps[k].Some? then 1 else 0
  {
    assert gaps[..k + 1][..k] == gaps[..k];
  }

  lemma {:induction false} WritesGrow(gaps: seq<Option<Bytes>>, k: nat)
    requires k <= |gaps|
    ensures Writes(gaps[..k]) <= Writes(gaps)
    decreases |gaps| - k
  {
    if k < |gaps| {
      WritesStep(gaps, k);
      WritesGrow(gaps, k + 1);
    } else {
      assert gaps[..k] == gaps;
    }
  }

  lemma {:induction false} NoGaps(start: Option<Bytes>, gaps: seq<Option<Bytes>>)
    ensures Latest(start, gaps[..0]) == start && Writes(gaps[..0]) == 0
  {
  }

  /** The blob `cols` is replaced by when `values` are inserted. */
  function Target(ix: Index, session: Settings, cols: seq<ColSummary>, values: seq<Option<Datum>>): Bytes
    requires |ix.attrs| == |values|
  {
    EncodeFitted(WidenRow(TypesIn(ix, session), ix.attrs, cols, values).cols)
  }

  /**
   * What the loop leaves, when its last read saw `read` and the page held `now` when it was last
   * compared.
   */
  ghost predicate Done(ix: Index, session: Settings, values: seq<Option<Datum>>, outcome: Outcome,
                       read: Option<Bytes>, now: Option<Bytes>, blob: Option<Bytes>)
    requires |ix.attrs| == |values|
  {
    var cols := PageCols(read);
    var changes := cols.Some? && WidenRow(TypesIn(ix, session), ix.attrs, cols.value, values).changed;
    match outcome
    case Kept => !changes && read == now && blob == now
    case Swapped => changes && read == now && |Target(ix, session, cols.value, values)| <= MAX_BLOB_LEN
                    && blob == Stored(Target(ix, session, cols.value, values))
    case Failed => changes && |Target(ix, session, cols.value, values)| > MAX_BLOB_LEN && blob == now
  }

  /** What other backends do to the page in one gap. */
  method OthersWrite(page: Page, gap: Option<Bytes>)
    requires page.Valid() && (gap.Some? ==> 0 < |gap.value| <= MAX_BLOB_LEN)
    modifies page, page.page
    ensures page.Valid() && (page.page == old(page.page) || fresh(page.page))
    ensures page.Blob() == if gap.Some? then Stored(gap.value) else old(page.Blob())
  {
    hide PageBlob;
    if gap.Some? {
      var _ := page.WriteBlob(gap.value);
    }
  }

  /**
   * Other backends write `gaps[k]` between the loop's k-th read and its k-th swap. A swap fails
   * only because of such a write, and a swap that succeeds replaces the latest blob.
   */
  method WidenOnInsert(page: Page, ix: Index, session: Settings, values: seq<Option<Datum>>, gaps: seq<Option<Bytes>>)
    returns (outcome: Outcome, attempts: nat, ghost seen: nat, ghost passed: nat)
    requires page.Valid() && |ix.attrs| == |values|
    requires forall gap | gap in gaps && gap.Some? :: 0 < |gap.value| <= MAX_BLOB_LEN
    modifies page, page.page
    ensures page.Valid()
    ensures attempts <= Writes(gaps) + 1 && seen <= passed <= |gaps|
    ensures Done(ix, session, values, outcome, Latest(old(page.Blob()), gaps[..seen]),
                 Latest(old(page.Blob()), gaps[..passed]),
                 page.Blob())
  {
    hide WidenRow, Fitted, Encode, Decode, PageBlob, Stored, Latest, Writes;
    assert Latest(page.Blob(), gaps[..0]) == page.Blob() && Writes(gaps[..0]) == 0 by { NoGaps(page.Blob(), gaps); }
    attempts, seen, passed := 0, 0, 0;
    while true
      invariant page.Valid() && (page.page == old(page.page) || fresh(page.page))
      invariant passed == attempts <= |gaps| && attempts <= Writes(gaps[..attempts])
      invariant page.Blob() == Latest(old(page.Blob()), gaps[..passed])
      decreases |gaps| - attempts
    {
      seen := passed;
      WritesGrow(gaps, attempts);
      var before := page.ReadBlob();
      if before.None? {
        return Kept, attempts, seen, passed;
      }
      var cols := Deserialize(before.value);
      if cols.None? {
        return Kept, attempts, seen, passed;
      }
      var summary := new IndexSummary(cols.value);
      var changed := WidenSummary(summary, TypesIn(ix, session), ix.attrs, values);
      if !changed {
        return Kept, attempts, seen, passed;
      }
      var after := EncodeFitting(summary);
      if attempts < |gaps| {
        LatestStep(old(page.Blob()), gaps, attempts);
        WritesStep(gaps, attempts);
        passed := attempts + 1;
        assert gaps[attempts] in gaps;
        OthersWrite(page, gaps[attempts]);
      }
      attempts := attempts + 1;
      var swapped := page.ReplaceBlobIf(before.value, after);
      match swapped {
        case TooLong => return Failed, attempts, seen, passed;
        case Written => return Swapped, attempts, seen, passed;
        case Unchanged => // another write came in between: read again
      }
    }
  }

  /** Whichever way it returned, the row is admitted and so is every row admitted before. */
  lemma {:induction false} DoneAdmits(ix: Index, session: Settings, values: seq<Option<Datum>>, outcome: Outcome,
                                      read: Option<Bytes>, now: Option<Bytes>, blob: Option<Bytes>, row: Row)
    requires LawfulIndex(ix) && WellFormedPage(ix, now) && TupleOf(ix.attrs, row, values)
    requires Done(ix, session, values, outcome, read, now, blob)
    ensures outcome != Failed ==> Admits(ix, blob, row)
    ensures forall r: Row :: Admits(ix, now, r) ==> Admits(ix, blob, r)
  {
    match outcome
    case Kept =>
      NoChangeAdmits(ix, now, Insert(row, values, session, None));
    case Swapped =>
      var held := Held(now.value, Target(ix, session, PageCols(now).value, values));
      SwapWidens(ix, Insert(row, values, session, Some(held)));
    case Failed =>
  }

  /** The state machine after backend `p` reads `read`, the page becomes `now`, and `p` swaps if it holds bytes. */
  function ReadThenSwap(ix: Index, s: State, p: Pid, now: Option<Bytes>): State
    requires p in s.active && |s.active[p].values| == |ix.attrs|
  {
    var r := AfterRead(ix, s, p).(page := now);
    if p in r.active && r.active[p].held.Some? then AfterSwap(r, p) else r
  }

  /** The loop's last round is a read and a swap of the state machine. */
  lemma {:induction false} LoopIsMachine(ix: Index, s: State, p: Pid, outcome: Outcome, now: Option<Bytes>,
                                         blob: Option<Bytes>)
    requires p in s.active && s.active[p].held.None? && |s.active[p].values| == |ix.attrs|
    requires Done(ix, s.active[p].session, s.active[p].values, outcome, s.page, now, blob)
    ensures var r := ReadThenSwap(ix, s, p, now);
      && r.page == blob && p !in r.active
      && r.rows == (if outcome == Failed then s.rows else s.rows + {s.active[p].row})
      && r.attempts == s.attempts + (if outcome == Kept then 0 else 1)
  {
    hide WidenRow, EncodeFitted, Decode;
  }
}
