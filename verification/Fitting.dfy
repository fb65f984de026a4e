/** `encode_fitting`: makes columns unbounded, one at a time, while the summary is too long for the page. */
module Fitting {
  import opened Base
  import opened Format
  import opened MetaPage

  /** Which column the loop drops next: the last of those with the longest bounds. */
  ghost predicate IsLargest(cols: seq<ColSummary>, i: nat) {
    && i < |cols|
    && (forall j :: 0 <= j < |cols| ==> BoundLen(cols[j]) <= BoundLen(cols[i]))
    && (forall j :: i < j < |cols| ==> BoundLen(cols[j]) < BoundLen(cols[i]))
  }

  function Largest(cols: seq<ColSummary>): (i: nat)
    requires cols != []
    ensures IsLargest(cols, i)
  {
    if |cols| == 1 then 0 else
    var last := |cols| - 1;
    var i := Largest(cols[..last]);
    LargestStep(cols, i);
    if BoundLen(cols[last]) >= BoundLen(cols[i]) then last else i
  }

  lemma {:induction false} LargestStep(cols: seq<ColSummary>, i: nat)
    requires cols != [] && IsLargest(cols[..|cols| - 1], i)
    ensures var last := |cols| - 1;
      IsLargest(cols, if BoundLen(cols[last]) >= BoundLen(cols[i]) then last else i)
  {
    hide BoundLen;
    assert forall j :: 0 <= j < |cols| - 1 ==> cols[..|cols| - 1][j] == cols[j];
  }

  lemma {:induction false} LargestUnique(cols: seq<ColSummary>, i: nat, j: nat)
    requires IsLargest(cols, i) && IsLargest(cols, j)
    ensures i == j
  {
    assert BoundLen(cols[i]) == BoundLen(cols[j]);
  }

  function TotalLen(cols: seq<ColSummary>): nat {
    if cols == [] then 0 else BoundLen(cols[0]) + TotalLen(cols[1..])
  }

  lemma {:induction false} UpdateTotals(cols: seq<ColSummary>, i: nat, c: ColSummary)
    requires i < |cols|
    ensures TotalLen(cols[i := c]) == TotalLen(cols) - BoundLen(cols[i]) + BoundLen(c)
    ensures ColsSize(cols[i := c]) == ColsSize(cols) - ColSize(cols[i]) + ColSize(c)
  {
    if i == 0 {
      assert cols[0 := c][1..] == cols[1..];
    } else {
      assert cols[i := c][1..] == cols[1..][i - 1 := c];
      UpdateTotals(cols[1..], i - 1, c);
    }
  }

  predicate FitsIn(cols: seq<ColSummary>, limit: int) {
    |Encode(cols)| <= limit
  }

  /** The summary the loop leaves behind, were the page's limit `limit`. */
  function FittedIn(cols: seq<ColSummary>, limit: int): (r: seq<ColSummary>)
    ensures |r| == |cols|
    decreases TotalLen(cols)
  {
    if FitsIn(cols, limit) || cols == [] then cols else
    var i := Largest(cols);
    if BoundLen(cols[i]) == 0 then cols else
    UpdateTotals(cols, i, cols[i].MadeUnbounded());
    FittedIn(cols[i := cols[i].MadeUnbounded()], limit)
  }

  predicate Fits(cols: seq<ColSummary>) {
    FitsIn(cols, MAX_BLOB_LEN)
  }

  /** The summary `encode_fitting` leaves behind. */
  function Fitted(cols: seq<ColSummary>): (r: seq<ColSummary>)
    ensures |r| == |cols|
  {
    FittedIn(cols, MAX_BLOB_LEN)
  }

  // ---- masks: which columns are dropped ------------------------------------------------

  /** `mask[i]`: column `i` is made unbounded. */
  function Drop(cols: seq<ColSummary>, mask: seq<bool>): (r: seq<ColSummary>)
    requires |mask| == |cols|
    ensures |r| == |cols|
    ensures forall i :: 0 <= i < |r| ==> r[i] == if mask[i] then cols[i].MadeUnbounded() else cols[i]
  {
    seq(|cols|, i requires 0 <= i < |cols| => if mask[i] then cols[i].MadeUnbounded() else cols[i])
  }

  function Count(mask: seq<bool>): nat {
    if mask == [] then 0 else (if mask[0] then 1 else 0) + Count(mask[1..])
  }

  lemma {:induction false} CountUpdate(mask: seq<bool>, i: nat, b: bool)
    requires i < |mask|
    ensures Count(mask[i := b]) == Count(mask) - (if mask[i] then 1 else 0) + (if b then 1 else 0)
  {
    if i == 0 {
      assert mask[0 := b][1..] == mask[1..];
    } else {
      assert mask[i := b][1..] == mask[1..][i - 1 := b];
      CountUpdate(mask[1..], i - 1, b);
    }
  }

  lemma {:induction false} SomeCounted(mask: seq<bool>) returns (i: nat)
    requires exists k :: 0 <= k < |mask| && mask[k]
    ensures i < |mask| && mask[i] && Count(mask) > 0
  {
    if mask[0] {
      i := 0;
    } else {
      i := SomeCounted(mask[1..]);
      i := i + 1;
    }
  }

  lemma {:induction false} DropShrinks(cols: seq<ColSummary>, mask: seq<bool>)
    requires |mask| == |cols|
    ensures ColsSize(Drop(cols, mask)) <= ColsSize(cols)
  {
    if cols != [] {
      assert Drop(cols, mask)[1..] == Drop(cols[1..], mask[1..]);
      DropShrinks(cols[1..], mask[1..]);
    }
  }

  lemma {:induction false} FitsBySize(cols: seq<ColSummary>, limit: int)
    ensures FitsIn(cols, limit) <==> 3 + ColsSize(cols) <= limit
  {
    EncodedSize(cols);
  }

  // ---- what the loop drops -------------------------------------------------------------

  /** The columns `FittedIn` drops. */
  function DroppedIn(cols: seq<ColSummary>, limit: int): (mask: seq<bool>)
    ensures |mask| == |cols|
    decreases TotalLen(cols)
  {
    if FitsIn(cols, limit) || cols == [] then Nothing(|cols|) else
    var i := Largest(cols);
    if BoundLen(cols[i]) == 0 then Nothing(|cols|) else
    UpdateTotals(cols, i, cols[i].MadeUnbounded());
    DroppedIn(cols[i := cols[i].MadeUnbounded()], limit)[i := true]
  }

  /** The columns `encode_fitting` drops. */
  function Dropped(cols: seq<ColSummary>): (mask: seq<bool>)
    ensures |mask| == |cols|
  {
    DroppedIn(cols, MAX_BLOB_LEN)
  }

  function Nothing(n: nat): (mask: seq<bool>)
    ensures |mask| == n && forall i :: 0 <= i < n ==> !mask[i]
  {
    seq(n, _ => false)
  }

  /** A prefix of the greedy order: everything dropped is at least as long as everything kept. */
  ghost predicate LongestFirst(cols: seq<ColSummary>, mask: seq<bool>)
    requires |mask| == |cols|
  {
    forall i, j :: 0 <= i < |cols| && 0 <= j < |cols| && mask[i] && !mask[j]
      ==> 0 < BoundLen(cols[i]) && BoundLen(cols[j]) <= BoundLen(cols[i])
  }

  /** The loop only drops columns, and longer bounds before shorter ones. */
  lemma {:induction false} FittedIsDropped(cols: seq<ColSummary>, limit: int)
    ensures FittedIn(cols, limit) == Drop(cols, DroppedIn(cols, limit))
    ensures forall i :: 0 <= i < |cols| && DroppedIn(cols, limit)[i] ==> BoundLen(cols[i]) > 0
    ensures LongestFirst(cols, DroppedIn(cols, limit))
    decreases TotalLen(cols)
  {
    hide FitsIn;
    if !FitsIn(cols, limit) && cols != [] && BoundLen(cols[Largest(cols)]) > 0 {
      var i := Largest(cols);
      var next := cols[i := cols[i].MadeUnbounded()];
      UpdateTotals(cols, i, cols[i].MadeUnbounded());
      FittedIsDropped(next, limit);
      DropsLargest(cols, i, DroppedIn(next, limit));
    }
  }

  lemma {:induction false} DropsLargest(cols: seq<ColSummary>, i: nat, mask: seq<bool>)
    requires |mask| == |cols| && IsLargest(cols, i) && BoundLen(cols[i]) > 0
    requires var next := cols[i := cols[i].MadeUnbounded()];
      LongestFirst(next, mask) && forall k :: 0 <= k < |cols| && mask[k] ==> BoundLen(next[k]) > 0
    ensures !mask[i] && LongestFirst(cols, mask[i := true])
    ensures forall k :: 0 <= k < |cols| && mask[i := true][k] ==> BoundLen(cols[k]) > 0
    ensures Drop(cols, mask[i := true]) == Drop(cols[i := cols[i].MadeUnbounded()], mask)
  {
    assert BoundLen(cols[i].MadeUnbounded()) == 0;
  }

  // ---- when the loop succeeds ----------------------------------------------------------

  function HasBounds(cols: seq<ColSummary>): (mask: seq<bool>)
    ensures |mask| == |cols| && forall i :: 0 <= i < |cols| ==> mask[i] == (BoundLen(cols[i]) > 0)
  {
    seq(|cols|, i requires 0 <= i < |cols| => BoundLen(cols[i]) > 0)
  }

  /** The bytes returned fit exactly when giving up every nonempty bound would make them fit. */
  lemma {:induction false} FittedFitsIff(cols: seq<ColSummary>, limit: int)
    ensures FitsIn(FittedIn(cols, limit), limit) <==> FitsIn(Drop(cols, HasBounds(cols)), limit)
    decreases TotalLen(cols)
  {
    var all := Drop(cols, HasBounds(cols));
    if FitsIn(cols, limit) || cols == [] {
      DropShrinks(cols, HasBounds(cols));
      FitsBySize(cols, limit);
      FitsBySize(all, limit);
    } else {
      var i := Largest(cols);
      if BoundLen(cols[i]) == 0 {
        assert all == cols;
      } else {
        var next := cols[i := cols[i].MadeUnbounded()];
        UpdateTotals(cols, i, cols[i].MadeUnbounded());
        assert Drop(next, HasBounds(next)) == all;
        FittedFitsIff(next, limit);
      }
    }
  }

  // ---- how few columns it drops --------------------------------------------------------

  /** The loop comes to column `i` before column `j`. */
  predicate Sooner(cols: seq<ColSummary>, i: nat, j: nat)
    requires i < |cols| && j < |cols|
  {
    BoundLen(cols[i]) > BoundLen(cols[j]) || (BoundLen(cols[i]) == BoundLen(cols[j]) && i > j)
  }

  /**
   * Along the order of the loop, what a column frees never increases; only past the last column
   * with a nonempty bound does it not matter what the others free.
   */
  ghost predicate SavesFirst(cols: seq<ColSummary>) {
    forall i, j, l | 0 <= i < |cols| && 0 <= j < |cols| && 0 <= l < |cols| ::
      (0 < BoundLen(cols[i]) && Sooner(cols, i, j) && 0 < BoundLen(cols[l]) && Sooner(cols, i, l))
      ==> Saving(cols[j]) <= Saving(cols[i])
  }

  /** As when every column has either both bounds or neither. */
  lemma {:induction false} BothBoundsSaveFirst(cols: seq<ColSummary>)
    requires forall c | c in cols :: c.min.Some? == c.max.Some?
    ensures SavesFirst(cols)
  {
    forall i, j | 0 <= i < |cols| && 0 <= j < |cols| && 0 < BoundLen(cols[i]) && Sooner(cols, i, j)
      ensures Saving(cols[j]) <= Saving(cols[i])
    {
      assert cols[i] in cols && cols[j] in cols;
    }
  }

  /** Without columns whose only bounds are empty strings, all that counts is the columns the loop may drop. */
  lemma {:induction false} NonemptySaveFirst(cols: seq<ColSummary>)
    requires forall c | c in cols :: BoundLen(c) == 0 ==> Saving(c) == 0
    ensures SavesFirst(cols) <==>
      forall i, j | 0 <= i < |cols| && 0 <= j < |cols| ::
        0 < BoundLen(cols[j]) && Sooner(cols, i, j) ==> Saving(cols[j]) <= Saving(cols[i])
  {
    hide Saving, BoundLen;
    if forall i, j | 0 <= i < |cols| && 0 <= j < |cols| ::
        0 < BoundLen(cols[j]) && Sooner(cols, i, j) ==> Saving(cols[j]) <= Saving(cols[i]) {
      forall i, j, l | 0 <= i < |cols| && 0 <= j < |cols| && 0 <= l < |cols|
        && 0 < BoundLen(cols[i]) && Sooner(cols, i, j) && 0 < BoundLen(cols[l]) && Sooner(cols, i, l)
        ensures Saving(cols[j]) <= Saving(cols[i])
      {
        assert cols[j] in cols;
      }
    }
  }

  /** Dropping `i` instead of `j` still fits when `i`'s bounds free at least as much. */
  lemma {:induction false} SwapFits(cols: seq<ColSummary>, limit: int, mask: seq<bool>, i: nat, j: nat)
    requires |mask| == |cols| && i < |cols| && j < |cols| && !mask[i] && mask[j]
    requires Saving(cols[j]) <= Saving(cols[i])
    requires FitsIn(Drop(cols, mask), limit)
    ensures FitsIn(Drop(cols, mask[j := false][i := true]), limit)
  {
    var before, after := Drop(cols, mask), Drop(cols, mask[j := false][i := true]);
    assert after == before[j := cols[j]][i := cols[i].MadeUnbounded()];
    UpdateTotals(before, j, cols[j]);
    UpdateTotals(before[j := cols[j]], i, cols[i].MadeUnbounded());
    FitsBySize(before, limit);
    FitsBySize(after, limit);
  }

  lemma {:induction false} DropsSomething(cols: seq<ColSummary>, mask: seq<bool>)
    requires |mask| == |cols| && Drop(cols, mask) != cols
    ensures exists k :: 0 <= k < |mask| && mask[k]
  {
  }

  /** Any choice that fits can be made to drop the longest column, and still as few. */
  lemma {:induction false} ChooseLargest(cols: seq<ColSummary>, limit: int, other: seq<bool>, i: nat)
    returns (swapped: seq<bool>)
    requires !FitsIn(cols, limit) && i < |cols| && BoundLen(cols[i]) > 0
    requires forall j :: 0 <= j < |cols| ==> Saving(cols[j]) <= Saving(cols[i])
    requires |other| == |cols| && FitsIn(Drop(cols, other), limit)
    ensures |swapped| == |cols| && swapped[i] && FitsIn(Drop(cols, swapped), limit) && Count(swapped) == Count(other)
  {
    swapped := other;
    if !other[i] {
      DropsSomething(cols, other);
      var j := SomeCounted(other);
      SwapFits(cols, limit, other, i, j);
      swapped := other[j := false][i := true];
      CountUpdate(other, j, false);
      CountUpdate(other[j := false], i, true);
    }
  }

  /** The loop's choice is no larger than `other`, if both fit. */
  ghost predicate FewestAt(cols: seq<ColSummary>, limit: int, other: seq<bool>) {
    (|other| == |cols| && FitsIn(FittedIn(cols, limit), limit) && FitsIn(Drop(cols, other), limit))
    ==> Count(DroppedIn(cols, limit)) <= Count(other)
  }

  /** No choice of fewer columns fits the page. */
  lemma {:induction false} FewestDropped(cols: seq<ColSummary>, limit: int, other: seq<bool>)
    requires SavesFirst(cols) && FitsIn(FittedIn(cols, limit), limit)
    requires |other| == |cols| && FitsIn(Drop(cols, other), limit)
    ensures Count(DroppedIn(cols, limit)) <= Count(other)
    decreases TotalLen(cols)
  {
    hide FitsIn, Saving;
    if FitsIn(cols, limit) || cols == [] {
      NothingCounts(|cols|);
    } else {
      var i := Largest(cols);
      var next := cols[i := cols[i].MadeUnbounded()];
      UpdateTotals(cols, i, cols[i].MadeUnbounded());
      FittedIsDropped(next, limit);
      CountUpdate(DroppedIn(next, limit), i, true);
      if exists l :: 0 <= l < |cols| && l != i && BoundLen(cols[l]) > 0 {
        LargestSaves(cols, i);
        var swapped := ChooseLargest(cols, limit, other, i);
        DropFirst(cols, swapped, i);
        CountUpdate(swapped, i, false);
        SavesNext(cols, i);
        FewestDropped(next, limit, swapped[i := false]);
      } else {
        LastDrop(cols, next, limit, i);
        DropsSomething(cols, other);
        var _ := SomeCounted(other);
      }
    }
  }

  lemma {:induction false} DropFirst(cols: seq<ColSummary>, mask: seq<bool>, i: nat)
    requires i < |cols| == |mask| && mask[i]
    ensures Drop(cols[i := cols[i].MadeUnbounded()], mask[i := false]) == Drop(cols, mask)
  {
  }

  lemma {:induction false} LargestSaves(cols: seq<ColSummary>, i: nat)
    requires SavesFirst(cols) && IsLargest(cols, i) && BoundLen(cols[i]) > 0
    requires exists l :: 0 <= l < |cols| && l != i && BoundLen(cols[l]) > 0
    ensures forall j :: 0 <= j < |cols| ==> Saving(cols[j]) <= Saving(cols[i])
  {
    hide Saving;
    var l :| 0 <= l < |cols| && l != i && BoundLen(cols[l]) > 0;
    assert Sooner(cols, i, l);
    forall j | 0 <= j < |cols| ensures Saving(cols[j]) <= Saving(cols[i]) {
      assert j != i ==> Sooner(cols, i, j);
    }
  }

  /** With no other nonempty bound left, dropping `i` is the loop's last drop. */
  lemma {:induction false} LastDrop(cols: seq<ColSummary>, next: seq<ColSummary>, limit: int, i: nat)
    requires i < |cols| && next == cols[i := cols[i].MadeUnbounded()]
    requires forall l :: 0 <= l < |cols| && l != i ==> BoundLen(cols[l]) == 0
    ensures Count(DroppedIn(next, limit)) == 0
  {
    hide FitsIn;
    NothingCounts(|cols|);
    assert BoundLen(next[i]) == 0;
  }

  lemma {:induction false} SavesNext(cols: seq<ColSummary>, i: nat)
    requires i < |cols| && SavesFirst(cols)
    ensures SavesFirst(cols[i := cols[i].MadeUnbounded()])
  {
    var next := cols[i := cols[i].MadeUnbounded()];
    assert BoundLen(next[i]) == 0 && Saving(next[i]) == 0;
    hide Saving, BoundLen;
    forall h, j, l | 0 <= h < |next| && 0 <= j < |next| && 0 <= l < |next|
      && 0 < BoundLen(next[h]) && Sooner(next, h, j) && 0 < BoundLen(next[l]) && Sooner(next, h, l)
      ensures Saving(next[j]) <= Saving(next[h])
    {
      assert Sooner(cols, h, l);
      assert j != i ==> Sooner(cols, h, j);
    }
  }

  lemma {:induction false} NothingCounts(n: nat)
    ensures Count(Nothing(n)) == 0
  {
    if n > 0 {
      assert Nothing(n)[1..] == Nothing(n - 1);
      NothingCounts(n - 1);
    }
  }

  /** Just `j`. */
  function Only(n: nat, j: nat): (mask: seq<bool>)
    requires j < n
    ensures |mask| == n && Count(mask) == 1
  {
    NothingCounts(n);
    CountUpdate(Nothing(n), j, true);
    Nothing(n)[j := true]
  }

  lemma {:induction false} DropOnly(cols: seq<ColSummary>, j: nat)
    requires j < |cols|
    ensures Drop(cols, Only(|cols|, j)) == cols[j := cols[j].MadeUnbounded()]
  {
  }

  lemma {:induction false} UnboundedSize(cols: seq<ColSummary>, i: nat, limit: int)
    requires i < |cols|
    ensures FitsIn(cols[i := cols[i].MadeUnbounded()], limit) <==> 3 + ColsSize(cols) - Saving(cols[i]) <= limit
    ensures FitsIn(cols, limit) <==> 3 + ColsSize(cols) <= limit
  {
    UpdateTotals(cols, i, cols[i].MadeUnbounded());
    FitsBySize(cols[i := cols[i].MadeUnbounded()], limit);
    FitsBySize(cols, limit);
    hide FitsIn;
  }

  /** One round of the loop. */
  lemma {:induction false} RoundDrops(cols: seq<ColSummary>, limit: int)
    requires !FitsIn(cols, limit) && cols != [] && BoundLen(cols[Largest(cols)]) > 0
    ensures var i := Largest(cols);
      var next := cols[i := cols[i].MadeUnbounded()];
      && TotalLen(next) < TotalLen(cols)
      && FittedIn(cols, limit) == FittedIn(next, limit)
      && DroppedIn(cols, limit) == DroppedIn(next, limit)[i := true]
      && Count(DroppedIn(cols, limit)) == Count(DroppedIn(next, limit)) + 1
  {
    var i := Largest(cols);
    var next := cols[i := cols[i].MadeUnbounded()];
    UpdateTotals(cols, i, cols[i].MadeUnbounded());
    FittedIsDropped(next, limit);
    CountUpdate(DroppedIn(next, limit), i, true);
    hide FitsIn, LongestFirst;
  }

  /** When the loop comes to `i` before `j` and something else, and `j` frees more, it can drop one too many. */
  lemma {:induction false} NotFewest(cols: seq<ColSummary>, i: nat, j: nat, l: nat)
    returns (limit: int, other: seq<bool>)
    requires i < |cols| && j < |cols| && l < |cols|
    requires 0 < BoundLen(cols[i]) && Sooner(cols, i, j) && 0 < BoundLen(cols[l]) && Sooner(cols, i, l)
    requires Saving(cols[j]) > Saving(cols[i])
    ensures !FewestAt(cols, limit, other)
    decreases TotalLen(cols)
  {
    hide FitsIn, FittedIn, DroppedIn, Count, Encode;
    var first := Largest(cols);
    var next := cols[first := cols[first].MadeUnbounded()];
    UpdateTotals(cols, first, cols[first].MadeUnbounded());
    if first == i {
      limit, other := 2 + ColsSize(cols) - Saving(cols[i]), Only(|cols|, j);
      DropOnly(cols, j);
      UnboundedSize(cols, j, limit);
      UnboundedSize(cols, i, limit);
      RoundDrops(cols, limit);
      LastRound(next, l, limit);
    } else {
      SoonerRemains(cols, first, i, j, l);
      limit, other := NotFewest(next, i, j, l);
      StillNotFewest(cols, first, limit, other);
      other := other[first := true];
    }
  }

  lemma {:induction false} SoonerRemains(cols: seq<ColSummary>, first: nat, i: nat, j: nat, l: nat)
    requires i < |cols| && j < |cols| && l < |cols| && IsLargest(cols, first) && first != i
    requires Sooner(cols, i, j) && Sooner(cols, i, l)
    ensures first != j && first != l
    ensures var next := cols[first := cols[first].MadeUnbounded()]; Sooner(next, i, j) && Sooner(next, i, l)
  {
    hide BoundLen;
  }

  /** One byte over the limit, the next drop is the last. */
  lemma {:induction false} LastRound(cols: seq<ColSummary>, l: nat, limit: int)
    requires l < |cols| && BoundLen(cols[l]) > 0 && 3 + ColsSize(cols) == limit + 1
    ensures FitsIn(FittedIn(cols, limit), limit) && Count(DroppedIn(cols, limit)) == 1
  {
    hide Count, Encode;
    var i := Largest(cols);
    assert BoundLen(cols[i]) > 0;
    UnboundedSize(cols, i, limit);
    RoundDrops(cols, limit);
    NothingCounts(|cols|);
    assert Saving(cols[i]) >= 1;
    hide FitsIn;
  }

  lemma {:induction false} StillNotFewest(cols: seq<ColSummary>, first: nat, limit: int, other: seq<bool>)
    requires cols != [] && first == Largest(cols) && BoundLen(cols[first]) > 0
    requires var next := cols[first := cols[first].MadeUnbounded()]; !FewestAt(next, limit, other)
    ensures |other| == |cols| && !FewestAt(cols, limit, other[first := true])
  {
    var next := cols[first := cols[first].MadeUnbounded()];
    hide Count, FitsIn, FittedIn, DroppedIn;
    StillTooLong(cols, first, limit, other);
    RoundDrops(cols, limit);
    DropAgain(cols, first, other);
    CountUpdate(other, first, true);
    hide TotalLen, Largest, Drop;
  }

  lemma {:induction false} DropAgain(cols: seq<ColSummary>, i: nat, mask: seq<bool>)
    requires |mask| == |cols| && i < |cols|
    ensures Drop(cols, mask[i := true]) == Drop(cols[i := cols[i].MadeUnbounded()], mask)
  {
  }

  lemma {:induction false} StillTooLong(cols: seq<ColSummary>, i: nat, limit: int, other: seq<bool>)
    requires i < |cols| && !FewestAt(cols[i := cols[i].MadeUnbounded()], limit, other)
    ensures !FitsIn(cols, limit)
  {
    hide Count, FitsIn, FittedIn, DroppedIn;
    if FitsIn(cols[i := cols[i].MadeUnbounded()], limit) {
      FittingIsFewest(cols[i := cols[i].MadeUnbounded()], limit, other);
    }
    hide FewestAt;
    UnboundedSize(cols, i, limit);
  }

  lemma {:induction false} FittingIsFewest(cols: seq<ColSummary>, limit: int, other: seq<bool>)
    requires FitsIn(cols, limit)
    ensures FewestAt(cols, limit, other)
  {
    hide FitsIn;
    NothingCounts(|cols|);
  }

  /**
   * The loop drops as few columns as can be, at every limit at which it succeeds, if and only if
   * what a column frees never increases along its order.
   */
  lemma {:induction false} FewestIff(cols: seq<ColSummary>)
    ensures (forall limit: int, other: seq<bool> :: FewestAt(cols, limit, other)) <==> SavesFirst(cols)
  {
    hide FitsIn, FittedIn, DroppedIn, Count;
    if SavesFirst(cols) {
      forall limit: int, other: seq<bool> ensures FewestAt(cols, limit, other) {
        if |other| == |cols| && FitsIn(FittedIn(cols, limit), limit) && FitsIn(Drop(cols, other), limit) {
          FewestDropped(cols, limit, other);
        }
      }
    } else {
      var i, j, l :| 0 <= i < |cols| && 0 <= j < |cols| && 0 <= l < |cols| && 0 < BoundLen(cols[i])
        && Sooner(cols, i, j) && 0 < BoundLen(cols[l]) && Sooner(cols, i, l) && Saving(cols[j]) > Saving(cols[i]);
      var limit, other := NotFewest(cols, i, j, l);
    }
  }

  // ---- the code ------------------------------------------------------------------------

  /** The last of the columns with the longest nonempty bounds. */
  method MaxByBoundLen(cols: seq<ColSummary>) returns (best: Option<nat>)
    ensures best.None? ==> forall c | c in cols :: BoundLen(c) == 0
    ensures best.Some? ==> cols != [] && best.value == Largest(cols) && BoundLen(cols[best.value]) > 0
  {
    best := None;
    for i := 0 to |cols|
      invariant best.None? ==> forall j :: 0 <= j < i ==> BoundLen(cols[j]) == 0
      invariant best.Some? ==> IsLargest(cols[..i], best.value) && BoundLen(cols[best.value]) > 0
    {
      var len := BoundLen(cols[i]);
      if len > 0 && (best.None? || len >= BoundLen(cols[best.value])) {
        best := Some(i);
      }
    }
    assert cols[..|cols|] == cols;
    if best.Some? {
      LargestUnique(cols, best.value, Largest(cols));
    }
  }

  /** `encode_fitting`: leaves the summary as encoded. */
  method EncodeFitting(summary: IndexSummary) returns (bytes: Bytes)
    modifies summary
    ensures summary.cols == Fitted(old(summary.cols))
    ensures bytes == Encode(summary.cols)
  {
    while true
      invariant Fitted(summary.cols) == Fitted(old(summary.cols))
      decreases TotalLen(summary.cols)
    {
      bytes := Serialize(summary.cols);
      if |bytes| <= MAX_BLOB_LEN {
        return;
      }
      var largest := MaxByBoundLen(summary.cols);
      match largest {
        case Some(i) =>
          var c := summary.cols[i].MadeUnbounded();
          UpdateTotals(summary.cols, i, c);
          summary.cols := summary.cols[i := c];
        case None =>
          return;
      }
    }
  }
}
