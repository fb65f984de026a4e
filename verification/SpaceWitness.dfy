/** Inputs that show what giving bounds up for space does, on columns of long strings. */
module SpaceWitness {
  import opened Base
  import opened Format
  import opened MetaPage
  import opened Fitting
  import opened Coverage
  import opened Widening
  import opened Build
  import opened Protocol
  import opened Serial
  import opened Upkeep
  import opened Sessions
  import opened World

  /** A string column with bounds of `lo` and `hi` letters. */
  function Str(attnum: I16, lo: nat, hi: nat): ColSummary {
    ColSummary(attnum, false, NameOf(STRING_TYPE), 0, Some(Letters(lo)), Some(Letters(hi)), false, false, false)
  }

  /** A column of string ranges within the strings of up to `n` letters. */
  function BelowCol(attnum: I16, n: nat): ColSummary {
    ColSummary(attnum, true, NameOf(BELOW_TYPE), 0, Some(Below(n)), None, false, false, false)
  }

  lemma {:induction false} Sizes(attnum: I16, lo: nat, hi: nat)
    ensures var c := Str(attnum, lo, hi);
      && BoundLen(c) == lo + hi && Saving(c) == 4 + lo + hi && ColSize(c) == 31 + lo + hi
      && ColSize(c.MadeUnbounded()) == 27 && BoundLen(c.MadeUnbounded()) == 0
    ensures var b := BelowCol(attnum, hi);
      && BoundLen(b) == hi + 3 && Saving(b) == hi + 5 && ColSize(b) == 33 + hi
      && ColSize(b.MadeUnbounded()) == 28
  {
    NameSizes();
    hide NameOf, Letters, Below;
  }

  lemma {:induction false} NameSizes()
    ensures |NameOf(STRING_TYPE)| == 15 && |NameOf(BELOW_TYPE)| == 16
  {
    hide ValidUtf8;
  }

  lemma {:induction false} PairFits(a: ColSummary, b: ColSummary)
    ensures Fits([a, b]) <==> 3 + ColSize(a) + ColSize(b) <= MAX_BLOB_LEN
  {
    FitsBySize([a, b], MAX_BLOB_LEN);
    assert [a, b][1..] == [b] && [b][1..] == [];
    assert ColsSize([b]) == ColSize(b);
    hide Encode;
  }

  /** One round of the loop on two columns. */
  lemma {:induction false} PairDrops(a: ColSummary, b: ColSummary, i: nat)
    requires !Fits([a, b]) && i < 2 && IsLargest([a, b], i) && BoundLen([a, b][i]) > 0
    ensures var next := [a, b][i := [a, b][i].MadeUnbounded()];
      Fitted([a, b]) == Fitted(next) && Dropped([a, b]) == Dropped(next)[i := true]
  {
    LargestUnique([a, b], i, Largest([a, b]));
    hide Encode;
    RoundDrops([a, b], MAX_BLOB_LEN);
  }

  lemma {:induction false} FitsNow(cols: seq<ColSummary>)
    requires Fits(cols)
    ensures Fitted(cols) == cols && Dropped(cols) == Nothing(|cols|)
  {
    hide Encode;
  }

  // ---- what scans of strings build ---------------------------------------------------------------

  /** All values are strings, of `lo` to `hi` letters. */
  ghost predicate Spans(vs: seq<Option<Datum>>, lo: nat, hi: nat) {
    var ds := NonNull(vs);
    && ds != [] && |ds| == |vs| && STRING.cmp.Some?
    && Least(STRING, 0, ds) == lo && Greatest(STRING, 0, ds) == hi
  }

  lemma {:induction false} SpansOne(d: nat)
    ensures Spans([Some(d)], d, d)
  {
    assert [Some(d)][..0] == [];
    assert NonNull([Some(d)][..0]) == [];
    assert NonNull([Some(d)]) == [d];
    hide Letters;
  }

  lemma {:induction false} SpansMore(vs: seq<Option<Datum>>, lo: nat, hi: nat, d: nat)
    requires Spans(vs, lo, hi) && lo <= hi
    ensures Spans(vs + [Some(d)], if d < lo then d else lo, if hi < d then d else hi)
  {
    var ds := NonNull(vs);
    assert (vs + [Some(d)])[..|vs|] == vs;
    assert NonNull(vs + [Some(d)]) == ds + [d];
    assert (ds + [d])[..|ds|] == ds;
    hide Letters, NonNull;
  }

  lemma {:induction false} SpansBuilt(a: IndexAttr, vs: seq<Option<Datum>>, lo: nat, hi: nat)
    requires Spans(vs, lo, hi) && a.collation == 0
    ensures BuiltCol(STRING, a, NameOf(STRING_TYPE), vs) == Str(a.attnum, lo, hi)
  {
    KindsOf(STRING_TYPE);
    hide Letters, NonNull, Least, Greatest, NameOf, TypeOps.Kind;
  }

  lemma {:induction false} BelowBuilt(a: IndexAttr, n: nat)
    requires a.collation == 0
    ensures BuiltCol(STRINGS_BELOW, a, NameOf(BELOW_TYPE), [Some(n), Some(n)]) == BelowCol(a.attnum, n)
  {
    KindsOf(BELOW_TYPE);
    TwoRanges(n);
    hide Below, NonNull, Merged, NameOf, TypeOps.Kind;
  }

  lemma {:induction false} TwoRanges(n: nat)
    ensures var vs: seq<Option<Datum>> := [Some(n), Some(n)];
      NonNull(vs) == [n, n] && Merged(STRINGS_BELOW, NonNull(vs)) == n
  {
    var one: seq<Option<Datum>> := [Some(n)];
    assert one[..0] == [];
    assert NonNull(one[..0]) == [];
    assert NonNull(one) == [n];
    assert [Some(n), Some(n)][..1] == one;
    assert [n, n][..1] == [n];
    hide Below;
  }

  // ---- why the fewest columns need a condition --------------------------------------------------

  /** A string column and a column of string ranges. */
  const MIXED: seq<IndexAttr> := [IndexAttr(1, STRING_TYPE, 0), IndexAttr(2, BELOW_TYPE, 0)]

  /** Two rows: the empty string and one of 8067 letters, both with the range of strings up to 8065 letters. */
  const MIXED_ROWS: seq<seq<Option<Datum>>> := [[Some(0), Some(8065)], [Some(8067), Some(8065)]]

  lemma {:induction false} MixedBuilt()
    ensures Built(TypeOf, NameOf, MIXED, MIXED_ROWS) == [Str(1, 0, 8067), BelowCol(2, 8065)]
  {
    hide BuiltCol, Built, Str, BelowCol, NameOf, Spans;
    PairBuilt(TypeOf, NameOf, MIXED[0], MIXED[1], MIXED_ROWS);
    assert ColumnAt(MIXED_ROWS, 0) == [Some(0)] + [Some(8067)];
    assert ColumnAt(MIXED_ROWS, 1) == [Some(8065), Some(8065)];
    SpansOne(0);
    SpansMore([Some(0)], 0, 0, 8067);
    SpansBuilt(MIXED[0], [Some(0)] + [Some(8067)], 0, 8067);
    BelowBuilt(MIXED[1], 8065);
  }

  /** The range's text is a byte longer than the two bounds, and frees a byte less: the loop drops both columns. */
  lemma {:induction false} GreedyNotFewest()
    ensures var cols := Built(TypeOf, NameOf, MIXED, MIXED_ROWS);
      && |cols| == 2 && !SavesFirst(cols)
      && Fits(Fitted(cols)) && Count(Dropped(cols)) == 2
      && Fits(Drop(cols, [true, false])) && Count([true, false]) == 1
  {
    hide Built, Str, BelowCol, FittedIn, DroppedIn, FitsIn, Count, Encode;
    MixedBuilt();
    Sizes(1, 0, 8067);
    Sizes(2, 0, 8065);
    BothDropped(Str(1, 0, 8067), BelowCol(2, 8065));
    LaterSavesMore(Str(1, 0, 8067), BelowCol(2, 8065));
    CountPair(true, true);
    CountPair(true, false);
  }

  lemma {:induction false} BothDropped(a: ColSummary, b: ColSummary)
    requires BoundLen(a) == 8067 && BoundLen(b) == 8068
    requires ColSize(a) == 8098 && ColSize(b) == 8098
    requires ColSize(a.MadeUnbounded()) == 27 && ColSize(b.MadeUnbounded()) == 28
    ensures Fitted([a, b]) == [a.MadeUnbounded(), b.MadeUnbounded()] && Dropped([a, b]) == [true, true]
    ensures Fits([a.MadeUnbounded(), b.MadeUnbounded()])
    ensures Drop([a, b], [true, false]) == [a.MadeUnbounded(), b] && Fits([a.MadeUnbounded(), b])
  {
    hide FittedIn, DroppedIn, FitsIn, ColSize;
    var c, d := a.MadeUnbounded(), b.MadeUnbounded();
    PairFits(a, b);
    PairFits(a, d);
    PairFits(c, b);
    PairFits(c, d);
    assert BoundLen(d) == 0;
    PairDrops(a, b, 1);
    assert [a, b][1 := d] == [a, d];
    PairDrops(a, d, 0);
    assert [a, d][0 := c] == [c, d];
    FitsNow([c, d]);
  }

  lemma {:induction false} LaterSavesMore(a: ColSummary, b: ColSummary)
    requires 0 < BoundLen(a) < BoundLen(b) && Saving(b) < Saving(a)
    ensures !SavesFirst([a, b])
  {
    var cols := [a, b];
    assert Sooner(cols, 1, 0);
    hide Saving, BoundLen;
  }

  lemma {:induction false} CountPair(a: bool, b: bool)
    ensures Count([a, b]) == (if a then 1 else 0) + if b then 1 else 0
  {
    assert [a, b][1..] == [b];
    assert [b][1..] == [];
    assert Count([a, b][1..]) == Count([b]) == if b then 1 else 0;
  }

  // ---- why a rebuild can admit more --------------------------------------------------------------

  /** Two string columns. */
  const STRINGS := Index(TypeOf, NameOf, [IndexAttr(1, STRING_TYPE, 0), IndexAttr(2, STRING_TYPE, 0)], SeenBy)
  const SETTINGS := Settings(Iso, Mdy, PostgresInterval, 1, 0)

  /** A table of one row, and two inserts: each stretches one of the two columns. */
  const FIRST: seq<seq<Option<Datum>>> := [[Some(2000), Some(2000)]]
  const ARRIVALS: seq<Arrival> := [
    Arrival(map[1 := 2200, 2 := 2000], [Some(2200), Some(2000)], SETTINGS),
    Arrival(map[1 := 2000, 2 := 2500], [Some(2000), Some(2500)], SETTINGS)]

  lemma {:induction false} StringWidens(attnum: I16, lo: nat, hi: nat, d: nat)
    requires lo <= hi
    ensures WidenCol(STRING, 0, Str(attnum, lo, hi), Some(d))
         == Widening.Widened(Str(attnum, if d < lo then d else lo, if hi < d then d else hi), d < lo || hi < d)
    ensures var c := Str(attnum, lo, hi).MadeUnbounded();
      WidenCol(STRING, 0, c, Some(d)) == Widening.Widened(c, false)
  {
    LettersRead(lo);
    LettersRead(hi);
    hide Letters, NameOf, IsLetters;
  }

  lemma {:induction false} LettersRead(n: nat)
    ensures STRING.input(Letters(n)) == Some(n)
  {
  }

  lemma {:induction false} PairWidens(types: Types, a: ColSummary, b: ColSummary, v: Option<Datum>, w: Option<Datum>)
    requires a.attnum == 1 && b.attnum == 2 && types(STRING_TYPE) == STRING
    ensures var one, two := WidenCol(STRING, 0, a, v), WidenCol(STRING, 0, b, w);
      one.col.attnum == 1 ==>
        WidenRow(types, STRINGS.attrs, [a, b], [v, w]) == WidenedAll([one.col, two.col], one.changed || two.changed)
  {
    hide WidenCol;
    var cols, values := [a, b], [v, w];
    var one, two := WidenCol(STRING, 0, a, v), WidenCol(STRING, 0, b, w);
    assert FindCol(cols, 1) == Some(0);
    assert WidenFirst(types, STRINGS.attrs, cols, values, 0) == WidenedAll(cols, false);
    assert cols[0 := one.col] == [one.col, b];
    assert WidenFirst(types, STRINGS.attrs, cols, values, 1) == WidenedAll([one.col, b], one.changed);
    if one.col.attnum == 1 {
      assert FindFrom([one.col, b], 2, 1) == Some(1);
      assert FindCol([one.col, b], 2) == Some(1);
      assert [one.col, b][1 := two.col] == [one.col, two.col];
    }
  }

  lemma {:induction false} SeenString(s: Settings)
    ensures SeenBy(s)(STRING_TYPE) == STRING && TypesIn(STRINGS, s) == SeenBy(Pinned(s))
  {
    hide Letters;
  }

  lemma {:induction false} FirstBuilt()
    ensures Built(TypesIn(STRINGS, SETTINGS), NameOf, STRINGS.attrs, FIRST) == [Str(1, 2000, 2000), Str(2, 2000, 2000)]
  {
    hide BuiltCol, Built, Str, NameOf, Spans, SeenBy;
    SeenString(SETTINGS);
    PairBuilt(TypesIn(STRINGS, SETTINGS), NameOf, STRINGS.attrs[0], STRINGS.attrs[1], FIRST);
    assert ColumnAt(FIRST, 0) == [Some(2000)] && ColumnAt(FIRST, 1) == [Some(2000)];
    SpansOne(2000);
    SpansBuilt(STRINGS.attrs[0], [Some(2000)], 2000, 2000);
    SpansBuilt(STRINGS.attrs[1], [Some(2000)], 2000, 2000);
  }

  lemma {:induction false} AllBuilt()
    ensures Built(TypesIn(STRINGS, SETTINGS), NameOf, STRINGS.attrs, FIRST + Tuples(ARRIVALS))
         == [Str(1, 2000, 2200), Str(2, 2000, 2500)]
  {
    hide BuiltCol, Built, Str, NameOf, Spans, SeenBy;
    SeenString(SETTINGS);
    PairBuilt(TypesIn(STRINGS, SETTINGS), NameOf, STRINGS.attrs[0], STRINGS.attrs[1], FIRST + Tuples(ARRIVALS));
    var one: seq<Option<Datum>> := [Some(2000)];
    assert ColumnAt(FIRST + Tuples(ARRIVALS), 0) == one + [Some(2200)] + [Some(2000)];
    assert ColumnAt(FIRST + Tuples(ARRIVALS), 1) == one + [Some(2000)] + [Some(2500)];
    SpansOne(2000);
    SpansMore(one, 2000, 2000, 2200);
    SpansMore(one + [Some(2200)], 2000, 2200, 2000);
    SpansMore(one, 2000, 2000, 2000);
    SpansMore(one + [Some(2000)], 2000, 2000, 2500);
    SpansBuilt(STRINGS.attrs[0], one + [Some(2200)] + [Some(2000)], 2000, 2200);
    SpansBuilt(STRINGS.attrs[1], one + [Some(2000)] + [Some(2500)], 2000, 2500);
  }

  lemma {:induction false} StartFits()
    ensures Fits([Str(1, 2000, 2000), Str(2, 2000, 2000)])
  {
    Sizes(1, 2000, 2000);
    Sizes(2, 2000, 2000);
    hide Str, ColSize, FitsIn;
    PairFits(Str(1, 2000, 2000), Str(2, 2000, 2000));
  }

  lemma {:induction false} GivesUpFirst(a: ColSummary, b: ColSummary)
    requires BoundLen(a) > BoundLen(b) && 3 + ColSize(a) + ColSize(b) > MAX_BLOB_LEN
    requires 3 + ColSize(a.MadeUnbounded()) + ColSize(b) <= MAX_BLOB_LEN
    ensures Fitted([a, b]) == [a.MadeUnbounded(), b] && Fits([a.MadeUnbounded(), b])
  {
    hide ColSize, BoundLen, FitsIn, FittedIn, DroppedIn;
    PairFits(a, b);
    PairFits(a.MadeUnbounded(), b);
    PairDrops(a, b, 0);
    assert [a, b][0 := a.MadeUnbounded()] == [a.MadeUnbounded(), b];
    FitsNow([a.MadeUnbounded(), b]);
  }

  lemma {:induction false} GivesUpSecond(a: ColSummary, b: ColSummary)
    requires BoundLen(b) >= BoundLen(a) && BoundLen(b) > 0 && 3 + ColSize(a) + ColSize(b) > MAX_BLOB_LEN
    requires 3 + ColSize(a) + ColSize(b.MadeUnbounded()) <= MAX_BLOB_LEN
    ensures Fitted([a, b]) == [a, b.MadeUnbounded()] && Dropped([a, b]) == [false, true]
  {
    hide ColSize, BoundLen, FitsIn, FittedIn, DroppedIn;
    PairFits(a, b);
    PairFits(a, b.MadeUnbounded());
    PairDrops(a, b, 1);
    assert [a, b][1 := b.MadeUnbounded()] == [a, b.MadeUnbounded()];
    FitsNow([a, b.MadeUnbounded()]);
  }

  lemma {:induction false} FirstGivenUp()
    ensures var a, b := Str(1, 2000, 2200), Str(2, 2000, 2000);
      Fitted([a, b]) == [a.MadeUnbounded(), b] && Fits([a.MadeUnbounded(), b])
  {
    hide Str, ColSize, BoundLen, Fits, Fitted;
    Sizes(1, 2000, 2200);
    Sizes(2, 2000, 2000);
    GivesUpFirst(Str(1, 2000, 2200), Str(2, 2000, 2000));
  }

  lemma {:induction false} SecondKept()
    ensures var a, b := Str(1, 2000, 2200), Str(2, 2000, 2500); Fits([a.MadeUnbounded(), b])
  {
    Sizes(1, 2000, 2200);
    Sizes(2, 2000, 2500);
    hide Str, ColSize, FitsIn;
    PairFits(Str(1, 2000, 2200).MadeUnbounded(), Str(2, 2000, 2500));
  }

  lemma {:induction false} SecondGivenUp()
    ensures var a, b := Str(1, 2000, 2200), Str(2, 2000, 2500);
      Fitted([a, b]) == [a, b.MadeUnbounded()] && Dropped([a, b]) == [false, true]
  {
    hide Str, ColSize, BoundLen, Fitted, Dropped;
    Sizes(1, 2000, 2200);
    Sizes(2, 2000, 2500);
    GivesUpSecond(Str(1, 2000, 2200), Str(2, 2000, 2500));
  }

  /** The page gives the first column up at the first insert, and has room for the second ever after. */
  lemma {:induction false} PageAfter()
    ensures forall n | n in ARRIVALS :: |n.values| == |STRINGS.attrs|
    ensures var start := [Str(1, 2000, 2000), Str(2, 2000, 2000)];
      && KeptAll(STRINGS, start, ARRIVALS) == [Str(1, 2000, 2200).MadeUnbounded(), Str(2, 2000, 2500)]
      && NoneFails(STRINGS, start, ARRIVALS)
  {
    hide Str, WidenRow, Fitted, Fits, SeenBy;
    var types := TypesIn(STRINGS, SETTINGS);
    SeenString(SETTINGS);
    var a, b := Str(1, 2000, 2000), Str(2, 2000, 2000);
    var c, d := Str(1, 2000, 2200), Str(2, 2000, 2500);
    Attnums();
    StringWidens(1, 2000, 2000, 2200);
    StringWidens(2, 2000, 2000, 2000);
    PairWidens(types, a, b, Some(2200), Some(2000));
    FirstGivenUp();
    assert Kept(STRINGS, [a, b], ARRIVALS[0]) == [c.MadeUnbounded(), b];
    StringWidens(1, 2000, 2200, 2000);
    StringWidens(2, 2000, 2000, 2500);
    PairWidens(types, c.MadeUnbounded(), b, Some(2000), Some(2500));
    SecondKept();
    FitsNow([c.MadeUnbounded(), d]);
    assert Kept(STRINGS, [c.MadeUnbounded(), b], ARRIVALS[1]) == [c.MadeUnbounded(), d];
    StartFits();
    KeptTwice([a, b], [c.MadeUnbounded(), b], [c.MadeUnbounded(), d]);
  }

  lemma {:induction false} Attnums()
    ensures Str(1, 2000, 2000).attnum == Str(1, 2000, 2200).attnum == Str(1, 2000, 2200).MadeUnbounded().attnum == 1
    ensures Str(2, 2000, 2000).attnum == Str(2, 2000, 2500).attnum == 2
  {
    hide Letters, NameOf;
  }

  lemma {:induction false} KeptTwice(start: seq<ColSummary>, mid: seq<ColSummary>, end: seq<ColSummary>)
    requires forall n | n in ARRIVALS :: |n.values| == |STRINGS.attrs|
    requires Kept(STRINGS, start, ARRIVALS[0]) == mid && Kept(STRINGS, mid, ARRIVALS[1]) == end
    requires Fits(start) && Fits(mid) && Fits(end)
    ensures KeptAll(STRINGS, start, ARRIVALS) == end && NoneFails(STRINGS, start, ARRIVALS)
  {
    hide Kept, Fits;
    assert ARRIVALS[..0] == [] && ARRIVALS[..1] == [ARRIVALS[0]] && ARRIVALS[..2] == ARRIVALS;
    assert [ARRIVALS[0]][..0] == [];
    assert KeptAll(STRINGS, start, ARRIVALS[..0]) == start;
    assert KeptAll(STRINGS, start, ARRIVALS[..1]) == mid;
    assert KeptAll(STRINGS, start, ARRIVALS) == end;
  }

  /**
   * The page ends with the first column given up and the second bounded; a rebuild over the same
   * three rows gives the second up instead, and so admits rows the page rules out.
   */
  lemma {:induction false} RebuildAdmitsMore()
    ensures forall n | n in ARRIVALS :: |n.values| == |STRINGS.attrs|
    ensures var types := TypesIn(STRINGS, SETTINGS);
      var start := Fitted(Built(types, NameOf, STRINGS.attrs, FIRST));
      var rebuilt := Built(types, NameOf, STRINGS.attrs, FIRST + Tuples(ARRIVALS));
      && NoneFails(STRINGS, start, ARRIVALS)
      && KeptAll(STRINGS, start, ARRIVALS) == [Str(1, 2000, 2200).MadeUnbounded(), Str(2, 2000, 2500)]
      && Fitted(rebuilt) == [Str(1, 2000, 2200), Str(2, 2000, 2500).MadeUnbounded()]
      && !WiderSeen(types, STRINGS.attrs, Fitted(rebuilt), KeptAll(STRINGS, start, ARRIVALS))
  {
    hide Built, Str, Fitted, KeptAll, NoneFails, SeenBy, Kept, Fits, WiderSeen;
    FirstBuilt();
    AllBuilt();
    Attnums();
    StartFits();
    FitsNow([Str(1, 2000, 2000), Str(2, 2000, 2000)]);
    SecondGivenUp();
    PageAfter();
    NotWider(TypesIn(STRINGS, SETTINGS));
  }

  lemma {:induction false} NotWider(types: Types)
    requires types == TypesIn(STRINGS, SETTINGS)
    ensures !WiderSeen(types, STRINGS.attrs, [Str(1, 2000, 2200), Str(2, 2000, 2500).MadeUnbounded()],
                      [Str(1, 2000, 2200).MadeUnbounded(), Str(2, 2000, 2500)])
  {
    SeenString(SETTINGS);
    SummarizedPair(STRINGS.attrs[0], STRINGS.attrs[1]);
    OneRuledOut();
    hide Summarized, Covers, Str, SeenBy;
    assert Summarized(STRINGS.attrs)[1] == STRINGS.attrs[1];
    assert !Wider(STRING, Str(2, 2000, 2500).MadeUnbounded(), Str(2, 2000, 2500));
  }

  /** A string of 3000 letters. */
  lemma {:induction false} OneRuledOut()
    ensures Covers(STRING, Str(2, 2000, 2500).MadeUnbounded(), Some(3000))
    ensures !Covers(STRING, Str(2, 2000, 2500), Some(3000))
  {
    LettersRead(2000);
    LettersRead(2500);
    hide Letters, NameOf;
  }
}
