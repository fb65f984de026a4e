/** The inputs that show which claims need their conditions, and that the conditions can be met. */
module Witness {
  import opened Base
  import opened Extents
  import opened Format
  import opened MetaPage
  import Fitting
  import opened Coverage
  import opened Widening
  import opened Agreement
  import opened Build
  import opened Prune
  import opened Exactness
  import opened Protocol
  import opened Cache
  import opened Sessions
  import opened StableIo
  import opened EndToEnd
  import opened StaleCache
  import opened World

  function Bounded(attnum: I16, collation: Oid, lo: Datum, hi: Datum): ColSummary
    requires 0 <= lo <= 9 && 0 <= hi <= 9
  {
    ColSummary(attnum, false, [], collation, Some(Digit(lo)), Some(Digit(hi)), false, false, false)
  }

  // ---- one column under two collations -------------------------------------------------------

  /** Column 1 indexed under two collations that sort it in opposite orders. */
  const TWICE: seq<IndexAttr> := [IndexAttr(1, 0, 0), IndexAttr(1, 0, BACKWARDS)]

  /** The first entry between `lo` and `hi`, the second as after a build over 3 and 7. */
  function TwiceCols(lo: Datum, hi: Datum): (cols: seq<ColSummary>)
    requires 0 <= lo <= 9 && 0 <= hi <= 9
    ensures |cols| == 2 && cols[0] == Bounded(1, 0, lo, hi)
  {
    [Bounded(1, 0, lo, hi), Bounded(1, BACKWARDS, 7, 3)]
  }

  lemma {:induction false} TwiceWidens()
    ensures WidenRow(TypeOf, TWICE, TwiceCols(3, 7), [Some(5), Some(5)]).cols == TwiceCols(5, 5)
  {
    var cols := TwiceCols(3, 7);
    var values: seq<Option<Datum>> := [Some(5), Some(5)];
    assert WidenFirst(TypeOf, TWICE, cols, values, 0).cols == cols;
    assert WidenFirst(TypeOf, TWICE, cols, values, 1).cols == cols;
    assert WidenFirst(TypeOf, TWICE, cols, values, 2).cols == cols[0 := Bounded(1, 0, 5, 5)];
  }

  lemma {:induction false} BoundedDescribes(attnum: I16, collation: Oid, lo: Datum, hi: Datum)
    requires 0 <= lo <= 9 && 0 <= hi <= 9
    ensures Describes(NUMBER, IndexAttr(attnum, 0, collation), Bounded(attnum, collation, lo, hi))
  {
    KindsOf(0);
    hide HullText, TypeOps.Kind, Output;
  }

  lemma {:induction false} TwiceDescribed(lo: Datum, hi: Datum)
    requires 0 <= lo <= 9 && 0 <= hi <= 9
    ensures DescribesAll(TypeOf, TWICE, TwiceCols(lo, hi))
  {
    SummarizedPair(TWICE[0], TWICE[1]);
    BoundedDescribes(1, 0, lo, hi);
    BoundedDescribes(1, BACKWARDS, 7, 3);
    hide Summarized, Describes, Bounded;
    assert TypeOf(0) == NUMBER;
  }

  lemma {:induction false} BoundedCovers(collation: Oid, lo: Datum, hi: Datum, d: Datum)
    requires 0 <= lo <= 9 && 0 <= hi <= 9 && collation != BACKWARDS
    ensures Covers(NUMBER, Bounded(1, collation, lo, hi), Some(d)) <==> lo <= d <= hi
  {
    hide HullText, Output;
  }

  lemma {:induction false} TwiceCovers(lo: Datum, hi: Datum, d: Datum)
    requires 0 <= lo <= 9 && 0 <= hi <= 9
    ensures |Summarized(TWICE)| == 2
    ensures CoversRow(TypeOf, TWICE, TwiceCols(lo, hi), map[1 := d]) <==> lo <= d <= hi
  {
    SummarizedPair(TWICE[0], TWICE[1]);
    BoundedCovers(0, lo, hi, d);
    hide Summarized, Covers, Bounded;
    assert TypeOf(0) == NUMBER;
    assert IsFirst(TWICE, 0) && !IsFirst(TWICE, 1);
  }

  lemma {:induction false} TwiceDisagrees()
    ensures OneType(TWICE) && !Agreeing(TypeOf, TWICE)
  {
    SummarizedPair(TWICE[0], TWICE[1]);
    KindsOf(0);
    NumbersReversed();
    NumberNamed();
    hide Summarized, Refines, TypeOps.Kind, TypeOf;
    assert IsFirst(TWICE, 0);
  }

  lemma {:induction false} NumbersReversed()
    ensures !Refines(NUMBER, 0, BACKWARDS)
  {
    hide HullText, Output;
    var x, y := Digit(7), Digit(3);
    assert NUMBER.writes(x) && NUMBER.input(x) == Some(7) && NUMBER.writes(y) && NUMBER.input(y) == Some(3);
  }

  lemma {:induction false} PairNonNull(a: Datum, b: Datum)
    ensures NonNull([Some(a), Some(b)]) == [a, b]
  {
    var vs := [Some(a), Some(b)];
    assert vs[..1] == [Some(a)] && vs[..1][..0] == [];
    assert NonNull(vs[..1]) == [a];
  }

  lemma {:induction false} Extremes(collation: Oid)
    ensures Least(NUMBER, collation, [3, 7]) == (if collation == BACKWARDS then 7 else 3)
    ensures Greatest(NUMBER, collation, [3, 7]) == (if collation == BACKWARDS then 3 else 7)
  {
    var ds := [3, 7];
    assert ds[..1] == [3];
    hide HullText, Output, TypeOps.Kind;
  }

  lemma {:induction false} BuiltThreeSeven(a: IndexAttr)
    requires a in TWICE
    ensures BuiltCol(NUMBER, a, [], [Some(3), Some(7)])
         == if a.collation == BACKWARDS then Bounded(1, BACKWARDS, 7, 3) else Bounded(1, 0, 3, 7)
  {
    PairNonNull(3, 7);
    Extremes(a.collation);
    KindsOf(0);
    hide HullText, TypeOps.Kind, NonNull, Least, Greatest;
  }

  lemma {:induction false} NumberNamed()
    ensures TypeOf(0) == NUMBER && NameOf(0) == []
  {
    hide ValidUtf8, HullText, Output;
  }

  /** What a build over 3 and 7 makes of the index. */
  lemma {:induction false} TwiceBuilt()
    ensures Built(TypeOf, NameOf, TWICE, [[Some(3), Some(3)], [Some(7), Some(7)]]) == TwiceCols(3, 7)
  {
    var tuples: seq<seq<Option<Datum>>> := [[Some(3), Some(3)], [Some(7), Some(7)]];
    BuiltThreeSeven(TWICE[0]);
    BuiltThreeSeven(TWICE[1]);
    NumberNamed();
    hide BuiltCol, Built, Bounded, TypeOf, NameOf;
    PairBuilt(TypeOf, NameOf, TWICE[0], TWICE[1], tuples);
    TwoRows(tuples, 0);
    TwoRows(tuples, 1);
  }

  lemma {:induction false} TwoRows(tuples: seq<seq<Option<Datum>>>, p: nat)
    requires |tuples| == 2 && p < |tuples[0]| && p < |tuples[1]|
    ensures ColumnAt(tuples, p) == [tuples[0][p], tuples[1][p]]
  {
  }

  /**
   * After a build over 3 and 7, inserting 5 narrows the first entry to 5 alone: the entry found by attnum
   * is the first one, the collation used is the second one's.
   */
  lemma {:induction false} DuplicateAttnumNarrows()
    ensures |Summarized(TWICE)| == 2 && OneType(TWICE) && !Agreeing(TypeOf, TWICE)
    ensures TwiceCols(3, 7) == Built(TypeOf, NameOf, TWICE, [[Some(3), Some(3)], [Some(7), Some(7)]])
    ensures DescribesAll(TypeOf, TWICE, TwiceCols(3, 7)) && CoversRow(TypeOf, TWICE, TwiceCols(3, 7), map[1 := 3])
    ensures var after := WidenRow(TypeOf, TWICE, TwiceCols(3, 7), [Some(5), Some(5)]).cols;
      after[0] == Bounded(1, 0, 5, 5) && !CoversRow(TypeOf, TWICE, after, map[1 := 3])
  {
    hide Summarized, CoversRow, DescribesAll, Bounded, WidenRow, Agreeing, OneType, TwiceCols, Built;
    TwiceBuilt();
    TwiceCovers(3, 7, 3);
    TwiceWidens();
    TwiceDescribed(3, 7);
    TwiceDisagrees();
    TwiceCovers(5, 5, 3);
  }

  // ---- an AND over one column ------------------------------------------------------------------

  /** Operators 1 to 5 are the five comparisons of numbers. */
  const CATALOG := Catalog(
    (_: Oid) => (0, 0), (_: Oid) => Some(1), (op: Oid, _: Oid) => op, (_: Oid, _: Oid, _: Oid) => 1,
    (_: Oid) => false, (o: Oid) => o, (_: Oid) => None, (op: Oid) => if op <= 5 then 10 + op else 10, (_: Oid) => 0,
    (_: Oid) => None, (_: Oid) => 0, (_: Datum) => [], (_: Oid, text: Text) => Input(Dmy, text), Called)

  /** Functions 10 to 15 are the operators', the others compare. */
  function Called(f: Oid, c: Oid, a: Datum, b: Datum): int {
    if f < 10 then Cmp(c, a, b) else if Holds(f - 10, Rank(c, a), Rank(c, b)) then 1 else 0
  }

  function Operator(opno: Oid, c: Oid, a: Option<Datum>, b: Option<Datum>): Truth {
    if a.None? || b.None? then Unknown
    else if Holds(opno, Rank(c, a.value), Rank(c, b.value)) then True else False
  }

  const WORLD := Prune.World(Operator, (_: Node, _: Row) => Unknown, (_: Node, _: Row) => None)

  function Compares(opno: Oid, k: Datum): Node {
    OpExpr(opno, 0, [Var(1, 0), Const(0, false, k)])
  }

  lemma {:induction false} CompareOperands(opno: Oid, k: Datum)
    ensures VarAndConst(Compares(opno, k).args) == Some(Operands(Var(1, 0), Const(0, false, k), false))
  {
  }

  const ONE: seq<IndexAttr> := [IndexAttr(1, 0, 0)]

  lemma {:induction false} CompareIsTame(opno: Oid, k: Datum, regions: Datum -> seq<Extent>)
    requires 1 <= opno <= 5
    ensures VarAndConst(Compares(opno, k).args) == Some(Operands(Var(1, 0), Const(0, false, k), false))
    ensures Tame(CATALOG, WORLD, regions, TypeOf, ONE, Compares(opno, k))
  {
    hide Summarized, OperatorLaw, OverlapLaw, NamedOverlap, VarAndConst;
    SummarizedOne(ONE[0]);
    NumbersOperate(opno);
    CompareOperands(opno, k);
    assert TypeOf(0) == NUMBER;
  }

  /** A reader under another date field order than the index's own: stored digits read alike. */
  lemma {:induction false} NumbersOperate(opno: Oid)
    requires 1 <= opno <= 5
    ensures OperatorLaw(CATALOG, WORLD, NUMBER, opno, false, 0) && !NamedOverlap(CATALOG, opno, 0)
  {
    hide HullText, Output;
  }

  lemma {:induction false} DescribedBounds(lo: Datum, hi: Datum)
    requires 0 <= lo <= 9 && 0 <= hi <= 9
    ensures DescribesAll(TypeOf, ONE, [Bounded(1, 0, lo, hi)])
  {
    SummarizedOne(ONE[0]);
    BoundedDescribes(1, 0, lo, hi);
    hide Summarized, Describes, Bounded;
    assert TypeOf(0) == NUMBER;
  }

  lemma {:induction false} AndNotBoth(a: Node, b: Node, row: Row)
    requires Eval(WORLD, CATALOG, a, row) != True || Eval(WORLD, CATALOG, b, row) != True
    ensures Eval(WORLD, CATALOG, BoolExpr(And, [a, b]), row) != True
  {
    AndNotTrue(WORLD, CATALOG, BoolExpr(And, [a, b]), row, if Eval(WORLD, CATALOG, a, row) != True then 0 else 1);
    hide Eval;
  }

  lemma {:induction false} NeitherProves(cols: seq<ColSummary>)
    requires cols == [Bounded(1, 0, 0, 9)]
    ensures !ClauseProvesPrune(CATALOG, Compares(1, 1), cols, 1)
    ensures !ClauseProvesPrune(CATALOG, Compares(5, 8), cols, 1)
  {
  }

  lemma {:induction false} AndOfUnproved(a: Node, b: Node, cols: seq<ColSummary>)
    requires !ClauseProvesPrune(CATALOG, a, cols, 1) && !ClauseProvesPrune(CATALOG, b, cols, 1)
    ensures !ClauseProvesPrune(CATALOG, BoolExpr(And, [a, b]), cols, 0)
  {
    hide ProvesPrune, ExtractQual, FindCol;
  }

  lemma {:induction false} NotBoth(row: Row)
    ensures Eval(WORLD, CATALOG, Compares(1, 1), row) != True || Eval(WORLD, CATALOG, Compares(5, 8), row) != True
  {
  }

  /** What numbers are: all of them are values of the column, so nothing but the shared column is missing. */
  const NUMBERS: Domain := (_: Oid, _: Datum) => true

  lemma {:induction false} Extracted(opno: Oid, k: Datum)
    requires 1 <= opno <= 5
    ensures ExtractQual(CATALOG, Compares(opno, k)) == Some(Compare(1, opno, 0, 1, 0, k))
  {
    CompareOperands(opno, k);
    hide VarAndConst;
  }

  lemma {:induction false} DigitsBound(lo: Datum, hi: Datum)
    requires 0 <= lo <= hi <= 9
    ensures HasBounds(CATALOG, NUMBER, Bounded(1, 0, lo, hi), 0, 0)
  {
    hide HullText, Output;
  }

  lemma {:induction false} SaysCompare(opno: Oid, k: Datum)
    requires 1 <= opno <= 5
    ensures IsBtree(CATALOG, opno, false, opno) && (forall s :: IsBtree(CATALOG, opno, false, s) ==> s == opno)
    ensures Recognised(CATALOG, Compares(opno, k), Says(1, 0, opno, 0, k, 0, false))
  {
    assert IsBtree(CATALOG, opno, false, opno);
  }

  /** A leaf that the one column can decide is a tree that it can decide. */
  lemma {:induction false} LeafDecidable(cat: Catalog, dom: Domain, types: Types, attr: IndexAttr, c: ColSummary,
                                         node: Node, f: Form, depth: nat)
    requires !node.NullNode? && !node.BoolExpr? && depth <= 32 && attr.attnum > 0 && attr.attnum == f.attnum
    requires Recognised(cat, node, f) && Decidable(cat, dom, attr.typ, types(attr.typ), f, c)
    ensures |Summarized([attr])| == 1
    ensures DecidableTree(cat, dom, types, [attr], [c], node, depth)
  {
    SummarizedOne(attr);
    hide Summarized, Recognised, Decidable;
    assert DecidableLeaf(cat, dom, types, [attr], [c], node, f, 0);
  }

  lemma {:induction false} ComparesDecidable(opno: Oid, k: Datum)
    requires 1 <= opno <= 5
    ensures |Summarized(ONE)| == 1
    ensures DecidableTree(CATALOG, NUMBERS, TypeOf, ONE, [Bounded(1, 0, 0, 9)], Compares(opno, k), 1)
    ensures Uses(CATALOG, Compares(opno, k), 1)
  {
    hide Summarized, ExtractQual, HasBounds, Bounded, Recognised, IsBtree, DecidableTree;
    Extracted(opno, k);
    DigitsBound(0, 9);
    SaysCompare(opno, k);
    assert TypeOf(0) == NUMBER;
    LeafDecidable(CATALOG, NUMBERS, TypeOf, ONE[0], Bounded(1, 0, 0, 9), Compares(opno, k),
                  Says(1, 0, opno, 0, k, 0, false), 1);
  }

  lemma {:induction false} NumbersCalled()
    ensures OperatorIsFunction(CATALOG, WORLD)
  {
  }

  /**
   * `x < 1 AND x > 8` holds of nothing, yet neither side is false of all that lies between 0 and 9.
   * Both sides are decidable; they only share a column.
   */
  lemma {:induction false} AndNotExact(regions: Datum -> seq<Extent>)
    ensures |Summarized(ONE)| == 1
    ensures var cols, left, right := [Bounded(1, 0, 0, 9)], Compares(1, 1), Compares(5, 8);
      && DescribesAll(TypeOf, ONE, cols)
      && Tame(CATALOG, WORLD, regions, TypeOf, ONE, left) && Tame(CATALOG, WORLD, regions, TypeOf, ONE, right)
      && DecidableTree(CATALOG, NUMBERS, TypeOf, ONE, cols, left, 1)
      && DecidableTree(CATALOG, NUMBERS, TypeOf, ONE, cols, right, 1)
      && OperatorIsFunction(CATALOG, WORLD) && !Disjoint(CATALOG, left, right)
      && !ClauseProvesPrune(CATALOG, BoolExpr(And, [left, right]), cols, 0)
      && forall row: Row :: Eval(WORLD, CATALOG, BoolExpr(And, [left, right]), row) != True
  {
    var cols, left, right := [Bounded(1, 0, 0, 9)], Compares(1, 1), Compares(5, 8);
    DescribedBounds(0, 9);
    CompareIsTame(1, 1, regions);
    CompareIsTame(5, 8, regions);
    ComparesDecidable(1, 1);
    ComparesDecidable(5, 8);
    NeitherProves(cols);
    NumbersCalled();
    hide OperatorIsFunction, ClauseProvesPrune, Tame, Eval, Holds, VarAndConst, DescribesAll, Bounded, Compares;
    hide DecidableTree, Uses;
    hide Summarized;
    AndOfUnproved(left, right, cols);
    forall row: Row ensures Eval(WORLD, CATALOG, BoolExpr(And, [left, right]), row) != True {
      NotBoth(row);
      AndNotBoth(left, right, row);
    }
  }

  // ---- an overlap ------------------------------------------------------------------------------

  /** Operator 6 is the `&&` of pg_catalog. */
  const OVERLAPS := CATALOG.(
    opName := (op: Oid) => if op == 6 then Some(AMPERSANDS) else None,
    funcNamespace := (_: Oid) => PG_CATALOG_NAMESPACE,
    call := (_: Oid, _: Oid, x: Datum, k: Datum) => if x > k then 1 else 0)

  /** A value of the range type reaches up to itself, a constant from itself on. */
  function FromOn(k: Datum): seq<Extent> {
    [Box(Span(At(k as real, true), PlusInfinity), LINE)]
  }

  function Reaches(opno: Oid, c: Oid, x: Option<Datum>, k: Option<Datum>): Truth {
    if x.None? || k.None? then Unknown else if x.value > k.value then True else False
  }

  const REACHING := Prune.World(Reaches, (_: Node, _: Row) => Unknown, (_: Node, _: Row) => None)

  const SPANS: seq<IndexAttr> := [IndexAttr(1, RANGE_TYPE, 0)]

  function Crosses(k: Datum): Node {
    OpExpr(6, 0, [Var(1, RANGE_TYPE), Const(0, false, k)])
  }

  function UpToCol(d: Datum): ColSummary
    requires 0 <= d <= 9
  {
    ColSummary(1, true, [], 0, Some(Digit(d)), None, false, false, false)
  }

  lemma {:induction false} CrossOperands(k: Datum)
    ensures VarAndConst(Crosses(k).args) == Some(Operands(Var(1, RANGE_TYPE), Const(0, false, k), false))
  {
  }

  lemma {:induction false} MeetsFromOn(x: Datum, k: Datum)
    ensures Meets(RANGE.extent(x), FromOn(k)) <==> x > k
  {
    hide HullText, Output;
    assert FromOn(k)[0] == Box(Span(At(k as real, true), PlusInfinity), LINE);
  }

  lemma {:induction false} ReachingIsOverlap()
    ensures OperatorLaw(OVERLAPS, REACHING, RANGE, 6, false, RANGE_TYPE)
    ensures OverlapLaw(OVERLAPS, REACHING, RANGE, FromOn, 6, false, RANGE_TYPE)
  {
    hide HullText, Output, Meets, FromOn;
    forall x: Datum, k: Datum ensures Meets(RANGE.extent(x), FromOn(k)) <==> x > k {
      MeetsFromOn(x, k);
    }
    assert ReadsSame(OVERLAPS, RANGE, RANGE_TYPE) by { DigitsReadSame(); }
  }

  lemma {:induction false} DigitsReadSame()
    ensures ReadsSame(OVERLAPS, RANGE, RANGE_TYPE)
  {
    hide HullText, Output;
  }

  lemma {:induction false} CrossIsTame(k: Datum)
    ensures Tame(OVERLAPS, REACHING, FromOn, TypeOf, SPANS, Crosses(k))
  {
    ReachingIsOverlap();
    CrossOperands(k);
    SummarizedOne(SPANS[0]);
    hide Summarized, OperatorLaw, OverlapLaw, VarAndConst, NamedOverlap, TypeOps.Kind;
    assert TypeOf(RANGE_TYPE) == RANGE;
  }

  lemma {:induction false} OneNonNull(d: Datum)
    ensures NonNull([Some(d)]) == [d]
  {
    assert [Some(d)][..0] == [];
    assert NonNull([Some(d)][..0]) == [];
  }

  lemma {:induction false} SpanColBuilt()
    ensures BuiltCol(RANGE, SPANS[0], [], [Some(3)]) == UpToCol(3)
  {
    OneNonNull(3);
    KindsOf(RANGE_TYPE);
    hide HullText, TypeOps.Kind, NonNull;
  }

  lemma {:induction false} RangeNamed()
    ensures TypeOf(RANGE_TYPE) == RANGE && NameOf(RANGE_TYPE) == []
  {
    hide ValidUtf8, HullText, Output;
  }

  lemma {:induction false} SpanBuilt()
    ensures Built(TypeOf, NameOf, SPANS, [[Some(3)]]) == [UpToCol(3)]
  {
    SpanColBuilt();
    RangeNamed();
    hide BuiltCol, TypeOf, NameOf, UpToCol, Built;
    OneBuilt(TypeOf, NameOf, SPANS[0], [[Some(3)]]);
    assert ColumnAt([[Some(3)]], 0) == [Some(3)];
  }

  lemma {:induction false} CrossProves(k: Datum)
    ensures EvaluateRelation(OVERLAPS, [Crosses(k)], [UpToCol(3)]) <==> k >= 3
  {
    hide HullText, Output;
    var cols := [UpToCol(3)];
    assert FindCol(cols, 1) == Some(0);
    CrossOperands(k);
    assert ExtractQual(OVERLAPS, Crosses(k)) == Some(Overlap(1, RANGE_TYPE, 10, 0, k, false)) by { hide VarAndConst; }
    hide VarAndConst, FindCol, ExtractQual;
    assert [Crosses(k)][0] == Crosses(k);
  }

  lemma {:induction false} CrossIsFunction()
    ensures OperatorIsFunction(OVERLAPS, REACHING)
  {
  }

  lemma {:induction false} CrossDecidable(k: Datum)
    ensures |Summarized(SPANS)| == 1
    ensures DecidableTree(OVERLAPS, NUMBERS, TypeOf, SPANS, [UpToCol(3)], Crosses(k), 0)
  {
    CrossSays(k);
    RangeNamed();
    CrossFits(k);
    hide Summarized, Recognised, HasExtent, IsBtree, UpToCol, TypeOf, Decidable, DecidableTree;
    LeafDecidable(OVERLAPS, NUMBERS, TypeOf, SPANS[0], UpToCol(3), Crosses(k), Says(1, RANGE_TYPE, 6, 0, k, 0, false),
                  0);
  }

  lemma {:induction false} CrossFits(k: Datum)
    ensures Decidable(OVERLAPS, NUMBERS, RANGE_TYPE, RANGE, Says(1, RANGE_TYPE, 6, 0, k, 0, false), UpToCol(3))
  {
    CrossSays(k);
    hide HasExtent, IsBtree, UpToCol, Recognised;
  }

  lemma {:induction false} CrossSays(k: Datum)
    ensures (forall s :: !IsBtree(OVERLAPS, 6, false, s)) && HasExtent(OVERLAPS, RANGE, UpToCol(3), RANGE_TYPE)
    ensures Recognised(OVERLAPS, Crosses(k), Says(1, RANGE_TYPE, 6, 0, k, 0, false))
  {
    hide HullText, Output;
  }

  /**
   * After a build over the range up to 3, a query for what crosses the values from 5 on is pruned, one for
   * what crosses those from 2 on is not, and everything asked of types and operators holds.
   */
  lemma {:induction false} OverlapIsPruned()
    ensures Tame(OVERLAPS, REACHING, FromOn, TypeOf, SPANS, Crosses(5))
    ensures Tame(OVERLAPS, REACHING, FromOn, TypeOf, SPANS, Crosses(2))
    ensures |Summarized(SPANS)| == 1 && OperatorIsFunction(OVERLAPS, REACHING)
    ensures DecidableTree(OVERLAPS, NUMBERS, TypeOf, SPANS, [UpToCol(3)], Crosses(5), 0)
    ensures var cols := Built(TypeOf, NameOf, SPANS, [[Some(3)]]);
      EvaluateRelation(OVERLAPS, [Crosses(5)], cols) && !EvaluateRelation(OVERLAPS, [Crosses(2)], cols)
  {
    CrossIsTame(5);
    CrossIsTame(2);
    SpanBuilt();
    CrossProves(5);
    CrossProves(2);
    CrossDecidable(5);
    CrossIsFunction();
    hide OperatorIsFunction, DecidableTree, Summarized, Tame, EvaluateRelation, Built, Crosses;
  }

  // ---- an index on one number column -------------------------------------------------------------

  /** Every session reads stored digits alike, and other texts by its own date field order. */
  const INDEX := Index(TypeOf, NameOf, ONE, SeenBy)

  const SETTINGS := Settings(Iso, Mdy, PostgresInterval, 1, 0)

  function PageOf(lo: Datum, hi: Datum): Option<Bytes>
    requires 0 <= lo <= 9 && 0 <= hi <= 9
  {
    Some(Encode([Bounded(1, 0, lo, hi)]))
  }

  lemma {:induction false} IndexLawful()
    ensures LawfulIndex(INDEX) && Summarized(ONE) == ONE
  {
    TypesLawful();
    SummarizedOne(ONE[0]);
    hide LawfulTypes, NamesLaw, AlikeTypes, Summarized;
  }

  lemma {:induction false} PageReads(lo: Datum, hi: Datum)
    requires 0 <= lo <= 9 && 0 <= hi <= 9
    ensures PageCols(PageOf(lo, hi)) == Some([Bounded(1, 0, lo, hi)])
    ensures EncodeFitted([Bounded(1, 0, lo, hi)]) == PageOf(lo, hi).value
    ensures Stored(PageOf(lo, hi).value) == PageOf(lo, hi)
    ensures 0 < |PageOf(lo, hi).value| <= MAX_BLOB_LEN
  {
    var cols := [Bounded(1, 0, lo, hi)];
    assert cols[1..] == [];
    assert ColsSize(cols) == ColSize(cols[0]) + ColsSize(cols[1..]);
    Fitting.FitsBySize(cols, MAX_BLOB_LEN);
    FittingRoundTrip(cols, []);
    assert |Encode(cols)| > 0 by { Encodes(cols); }
    hide Encode, Decode, Bounded;
  }

  lemma {:induction false} Encodes(cols: seq<ColSummary>)
    ensures |Encode(cols)| > 0
  {
  }

  lemma {:induction false} NumberWidens(order: DateOrder, lo: Datum, hi: Datum, d: Datum)
    requires 0 <= lo <= hi <= 9 && 0 <= d <= 9
    ensures WidenCol(NUMBER.(input := InputIn(order)), 0, Bounded(1, 0, lo, hi), Some(d))
         == Widening.Widened(Bounded(1, 0, if d < lo then d else lo, MaxOf(hi, d)), d < lo || hi < d)
  {
    hide HullText;
  }

  lemma {:induction false} WidensBy(s: Settings, lo: Datum, hi: Datum, d: Datum)
    requires 0 <= lo <= hi <= 9 && 0 <= d <= 9
    ensures WidenRow(SeenBy(s), ONE, [Bounded(1, 0, lo, hi)], [Some(d)])
         == WidenedAll([Bounded(1, 0, if d < lo then d else lo, MaxOf(hi, d))], d < lo || hi < d)
  {
    var cols, values := [Bounded(1, 0, lo, hi)], [Some(d)];
    NumberWidens(s.dateOrder, lo, hi, d);
    assert SeenBy(s)(0) == NUMBER.(input := InputIn(s.dateOrder));
    assert FindCol(cols, 1) == Some(0);
    hide WidenCol, SeenBy, Bounded;
    assert WidenFirst(SeenBy(s), ONE, cols, values, 0) == WidenedAll(cols, false);
    var c := Bounded(1, 0, if d < lo then d else lo, MaxOf(hi, d));
    assert cols[0 := c] == [c];
  }

  lemma {:induction false} BuiltThree(order: DateOrder)
    ensures BuiltCol(NUMBER.(input := InputIn(order)), ONE[0], [], [Some(3)]) == Bounded(1, 0, 3, 3)
  {
    OneNonNull(3);
    KindsOf(0);
    var t := NUMBER.(input := InputIn(order));
    assert t.Kind() == NUMBER.Kind();
    hide HullText, TypeOps.Kind, NonNull;
  }

  lemma {:induction false} BuiltOverThree()
    ensures Built(SeenBy(SETTINGS), NameOf, ONE, [[Some(3)]]) == [Bounded(1, 0, 3, 3)]
  {
    hide BuiltCol, SeenBy, NameOf, Bounded, Built, InputIn, TypeOf;
    OneBuilt(SeenBy(SETTINGS), NameOf, ONE[0], [[Some(3)]]);
    SeenNumber(SETTINGS);
    BuiltThree(Mdy);
    assert ColumnAt([[Some(3)]], 0) == [Some(3)];
  }

  lemma {:induction false} SeenNumber(s: Settings)
    ensures SeenBy(s)(0) == NUMBER.(input := InputIn(s.dateOrder)) && NameOf(0) == []
  {
    hide InputIn, ValidUtf8;
  }

  /** Right after CREATE INDEX over the row 3. */
  const STARTED := System(State(PageOf(3, 3), map[], {map[1 := 3]}, 0), [PageOf(3, 3)], [0], [Lost],
                          map[map[1 := 3] := 0], map[], map[], map[], map[])

  lemma {:induction false} ScansThree()
    ensures Scans(INDEX, {map[1 := 3]}, [[Some(3)]])
  {
    var row: Row, scan: seq<seq<Option<Datum>>> := map[1 := 3], [[Some(3)]];
    assert TupleOf(INDEX.attrs, row, scan[0]);
  }

  lemma {:induction false} RebuiltThree()
    ensures RebuiltBytes(INDEX, SETTINGS, [[Some(3)]]) == PageOf(3, 3).value
  {
    BuiltOverThree();
    PageReads(3, 3);
    hide EncodeFitted, PageOf, Built, Bounded, SeenBy;
    assert TypesIn(INDEX, SETTINGS) == SeenBy(SETTINGS);
  }

  lemma {:induction false} StartedJustNow()
    ensures LawfulIndex(INDEX) && JustStarted(INDEX, STARTED, [[Some(3)]], SETTINGS)
  {
    hide EncodeFitted, PageOf, Built, Scans, LawfulIndex, Bounded, PageCols, Stored, RebuiltBytes;
    IndexLawful();
    RebuiltThree();
    PageReads(3, 3);
    ScansThree();
  }

  // ---- a cached summary without its widening's invalidation ----------------------------------------

  const WIDE := Arrival(map[1 := 7], [Some(7)], SETTINGS)
  const INNER := Arrival(map[1 := 5], [Some(5)], SETTINGS)

  /**
   * After the build over 3 and the inserts of 7 and 5, the row 5 is committed, backend 3's next
   * lookup does not cover it, and no invalidation is left that could reach backend 3.
   */
  lemma {:induction false} StaleCacheMissesRow()
    ensures LawfulIndex(INDEX) && JustStarted(INDEX, STARTED, [[Some(3)]], SETTINGS) && SystemInv(INDEX, STARTED)
    ensures var s := RunEvents(INDEX, STARTED, StaleRun(WIDE, INNER));
      && INNER.row in s.inserts.rows
      && !AdmitsCols(INDEX, NextLookup(s, 3), INNER.row)
      && forall v :: !Possible(INDEX, s, Deliver(3, v)) && !Possible(INDEX, s, Own(3, v))
  {
    var start := STARTED;
    StartedJustNow();
    StalePremises();
    NotBetween();
    hide LawfulIndex, JustStarted, SystemInv, RunEvents, PageOf, WidenRow, EncodeFitted, Format.Decode, AdmitsCols;
    hide Bounded;
    hide StaleRun, NextLookup, Possible, TupleOf;
    StartInv(INDEX, start, [[Some(3)]], SETTINGS);
    AfterStaleRun(INDEX, start, [Bounded(1, 0, 3, 3)], WIDE, INNER);
    NoneDeliverable(INDEX, RunEvents(INDEX, start, StaleRun(WIDE, INNER)));
  }

  lemma {:induction false} StalePremises()
    ensures var w := WidenRow(TypesIn(INDEX, SETTINGS), INDEX.attrs, [Bounded(1, 0, 3, 3)], WIDE.values);
      && w.changed && 0 < |EncodeFitted(w.cols)| <= MAX_BLOB_LEN
      && Decode(EncodeFitted(w.cols)) == Some(w.cols)
      && !WidenRow(TypesIn(INDEX, SETTINGS), INDEX.attrs, w.cols, INNER.values).changed
    ensures PageCols(STARTED.inserts.page) == Some([Bounded(1, 0, 3, 3)])
    ensures TupleOf(INDEX.attrs, WIDE.row, WIDE.values) && TupleOf(INDEX.attrs, INNER.row, INNER.values)
    ensures WIDE.row !in STARTED.returned && INNER.row !in STARTED.returned && WIDE.row != INNER.row
  {
    hide PageOf, WidenRow, EncodeFitted, Format.Decode, Bounded, TypeOf, SeenBy, Stored;
    PageReads(3, 3);
    PageReads(3, 7);
    WidensBy(SETTINGS, 3, 3, 7);
    WidensBy(SETTINGS, 3, 7, 5);
    assert TypesIn(INDEX, SETTINGS) == SeenBy(SETTINGS);
    RowsDiffer(WIDE.row, map[1 := 3], INNER.row);
  }

  lemma {:induction false} RowsDiffer(a: Row, b: Row, c: Row)
    requires 1 in a && 1 in b && 1 in c && a[1] != b[1] && a[1] != c[1] && b[1] != c[1]
    ensures a != b && a != c && b != c
  {
  }

  lemma {:induction false} NotBetween()
    ensures !AdmitsCols(INDEX, [Bounded(1, 0, 3, 3)], INNER.row)
  {
    SummarizedOne(ONE[0]);
    BoundedCovers(0, 3, 3, 5);
    hide Summarized, Covers, Bounded, Describes;
    assert TypeOf(0) == NUMBER;
    assert IsFirst(ONE, 0);
  }

  // ---- the premises of the main claims can be met ----------------------------------------------------

  /** Right after the build over 3, a query for `x > 8` is pruned, and everything asked for holds. */
  lemma {:induction false} SomethingIsPruned(regions: Datum -> seq<Extent>)
    ensures LawfulIndex(INDEX) && JustBuilt(INDEX, STARTED.inserts, [[Some(3)]], SETTINGS)
    ensures TuplesMatch(INDEX, STARTED.inserts)
    ensures Tame(CATALOG, WORLD, regions, INDEX.types, INDEX.attrs, Compares(5, 8))
    ensures var s := Exec(INDEX, STARTED.inserts, []);
      map[1 := 3] in s.rows && EvaluateRelation(CATALOG, [Compares(5, 8)], Deserialized(s.page))
  {
    StartedJustNow();
    CompareIsTame(5, 8, regions);
    PageReads(3, 3);
    ProvesAbove([Bounded(1, 0, 3, 3)]);
    hide LawfulIndex, JustBuilt, Tame, PageOf, PageCols, Bounded, ClauseProvesPrune, Compares;
    assert Deserialized(STARTED.inserts.page) == [Bounded(1, 0, 3, 3)];
  }

  lemma {:induction false} ProvesAbove(cols: seq<ColSummary>)
    requires cols == [Bounded(1, 0, 3, 3)]
    ensures EvaluateRelation(CATALOG, [Compares(5, 8)], cols)
  {
    assert ClauseProvesPrune(CATALOG, Compares(5, 8), cols, 0);
    assert [Compares(5, 8)][0] == Compares(5, 8);
  }

  /** Type input functions that read unstored texts by the session's date field order. */
  function NumberIo(o: Oid): TextIo {
    TextIo((_: Settings, d: Datum) => Output(d), (s: Settings, text: Text) => Input(s.dateOrder, text))
  }

  lemma {:induction false} SomeTextDiffers()
    ensures exists text: Text ::
      NumberIo(0).input(SETTINGS.(dateOrder := Dmy), text) != NumberIo(0).input(SETTINGS.(dateOrder := Mdy), text)
  {
    SessionsDiffer(SETTINGS);
    var text: Text := Letters(1) + [121];
    assert NumberIo(0).input(SETTINGS.(dateOrder := Dmy), text) == Input(Dmy, text);
    assert NumberIo(0).input(SETTINGS.(dateOrder := Mdy), text) == Input(Mdy, text);
    assert Input(Dmy, text) != Input(Mdy, text);
  }

  /** Sessions may read other texts as they like: what is asked of readers is about stored texts only. */
  lemma {:induction false} PortableAcrossDateOrders(opno: Oid, k: Datum)
    requires 1 <= opno <= 5
    ensures Portable(CATALOG, NumberIo, TypeOf, ONE, Compares(opno, k))
    ensures exists text: Text ::
      NumberIo(0).input(SETTINGS.(dateOrder := Dmy), text) != NumberIo(0).input(SETTINGS.(dateOrder := Mdy), text)
  {
    SomeTextDiffers();
    hide Summarized, PortableAt, VarAndConst, Input;
    SummarizedOne(ONE[0]);
    NumbersPortable(opno);
    CompareOperands(opno, k);
    assert TypeOf(0) == NUMBER;
  }

  lemma {:induction false} NumbersPortable(opno: Oid)
    requires 1 <= opno <= 5
    ensures PortableAt(CATALOG, NumberIo, NUMBER, opno, false, 0)
  {
    NumbersSeen(opno);
    DigitsPortable();
    hide SeesValues, PortableLaw;
  }

  lemma {:induction false} DigitsPortable()
    ensures forall p: Oid :: PortableLaw(NumberIo, NUMBER, p)
  {
    hide HullText, Output;
  }

  lemma {:induction false} NumbersSeen(opno: Oid)
    requires 1 <= opno <= 5
    ensures SeesValues(CATALOG, NUMBER, opno, false, 0)
  {
    hide HullText, Output, InputIn;
    forall c: Oid, a: Datum, b: Datum, k: Datum | SameValue(NUMBER, a, b) ensures SameSign(Cmp(c, a, k), Cmp(c, b, k)) {
      assert NUMBER.rank(0, a) == NUMBER.rank(0, b);
    }
  }
}
