/**
 * What a summary means. A column's type is given by the functions the code calls on its values
 * (`TypeOps`) together with the meaning of a value (`rank`, `extent`) and the laws that tie them.
 */
module Coverage {
  import opened Base
  import opened Extents
  import opened Format

  /** How the build treats a type. */
  datatype Kind = Scalar | Range | Geometry | Unsupported

  const GEOMETRY: Bytes := [103, 101, 111, 109, 101, 116, 114, 121]

  /**
   * A column type: what the catalogs say of it and of its base type, the functions the code calls
   * on its values, and what the values mean. `writes` holds of the texts sessions store for it.
   */
  datatype TypeOps = TypeOps(
    typlen: int,
    typtype: char,
    name: Bytes,
    output: Datum -> Option<Text>,
    input: Text -> Option<Datum>,
    cmp: Option<(Oid, Datum, Datum) -> int>,
    merge: (Datum, Datum) -> Datum,
    stExtent: seq<Datum> -> Option<Text>,
    rank: (Oid, Datum) -> real,
    extent: Datum -> Extent,
    writes: Text -> bool)
  {
    /** `plan_columns`: values without a length of their own are not copied, so not summarized. */
    function Kind(): (k: Kind)
      ensures k == Scalar ==> cmp.Some?
    {
      if typlen == -2 then Unsupported
      else if typtype == 'r' then Range
      else if name == GEOMETRY then Geometry
      else if cmp.Some? then Scalar
      else Unsupported
    }
  }

  type Types = Oid -> TypeOps

  // ---- laws --------------------------------------------------------------------------

  /** The sign of a comparison is the order of the ranks; equal rank need not mean equal value. */
  ghost predicate SignIs(cmp: int, a: real, b: real) {
    (cmp < 0 <==> a < b) && (cmp > 0 <==> a > b)
  }

  ghost predicate SameValue(t: TypeOps, a: Datum, b: Datum) {
    t.extent(a) == t.extent(b) && forall c: Oid :: t.rank(c, a) == t.rank(c, b)
  }

  ghost predicate OrderLaw(t: TypeOps) {
    t.cmp.Some? ==> forall c: Oid, a: Datum, b: Datum :: SignIs(t.cmp.value(c, a, b), t.rank(c, a), t.rank(c, b))
  }

  ghost predicate SameRead(t: TypeOps, a: Option<Datum>, b: Option<Datum>) {
    a.Some? == b.Some? && (a.Some? ==> SameValue(t, a.value, b.value))
  }

  /** What prints reads back as the same value, and what was stored prints again. Not every value prints. */
  ghost predicate TextLaw(t: TypeOps) {
    && (forall d: Datum :: t.output(d).Some? ==>
          t.writes(t.output(d).value) && t.input(t.output(d).value).Some?
          && SameValue(t, t.input(t.output(d).value).value, d))
    && (forall text: Text :: t.writes(text) && t.input(text).Some? ==> t.output(t.input(text).value).Some?)
  }

  ghost predicate MergeLaw(t: TypeOps) {
    t.Kind() == Range ==> forall a: Datum, b: Datum :: t.extent(t.merge(a, b)) == Join(t.extent(a), t.extent(b))
  }

  function ExtentsOf(t: TypeOps, ds: seq<Datum>): (es: seq<Extent>)
    ensures |es| == |ds| && forall i :: 0 <= i < |es| ==> es[i] == t.extent(ds[i])
  {
    seq(|ds|, i requires 0 <= i < |ds| => t.extent(ds[i]))
  }

  function Hull(t: TypeOps, ds: seq<Datum>): Extent {
    JoinAll(ExtentsOf(t, ds))
  }

  /** `ST_Extent` is NULL for empty geometries only, and its text is a function of the extent. */
  ghost predicate ExtentLaw(t: TypeOps) {
    t.Kind() == Geometry ==>
      && (forall ds: seq<Datum> :: t.stExtent(ds).None? <==> Hull(t, ds).Nowhere?)
      && (forall ds: seq<Datum> :: t.stExtent(ds).Some? ==>
            t.writes(t.stExtent(ds).value) && t.input(t.stExtent(ds).value).Some?
            && t.extent(t.input(t.stExtent(ds).value).value) == Hull(t, ds))
      && (forall ds: seq<Datum>, es: seq<Datum> :: Hull(t, ds) == Hull(t, es) ==> t.stExtent(ds) == t.stExtent(es))
  }

  ghost predicate Lawful(t: TypeOps) {
    OrderLaw(t) && TextLaw(t) && MergeLaw(t) && ExtentLaw(t)
  }

  ghost predicate LawfulTypes(types: Types) {
    forall o: Oid :: Lawful(types(o))
  }

  /** One value's part of the laws. */
  lemma {:induction false} Reads(t: TypeOps, d: Datum)
    requires Lawful(t) && t.output(d).Some?
    ensures t.writes(t.output(d).value) && t.input(t.output(d).value).Some?
    ensures SameValue(t, t.input(t.output(d).value).value, d)
  {
  }

  lemma {:induction false} PrintsAgain(t: TypeOps, text: Text)
    requires Lawful(t) && t.writes(text) && t.input(text).Some?
    ensures t.output(t.input(text).value).Some?
  {
  }

  lemma {:induction false} Compares(t: TypeOps, c: Oid, a: Datum, b: Datum)
    requires Lawful(t) && t.cmp.Some?
    ensures SignIs(t.cmp.value(c, a, b), t.rank(c, a), t.rank(c, b))
  {
  }

  lemma {:induction false} Merges(t: TypeOps, a: Datum, b: Datum)
    requires Lawful(t) && t.Kind() == Range
    ensures t.extent(t.merge(a, b)) == Join(t.extent(a), t.extent(b))
  {
  }

  lemma {:induction false} HullReads(t: TypeOps, ds: seq<Datum>)
    requires Lawful(t) && t.Kind() == Geometry
    ensures t.stExtent(ds).None? <==> Hull(t, ds).Nowhere?
    ensures t.stExtent(ds).Some? ==>
      t.writes(t.stExtent(ds).value) && t.input(t.stExtent(ds).value).Some?
      && t.extent(t.input(t.stExtent(ds).value).value) == Hull(t, ds)
  {
  }

  lemma {:induction false} HullConcat(t: TypeOps, a: seq<Datum>, b: seq<Datum>)
    ensures Hull(t, a + b) == Join(Hull(t, a), Hull(t, b))
  {
    assert ExtentsOf(t, a + b) == ExtentsOf(t, a) + ExtentsOf(t, b);
    JoinAllConcat(ExtentsOf(t, a), ExtentsOf(t, b));
  }

  lemma {:induction false} HullOne(t: TypeOps, d: Datum)
    ensures Hull(t, [d]) == t.extent(d)
  {
    var es := ExtentsOf(t, [d]);
    assert es[..|es| - 1] == [];
    assert JoinAll(es) == Join(JoinAll(es[..|es| - 1]), es[0]);
  }

  lemma {:induction false} HullUpper(t: TypeOps, ds: seq<Datum>, d: Datum)
    requires d in ds
    ensures Within(t.extent(d), Hull(t, ds))
  {
    var i :| 0 <= i < |ds| && ds[i] == d;
    assert ExtentsOf(t, ds)[i] == t.extent(d);
    JoinAllUpper(ExtentsOf(t, ds), t.extent(d));
  }

  // ---- coverage ----------------------------------------------------------------------

  /** The extent a stored text stands for; no text stands for no extent. */
  function StoredExtent(t: TypeOps, text: Option<Text>): Extent {
    if text.Some? && t.input(text.value).Some? then t.extent(t.input(text.value).value) else Nowhere
  }

  predicate BoundsParse(t: TypeOps, c: ColSummary) {
    c.min.Some? && c.max.Some? && t.input(c.min.value).Some? && t.input(c.max.value).Some?
  }

  ghost predicate Between(t: TypeOps, c: ColSummary, d: Datum) {
    && BoundsParse(t, c)
    && t.rank(c.collation, t.input(c.min.value).value) <= t.rank(c.collation, d)
    && t.rank(c.collation, d) <= t.rank(c.collation, t.input(c.max.value).value)
  }

  /** The summary `c` of a column of type `t` admits the value `v` (`None` is NULL). */
  ghost predicate Covers(t: TypeOps, c: ColSummary, v: Option<Datum>) {
    match v
    case None => c.hasNulls
    case Some(d) =>
      && !c.allNulls
      && (c.unbounded || if c.overlap then Within(t.extent(d), StoredExtent(t, c.min)) else Between(t, c, d))
  }

  /** `after` admits everything `before` does. */
  ghost predicate Wider(t: TypeOps, before: ColSummary, after: ColSummary) {
    forall v: Option<Datum> :: Covers(t, before, v) ==> Covers(t, after, v)
  }

  // ---- rows and whole summaries ------------------------------------------------------

  /** A key column of the index; `attnum` is 0 for an expression. */
  datatype IndexAttr = IndexAttr(attnum: I16, typ: Oid, collation: Oid)

  /** A heap row: the values of its non-NULL columns. */
  type Row = map<I16, Datum>

  function Value(row: Row, attnum: I16): Option<Datum> {
    if attnum in row then Some(row[attnum]) else None
  }

  /** The positions of the summarized key columns. Expression and system columns are left out. */
  function Positions(attrs: seq<IndexAttr>): (ps: seq<nat>)
    ensures forall k :: 0 <= k < |ps| ==> ps[k] < |attrs| && attrs[ps[k]].attnum > 0
    ensures forall j, k :: 0 <= j < k < |ps| ==> ps[j] < ps[k]
  {
    if attrs == [] then [] else
    var last := |attrs| - 1;
    var ps := Positions(attrs[..last]);
    if attrs[last].attnum > 0 then ps + [last] else ps
  }

  lemma {:induction false} PositionsComplete(attrs: seq<IndexAttr>, i: nat) returns (k: nat)
    requires i < |attrs| && attrs[i].attnum > 0
    ensures k < |Positions(attrs)| && Positions(attrs)[k] == i
  {
    var last := |attrs| - 1;
    if i == last {
      k := |Positions(attrs)| - 1;
    } else {
      k := PositionsComplete(attrs[..last], i);
    }
  }

  /** The columns a summary has entries for. */
  function Summarized(attrs: seq<IndexAttr>): (s: seq<IndexAttr>)
    ensures |s| == |Positions(attrs)|
    ensures forall k :: 0 <= k < |s| ==> s[k] == attrs[Positions(attrs)[k]]
  {
    var ps := Positions(attrs);
    seq(|ps|, k requires 0 <= k < |ps| => attrs[ps[k]])
  }

  lemma {:induction false} SummarizedComplete(attrs: seq<IndexAttr>, i: nat) returns (k: nat)
    requires i < |attrs| && attrs[i].attnum > 0
    ensures k < |Summarized(attrs)| && Positions(attrs)[k] == i && Summarized(attrs)[k] == attrs[i]
  {
    k := PositionsComplete(attrs, i);
  }

  /** The entry a search by attnum finds: the first of a column's entries. */
  ghost predicate IsFirst(s: seq<IndexAttr>, k: nat) {
    k < |s| && forall j :: 0 <= j < k ==> s[j].attnum != s[k].attnum
  }

  /** No column is indexed twice. */
  ghost predicate Distinct(attrs: seq<IndexAttr>) {
    var s := Summarized(attrs);
    forall i, j :: 0 <= i < j < |s| ==> s[i].attnum != s[j].attnum
  }

  /** What sorts before something under `second` does not sort after it under `first`. */
  ghost predicate Refines(t: TypeOps, first: Oid, second: Oid) {
    forall x: Text, y: Text | t.writes(x) && t.writes(y) && t.input(x).Some? && t.input(y).Some?
      && t.rank(second, t.input(x).value) < t.rank(second, t.input(y).value) ::
      t.rank(first, t.input(x).value) <= t.rank(first, t.input(y).value)
  }

  /** A heap column has one type, however often it is indexed. */
  ghost predicate OneType(attrs: seq<IndexAttr>) {
    var s := Summarized(attrs);
    forall i, j :: 0 <= i < j < |s| && s[i].attnum == s[j].attnum ==> s[i].typ == s[j].typ
  }

  /** Wherever a column is indexed again, its later collations refine the first one. */
  ghost predicate Agreeing(types: Types, attrs: seq<IndexAttr>) {
    var s := Summarized(attrs);
    forall i, j :: 0 <= i < j < |s| && s[i].attnum == s[j].attnum && IsFirst(s, i) && types(s[i].typ).Kind() == Scalar
      ==> Refines(types(s[i].typ), s[i].collation, s[j].collation)
  }

  /** The index tuple of a row; what an expression column evaluates to does not matter. */
  ghost predicate TupleOf(attrs: seq<IndexAttr>, row: Row, values: seq<Option<Datum>>) {
    && |values| == |attrs|
    && forall i :: 0 <= i < |attrs| && attrs[i].attnum > 0 ==> values[i] == Value(row, attrs[i].attnum)
  }

  const DOT_GEOMETRY: Bytes := [46, 103, 101, 111, 109, 101, 116, 114, 121]

  /** How an insert tells a geometry column: by the end of its type name, which includes the schema. */
  predicate NamesGeometry(name: Text) {
    |DOT_GEOMETRY| <= |name| && name[|name| - |DOT_GEOMETRY|..] == DOT_GEOMETRY
  }

  /** `c` is a summary of the column `a`, as the build makes them. */
  ghost predicate Describes(t: TypeOps, a: IndexAttr, c: ColSummary) {
    && c.attnum == a.attnum && c.collation == a.collation
    && c.overlap == (t.Kind() == Range || t.Kind() == Geometry)
    && NamesGeometry(c.typeName) == (t.Kind() == Geometry)
    && (t.Kind() == Unsupported ==> c.unbounded)
    && Written(t, c)
  }

  /** The bounds are texts some session stored. */
  ghost predicate Written(t: TypeOps, c: ColSummary) {
    (c.min.Some? ==> t.writes(c.min.value)) && (c.max.Some? ==> t.writes(c.max.value))
  }

  ghost predicate DescribesAll(types: Types, attrs: seq<IndexAttr>, cols: seq<ColSummary>) {
    var s := Summarized(attrs);
    |cols| == |s| && forall k :: 0 <= k < |s| ==> Describes(types(s[k].typ), s[k], cols[k])
  }

  /** Every column's entry admits its value in `row`; only the first entry of a column is ever looked at. */
  ghost predicate CoversRow(types: Types, attrs: seq<IndexAttr>, cols: seq<ColSummary>, row: Row)
    requires |cols| == |Summarized(attrs)|
  {
    var s := Summarized(attrs);
    forall k :: 0 <= k < |s| && IsFirst(s, k) ==> Covers(types(s[k].typ), cols[k], Value(row, s[k].attnum))
  }

  /** Column by column, `after` admits everything `before` does. */
  ghost predicate WiderAll(types: Types, attrs: seq<IndexAttr>, before: seq<ColSummary>, after: seq<ColSummary>) {
    var s := Summarized(attrs);
    |before| == |after| == |s| && forall k :: 0 <= k < |s| ==> Wider(types(s[k].typ), before[k], after[k])
  }

  lemma {:induction false} WiderAllTransitive(types: Types, attrs: seq<IndexAttr>, a: seq<ColSummary>,
                                              b: seq<ColSummary>, c: seq<ColSummary>)
    requires WiderAll(types, attrs, a, b) && WiderAll(types, attrs, b, c)
    ensures WiderAll(types, attrs, a, c)
  {
    hide Covers;
  }

  lemma {:induction false} WiderRow(types: Types, attrs: seq<IndexAttr>, before: seq<ColSummary>,
                                    after: seq<ColSummary>, row: Row)
    requires WiderAll(types, attrs, before, after) && CoversRow(types, attrs, before, row)
    ensures CoversRow(types, attrs, after, row)
  {
  }

  // ---- other sessions ------------------------------------------------------------------

  /**
   * `u` is the type `t` as another session sees it: values mean the same and print or do not print
   * alike, and stored texts read alike.
   */
  ghost predicate Alike(t: TypeOps, u: TypeOps) {
    && u == t.(output := u.output, input := u.input, stExtent := u.stExtent)
    && Lawful(u)
    && (forall d: Datum :: u.output(d).Some? == t.output(d).Some?)
    && forall text: Text | t.writes(text) :: SameRead(t, u.input(text), t.input(text))
  }

  lemma {:induction false} CoversAlike(t: TypeOps, u: TypeOps, c: ColSummary, v: Option<Datum>)
    requires Alike(t, u) && Written(t, c)
    ensures Covers(u, c, v) == Covers(t, c, v)
  {
    hide Lawful;
    if c.min.Some? {
      assert SameRead(t, u.input(c.min.value), t.input(c.min.value));
    }
    if c.max.Some? {
      assert SameRead(t, u.input(c.max.value), t.input(c.max.value));
    }
  }

  ghost predicate AlikeTypes(types: Types, seen: Types) {
    forall o: Oid :: Alike(types(o), seen(o))
  }

  lemma {:induction false} CoversRowAlike(types: Types, seen: Types, attrs: seq<IndexAttr>, cols: seq<ColSummary>,
                                          row: Row)
    requires AlikeTypes(types, seen) && DescribesAll(types, attrs, cols)
    ensures DescribesAll(seen, attrs, cols)
    ensures CoversRow(seen, attrs, cols, row) <==> CoversRow(types, attrs, cols, row)
  {
    DescribesAlike(types, seen, attrs, cols);
    var s := Summarized(attrs);
    forall k | 0 <= k < |s| && IsFirst(s, k)
      ensures Covers(seen(s[k].typ), cols[k], Value(row, s[k].attnum))
           == Covers(types(s[k].typ), cols[k], Value(row, s[k].attnum))
    {
      CoversAlike(types(s[k].typ), seen(s[k].typ), cols[k], Value(row, s[k].attnum));
    }
  }

  lemma {:induction false} DescribesAlike(types: Types, seen: Types, attrs: seq<IndexAttr>, cols: seq<ColSummary>)
    requires AlikeTypes(types, seen)
    ensures DescribesAll(seen, attrs, cols) <==> DescribesAll(types, attrs, cols)
  {
    hide Lawful, SameRead;
    var s := Summarized(attrs);
    if |cols| == |s| {
      forall k | 0 <= k < |s|
        ensures Describes(seen(s[k].typ), s[k], cols[k]) == Describes(types(s[k].typ), s[k], cols[k])
      {
        assert Alike(types(s[k].typ), seen(s[k].typ));
      }
    }
  }

  lemma {:induction false} WiderAllAlike(types: Types, seen: Types, attrs: seq<IndexAttr>,
                                         before: seq<ColSummary>, after: seq<ColSummary>)
    requires AlikeTypes(types, seen) && DescribesAll(types, attrs, before) && DescribesAll(types, attrs, after)
    requires WiderAll(seen, attrs, before, after)
    ensures WiderAll(types, attrs, before, after)
  {
    hide Covers, Lawful, SameRead;
    var s := Summarized(attrs);
    forall k | 0 <= k < |s| ensures Wider(types(s[k].typ), before[k], after[k]) {
      var t, u := types(s[k].typ), seen(s[k].typ);
      assert Alike(t, u) && Describes(t, s[k], before[k]) && Describes(t, s[k], after[k]);
      forall v: Option<Datum> | Covers(t, before[k], v) ensures Covers(t, after[k], v) {
        CoversAlike(t, u, before[k], v);
        CoversAlike(t, u, after[k], v);
        assert Wider(u, before[k], after[k]);
      }
    }
  }

  lemma {:induction false} RefinesAlike(t: TypeOps, u: TypeOps, first: Oid, second: Oid)
    requires Alike(t, u) && Refines(t, first, second)
    ensures Refines(u, first, second)
  {
    hide Lawful;
    forall x: Text, y: Text | u.writes(x) && u.writes(y) && u.input(x).Some? && u.input(y).Some?
      && u.rank(second, u.input(x).value) < u.rank(second, u.input(y).value)
      ensures u.rank(first, u.input(x).value) <= u.rank(first, u.input(y).value)
    {
      assert SameRead(t, u.input(x), t.input(x)) && SameRead(t, u.input(y), t.input(y));
    }
  }

  lemma {:induction false} AgreeingAlike(types: Types, seen: Types, attrs: seq<IndexAttr>)
    requires AlikeTypes(types, seen) && Agreeing(types, attrs)
    ensures LawfulTypes(seen) && Agreeing(seen, attrs)
  {
    assert LawfulTypes(seen);
    hide Lawful, SameRead, Refines, IsFirst, Summarized;
    var s := Summarized(attrs);
    forall i, j | 0 <= i < j < |s| && s[i].attnum == s[j].attnum && IsFirst(s, i) && seen(s[i].typ).Kind() == Scalar
      ensures Refines(seen(s[i].typ), s[i].collation, s[j].collation)
    {
      assert Alike(types(s[i].typ), seen(s[i].typ));
      RefinesAlike(types(s[i].typ), seen(s[i].typ), s[i].collation, s[j].collation);
    }
  }
}
