/** Exactly when an index over one column twice is safe to widen. */
module Agreement {
  import opened Base
  import opened Format
  import opened Coverage
  import opened Widening

  /** Widening by any tuple admits the tuple's row and loses no row. */
  ghost predicate KeepsRows(types: Types, attrs: seq<IndexAttr>) {
    forall cols: seq<ColSummary>, values: seq<Option<Datum>>, row: Row, kept: Row ::
      KeepsRow(types, attrs, cols, values, row, kept)
  }

  ghost predicate KeepsRow(types: Types, attrs: seq<IndexAttr>, cols: seq<ColSummary>, values: seq<Option<Datum>>,
                           row: Row, kept: Row)
  {
    DescribesAll(types, attrs, cols) && TupleOf(attrs, row, values) && CoversRow(types, attrs, cols, kept) ==>
      var after := WidenRow(types, attrs, cols, values).cols;
      CoversRow(types, attrs, after, row) && CoversRow(types, attrs, after, kept)
  }

  lemma {:induction false} DotGeometryNames()
    ensures ValidUtf8(DOT_GEOMETRY) && NamesGeometry(DOT_GEOMETRY)
  {
    hide ValidUtf8;
    AsciiIsValid(DOT_GEOMETRY);
    assert DOT_GEOMETRY[|DOT_GEOMETRY| - |DOT_GEOMETRY|..] == DOT_GEOMETRY;
  }

  /** A type name that a geometry column has, or that another has. */
  function SomeName(geometry: bool): (name: Text)
    ensures NamesGeometry(name) == geometry
  {
    DotGeometryNames();
    if geometry then DOT_GEOMETRY else []
  }

  /** An entry that admits everything. */
  function Anything(t: TypeOps, a: IndexAttr): ColSummary {
    ColSummary(a.attnum, t.Kind() in {Range, Geometry}, SomeName(t.Kind() == Geometry), a.collation,
               None, None, true, false, true)
  }

  lemma {:induction false} AnythingCovers(t: TypeOps, a: IndexAttr, v: Option<Datum>)
    ensures Describes(t, a, Anything(t, a)) && Covers(t, Anything(t, a), v)
  {
  }

  /** Entries that admit everything, but for bounds from `y` to `x` in entry `i`. */
  function Table(types: Types, attrs: seq<IndexAttr>, i: nat, y: Text, x: Text): (cols: seq<ColSummary>)
    requires i < |Summarized(attrs)|
    ensures |cols| == |Summarized(attrs)|
  {
    var s := Summarized(attrs);
    var cols := seq(|s|, k requires 0 <= k < |s| => Anything(types(s[k].typ), s[k]));
    cols[i := cols[i].(min := Some(y), max := Some(x), unbounded := false)]
  }

  /** A key whose later collation sorts `y` after `x` where the first sorts it before. */
  datatype Conflict = Conflict(i: nat, j: nat, y: Text, x: Text)

  ghost predicate Conflicts(types: Types, attrs: seq<IndexAttr>, f: Conflict) {
    var s := Summarized(attrs);
    && f.i < f.j < |s| && IsFirst(s, f.i) && s[f.j].attnum == s[f.i].attnum
    && var t := types(s[f.i].typ);
    && t.Kind() == Scalar && t.writes(f.y) && t.writes(f.x) && t.input(f.y).Some? && t.input(f.x).Some?
    && var a, b := t.input(f.y).value, t.input(f.x).value;
    && t.rank(s[f.i].collation, a) < t.rank(s[f.i].collation, b)
    && t.rank(s[f.j].collation, b) < t.rank(s[f.j].collation, a)
  }

  lemma {:induction false} FindConflict(types: Types, attrs: seq<IndexAttr>) returns (f: Conflict)
    requires !Agreeing(types, attrs)
    ensures Conflicts(types, attrs, f)
  {
    hide Refines, TypeOps.Kind, IsFirst, Summarized;
    var s := Summarized(attrs);
    var i, j :| 0 <= i < j < |s| && s[i].attnum == s[j].attnum && IsFirst(s, i) && types(s[i].typ).Kind() == Scalar
      && !Refines(types(s[i].typ), s[i].collation, s[j].collation);
    var x, y := NotRefining(types(s[i].typ), s[i].collation, s[j].collation);
    f := Conflict(i, j, y, x);
  }

  lemma {:induction false} NotRefining(t: TypeOps, first: Oid, second: Oid) returns (x: Text, y: Text)
    requires !Refines(t, first, second)
    ensures t.writes(x) && t.writes(y) && t.input(x).Some? && t.input(y).Some?
    ensures t.rank(second, t.input(x).value) < t.rank(second, t.input(y).value)
    ensures t.rank(first, t.input(x).value) > t.rank(first, t.input(y).value)
  {
    x, y :| t.writes(x) && t.writes(y) && t.input(x).Some? && t.input(y).Some?
      && t.rank(second, t.input(x).value) < t.rank(second, t.input(y).value)
      && t.rank(first, t.input(x).value) > t.rank(first, t.input(y).value);
  }

  /** The tuple of the row that has `d` in column `attnum` and NULL elsewhere. */
  function Alone(attrs: seq<IndexAttr>, attnum: I16, d: Datum): (values: seq<Option<Datum>>)
    ensures TupleOf(attrs, map[attnum := d], values)
  {
    seq(|attrs|, p requires 0 <= p < |attrs| => Value(map[attnum := d], attrs[p].attnum))
  }

  /** What a key with collation `c` makes of bounds from `y` to `x`, or to the inserted value itself. */
  lemma {:induction false} Shrinks(t: TypeOps, c: Oid, col: ColSummary, y: Text, x: Text)
    requires Lawful(t) && t.Kind() == Scalar && t.writes(y) && t.input(y).Some? && t.input(x).Some?
    requires !col.overlap && !col.unbounded && !col.allNulls && col.min == Some(y)
    ensures t.output(t.input(y).value).Some?
    ensures var a, b := t.input(y).value, t.input(x).value;
      var w := WidenCol(t, c, col, Some(a)).col;
      && (col.max == Some(x) ==>
            w == if t.rank(c, b) < t.rank(c, a) then col.(max := t.output(a)) else col)
      && (col.max == t.output(a) ==> w == col)
  {
    hide Lawful, TypeOps.Kind;
    var a, b := t.input(y).value, t.input(x).value;
    PrintsAgain(t, y);
    Reads(t, a);
    var read := t.input(t.output(a).value).value;
    Compares(t, c, a, a);
    Compares(t, c, a, b);
    Compares(t, c, a, read);
  }

  /** The entry found by `find` when the attnums are those of the index. */
  lemma {:induction false} FindsFirst(s: seq<IndexAttr>, cols: seq<ColSummary>, i: nat, attnum: I16)
    requires |cols| == |s| && IsFirst(s, i) && forall k :: 0 <= k < |s| ==> cols[k].attnum == s[k].attnum
    ensures FindCol(cols, attnum) == Some(i) <==> attnum == s[i].attnum
  {
    if attnum == s[i].attnum {
      assert cols[i].attnum == attnum;
    }
  }

  /** The conflict's entry, with its bounds as they were or shrunk to the inserted value. */
  ghost predicate Tracked(types: Types, attrs: seq<IndexAttr>, f: Conflict, cols: seq<ColSummary>, shrunk: bool)
    requires Conflicts(types, attrs, f)
  {
    var s := Summarized(attrs);
    var t, before := types(s[f.i].typ), Table(types, attrs, f.i, f.y, f.x)[f.i];
    && |cols| == |s| && (forall k :: 0 <= k < |s| ==> cols[k].attnum == s[k].attnum)
    && (cols[f.i] == before.(max := t.output(t.input(f.y).value)) || (!shrunk && cols[f.i] == before))
  }

  /** What one more key makes of the entries. */
  function WithKey(types: Types, key: IndexAttr, cols: seq<ColSummary>, v: Option<Datum>): (r: seq<ColSummary>)
    ensures |r| == |cols|
  {
    match FindCol(cols, key.attnum)
    case None => cols
    case Some(k) => cols[k := WidenCol(types(key.typ), key.collation, cols[k], v).col]
  }

  lemma {:induction false} WithKeyAt(types: Types, s: seq<IndexAttr>, key: IndexAttr, cols: seq<ColSummary>, i: nat,
                                     v: Option<Datum>)
    requires |cols| == |s| && IsFirst(s, i) && forall k :: 0 <= k < |s| ==> cols[k].attnum == s[k].attnum
    ensures var r := WithKey(types, key, cols, v);
      && (forall k :: 0 <= k < |s| ==> r[k].attnum == s[k].attnum)
      && r[i] == if key.attnum == s[i].attnum then WidenCol(types(key.typ), key.collation, cols[i], v).col else cols[i]
  {
    FindsFirst(s, cols, i, key.attnum);
    KeepsAttnums(types, key, cols, v);
    hide WidenCol, FindCol;
  }

  lemma {:induction false} EntryTracks(t: TypeOps, c: Oid, before: ColSummary, col: ColSummary, y: Text, x: Text,
                                       shrunk: bool)
    requires Lawful(t) && t.Kind() == Scalar && t.writes(y) && t.input(y).Some? && t.input(x).Some?
    requires !before.overlap && !before.unbounded && !before.allNulls && before.min == Some(y) && before.max == Some(x)
    requires var out := t.output(t.input(y).value);
      col == before.(max := out) || (!shrunk && col == before)
    ensures var out, w := t.output(t.input(y).value), WidenCol(t, c, col, t.input(y)).col;
      && (w == before.(max := out) || (!shrunk && w == before))
      && (t.rank(c, t.input(x).value) < t.rank(c, t.input(y).value) ==> w == before.(max := out))
  {
    hide Lawful, WidenCol, TypeOps.Kind;
    Shrinks(t, c, col, y, x);
  }

  lemma {:induction false} KeyTracks(types: Types, attrs: seq<IndexAttr>, f: Conflict, n: nat, cols: seq<ColSummary>,
                                     shrunk: bool)
    requires LawfulTypes(types) && OneType(attrs) && Conflicts(types, attrs, f) && n < |attrs|
    requires Tracked(types, attrs, f, cols, shrunk)
    ensures var s := Summarized(attrs);
      var v := Value(map[s[f.i].attnum := types(s[f.i].typ).input(f.y).value], attrs[n].attnum);
      Tracked(types, attrs, f, WithKey(types, attrs[n], cols, v), shrunk || n == Positions(attrs)[f.j])
  {
    var s, key := Summarized(attrs), attrs[n];
    var t := types(s[f.i].typ);
    assert n == Positions(attrs)[f.j] ==> key == s[f.j];
    assert Lawful(t);
    hide LawfulTypes, Lawful, WidenCol, Summarized, Positions, TypeOps.Kind, FindCol;
    var v := Value(map[s[f.i].attnum := t.input(f.y).value], key.attnum);
    WithKeyAt(types, s, key, cols, f.i, v);
    if key.attnum == s[f.i].attnum {
      SameType(attrs, f.i, n);
      EntryTracks(t, key.collation, Table(types, attrs, f.i, f.y, f.x)[f.i], cols[f.i], f.y, f.x, shrunk);
    }
    hide WithKey, Table, OneType;
  }

  lemma {:induction false} StartTracked(types: Types, attrs: seq<IndexAttr>, f: Conflict)
    requires Conflicts(types, attrs, f)
    ensures Tracked(types, attrs, f, Table(types, attrs, f.i, f.y, f.x), false)
  {
    hide Summarized, TypeOps.Kind;
  }

  /** The tuple that is inserted. */
  function Inserted(types: Types, attrs: seq<IndexAttr>, f: Conflict): (values: seq<Option<Datum>>)
    requires f.i < |Summarized(attrs)| && types(Summarized(attrs)[f.i].typ).input(f.y).Some?
    ensures |values| == |attrs|
  {
    Alone(attrs, Summarized(attrs)[f.i].attnum, types(Summarized(attrs)[f.i].typ).input(f.y).value)
  }

  /** The entries after the first `n` keys. */
  function Stage(types: Types, attrs: seq<IndexAttr>, f: Conflict, n: nat): seq<ColSummary>
    requires f.i < |Summarized(attrs)| && types(Summarized(attrs)[f.i].typ).input(f.y).Some? && n <= |attrs|
  {
    WidenFirst(types, attrs, Table(types, attrs, f.i, f.y, f.x), Inserted(types, attrs, f), n).cols
  }

  lemma {:induction false} StageStep(types: Types, attrs: seq<IndexAttr>, f: Conflict, n: nat)
    requires f.i < |Summarized(attrs)| && types(Summarized(attrs)[f.i].typ).input(f.y).Some? && 0 < n <= |attrs|
    ensures Stage(types, attrs, f, n)
         == WithKey(types, attrs[n - 1], Stage(types, attrs, f, n - 1), Inserted(types, attrs, f)[n - 1])
  {
    hide WidenCol, FindCol, Inserted, Table;
  }

  lemma {:induction false} Tracks(types: Types, attrs: seq<IndexAttr>, f: Conflict, n: nat)
    requires LawfulTypes(types) && OneType(attrs) && Conflicts(types, attrs, f) && n <= |attrs|
    ensures Tracked(types, attrs, f, Stage(types, attrs, f, n), Positions(attrs)[f.j] < n)
  {
    hide LawfulTypes, OneType, Tracked, Summarized, Positions, WithKey;
    if n == 0 {
      StartTracked(types, attrs, f);
    } else {
      hide Stage;
      Tracks(types, attrs, f, n - 1);
      StageStep(types, attrs, f, n);
      KeyTracks(types, attrs, f, n - 1, Stage(types, attrs, f, n - 1), Positions(attrs)[f.j] < n - 1);
    }
  }

  lemma {:induction false} SameType(attrs: seq<IndexAttr>, i: nat, n: nat)
    requires OneType(attrs) && IsFirst(Summarized(attrs), i) && n < |attrs|
    requires attrs[n].attnum == Summarized(attrs)[i].attnum
    ensures attrs[n].typ == Summarized(attrs)[i].typ
  {
    FirstKey(attrs, n, i);
  }

  lemma {:induction false} ShrunkLoses(t: TypeOps, c: ColSummary, y: Text, x: Text)
    requires Lawful(t) && t.writes(y) && t.input(y).Some? && t.input(x).Some?
    requires t.rank(c.collation, t.input(y).value) < t.rank(c.collation, t.input(x).value)
    requires !c.overlap && !c.unbounded && c.max == t.output(t.input(y).value)
    ensures !Covers(t, c, t.input(x))
  {
    hide Lawful;
    PrintsAgain(t, y);
    Reads(t, t.input(y).value);
  }

  /** A conflict loses a row. */
  lemma {:induction false} ConflictLoses(types: Types, attrs: seq<IndexAttr>, f: Conflict)
    requires LawfulTypes(types) && OneType(attrs) && Conflicts(types, attrs, f)
    ensures !KeepsRows(types, attrs)
  {
    hide LawfulTypes, Covers, DescribesAll, OneType, Tracked, CoversRow, Summarized;
    var s := Summarized(attrs);
    var t, values := types(s[f.i].typ), Inserted(types, attrs, f);
    var row, kept: Row := map[s[f.i].attnum := t.input(f.y).value], map[s[f.i].attnum := t.input(f.x).value];
    TableCovers(types, attrs, f);
    Tracks(types, attrs, f, |attrs|);
    LostAt(types, attrs, f, Stage(types, attrs, f, |attrs|));
    hide Table, WidenFirst, Alone;
    assert !KeepsRow(types, attrs, Table(types, attrs, f.i, f.y, f.x), values, row, kept);
  }

  lemma {:induction false} ShrunkEntry(types: Types, attrs: seq<IndexAttr>, f: Conflict, after: seq<ColSummary>)
    requires Conflicts(types, attrs, f) && Tracked(types, attrs, f, after, true)
    ensures var s := Summarized(attrs);
      && |after| == |s| && !after[f.i].overlap && !after[f.i].unbounded && after[f.i].collation == s[f.i].collation
      && after[f.i].max == types(s[f.i].typ).output(types(s[f.i].typ).input(f.y).value)
  {
    hide TypeOps.Kind, Summarized;
  }

  lemma {:induction false} LostAt(types: Types, attrs: seq<IndexAttr>, f: Conflict, after: seq<ColSummary>)
    requires LawfulTypes(types) && Conflicts(types, attrs, f) && Tracked(types, attrs, f, after, true)
    ensures var s := Summarized(attrs);
      |after| == |s| && !CoversRow(types, attrs, after, map[s[f.i].attnum := types(s[f.i].typ).input(f.x).value])
  {
    hide Lawful, TypeOps.Kind, Covers, Summarized;
    var s := Summarized(attrs);
    var t := types(s[f.i].typ);
    assert Lawful(t);
    hide LawfulTypes;
    ShrunkEntry(types, attrs, f, after);
    hide Tracked;
    ShrunkLoses(t, after[f.i], f.y, f.x);
    var kept: Row := map[s[f.i].attnum := t.input(f.x).value];
    assert Value(kept, s[f.i].attnum) == t.input(f.x);
  }

  lemma {:induction false} TableCovers(types: Types, attrs: seq<IndexAttr>, f: Conflict)
    requires Conflicts(types, attrs, f)
    ensures var s := Summarized(attrs);
      var t, cols := types(s[f.i].typ), Table(types, attrs, f.i, f.y, f.x);
      && DescribesAll(types, attrs, cols)
      && CoversRow(types, attrs, cols, map[s[f.i].attnum := t.input(f.x).value])
  {
    var s := Summarized(attrs);
    var t, cols := types(s[f.i].typ), Table(types, attrs, f.i, f.y, f.x);
    var kept: Row := map[s[f.i].attnum := t.input(f.x).value];
    BoundedCovers(t, s[f.i], f.y, f.x);
    hide Summarized, Describes, Covers, Anything, TypeOps.Kind;
    forall k | 0 <= k < |s|
      ensures Describes(types(s[k].typ), s[k], cols[k])
      ensures IsFirst(s, k) ==> Covers(types(s[k].typ), cols[k], Value(kept, s[k].attnum))
    {
      AnythingCovers(types(s[k].typ), s[k], Value(kept, s[k].attnum));
    }
  }

  lemma {:induction false} BoundedCovers(t: TypeOps, a: IndexAttr, y: Text, x: Text)
    requires t.Kind() == Scalar && t.writes(y) && t.writes(x) && t.input(y).Some? && t.input(x).Some?
    requires t.rank(a.collation, t.input(y).value) < t.rank(a.collation, t.input(x).value)
    ensures var c := Anything(t, a).(min := Some(y), max := Some(x), unbounded := false);
      Describes(t, a, c) && Covers(t, c, t.input(x))
  {
    hide TypeOps.Kind;
  }

  /**
   * Widening never loses a row, and admits the new one, if and only if every column indexed again
   * is sorted no finer at first than later.
   */
  lemma {:induction false} KeepsRowsIff(types: Types, attrs: seq<IndexAttr>)
    requires LawfulTypes(types) && OneType(attrs)
    ensures KeepsRows(types, attrs) <==> Agreeing(types, attrs)
  {
    if Agreeing(types, attrs) {
      forall cols: seq<ColSummary>, values: seq<Option<Datum>>, row: Row, kept: Row
        ensures KeepsRow(types, attrs, cols, values, row, kept)
      {
        AgreeingKeeps(types, attrs, cols, values, row, kept);
      }
    } else {
      var f := FindConflict(types, attrs);
      ConflictLoses(types, attrs, f);
    }
    hide KeepsRow, Agreeing, LawfulTypes;
  }

  lemma {:induction false} AgreeingKeeps(types: Types, attrs: seq<IndexAttr>, cols: seq<ColSummary>,
                                         values: seq<Option<Datum>>, row: Row, kept: Row)
    requires LawfulTypes(types) && OneType(attrs) && Agreeing(types, attrs)
    ensures KeepsRow(types, attrs, cols, values, row, kept)
  {
    hide LawfulTypes, OneType, Agreeing, WidenFirst, Describes, CoversRow;
    if DescribesAll(types, attrs, cols) && TupleOf(attrs, row, values) && CoversRow(types, attrs, cols, kept) {
      WidenRowCovers(types, attrs, cols, values, row);
      WiderRow(types, attrs, cols, WidenRow(types, attrs, cols, values).cols, kept);
    }
  }

  /** As they are when each column has one collation, however often it is indexed. */
  lemma {:induction false} SameCollationAgrees(types: Types, attrs: seq<IndexAttr>)
    requires var s := Summarized(attrs);
      forall i, j :: 0 <= i < j < |s| && s[i].attnum == s[j].attnum ==> s[i].collation == s[j].collation
    ensures Agreeing(types, attrs)
  {
    hide Summarized, IsFirst, TypeOps.Kind;
  }
}
