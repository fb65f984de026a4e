/** What a row makes of the entries the planner reads: the first of each column. */
module FirstEntries {
  import opened Base
  import opened Format
  import opened Coverage
  import opened Widening

  /** The entries are those of the index's columns, in order. */
  ghost predicate InOrder(attrs: seq<IndexAttr>, cols: seq<ColSummary>) {
    var s := Summarized(attrs);
    |cols| == |s| && forall k :: 0 <= k < |s| ==> cols[k].attnum == s[k].attnum
  }

  /** `P` survives folding `v` in again, under any collation that refines `first`. */
  ghost predicate KeptByMore(t: TypeOps, first: Oid, v: Option<Datum>, P: ColSummary -> bool) {
    forall c: ColSummary, second: Oid | P(c) && (t.Kind() == Scalar ==> Refines(t, first, second)) ::
      P(WidenCol(t, second, c, v).col)
  }

  /** Where the search by attnum ends, when the entries are in order. */
  lemma {:induction false} FindsFirst(attrs: seq<IndexAttr>, cols: seq<ColSummary>, attnum: I16, k: nat)
    requires InOrder(attrs, cols) && IsFirst(Summarized(attrs), k)
    ensures FindCol(cols, attnum) == Some(k) <==> attnum == Summarized(attrs)[k].attnum
  {
    hide FindCol, Summarized;
    var f := FindCol(cols, attnum);
    if attnum == Summarized(attrs)[k].attnum {
      assert cols[k].attnum == attnum;
    }
  }

  lemma {:induction false} StaysInOrder(types: Types, attrs: seq<IndexAttr>, cols: seq<ColSummary>,
                                        values: seq<Option<Datum>>, n: nat)
    requires InOrder(attrs, cols) && n <= |attrs| == |values|
    ensures InOrder(attrs, WidenFirst(types, attrs, cols, values, n).cols)
  {
    hide WidenCol, FindCol, Summarized;
    if n > 0 {
      StaysInOrder(types, attrs, cols, values, n - 1);
      KeepsAttnums(types, attrs[n - 1], WidenFirst(types, attrs, cols, values, n - 1).cols, values[n - 1]);
    }
  }

  /** What one key more makes of the entry `k`. */
  lemma {:induction false} OneKey(types: Types, attrs: seq<IndexAttr>, cols: seq<ColSummary>,
                                  values: seq<Option<Datum>>, k: nat, n: nat)
    requires InOrder(attrs, cols) && n < |attrs| == |values| && IsFirst(Summarized(attrs), k)
    ensures k < |WidenFirst(types, attrs, cols, values, n).cols|
    ensures var was := WidenFirst(types, attrs, cols, values, n).cols;
      var now := WidenFirst(types, attrs, cols, values, n + 1).cols;
      now[k] == if attrs[n].attnum == Summarized(attrs)[k].attnum
                then WidenCol(types(attrs[n].typ), attrs[n].collation, was[k], values[n]).col else was[k]
  {
    hide WidenCol, FindCol, Summarized;
    StaysInOrder(types, attrs, cols, values, n);
    FindsFirst(attrs, WidenFirst(types, attrs, cols, values, n).cols, attrs[n].attnum, k);
  }

  /**
   * A key on the column of the entry `k` folds the entry's own value in, under its collation or one that
   * refines it.
   */
  lemma {:induction false} SameColumn(types: Types, attrs: seq<IndexAttr>, row: Row, values: seq<Option<Datum>>, k: nat,
                                      n: nat)
    requires OneType(attrs) && Agreeing(types, attrs) && TupleOf(attrs, row, values)
    requires IsFirst(Summarized(attrs), k) && n < |attrs| && attrs[n].attnum == Summarized(attrs)[k].attnum
    ensures var a := Summarized(attrs)[k];
      && attrs[n].typ == a.typ && values[n] == values[Positions(attrs)[k]]
      && (!Reached(attrs, a.attnum, n) ==> attrs[n] == a)
      && (types(a.typ).Kind() == Scalar ==> Refines(types(a.typ), a.collation, attrs[n].collation))
  {
    var a := Summarized(attrs)[k];
    assert attrs[Positions(attrs)[k]] == a;
    LaterKey(types, attrs, n, k);
    FirstKey(attrs, n, k);
    RefinesItself(types(a.typ), a.collation);
    hide Summarized, Refines, OneType, Agreeing, TypeOps.Kind, Reached;
  }

  lemma {:induction false} Again(t: TypeOps, first: Oid, v: Option<Datum>, P: ColSummary -> bool, c: ColSummary,
                                 second: Oid)
    requires KeptByMore(t, first, v, P) && P(c) && (t.Kind() == Scalar ==> Refines(t, first, second))
    ensures P(WidenCol(t, second, c, v).col)
  {
    hide WidenCol, Refines;
  }

  /** What the first `n` keys have made of the entry `first` of the column. */
  ghost predicate Reaches(attrs: seq<IndexAttr>, attnum: I16, n: nat, P: ColSummary -> bool, first: ColSummary,
                          c: ColSummary)
    requires n <= |attrs|
  {
    if Reached(attrs, attnum, n) then P(c) else c == first
  }

  /** The entry `k` describes `a`, whose own key has the value `v`; folding it into `first` makes `P` hold for good. */
  ghost predicate Founded(types: Types, attrs: seq<IndexAttr>, values: seq<Option<Datum>>, k: nat,
                          P: ColSummary -> bool, first: ColSummary, a: IndexAttr, v: Option<Datum>)
  {
    && IsFirst(Summarized(attrs), k) && |values| == |attrs|
    && Summarized(attrs)[k] == a && values[Positions(attrs)[k]] == v
    && P(WidenCol(types(a.typ), a.collation, first, v).col) && KeptByMore(types(a.typ), a.collation, v, P)
  }

  /** One key more on the column. */
  lemma {:induction false} KeyReaches(types: Types, attrs: seq<IndexAttr>, row: Row, values: seq<Option<Datum>>, k: nat,
                                      n: nat, P: ColSummary -> bool, first: ColSummary, c: ColSummary, a: IndexAttr,
                                      v: Option<Datum>)
    requires OneType(attrs) && Agreeing(types, attrs) && TupleOf(attrs, row, values)
    requires Founded(types, attrs, values, k, P, first, a, v)
    requires n < |attrs| && attrs[n].attnum == a.attnum && Reaches(attrs, a.attnum, n, P, first, c)
    ensures Reaches(attrs, a.attnum, n + 1, P, first,
                    WidenCol(types(attrs[n].typ), attrs[n].collation, c, values[n]).col)
  {
    SameColumn(types, attrs, row, values, k, n);
    assert Reached(attrs, attrs[n].attnum, n + 1);
    hide WidenCol, Summarized, Refines, OneType, Agreeing, TypeOps.Kind, KeptByMore, TupleOf, IsFirst;
    if Reached(attrs, a.attnum, n) {
      Again(types(a.typ), a.collation, v, P, c, attrs[n].collation);
    }
  }

  /** A key on another column. */
  lemma {:induction false} KeyPasses(attrs: seq<IndexAttr>, attnum: I16, n: nat, P: ColSummary -> bool,
                                     first: ColSummary, c: ColSummary)
    requires n < |attrs| && attrs[n].attnum != attnum && Reaches(attrs, attnum, n, P, first, c)
    ensures Reaches(attrs, attnum, n + 1, P, first, c)
  {
    if Reached(attrs, attnum, n + 1) {
      ReachedSooner(attrs, attnum, n);
    }
  }

  lemma {:induction false} KeysReach(types: Types, attrs: seq<IndexAttr>, cols: seq<ColSummary>, row: Row,
                                     values: seq<Option<Datum>>, k: nat, n: nat, P: ColSummary -> bool, a: IndexAttr,
                                     v: Option<Datum>)
    requires OneType(attrs) && Agreeing(types, attrs) && TupleOf(attrs, row, values) && InOrder(attrs, cols)
    requires n <= |attrs| && k < |cols| && Founded(types, attrs, values, k, P, cols[k], a, v)
    ensures Reaches(attrs, a.attnum, n, P, cols[k], WidenFirst(types, attrs, cols, values, n).cols[k])
    decreases n
  {
    FoundedIsFirst(types, attrs, values, k, P, cols[k], a, v);
    NoKeys(types, attrs, cols, values, k, P, a.attnum);
    hide WidenCol, WidenFirst, FindCol, InOrder, OneType, Agreeing, Founded, TupleOf, IsFirst, Reaches;
    hide Summarized, Positions;
    if n > 0 {
      KeysReach(types, attrs, cols, row, values, k, n - 1, P, a, v);
      OneKey(types, attrs, cols, values, k, n - 1);
      var was := WidenFirst(types, attrs, cols, values, n - 1).cols[k];
      if attrs[n - 1].attnum == a.attnum {
        KeyReaches(types, attrs, row, values, k, n - 1, P, cols[k], was, a, v);
      } else {
        KeyPasses(attrs, a.attnum, n - 1, P, cols[k], was);
      }
    }
  }

  lemma {:induction false} NoKeys(types: Types, attrs: seq<IndexAttr>, cols: seq<ColSummary>,
                                  values: seq<Option<Datum>>, k: nat, P: ColSummary -> bool, attnum: I16)
    requires |attrs| == |values| && k < |cols|
    ensures Reaches(attrs, attnum, 0, P, cols[k], WidenFirst(types, attrs, cols, values, 0).cols[k])
  {
    hide WidenCol, FindCol;
  }

  lemma {:induction false} FoundedIsFirst(types: Types, attrs: seq<IndexAttr>, values: seq<Option<Datum>>, k: nat,
                                          P: ColSummary -> bool, first: ColSummary, a: IndexAttr, v: Option<Datum>)
    requires Founded(types, attrs, values, k, P, first, a, v)
    ensures IsFirst(Summarized(attrs), k) && Summarized(attrs)[k] == a
  {
    hide IsFirst, KeptByMore, WidenCol;
  }

  lemma {:induction false} InOrderSize(attrs: seq<IndexAttr>, cols: seq<ColSummary>)
    requires InOrder(attrs, cols)
    ensures |cols| == |Summarized(attrs)|
  {
  }

  lemma {:induction false} RefinesItself(t: TypeOps, c: Oid)
    ensures Refines(t, c, c)
  {
  }

  /**
   * What holds of a column's first entry after its own key is folded in, and survives the column's other
   * keys, holds after the whole row.
   */
  lemma {:induction false} RowInduces(types: Types, attrs: seq<IndexAttr>, cols: seq<ColSummary>, row: Row,
                                      values: seq<Option<Datum>>, k: nat, P: ColSummary -> bool)
    requires OneType(attrs) && Agreeing(types, attrs) && TupleOf(attrs, row, values) && InOrder(attrs, cols)
    requires IsFirst(Summarized(attrs), k)
    requires var a, v := Summarized(attrs)[k], values[Positions(attrs)[k]];
      P(WidenCol(types(a.typ), a.collation, cols[k], v).col) && KeptByMore(types(a.typ), a.collation, v, P)
    ensures P(WidenRow(types, attrs, cols, values).cols[k])
  {
    var a, v := Summarized(attrs)[k], values[Positions(attrs)[k]];
    assert attrs[Positions(attrs)[k]].attnum == a.attnum;
    assert Reached(attrs, a.attnum, |attrs|);
    InOrderSize(attrs, cols);
    hide WidenCol, WidenFirst, KeptByMore, InOrder, Agreeing, OneType, Reached, Refines, TypeOps.Kind;
    assert Founded(types, attrs, values, k, P, cols[k], a, v);
    KeysReach(types, attrs, cols, row, values, k, |attrs|, P, a, v);
  }
}
