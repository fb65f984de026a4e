/**
 * Where the prune decision is exact: trees of AND and OR over comparisons, IN lists, overlaps and null tests
 * in which no AND has two parts about the same column. What the leaves are is told from the clause and the
 * catalogs alone.
 */
module Exactness {
  import opened Base
  import opened Format
  import opened Coverage
  import opened Widening
  import opened Prune
  import Extents

  /** Which values a column of a type can hold: a constant of another type need not be one of them. */
  type Domain = (Oid, Datum) -> bool

  /** A row whose indexed columns hold values of their types. */
  ghost predicate Real(dom: Domain, attrs: seq<IndexAttr>, row: Row) {
    var s := Summarized(attrs);
    forall k :: 0 <= k < |s| && s[k].attnum in row ==> dom(s[k].typ, row[s[k].attnum])
  }

  /** What a type's input function reads is a value of the type. */
  ghost predicate ReadsValues(dom: Domain, types: Types) {
    forall o: Oid, text: Text | types(o).input(text).Some? :: dom(o, types(o).input(text).value)
  }

  /** The entry says something of every row it could describe: a NULL, or a value it admits. */
  ghost predicate Inhabited(dom: Domain, typ: Oid, t: TypeOps, c: ColSummary) {
    c.allNulls || exists d: Datum :: dom(typ, d) && Covers(t, c, Some(d))
  }

  // ---- what a leaf says ------------------------------------------------------------------------

  /** Below any relabelling, `node` is `inner`. */
  ghost predicate Below(node: Node, inner: Node)
    decreases node
  {
    if node.Relabel? then Below(node.arg, inner) else node == inner
  }

  /** `column op constant` or `constant op column`, `column op ANY (list)`, and `column IS [NOT] NULL`. */
  datatype Form =
    | Says(attnum: I16, vartype: Oid, opno: Oid, collid: Oid, konst: Datum, consttype: Oid, commuted: bool)
    | Lists(attnum: I16, vartype: Oid, opno: Oid, collid: Oid, list: Datum, listtype: Oid)
    | Tests(attnum: I16, vartype: Oid, isNull: bool)

  ghost predicate HasForm(node: Node, f: Form) {
    f.attnum > 0 &&
    match f
    case Says(attnum, vartype, opno, collid, k, consttype, commuted) =>
      && node.OpExpr? && node.opno == opno && node.collid == collid && |node.args| == 2
      && Below(node.args[if commuted then 1 else 0], Var(attnum, vartype))
      && Below(node.args[if commuted then 0 else 1], Const(consttype, false, k))
    case Lists(attnum, vartype, opno, collid, list, listtype) =>
      && node.ScalarArrayOp? && node.useOr && node.opno == opno && node.collid == collid && |node.args| == 2
      && Below(node.args[0], Var(attnum, vartype)) && Below(node.args[1], Const(listtype, false, list))
    case Tests(attnum, vartype, isNull) =>
      node.NullTest? && node.isNull == isNull && Below(node.arg, Var(attnum, vartype))
  }

  /** The operator's input types on the column's and on the constant's side. */
  ghost function Sides(cat: Catalog, opno: Oid, commuted: bool): (Oid, Oid) {
    var (left, right) := cat.inputTypes(opno);
    if commuted then (right, left) else (left, right)
  }

  /** The operator is the `strategy` comparison of its column's btree family, which can compare the two sides. */
  ghost predicate IsBtree(cat: Catalog, opno: Oid, commuted: bool, strategy: int) {
    var (column, constant) := Sides(cat, opno, commuted);
    && cat.btreeFamily(column).Some? && 1 <= strategy <= 5
    && cat.opStrategy(opno, cat.btreeFamily(column).value) == strategy
    && cat.familyProc(cat.btreeFamily(column).value, column, constant) != 0
  }

  /** The decision has something to say of such a leaf. */
  ghost predicate Recognised(cat: Catalog, node: Node, f: Form) {
    HasForm(node, f) &&
    match f
    case Says(_, vartype, opno, _, _, _, commuted) =>
      (exists strategy :: IsBtree(cat, opno, commuted, strategy)) || NamedOverlap(cat, opno, vartype)
    case Lists(_, _, opno, _, _, listtype) => IsBtree(cat, opno, false, 3) && cat.elementType(listtype) != 0
    case Tests(_, _, _) => true
  }

  /** The type bounds are read as: a polymorphic operator reads them as the column's base type. */
  ghost function ReadUnder(cat: Catalog, opno: Oid, commuted: bool, vartype: Oid): Oid {
    var column := Sides(cat, opno, commuted).0;
    if cat.polymorphic(column) then cat.baseType(vartype) else column
  }

  lemma {:induction false} StripsTo(node: Node, inner: Node)
    requires Below(node, inner) && !inner.Relabel?
    ensures StripRelabel(node) == inner
  {
    if node.Relabel? {
      StripsTo(node.arg, inner);
    }
  }

  lemma {:induction false} StripIsBelow(node: Node)
    ensures Below(node, StripRelabel(node)) && !StripRelabel(node).Relabel?
  {
    if node.Relabel? {
      StripIsBelow(node.arg);
    }
  }

  lemma {:induction false} CompareExtracts(cat: Catalog, node: Node, f: Form, strategy: int)
    requires f.Says? && HasForm(node, f) && IsBtree(cat, f.opno, f.commuted, strategy)
    ensures VarAndConst(node.args) == Some(Operands(Var(f.attnum, f.vartype), Const(f.consttype, false, f.konst),
                                                    f.commuted))
    ensures FindCompareOp(cat, f.opno, f.commuted).Some?
    ensures var op := FindCompareOp(cat, f.opno, f.commuted).value;
      && ExtractQual(cat, node) == Some(Compare(f.attnum, op.strategy, ReadUnder(cat, f.opno, f.commuted, f.vartype),
                                                op.cmpproc, f.collid, f.konst))
      && (op.strategy == 3 <==> strategy == 3)
  {
    StripsTo(node.args[if f.commuted then 1 else 0], Var(f.attnum, f.vartype));
    StripsTo(node.args[if f.commuted then 0 else 1], Const(f.consttype, false, f.konst));
    hide StripRelabel, Below;
  }

  lemma {:induction false} OverlapExtracts(cat: Catalog, node: Node, f: Form)
    requires f.Says? && HasForm(node, f) && NamedOverlap(cat, f.opno, f.vartype)
    requires forall strategy :: !IsBtree(cat, f.opno, f.commuted, strategy)
    ensures VarAndConst(node.args) == Some(Operands(Var(f.attnum, f.vartype), Const(f.consttype, false, f.konst),
                                                    f.commuted))
    ensures ExtractQual(cat, node)
         == Some(Overlap(f.attnum, cat.baseType(f.vartype), cat.opcode(f.opno), f.collid, f.konst, f.commuted))
  {
    StripsTo(node.args[if f.commuted then 1 else 0], Var(f.attnum, f.vartype));
    StripsTo(node.args[if f.commuted then 0 else 1], Const(f.consttype, false, f.konst));
    hide StripRelabel, Below;
    var (column, _) := Sides(cat, f.opno, f.commuted);
    if cat.btreeFamily(column).Some? {
      assert !IsBtree(cat, f.opno, f.commuted, cat.opStrategy(f.opno, cat.btreeFamily(column).value));
    }
  }

  lemma {:induction false} ListExtracts(cat: Catalog, node: Node, f: Form)
    requires f.Lists? && Recognised(cat, node, f)
    ensures VarAndConst(node.args) == Some(Operands(Var(f.attnum, f.vartype), Const(f.listtype, false, f.list), false))
    ensures FindCompareOp(cat, f.opno, false).Some?
    ensures var op := FindCompareOp(cat, f.opno, false).value;
      && op.strategy == 3
      && ExtractQual(cat, node) == Some(InList(f.attnum, ReadUnder(cat, f.opno, false, f.vartype), op.cmpproc, f.collid,
                                               Present(cat.arrayElems(f.list))))
  {
    StripsTo(node.args[0], Var(f.attnum, f.vartype));
    StripsTo(node.args[1], Const(f.listtype, false, f.list));
    hide StripRelabel, Below, Present;
  }

  lemma {:induction false} TestExtracts(cat: Catalog, node: Node, f: Form)
    requires f.Tests? && HasForm(node, f)
    ensures ExtractQual(cat, node) == Some(Null(f.attnum, f.isNull))
  {
    StripsTo(node.arg, Var(f.attnum, f.vartype));
  }

  /** The decision says something of just the leaves that are recognised, and of the column they are about. */
  lemma {:induction false} ExtractIff(cat: Catalog, node: Node)
    requires !node.BoolExpr?
    ensures ExtractQual(cat, node).Some? <==> exists f: Form :: Recognised(cat, node, f)
    ensures forall f: Form | Recognised(cat, node, f) :: ExtractQual(cat, node).Some? && ExtractQual(cat,
        node).value.attnum == f.attnum
  {
    forall f: Form | Recognised(cat, node, f)
      ensures ExtractQual(cat, node).Some? && ExtractQual(cat, node).value.attnum == f.attnum
    {
      RecognisedExtracts(cat, node, f);
    }
    if ExtractQual(cat, node).Some? {
      var f := FormOf(cat, node);
    }
    hide ExtractQual, Recognised;
  }

  lemma {:induction false} RecognisedExtracts(cat: Catalog, node: Node, f: Form)
    requires Recognised(cat, node, f)
    ensures ExtractQual(cat, node).Some? && ExtractQual(cat, node).value.attnum == f.attnum
  {
    match f
    case Says(_, _, _, _, _, _, _) =>
      if strategy :| IsBtree(cat, f.opno, f.commuted, strategy) {
        CompareExtracts(cat, node, f, strategy);
      } else {
        OverlapExtracts(cat, node, f);
      }
    case Lists(_, _, _, _, _, _) => ListExtracts(cat, node, f);
    case Tests(_, _, _) => TestExtracts(cat, node, f);
  }

  /** What an extracted leaf says. */
  lemma {:induction false} FormOf(cat: Catalog, node: Node) returns (f: Form)
    requires !node.BoolExpr? && ExtractQual(cat, node).Some?
    ensures Recognised(cat, node, f)
  {
    match node
    case OpExpr(opno, collid, args) =>
      var o := VarAndConst(args).value;
      StripIsBelow(args[0]);
      StripIsBelow(args[1]);
      f := Says(o.v.attnum, o.v.vartype, opno, collid, o.k.value, o.k.consttype, o.commuted);
      hide StripRelabel, Below;
      var column := Sides(cat, opno, o.commuted).0;
      if FindCompareOp(cat, opno, o.commuted).Some? {
        assert IsBtree(cat, opno, o.commuted, cat.opStrategy(opno, cat.btreeFamily(column).value));
      }
    case NullTest(arg, isNull) =>
      StripIsBelow(arg);
      f := Tests(StripRelabel(arg).attnum, StripRelabel(arg).vartype, isNull);
    case ScalarArrayOp(opno, useOr, collid, args) =>
      var o := VarAndConst(args).value;
      StripIsBelow(args[0]);
      StripIsBelow(args[1]);
      f := Lists(o.v.attnum, o.v.vartype, opno, collid, o.k.value, o.k.consttype);
      hide StripRelabel, Below, Present;
  }

  /** Of anything deeper than 32 levels, of NOT, and of leaves that are not recognised, nothing is proved. */
  lemma {:induction false} StaysSilent(cat: Catalog, node: Node, cols: seq<ColSummary>, depth: nat)
    requires
      || depth > 32 || node.NullNode? || (node.BoolExpr? && node.op == Not)
      || (!node.BoolExpr? && forall f: Form :: !Recognised(cat, node, f))
    ensures !ClauseProvesPrune(cat, node, cols, depth)
  {
    if !node.BoolExpr? {
      ExtractIff(cat, node);
    }
    hide ExtractQual, Recognised, ProvesPrune;
  }

  // ---- leaves an entry decides -------------------------------------------------------------------

  /** A leaf the entry `c` can decide; constants to be equal to are values the column can hold. */
  ghost predicate Decidable(cat: Catalog, dom: Domain, typ: Oid, t: TypeOps, f: Form, c: ColSummary) {
    match f
    case Tests(_, _, _) => Inhabited(dom, typ, t, c)
    case Says(_, vartype, opno, collid, k, _, commuted) =>
      if exists strategy :: IsBtree(cat, opno, commuted, strategy) then
        && HasBounds(cat, t, c, ReadUnder(cat, opno, commuted, vartype), collid)
        && (IsBtree(cat, opno, commuted, 3) ==> dom(typ, k))
      else
        HasExtent(cat, t, c, cat.baseType(vartype))
    case Lists(_, vartype, opno, collid, list, _) =>
      && HasBounds(cat, t, c, ReadUnder(cat, opno, false, vartype), collid)
      && forall k: Datum | Some(k) in cat.arrayElems(list) :: dom(typ, k)
  }

  /** The entry's bounds can be read, under the type the clause reads them as too, and admit something. */
  ghost predicate HasBounds(cat: Catalog, t: TypeOps, c: ColSummary, parseType: Oid, collation: Oid) {
    && !c.overlap && !c.allNulls && !c.unbounded && c.collation == collation && BoundsParse(t, c)
    && cat.input(parseType, c.min.value).Some? && cat.input(parseType, c.max.value).Some?
    && t.rank(collation, t.input(c.min.value).value) <= t.rank(collation, t.input(c.max.value).value)
  }

  /** The entry's extent can be read, and the clause reads the same. */
  ghost predicate HasExtent(cat: Catalog, t: TypeOps, c: ColSummary, parseType: Oid) {
    && c.overlap && !c.allNulls && !c.unbounded && c.min.Some? && t.input(c.min.value).Some?
    && cat.input(parseType, c.min.value) == t.input(c.min.value)
  }

  /** An operator is TRUE of two values if and only if its function's result, a byte, is not zero. */
  ghost predicate OperatorIsFunction(cat: Catalog, w: World) {
    forall opno: Oid, c: Oid, a: Datum, b: Datum ::
      w.op(opno, c, Some(a), Some(b)) == True <==> cat.call(cat.opcode(opno), c, a, b) % 0x100 != 0
  }

  /** The leaf says `f`, of the column whose first entry is `k`, and that entry can decide it. */
  ghost predicate DecidableLeaf(cat: Catalog, dom: Domain, types: Types, attrs: seq<IndexAttr>, cols: seq<ColSummary>,
                                node: Node, f: Form, k: nat)
    requires |cols| == |Summarized(attrs)|
  {
    && Recognised(cat, node, f) && IsFirst(Summarized(attrs), k) && Summarized(attrs)[k].attnum == f.attnum
    && var typ := Summarized(attrs)[k].typ; Decidable(cat, dom, typ, types(typ), f, cols[k])
  }

  /** The clause reads the column. */
  predicate Uses(cat: Catalog, node: Node, attnum: I16)
    decreases node
  {
    if node.BoolExpr? then exists i :: 0 <= i < |node.args| && Uses(cat, node.args[i], attnum)
    else var q := ExtractQual(cat, node); q.Some? && q.value.attnum == attnum
  }

  predicate Disjoint(cat: Catalog, a: Node, b: Node) {
    forall attnum: I16 :: !(Uses(cat, a, attnum) && Uses(cat, b, attnum))
  }

  /** No two of the clauses read the same column. */
  predicate AllDisjoint(cat: Catalog, nodes: seq<Node>) {
    forall i, j :: 0 <= i < j < |nodes| ==> Disjoint(cat, nodes[i], nodes[j])
  }

  ghost predicate DecidableTree(cat: Catalog, dom: Domain, types: Types, attrs: seq<IndexAttr>, cols: seq<ColSummary>,
                                node: Node, depth: nat)
    requires |cols| == |Summarized(attrs)|
    decreases node
  {
    depth <= 32 && !node.NullNode? &&
    if node.BoolExpr? then
      && node.args != [] && node.op != Not && (node.op == And ==> AllDisjoint(cat, node.args))
      && forall i :: 0 <= i < |node.args| ==> DecidableTree(cat, dom, types, attrs, cols, node.args[i], depth + 1)
    else exists f: Form, k: nat :: DecidableLeaf(cat, dom, types, attrs, cols, node, f, k)
  }

  // ---- leaves --------------------------------------------------------------------------------

  lemma {:induction false} CompareWitness(cat: Catalog, w: World, t: TypeOps, c: ColSummary, opno: Oid, commuted: bool,
                                          parseType: Oid, k: Datum)
    returns (x: Datum)
    requires FindCompareOp(cat, opno, commuted).Some? && CompareLaw(cat, w, t, opno, commuted, parseType)
    requires Written(t, c) && HasBounds(cat, t, c, parseType, c.collation)
    requires var op := FindCompareOp(cat, opno, commuted).value;
      !EvalCompare(cat, c, op.strategy, parseType, op.cmpproc, c.collation, k)
    ensures Covers(t, c, Some(x))
    ensures x == (if FindCompareOp(cat, opno, commuted).value.strategy == 3 then k
                  else if FindCompareOp(cat, opno, commuted).value.strategy <= 2 then t.input(c.min.value).value
                  else t.input(c.max.value).value)
    ensures (if commuted then w.op(opno, c.collation, Some(k), Some(x))
             else w.op(opno, c.collation, Some(x), Some(k))) == True
  {
    var op := FindCompareOp(cat, opno, commuted).value;
    assert ParsedBounds(cat, c, parseType).Some?;
    var b := ParsedBounds(cat, c, parseType).value;
    var lo, hi := t.input(c.min.value).value, t.input(c.max.value).value;
    assert SameValue(t, b.0, lo) && SameValue(t, b.1, hi);
    assert SignIs(cat.call(op.cmpproc, c.collation, b.0, k), t.rank(c.collation, b.0), t.rank(c.collation, k));
    assert SignIs(cat.call(op.cmpproc, c.collation, b.1, k), t.rank(c.collation, b.1), t.rank(c.collation, k));
    StrategyInRange(cat, opno, commuted);
    x := if op.strategy == 3 then k else if op.strategy <= 2 then lo else hi;
    assert Holds(op.strategy, t.rank(c.collation, x), t.rank(c.collation, k));
  }

  lemma {:induction false} StrategyInRange(cat: Catalog, opno: Oid, commuted: bool)
    requires FindCompareOp(cat, opno, commuted).Some?
    ensures 1 <= FindCompareOp(cat, opno, commuted).value.strategy <= 5
  {
  }

  lemma {:induction false} InListWitness(cat: Catalog, w: World, t: TypeOps, c: ColSummary, opno: Oid,
                                         parseType: Oid, list: Datum)
    returns (x: Datum)
    requires FindCompareOp(cat, opno, false).Some? && CompareLaw(cat, w, t, opno, false, parseType)
    requires FindCompareOp(cat, opno, false).value.strategy == 3
    requires Written(t, c) && HasBounds(cat, t, c, parseType, c.collation)
    requires !EvalInList(cat, c, parseType, FindCompareOp(cat, opno, false).value.cmpproc, c.collation,
                         Present(cat.arrayElems(list)))
    ensures x in Present(cat.arrayElems(list))
    ensures Covers(t, c, Some(x)) && EvalAny(w, cat, opno, c.collation, Some(x), Some(list)) == True
  {
    var op, elems := FindCompareOp(cat, opno, false).value, cat.arrayElems(list);
    InIsOrOfEqualities(cat, c, parseType, op.cmpproc, c.collation, Present(elems));
    var j :| 0 <= j < |Present(elems)|
      && !EvalCompare(cat, c, 3, parseType, op.cmpproc, c.collation, Present(elems)[j]);
    x := CompareWitness(cat, w, t, c, opno, false, parseType, Present(elems)[j]);
    var i := PresentIndex(elems, j);
    var truths := seq(|elems|, i requires 0 <= i < |elems| => w.op(opno, c.collation, Some(x), elems[i]));
    assert truths[i] == True;
  }

  lemma {:induction false} PresentIndex(elems: seq<Option<Datum>>, j: nat) returns (i: nat)
    requires j < |Present(elems)|
    ensures i < |elems| && elems[i] == Some(Present(elems)[j])
  {
    if elems[0].Some? && j == 0 {
      i := 0;
    } else {
      i := PresentIndex(elems[1..], if elems[0].Some? then j - 1 else j);
      i := i + 1;
    }
  }

  /** `row` with the column `attnum` set to `x`. */
  function With(row: Row, attnum: I16, x: Option<Datum>): Row {
    if x.Some? then row[attnum := x.value] else row - {attnum}
  }

  /** Columns are admitted one by one: changing one for an admitted value keeps the row admitted. */
  lemma {:induction false} WithCovered(dom: Domain, types: Types, attrs: seq<IndexAttr>, cols: seq<ColSummary>,
                                       row: Row,
                                       k: nat, x: Option<Datum>)
    requires OneType(attrs) && |cols| == |Summarized(attrs)| && IsFirst(Summarized(attrs), k)
    requires CoversRow(types, attrs, cols, row) && Real(dom, attrs, row)
    requires var a := Summarized(attrs)[k];
      Covers(types(a.typ), cols[k], x) && (x.Some? ==> dom(a.typ, x.value))
    ensures var r := With(row, Summarized(attrs)[k].attnum, x);
      && CoversRow(types, attrs, cols, r) && Real(dom, attrs, r)
      && Value(r, Summarized(attrs)[k].attnum) == x
      && forall a: I16 | a != Summarized(attrs)[k].attnum :: Value(r, a) == Value(row, a)
  {
    hide Covers, Summarized;
    var s := Summarized(attrs);
    var r := With(row, s[k].attnum, x);
    forall j | 0 <= j < |s| && IsFirst(s, j) ensures Covers(types(s[j].typ), cols[j], Value(r, s[j].attnum)) {
      if s[j].attnum == s[k].attnum {
        assert j == k;
      }
    }
    forall j | 0 <= j < |s| && s[j].attnum in r ensures dom(s[j].typ, r[s[j].attnum]) {
      if s[j].attnum == s[k].attnum {
        assert s[j].typ == s[k].typ;
      }
    }
  }

  /** Where the search by attnum ends. */
  lemma {:induction false} FindsEntry(types: Types, attrs: seq<IndexAttr>, cols: seq<ColSummary>, k: nat)
    requires DescribesAll(types, attrs, cols) && IsFirst(Summarized(attrs), k)
    ensures k < |cols| == |Summarized(attrs)| && FindCol(cols, Summarized(attrs)[k].attnum) == Some(k)
    ensures Describes(types(Summarized(attrs)[k].typ), Summarized(attrs)[k], cols[k])
  {
    FoundIsFirst(types, attrs, cols, Summarized(attrs)[k].attnum);
    hide Summarized, FindCol;
  }

  /** A value that makes the leaf TRUE, or no value, for a NULL. */
  lemma {:induction false} LeafValue(cat: Catalog, w: World, regions: Datum -> seq<Extents.Extent>, dom: Domain,
                                     types: Types, attrs: seq<IndexAttr>, cols: seq<ColSummary>, node: Node, f: Form,
                                     k: nat)
    returns (x: Option<Datum>)
    requires Tame(cat, w, regions, types, attrs, node) && ReadsValues(dom, types) && OperatorIsFunction(cat, w)
    requires DescribesAll(types, attrs, cols)
    requires DecidableLeaf(cat, dom, types, attrs, cols, node, f, k) && !ClauseProvesPrune(cat, node, cols, 0)
    ensures var a := Summarized(attrs)[k];
      && Covers(types(a.typ), cols[k], x) && (x.Some? ==> dom(a.typ, x.value))
      && forall row: Row | Value(row, a.attnum) == x :: Eval(w, cat, node, row) == True
  {
    FindsEntry(types, attrs, cols, k);
    var a := Summarized(attrs)[k];
    RecognisedExtracts(cat, node, f);
    match f
    case Says(_, _, _, _, _, _, _) =>
      if strategy :| IsBtree(cat, f.opno, f.commuted, strategy) {
        CompareExtracts(cat, node, f, strategy);
        x := CompareValue(cat, w, regions, dom, types, attrs, cols, node, f, k, strategy);
      } else {
        OverlapExtracts(cat, node, f);
        x := OverlapValue(cat, w, regions, dom, types, attrs, cols, node, f, k);
      }
    case Lists(_, _, _, _, _, _) =>
      ListExtracts(cat, node, f);
      x := ListValue(cat, w, regions, dom, types, attrs, cols, node, f, k);
    case Tests(_, _, _) =>
      TestExtracts(cat, node, f);
      x := TestValue(cat, w, regions, dom, types, attrs, cols, node, f, k);
  }

  lemma {:induction false} CompareValue(cat: Catalog, w: World, regions: Datum -> seq<Extents.Extent>, dom: Domain,
                                        types: Types, attrs: seq<IndexAttr>, cols: seq<ColSummary>, node: Node, f: Form,
                                        k: nat, strategy: int)
    returns (x: Option<Datum>)
    requires f.Says? && IsBtree(cat, f.opno, f.commuted, strategy)
    requires Tame(cat, w, regions, types, attrs, node) && ReadsValues(dom, types) && DescribesAll(types, attrs, cols)
    requires DecidableLeaf(cat, dom, types, attrs, cols, node, f, k) && !ClauseProvesPrune(cat, node, cols, 0)
    ensures var a := Summarized(attrs)[k];
      && Covers(types(a.typ), cols[k], x) && (x.Some? ==> dom(a.typ, x.value))
      && forall row: Row | Value(row, a.attnum) == x :: Eval(w, cat, node, row) == True
  {
    FindsEntry(types, attrs, cols, k);
    CompareExtracts(cat, node, f, strategy);
    var a := Summarized(attrs)[k];
    var c, t := cols[k], types(a.typ);
    hide Summarized, DescribesAll, Below, VarAndConst, ExtractQual, FindCompareOp, FindCol;
    FoundMeans(cat, w, t, f.opno, f.commuted, f.vartype);
    assert OperatorLaw(cat, w, t, f.opno, f.commuted, f.vartype);
    var d := CompareWitness(cat, w, t, c, f.opno, f.commuted, ReadUnder(cat, f.opno, f.commuted, f.vartype), f.konst);
    x := Some(d);
    forall row: Row | Value(row, a.attnum) == x ensures Eval(w, cat, node, row) == True {
      OperandValues(w, node.args, row);
    }
  }

  lemma {:induction false} OverlapValue(cat: Catalog, w: World, regions: Datum -> seq<Extents.Extent>, dom: Domain,
                                        types: Types, attrs: seq<IndexAttr>, cols: seq<ColSummary>, node: Node, f: Form,
                                        k: nat)
    returns (x: Option<Datum>)
    requires f.Says? && OperatorIsFunction(cat, w)
    requires forall strategy :: !IsBtree(cat, f.opno, f.commuted, strategy)
    requires Tame(cat, w, regions, types, attrs, node) && ReadsValues(dom, types) && DescribesAll(types, attrs, cols)
    requires DecidableLeaf(cat, dom, types, attrs, cols, node, f, k) && !ClauseProvesPrune(cat, node, cols, 0)
    ensures var a := Summarized(attrs)[k];
      && Covers(types(a.typ), cols[k], x) && (x.Some? ==> dom(a.typ, x.value))
      && forall row: Row | Value(row, a.attnum) == x :: Eval(w, cat, node, row) == True
  {
    FindsEntry(types, attrs, cols, k);
    OverlapExtracts(cat, node, f);
    var a := Summarized(attrs)[k];
    var c, t := cols[k], types(a.typ);
    hide Summarized, DescribesAll, Below, VarAndConst, ExtractQual, FindCol;
    x := t.input(c.min.value);
    StableExtent(t, c);
    forall row: Row | Value(row, a.attnum) == x ensures Eval(w, cat, node, row) == True {
      OperandValues(w, node.args, row);
    }
  }

  /** The stored extent, as a value, is admitted. */
  lemma {:induction false} StableExtent(t: TypeOps, c: ColSummary)
    requires c.overlap && !c.allNulls && !c.unbounded && c.min.Some? && t.input(c.min.value).Some?
    ensures Covers(t, c, t.input(c.min.value))
  {
    Extents.WithinReflexive(t.extent(t.input(c.min.value).value));
  }

  lemma {:induction false} ListValue(cat: Catalog, w: World, regions: Datum -> seq<Extents.Extent>, dom: Domain,
                                        types: Types, attrs: seq<IndexAttr>, cols: seq<ColSummary>, node: Node, f: Form,
                                        k: nat)
    returns (x: Option<Datum>)
    requires f.Lists?
    requires Tame(cat, w, regions, types, attrs, node) && ReadsValues(dom, types) && DescribesAll(types, attrs, cols)
    requires DecidableLeaf(cat, dom, types, attrs, cols, node, f, k) && !ClauseProvesPrune(cat, node, cols, 0)
    ensures var a := Summarized(attrs)[k];
      && Covers(types(a.typ), cols[k], x) && (x.Some? ==> dom(a.typ, x.value))
      && forall row: Row | Value(row, a.attnum) == x :: Eval(w, cat, node, row) == True
  {
    FindsEntry(types, attrs, cols, k);
    ListExtracts(cat, node, f);
    var a := Summarized(attrs)[k];
    var c, t, parseType := cols[k], types(a.typ), ReadUnder(cat, f.opno, false, f.vartype);
    hide Summarized, DescribesAll, Below, VarAndConst, ExtractQual, FindCompareOp, FindCol;
    FoundMeans(cat, w, t, f.opno, false, f.vartype);
    var d := InListWitness(cat, w, t, c, f.opno, parseType, f.list);
    x := Some(d);
    ListedIsPresent(cat.arrayElems(f.list), d);
    forall row: Row | Value(row, a.attnum) == x ensures Eval(w, cat, node, row) == True {
      OperandValues(w, node.args, row);
    }
  }

  lemma {:induction false} ListedIsPresent(elems: seq<Option<Datum>>, d: Datum)
    requires d in Present(elems)
    ensures Some(d) in elems
  {
    var j :| 0 <= j < |Present(elems)| && Present(elems)[j] == d;
    var i := PresentIndex(elems, j);
  }

  lemma {:induction false} TestValue(cat: Catalog, w: World, regions: Datum -> seq<Extents.Extent>, dom: Domain,
                                        types: Types, attrs: seq<IndexAttr>, cols: seq<ColSummary>, node: Node, f: Form,
                                        k: nat)
    returns (x: Option<Datum>)
    requires f.Tests?
    requires Tame(cat, w, regions, types, attrs, node) && ReadsValues(dom, types) && DescribesAll(types, attrs, cols)
    requires DecidableLeaf(cat, dom, types, attrs, cols, node, f, k) && !ClauseProvesPrune(cat, node, cols, 0)
    ensures var a := Summarized(attrs)[k];
      && Covers(types(a.typ), cols[k], x) && (x.Some? ==> dom(a.typ, x.value))
      && forall row: Row | Value(row, a.attnum) == x :: Eval(w, cat, node, row) == True
  {
    FindsEntry(types, attrs, cols, k);
    TestExtracts(cat, node, f);
    var a := Summarized(attrs)[k];
    var c, t := cols[k], types(a.typ);
    hide Summarized, DescribesAll, ExtractQual, FindCol, Covers;
    if f.isNull {
      x := None;
      NullAdmitted(t, c);
    } else {
      x :| x.Some? && dom(a.typ, x.value) && Covers(t, c, x);
    }
    forall row: Row | Value(row, a.attnum) == x ensures Eval(w, cat, node, row) == True {
      StripsTo(node.arg, Var(f.attnum, f.vartype));
      StripIsTransparent(w, node.arg, row);
    }
  }

  lemma {:induction false} NullAdmitted(t: TypeOps, c: ColSummary)
    requires c.hasNulls
    ensures Covers(t, c, None)
  {
  }

  // ---- trees ---------------------------------------------------------------------------------

  /** Rows that agree on the columns a tree reads agree on the tree. */
  lemma {:induction false} ReadsOnly(cat: Catalog, w: World, dom: Domain, types: Types, attrs: seq<IndexAttr>,
                                     cols: seq<ColSummary>, node: Node, depth: nat, one: Row, other: Row)
    requires |cols| == |Summarized(attrs)| && DecidableTree(cat, dom, types, attrs, cols, node, depth)
    requires forall a: I16 | Uses(cat, node, a) :: Value(one, a) == Value(other, a)
    ensures Eval(w, cat, node, one) == Eval(w, cat, node, other)
    decreases node
  {
    hide Decidable, FindCol, ExtractQual, AllDisjoint;
    if node.BoolExpr? {
      forall i | 0 <= i < |node.args| ensures Eval(w, cat, node.args[i], one) == Eval(w, cat, node.args[i], other) {
        ReadsOnly(cat, w, dom, types, attrs, cols, node.args[i], depth + 1, one, other);
      }
      assert seq(|node.args|, i requires 0 <= i < |node.args| => Eval(w, cat, node.args[i], one))
          == seq(|node.args|, i requires 0 <= i < |node.args| => Eval(w, cat, node.args[i], other));
    } else {
      var f: Form, k: nat :| DecidableLeaf(cat, dom, types, attrs, cols, node, f, k);
      RecognisedExtracts(cat, node, f);
      LeafReadsOnly(cat, w, node, one, other);
    }
  }

  lemma {:induction false} LeafReadsOnly(cat: Catalog, w: World, node: Node, one: Row, other: Row)
    requires !node.BoolExpr? && ExtractQual(cat, node).Some?
    requires Value(one, ExtractQual(cat, node).value.attnum) == Value(other, ExtractQual(cat, node).value.attnum)
    ensures Eval(w, cat, node, one) == Eval(w, cat, node, other)
  {
    match node
    case OpExpr(opno, collid, args) =>
      OperandValues(w, args, one);
      OperandValues(w, args, other);
    case NullTest(arg, isNull) =>
      StripIsTransparent(w, arg, one);
      StripIsTransparent(w, arg, other);
    case ScalarArrayOp(opno, useOr, collid, args) =>
      OperandValues(w, args, one);
      OperandValues(w, args, other);
  }

  /** The rows agree on every column the clause does not read. */
  ghost predicate AgreeOff(cat: Catalog, node: Node, one: Row, other: Row) {
    forall a: I16 | !Uses(cat, node, a) :: Value(one, a) == Value(other, a)
  }

  /**
   * A tree that does not prove the prune is TRUE of some row, which differs from `base` only where the tree
   * reads it.
   */
  lemma {:induction false} TreeWitness(cat: Catalog, w: World, regions: Datum -> seq<Extents.Extent>, dom: Domain,
                                       types: Types, attrs: seq<IndexAttr>, cols: seq<ColSummary>, node: Node,
                                       depth: nat, base: Row)
    returns (row: Row)
    requires Tame(cat, w, regions, types, attrs, node) && ReadsValues(dom, types) && OneType(attrs)
    requires OperatorIsFunction(cat, w)
    requires DescribesAll(types, attrs, cols) && CoversRow(types, attrs, cols, base) && Real(dom, attrs, base)
    requires DecidableTree(cat, dom, types, attrs, cols, node, depth) && !ClauseProvesPrune(cat, node, cols, depth)
    ensures CoversRow(types, attrs, cols, row) && Real(dom, attrs, row)
    ensures Eval(w, cat, node, row) == True && AgreeOff(cat, node, row, base)
    decreases node, 1, 0
  {
    if node.BoolExpr? {
      hide DescribesAll, CoversRow, Real, ReadsValues, OneType, AllDisjoint;
      if node.op == Or {
        var i :| 0 <= i < |node.args| && !ClauseProvesPrune(cat, node.args[i], cols, depth + 1);
        row := TreeWitness(cat, w, regions, dom, types, attrs, cols, node.args[i], depth + 1, base);
        OrTrue(w, cat, node, row, i);
        AgreeOffWhole(cat, node, i, row, base);
      } else {
        row := AndWitness(cat, w, regions, dom, types, attrs, cols, node, depth + 1, |node.args|, base);
        AndTrue(w, cat, node, row);
      }
    } else {
      var f: Form, k: nat :| DecidableLeaf(cat, dom, types, attrs, cols, node, f, k);
      var x := LeafValue(cat, w, regions, dom, types, attrs, cols, node, f, k);
      RecognisedExtracts(cat, node, f);
      var a := Summarized(attrs)[k];
      WithCovered(dom, types, attrs, cols, base, k, x);
      row := With(base, a.attnum, x);
      hide Eval, Tame, DecidableTree, ClauseProvesPrune, CoversRow, Real;
      assert Value(row, a.attnum) == x;
    }
  }

  /** The first `n` parts of an AND over disjoint columns, all TRUE of one row. */
  lemma {:induction false} AndWitness(cat: Catalog, w: World, regions: Datum -> seq<Extents.Extent>, dom: Domain,
                                      types: Types, attrs: seq<IndexAttr>, cols: seq<ColSummary>, node: Node,
                                      depth: nat, n: nat, base: Row)
    returns (row: Row)
    requires node.BoolExpr? && n <= |node.args| && AllDisjoint(cat, node.args)
    requires ReadsValues(dom, types) && OneType(attrs) && OperatorIsFunction(cat, w)
    requires DescribesAll(types, attrs, cols) && CoversRow(types, attrs, cols, base) && Real(dom, attrs, base)
    requires forall i :: 0 <= i < n ==>
      && Tame(cat, w, regions, types, attrs, node.args[i])
      && DecidableTree(cat, dom, types, attrs, cols, node.args[i], depth)
      && !ClauseProvesPrune(cat, node.args[i], cols, depth)
    ensures CoversRow(types, attrs, cols, row) && Real(dom, attrs, row)
    ensures (forall i :: 0 <= i < n ==> Eval(w, cat, node.args[i], row) == True) && AgreeOff(cat, node, row, base)
    decreases node, 0, n
  {
    hide DescribesAll, CoversRow, Real, ReadsValues, OneType, Tame, DecidableTree, ClauseProvesPrune, Eval;
    SizesMatch(types, attrs, cols);
    if n == 0 {
      row := base;
    } else {
      var last := node.args[n - 1];
      var r := AndWitness(cat, w, regions, dom, types, attrs, cols, node, depth, n - 1, base);
      row := TreeWitness(cat, w, regions, dom, types, attrs, cols, last, depth, r);
      forall i | 0 <= i < n - 1 ensures Eval(w, cat, node.args[i], row) == True {
        assert Disjoint(cat, node.args[i], last);
        ReadsOnly(cat, w, dom, types, attrs, cols, node.args[i], depth, row, r);
      }
      AgreeOffWhole(cat, node, n - 1, row, r);
    }
  }

  lemma {:induction false} AgreeOffWhole(cat: Catalog, node: Node, i: nat, one: Row, other: Row)
    requires node.BoolExpr? && i < |node.args| && AgreeOff(cat, node.args[i], one, other)
    ensures AgreeOff(cat, node, one, other)
  {
    hide ExtractQual;
  }

  lemma {:induction false} OrTrue(w: World, cat: Catalog, node: Node, row: Row, i: nat)
    requires node.BoolExpr? && node.op == Or && i < |node.args| && Eval(w, cat, node.args[i], row) == True
    ensures Eval(w, cat, node, row) == True
  {
    var truths := seq(|node.args|, i requires 0 <= i < |node.args| => Eval(w, cat, node.args[i], row));
    assert truths[i] in truths;
  }

  lemma {:induction false} AndTrue(w: World, cat: Catalog, node: Node, row: Row)
    requires node.BoolExpr? && node.op == And
    requires forall i :: 0 <= i < |node.args| ==> Eval(w, cat, node.args[i], row) == True
    ensures Eval(w, cat, node, row) == True
  {
    var truths := seq(|node.args|, i requires 0 <= i < |node.args| => Eval(w, cat, node.args[i], row));
    assert forall t | t in truths :: t == True;
  }

  /**
   * On a summary that describes some table with rows, a decidable tree is pruned if and only if no
   * row the summary admits could match.
   */
  lemma {:induction false} PruneExact(cat: Catalog, w: World, regions: Datum -> seq<Extents.Extent>, dom: Domain,
                                      types: Types, attrs: seq<IndexAttr>, cols: seq<ColSummary>, node: Node, base: Row)
    requires Tame(cat, w, regions, types, attrs, node) && ReadsValues(dom, types) && OneType(attrs)
    requires OperatorIsFunction(cat, w)
    requires DescribesAll(types, attrs, cols) && CoversRow(types, attrs, cols, base) && Real(dom, attrs, base)
    requires DecidableTree(cat, dom, types, attrs, cols, node, 0)
    ensures ClauseProvesPrune(cat, node, cols, 0)
       <==> forall row: Row | CoversRow(types, attrs, cols, row) && Real(dom, attrs, row) ::
              Eval(w, cat, node, row) != True
  {
    hide Eval, Tame, DecidableTree, ClauseProvesPrune, DescribesAll, ReadsValues, OneType;
    SizesMatch(types, attrs, cols);
    if ClauseProvesPrune(cat, node, cols, 0) {
      forall row: Row | CoversRow(types, attrs, cols, row) && Real(dom, attrs, row)
        ensures Eval(w, cat, node, row) != True
      {
        PruneSound(cat, w, regions, types, attrs, cols, node, 0, row);
      }
    } else {
      var row := TreeWitness(cat, w, regions, dom, types, attrs, cols, node, 0, base);
    }
  }

  /** No row that the summary admits satisfies the clause. */
  ghost predicate Unsatisfied(cat: Catalog, w: World, dom: Domain, types: Types, attrs: seq<IndexAttr>,
                              cols: seq<ColSummary>, node: Node)
    requires |cols| == |Summarized(attrs)|
  {
    forall row: Row | CoversRow(types, attrs, cols, row) && Real(dom, attrs, row) :: Eval(w, cat, node, row) != True
  }

  /**
   * Some decidable part that no admitted row satisfies refutes the clause: the clause itself, a part of an
   * AND, or every part of an OR, whatever else an AND has, about the same columns or not.
   */
  ghost predicate Refutable(cat: Catalog, w: World, regions: Datum -> seq<Extents.Extent>, dom: Domain, types: Types,
                            attrs: seq<IndexAttr>, cols: seq<ColSummary>, node: Node, depth: nat)
    requires |cols| == |Summarized(attrs)|
    decreases node
  {
    || (Tame(cat, w, regions, types, attrs, node) && DecidableTree(cat, dom, types, attrs, cols, node, depth)
        && Unsatisfied(cat, w, dom, types, attrs, cols, node))
    || (depth <= 32 && node.BoolExpr? && node.op == And
        && exists i :: 0 <= i < |node.args|
                       && Refutable(cat, w, regions, dom, types, attrs, cols, node.args[i], depth + 1))
    || (depth <= 32 && node.BoolExpr? && node.op == Or && node.args != []
        && forall i :: 0 <= i < |node.args| ==>
                       Refutable(cat, w, regions, dom, types, attrs, cols, node.args[i], depth + 1))
  }

  lemma {:induction false} RefutablePrunes(cat: Catalog, w: World, regions: Datum -> seq<Extents.Extent>, dom: Domain,
                                           types: Types, attrs: seq<IndexAttr>, cols: seq<ColSummary>, node: Node,
                                           depth: nat, base: Row)
    requires ReadsValues(dom, types) && OneType(attrs) && OperatorIsFunction(cat, w)
    requires DescribesAll(types, attrs, cols) && CoversRow(types, attrs, cols, base) && Real(dom, attrs, base)
    requires Refutable(cat, w, regions, dom, types, attrs, cols, node, depth)
    ensures ClauseProvesPrune(cat, node, cols, depth)
    decreases node
  {
    hide DescribesAll, CoversRow, Real, ReadsValues, OneType, Tame, DecidableTree, Eval, ExtractQual, ProvesPrune;
    SizesMatch(types, attrs, cols);
    if Tame(cat, w, regions, types, attrs, node) && DecidableTree(cat, dom, types, attrs, cols, node, depth)
      && Unsatisfied(cat, w, dom, types, attrs, cols, node)
    {
      if !ClauseProvesPrune(cat, node, cols, depth) {
        var row := TreeWitness(cat, w, regions, dom, types, attrs, cols, node, depth, base);
      }
    } else if node.op == And {
      var i :| 0 <= i < |node.args| && Refutable(cat, w, regions, dom, types, attrs, cols, node.args[i], depth + 1);
      RefutablePrunes(cat, w, regions, dom, types, attrs, cols, node.args[i], depth + 1, base);
    } else {
      forall i | 0 <= i < |node.args| ensures ClauseProvesPrune(cat, node.args[i], cols, depth + 1) {
        RefutablePrunes(cat, w, regions, dom, types, attrs, cols, node.args[i], depth + 1, base);
      }
    }
  }

  /** A relation is pruned as soon as one of its clauses is refutable, whatever the others are. */
  lemma {:induction false} RelationPruned(cat: Catalog, w: World, regions: Datum -> seq<Extents.Extent>, dom: Domain,
                                          types: Types, attrs: seq<IndexAttr>, cols: seq<ColSummary>,
                                          clauses: seq<Node>, i: nat, base: Row)
    requires ReadsValues(dom, types) && OneType(attrs) && OperatorIsFunction(cat, w)
    requires DescribesAll(types, attrs, cols) && CoversRow(types, attrs, cols, base) && Real(dom, attrs, base)
    requires i < |clauses| && Refutable(cat, w, regions, dom, types, attrs, cols, clauses[i], 0)
    ensures EvaluateRelation(cat, clauses, cols)
  {
    hide Refutable, ClauseProvesPrune, DescribesAll, CoversRow, Real, ReadsValues, OneType;
    RefutablePrunes(cat, w, regions, dom, types, attrs, cols, clauses[i], 0, base);
    if cols == [] {
      NothingPruned(cat, clauses[i], 0);
    }
  }

  /** And so is a relation whose clauses are about different columns. */
  lemma {:induction false} RelationExact(cat: Catalog, w: World, regions: Datum -> seq<Extents.Extent>, dom: Domain,
                                         types: Types, attrs: seq<IndexAttr>, cols: seq<ColSummary>, clauses: seq<Node>,
                                         base: Row)
    requires ReadsValues(dom, types) && OneType(attrs) && OperatorIsFunction(cat, w) && AllDisjoint(cat, clauses)
    requires DescribesAll(types, attrs, cols) && CoversRow(types, attrs, cols, base) && Real(dom, attrs, base)
    requires forall i :: 0 <= i < |clauses| ==>
      && Tame(cat, w, regions, types, attrs, clauses[i])
      && DecidableTree(cat, dom, types, attrs, cols, clauses[i], 0)
    ensures EvaluateRelation(cat, clauses, cols)
       <==> forall row: Row | CoversRow(types, attrs, cols, row) && Real(dom, attrs, row) ::
              exists i :: 0 <= i < |clauses| && Eval(w, cat, clauses[i], row) != True
  {
    hide Eval, Tame, DecidableTree, ClauseProvesPrune, DescribesAll, ReadsValues, OneType, AllDisjoint;
    SizesMatch(types, attrs, cols);
    if i :| 0 <= i < |clauses| && ClauseProvesPrune(cat, clauses[i], cols, 0) {
      if cols == [] {
        NothingPruned(cat, clauses[i], 0);
      }
      forall row: Row | CoversRow(types, attrs, cols, row) && Real(dom, attrs, row)
        ensures exists i :: 0 <= i < |clauses| && Eval(w, cat, clauses[i], row) != True
      {
        PruneSound(cat, w, regions, types, attrs, cols, clauses[i], 0, row);
      }
    } else {
      var row := AndWitness(cat, w, regions, dom, types, attrs, cols, BoolExpr(And, clauses), 0, |clauses|, base);
    }
  }
}
