/** The prune decision of prune_hook.rs, and what it decides about: clauses under three-valued logic. */
module Prune {
  import opened Base
  import opened Extents
  import opened Format
  import opened Coverage
  import opened Widening

  // ---- clauses -----------------------------------------------------------------------------

  datatype BoolOp = And | Or | Not

  datatype Node =
    | NullNode
    | BoolExpr(op: BoolOp, args: seq<Node>)
    | OpExpr(opno: Oid, collid: Oid, args: seq<Node>)
    | NullTest(arg: Node, isNull: bool)
    | ScalarArrayOp(opno: Oid, useOr: bool, collid: Oid, args: seq<Node>)
    | Var(attnum: I16, vartype: Oid)
    | Const(consttype: Oid, constisnull: bool, value: Datum)
    | Relabel(arg: Node)
    | Other(tag: int)

  /** What the system catalogs answer, and the functions they lead to. */
  datatype Catalog = Catalog(
    inputTypes: Oid -> (Oid, Oid),
    btreeFamily: Oid -> Option<Oid>,
    opStrategy: (Oid, Oid) -> int,
    familyProc: (Oid, Oid, Oid) -> Oid,
    polymorphic: Oid -> bool,
    baseType: Oid -> Oid,
    opName: Oid -> Option<Bytes>,
    opcode: Oid -> Oid,
    funcNamespace: Oid -> Oid,
    typeNamespace: Oid -> Option<Oid>,
    elementType: Oid -> Oid,
    arrayElems: Datum -> seq<Option<Datum>>,
    input: (Oid, Text) -> Option<Datum>,
    call: (Oid, Oid, Datum, Datum) -> int)

  // ---- the decision ------------------------------------------------------------------------

  datatype CompareOp = CompareOp(strategy: int, varType: Oid, cmpproc: Oid)

  datatype QualSpec =
    | Compare(attnum: I16, strategy: int, parseType: Oid, cmpproc: Oid, collation: Oid, konst: Datum)
    | Null(attnum: I16, isNull: bool)
    | InList(attnum: I16, parseType: Oid, cmpproc: Oid, collation: Oid, elems: seq<Datum>)
    | Overlap(attnum: I16, parseType: Oid, opfunc: Oid, collation: Oid, konst: Datum, commuted: bool)

  const PG_CATALOG_NAMESPACE: Oid := 11
  const AMPERSANDS: Bytes := [38, 38]

  function CommuteStrategy(s: int): int {
    match s
    case 1 => 5
    case 2 => 4
    case 3 => 3
    case 4 => 2
    case 5 => 1
    case other => other
  }

  function FindCompareOp(cat: Catalog, opno: Oid, commuted: bool): Option<CompareOp> {
    var (left, right) := cat.inputTypes(opno);
    var (varType, constType) := if commuted then (right, left) else (left, right);
    match cat.btreeFamily(varType)
    case None => None
    case Some(family) =>
      var strategy := cat.opStrategy(opno, family);
      var cmpproc := cat.familyProc(family, varType, constType);
      if !(1 <= strategy <= 5) || cmpproc == INVALID_OID then None
      else Some(CompareOp(if commuted then CommuteStrategy(strategy) else strategy, varType, cmpproc))
  }

  function SummaryParseType(cat: Catalog, opVarType: Oid, vartype: Oid): Oid {
    if cat.polymorphic(opVarType) then cat.baseType(vartype) else opVarType
  }

  function StripRelabel(node: Node): Node {
    if node.Relabel? then StripRelabel(node.arg) else node
  }

  /** A plain column against a constant that is not NULL. */
  predicate Compared(v: Node, k: Node) {
    v.Var? && v.attnum > 0 && k.Const? && !k.constisnull
  }

  /** `Var op Const` (`commuted` is false) or `Const op Var`, under any relabelling. */
  datatype Operands = Operands(v: Node, k: Node, commuted: bool)

  function VarAndConst(args: seq<Node>): (o: Option<Operands>)
    ensures o.Some? <==> |args| == 2 && (Compared(StripRelabel(args[0]), StripRelabel(args[1]))
                                         || Compared(StripRelabel(args[1]), StripRelabel(args[0])))
    ensures o.Some? ==> o.value.v.Var? && o.value.k.Const? && o.value.v.attnum > 0 && !o.value.k.constisnull
    ensures o.Some? ==> |args| == 2
    ensures o.Some? ==> o.value.v == StripRelabel(args[if o.value.commuted then 1 else 0])
    ensures o.Some? ==> o.value.k == StripRelabel(args[if o.value.commuted then 0 else 1])
  {
    if |args| != 2 then None else
    var left, right := StripRelabel(args[0]), StripRelabel(args[1]);
    var o := if left.Var? && right.Const? then Some(Operands(left, right, false))
             else if left.Const? && right.Var? then Some(Operands(right, left, true)) else None;
    if o.None? || o.value.v.attnum <= 0 || o.value.k.constisnull then None else o
  }

  /**
   * An operator `&&` whose function lives in pg_catalog or in the schema of the column's base type. The
   * name alone says nothing: anyone can create an operator of that name in a schema of their own.
   */
  predicate TrustedOverlap(cat: Catalog, opno: Oid, vartype: Oid) {
    var ns := cat.funcNamespace(cat.opcode(opno));
    cat.opName(opno) == Some(AMPERSANDS)
    && (ns == PG_CATALOG_NAMESPACE || Some(ns) == cat.typeNamespace(cat.baseType(vartype)))
  }

  function ExtractOpExpr(cat: Catalog, opno: Oid, collid: Oid, args: seq<Node>): Option<QualSpec> {
    match VarAndConst(args)
    case None => None
    case Some(Operands(v, k, commuted)) =>
      match FindCompareOp(cat, opno, commuted)
      case Some(op) =>
        Some(Compare(v.attnum, op.strategy, SummaryParseType(cat, op.varType, v.vartype), op.cmpproc, collid, k.value))
      case None =>
        if TrustedOverlap(cat, opno, v.vartype)
        then Some(Overlap(v.attnum, cat.baseType(v.vartype), cat.opcode(opno), collid, k.value, commuted))
        else None
  }

  function ExtractNullTest(arg: Node, isNull: bool): Option<QualSpec> {
    var v := StripRelabel(arg);
    if v.Var? && v.attnum > 0 then Some(Null(v.attnum, isNull)) else None
  }

  function Present(elems: seq<Option<Datum>>): seq<Datum> {
    if elems == [] then [] else
    (if elems[0].Some? then [elems[0].value] else []) + Present(elems[1..])
  }

  /** Lists other than `= ANY` of a constant array tell nothing; a NULL in the list makes no row match. */
  function ExtractArrayOp(cat: Catalog, opno: Oid, useOr: bool, collid: Oid, args: seq<Node>): Option<QualSpec> {
    if !useOr then None else
    match VarAndConst(args)
    case None => None
    case Some(Operands(v, k, commuted)) =>
      match FindCompareOp(cat, opno, false)
      case None => None
      case Some(op) =>
        if commuted || op.strategy != 3 || cat.elementType(k.consttype) == INVALID_OID then None
        else Some(InList(v.attnum, SummaryParseType(cat, op.varType, v.vartype), op.cmpproc, collid,
                         Present(cat.arrayElems(k.value))))
  }

  function ExtractQual(cat: Catalog, node: Node): Option<QualSpec> {
    match node
    case OpExpr(opno, collid, args) => ExtractOpExpr(cat, opno, collid, args)
    case NullTest(arg, isNull) => ExtractNullTest(arg, isNull)
    case ScalarArrayOp(opno, useOr, collid, args) => ExtractArrayOp(cat, opno, useOr, collid, args)
    case _ => None
  }

  function ParsedBounds(cat: Catalog, c: ColSummary, parseType: Oid): Option<(Datum, Datum)> {
    if c.min.None? || c.max.None? || c.unbounded then None else
    var lo, hi := cat.input(parseType, c.min.value), cat.input(parseType, c.max.value);
    if lo.None? || hi.None? then None else Some((lo.value, hi.value))
  }

  predicate EvalCompare(cat: Catalog, c: ColSummary, strategy: int, parseType: Oid, cmpproc: Oid, collation: Oid,
                        k: Datum)
  {
    var bounds := ParsedBounds(cat, c, parseType);
    bounds.Some? &&
    var lo, hi := cat.call(cmpproc, collation, bounds.value.0, k), cat.call(cmpproc, collation, bounds.value.1, k);
    match strategy
    case 1 => lo >= 0
    case 2 => lo > 0
    case 3 => lo > 0 || hi < 0
    case 4 => hi < 0
    case 5 => hi <= 0
    case _ => false
  }

  predicate EvalInList(cat: Catalog, c: ColSummary, parseType: Oid, cmpproc: Oid, collation: Oid, elems: seq<Datum>) {
    var bounds := ParsedBounds(cat, c, parseType);
    bounds.Some? &&
    !exists i :: 0 <= i < |elems|
      && cat.call(cmpproc, collation, bounds.value.0, elems[i]) <= 0
      && cat.call(cmpproc, collation, bounds.value.1, elems[i]) >= 0
  }

  predicate EvalOverlap(cat: Catalog, c: ColSummary, parseType: Oid, opfunc: Oid, collation: Oid, k: Datum,
                        commuted: bool)
  {
    c.min.Some? && !c.unbounded &&
    var ext := cat.input(parseType, c.min.value);
    ext.Some? &&
    !IsTrue(if commuted then cat.call(opfunc, collation, k, ext.value) else cat.call(opfunc, collation, ext.value, k))
  }

  /** A boolean result word: only its low byte counts. */
  predicate IsTrue(word: int) {
    word % 0x100 != 0
  }

  predicate ProvesPrune(cat: Catalog, q: QualSpec, c: ColSummary) {
    match q
    case Null(_, isNull) => if isNull then !c.hasNulls else c.allNulls
    case Compare(_, strategy, parseType, cmpproc, collation, k) =>
      !c.overlap && c.collation == collation && EvalCompare(cat, c, strategy, parseType, cmpproc, collation, k)
    case InList(_, parseType, cmpproc, collation, elems) =>
      !c.overlap && c.collation == collation && EvalInList(cat, c, parseType, cmpproc, collation, elems)
    case Overlap(_, parseType, opfunc, collation, k, commuted) =>
      c.overlap && EvalOverlap(cat, c, parseType, opfunc, collation, k, commuted)
  }

  const MAX_DEPTH: nat := 32

  predicate ClauseProvesPrune(cat: Catalog, node: Node, cols: seq<ColSummary>, depth: nat)
    decreases node
  {
    if node.NullNode? || depth > MAX_DEPTH then false
    else if node.BoolExpr? then
      match node.op
      case And => exists i :: 0 <= i < |node.args| && ClauseProvesPrune(cat, node.args[i], cols, depth + 1)
      case Or => node.args != []
                 && forall i :: 0 <= i < |node.args| ==> ClauseProvesPrune(cat, node.args[i], cols, depth + 1)
      case Not => false
    else
      var q := ExtractQual(cat, node);
      q.Some? &&
      var k := FindCol(cols, q.value.attnum);
      k.Some? && ProvesPrune(cat, q.value, cols[k.value])
  }

  /** `evaluate_relation_inner`: one clause that proves the prune is enough, since a row must satisfy them all. */
  predicate EvaluateRelation(cat: Catalog, clauses: seq<Node>, cols: seq<ColSummary>) {
    cols != [] && exists i :: 0 <= i < |clauses| && ClauseProvesPrune(cat, clauses[i], cols, 0)
  }

  // ---- three-valued logic: section 8.12 of ISO/IEC 9075:1992 -----------------------------------

  datatype Truth = True | False | Unknown

  /** What the parts of a clause the decision does not look into evaluate to. */
  datatype World = World(
    op: (Oid, Oid, Option<Datum>, Option<Datum>) -> Truth,
    other: (Node, Row) -> Truth,
    scalar: (Node, Row) -> Option<Datum>)

  function Scalar(w: World, node: Node, row: Row): Option<Datum> {
    match node
    case Var(attnum, _) => Value(row, attnum)
    case Const(_, isNull, value) => if isNull then None else Some(value)
    case Relabel(arg) => Scalar(w, arg, row)
    case _ => w.scalar(node, row)
  }

  function AnyOf(truths: seq<Truth>): Truth {
    if True in truths then True else if Unknown in truths then Unknown else False
  }

  function AllOf(truths: seq<Truth>): Truth {
    if False in truths then False else if Unknown in truths then Unknown else True
  }

  function Negated(t: Truth): Truth {
    match t
    case True => False
    case False => True
    case Unknown => Unknown
  }

  function Eval(w: World, cat: Catalog, node: Node, row: Row): Truth
    decreases node
  {
    match node
    case BoolExpr(op, args) =>
      var truths := seq(|args|, i requires 0 <= i < |args| => Eval(w, cat, args[i], row));
      (match op
       case And => AllOf(truths)
       case Or => AnyOf(truths)
       case Not => if |args| == 1 then Negated(truths[0]) else w.other(node, row))
    case OpExpr(opno, collid, args) =>
      if |args| == 2 then w.op(opno, collid, Scalar(w, args[0], row), Scalar(w, args[1], row)) else w.other(node, row)
    case NullTest(arg, isNull) => if Scalar(w, arg, row).None? == isNull then True else False
    case ScalarArrayOp(opno, useOr, collid, args) =>
      if useOr && |args| == 2 then EvalAny(w, cat, opno, collid, Scalar(w, args[0], row), Scalar(w, args[1], row))
      else w.other(node, row)
    case _ => w.other(node, row)
  }

  /** `x op ANY (list)` */
  function EvalAny(w: World, cat: Catalog, opno: Oid, collid: Oid, x: Option<Datum>, list: Option<Datum>): Truth {
    if list.None? then Unknown else
    var elems := cat.arrayElems(list.value);
    AnyOf(seq(|elems|, i requires 0 <= i < |elems| => w.op(opno, collid, x, elems[i])))
  }

  // ---- laws --------------------------------------------------------------------------------

  predicate Holds(strategy: int, a: real, b: real) {
    match strategy
    case 1 => a < b
    case 2 => a <= b
    case 3 => a == b
    case 4 => a >= b
    case 5 => a > b
    case _ => false
  }

  /**
   * What is asked of a btree operator applied to a column of type `t`: it means its strategy, left
   * to right, in the order the column's summary was built in, and is strict; its family's compare
   * function for the column's side sorts in that order; and a bound read as the operator's input
   * type or as the column's base type is the same value.
   */
  ghost predicate OperatorLaw(cat: Catalog, w: World, t: TypeOps, opno: Oid, commuted: bool, vartype: Oid) {
    var (left, right) := cat.inputTypes(opno);
    var (column, constant) := if commuted then (right, left) else (left, right);
    cat.btreeFamily(column).Some? && cat.opStrategy(opno, cat.btreeFamily(column).value) in {1, 2, 3, 4, 5} ==>
      var family := cat.btreeFamily(column).value;
      && (forall c: Oid, a: Option<Datum>, b: Option<Datum> ::
            w.op(opno, c, a, b) == True <==>
            a.Some? && b.Some? && Holds(cat.opStrategy(opno, family), t.rank(c, a.value), t.rank(c, b.value)))
      && (cat.familyProc(family, column, constant) != INVALID_OID ==>
            forall c: Oid, a: Datum, b: Datum ::
              SignIs(cat.call(cat.familyProc(family, column, constant), c, a, b), t.rank(c, a), t.rank(c, b)))
      && !cat.polymorphic(cat.baseType(vartype))
      && (forall p: Oid | p in {column, cat.baseType(vartype)} && !cat.polymorphic(p) :: ReadsSame(cat, t, p))
  }

  /**
   * So a comparison the decision finds means its strategy with the column on the left, whichever
   * side the column was on, and can be decided by its compare function on the parsed bounds.
   */
  ghost predicate CompareLaw(cat: Catalog, w: World, t: TypeOps, opno: Oid, commuted: bool, parseType: Oid) {
    var op := FindCompareOp(cat, opno, commuted);
    op.Some? ==>
      && (forall c: Oid, x: Option<Datum>, k: Option<Datum> ::
            (if commuted then w.op(opno, c, k, x) else w.op(opno, c, x, k)) == True <==>
            x.Some? && k.Some? && Holds(op.value.strategy, t.rank(c, x.value), t.rank(c, k.value)))
      && (forall c: Oid, a: Datum, b: Datum ::
            SignIs(cat.call(op.value.cmpproc, c, a, b), t.rank(c, a), t.rank(c, b)))
      && ReadsSame(cat, t, parseType)
  }

  /** Of the texts sessions store for the type, nothing is asked of others. */
  ghost predicate ReadsSame(cat: Catalog, t: TypeOps, parseType: Oid) {
    forall text: Text | t.writes(text) && cat.input(parseType, text).Some? && t.input(text).Some? ::
      SameValue(t, cat.input(parseType, text).value, t.input(text).value)
  }

  /**
   * What the catalogs say of the overlap operators there is a law for: the name `&&`, and a function in
   * pg_catalog (OID 11) or in the schema of the column's base type. Of other operators nothing is asked.
   */
  ghost predicate NamedOverlap(cat: Catalog, opno: Oid, vartype: Oid) {
    && cat.opName(opno) == Some([38, 38])
    && Some(cat.funcNamespace(cat.opcode(opno))) in {Some(11), cat.typeNamespace(cat.baseType(vartype))}
  }

  /** Such an `&&` on a range or geometry column tells whether a value meets one of the constant's regions. */
  ghost predicate OverlapLaw(cat: Catalog, w: World, t: TypeOps, regions: Datum -> seq<Extent>, opno: Oid,
                             commuted: bool, parseType: Oid)
  {
    && (forall c: Oid, x: Option<Datum>, k: Datum ::
          (if commuted then w.op(opno, c, Some(k), x) else w.op(opno, c, x, Some(k))) == True ==>
          x.Some? && Meets(t.extent(x.value), regions(k)))
    && (forall c: Oid, x: Datum, k: Datum ::
          Meets(t.extent(x), regions(k)) ==>
          (if commuted then cat.call(cat.opcode(opno), c, k, x) else cat.call(cat.opcode(opno), c, x, k)) % 0x100 != 0)
    && ReadsSame(cat, t, parseType)
  }

  ghost predicate Meets(e: Extent, regions: seq<Extent>) {
    exists i :: 0 <= i < |regions| && Overlaps(e, regions[i])
  }

  /** The laws hold of the operators a clause applies to summarized columns. */
  ghost predicate Tame(cat: Catalog, w: World, regions: Datum -> seq<Extent>, types: Types, attrs: seq<IndexAttr>,
                       node: Node)
    decreases node
  {
    var s := Summarized(attrs);
    match node
    case BoolExpr(_, args) => forall i :: 0 <= i < |args| ==> Tame(cat, w, regions, types, attrs, args[i])
    case OpExpr(opno, _, args) =>
      var o := VarAndConst(args);
      o.Some? ==> forall k | 0 <= k < |s| && s[k].attnum == o.value.v.attnum ::
        && OperatorLaw(cat, w, types(s[k].typ), opno, o.value.commuted, o.value.v.vartype)
        && (NamedOverlap(cat, opno, o.value.v.vartype) && types(s[k].typ).Kind() in {Range, Geometry} ==>
            OverlapLaw(cat, w, types(s[k].typ), regions, opno, o.value.commuted, cat.baseType(o.value.v.vartype)))
    case ScalarArrayOp(opno, _, _, args) =>
      var o := VarAndConst(args);
      o.Some? ==> forall k | 0 <= k < |s| && s[k].attnum == o.value.v.attnum ::
        OperatorLaw(cat, w, types(s[k].typ), opno, false, o.value.v.vartype)
    case _ => true
  }

  // ---- soundness -----------------------------------------------------------------------------

  /** What the catalog says of an operator carries over to the comparison the decision finds. */
  lemma {:induction false} FoundMeans(cat: Catalog, w: World, t: TypeOps, opno: Oid, commuted: bool, vartype: Oid)
    requires OperatorLaw(cat, w, t, opno, commuted, vartype) && FindCompareOp(cat, opno, commuted).Some?
    ensures var op := FindCompareOp(cat, opno, commuted).value;
      CompareLaw(cat, w, t, opno, commuted, SummaryParseType(cat, op.varType, vartype))
  {
    var op := FindCompareOp(cat, opno, commuted).value;
    hide SignIs, ReadsSame;
    forall c: Oid, x: Option<Datum>, k: Option<Datum>
      ensures (if commuted then w.op(opno, c, k, x) else w.op(opno, c, x, k)) == True <==>
        (x.Some? && k.Some? && Holds(op.strategy, t.rank(c, x.value), t.rank(c, k.value)))
    {
    }
  }

  lemma {:induction false} StripIsTransparent(w: World, node: Node, row: Row)
    ensures Scalar(w, StripRelabel(node), row) == Scalar(w, node, row)
    ensures node.Relabel? ==> StripRelabel(node) == StripRelabel(node.arg)
  {
    if node.Relabel? {
      StripIsTransparent(w, node.arg, row);
    }
  }

  lemma {:induction false} PresentMembers(elems: seq<Option<Datum>>, e: Option<Datum>)
    requires e in elems && e.Some?
    ensures e.value in Present(elems)
  {
    if elems[0] != e {
      PresentMembers(elems[1..], e);
    }
  }

  /** The bounds read as the operator's input type still bracket every covered value. */
  lemma {:induction false} BoundsBracket(cat: Catalog, t: TypeOps, c: ColSummary, parseType: Oid, d: Datum)
    requires ReadsSame(cat, t, parseType) && Written(t, c) && Covers(t, c, Some(d)) && !c.overlap
    requires ParsedBounds(cat, c, parseType).Some?
    ensures var b := ParsedBounds(cat, c, parseType).value;
      t.rank(c.collation, b.0) <= t.rank(c.collation, d) <= t.rank(c.collation, b.1)
  {
    assert Between(t, c, d);
    assert SameValue(t, cat.input(parseType, c.min.value).value, t.input(c.min.value).value);
    assert SameValue(t, cat.input(parseType, c.max.value).value, t.input(c.max.value).value);
  }

  lemma {:induction false} CompareSound(cat: Catalog, w: World, t: TypeOps, c: ColSummary, opno: Oid, commuted: bool,
                                        parseType: Oid, x: Option<Datum>, k: Datum)
    requires FindCompareOp(cat, opno, commuted).Some? && CompareLaw(cat, w, t, opno, commuted, parseType)
    requires !c.overlap && Written(t, c) && Covers(t, c, x)
    requires var op := FindCompareOp(cat, opno, commuted).value;
      EvalCompare(cat, c, op.strategy, parseType, op.cmpproc, c.collation, k)
    ensures (if commuted then w.op(opno, c.collation, Some(k), x) else w.op(opno, c.collation, x, Some(k))) != True
  {
    var op := FindCompareOp(cat, opno, commuted).value;
    var b := ParsedBounds(cat, c, parseType).value;
    if x.Some? {
      BoundsBracket(cat, t, c, parseType, x.value);
      assert SignIs(cat.call(op.cmpproc, c.collation, b.0, k), t.rank(c.collation, b.0), t.rank(c.collation, k));
      assert SignIs(cat.call(op.cmpproc, c.collation, b.1, k), t.rank(c.collation, b.1), t.rank(c.collation, k));
    }
  }

  /** An IN list is the OR of its equalities, and an empty one is FALSE. */
  lemma {:induction false} InIsOrOfEqualities(cat: Catalog, c: ColSummary, parseType: Oid, cmpproc: Oid, collation: Oid,
                                              elems: seq<Datum>)
    ensures EvalInList(cat, c, parseType, cmpproc, collation, elems) <==>
      ParsedBounds(cat, c, parseType).Some?
      && forall i :: 0 <= i < |elems| ==> EvalCompare(cat, c, 3, parseType, cmpproc, collation, elems[i])
  {
  }

  lemma {:induction false} InListSound(cat: Catalog, w: World, t: TypeOps, c: ColSummary, opno: Oid, parseType: Oid,
                                       x: Option<Datum>, list: Datum)
    requires FindCompareOp(cat, opno, false).Some? && CompareLaw(cat, w, t, opno, false, parseType)
    requires FindCompareOp(cat, opno, false).value.strategy == 3
    requires !c.overlap && Written(t, c) && Covers(t, c, x)
    requires EvalInList(cat, c, parseType, FindCompareOp(cat, opno, false).value.cmpproc, c.collation,
                        Present(cat.arrayElems(list)))
    ensures EvalAny(w, cat, opno, c.collation, x, Some(list)) != True
  {
    var op, elems := FindCompareOp(cat, opno, false).value, cat.arrayElems(list);
    InIsOrOfEqualities(cat, c, parseType, op.cmpproc, c.collation, Present(elems));
    forall i | 0 <= i < |elems| ensures w.op(opno, c.collation, x, elems[i]) != True {
      if elems[i].Some? {
        PresentMembers(elems, elems[i]);
        var j :| 0 <= j < |Present(elems)| && Present(elems)[j] == elems[i].value;
        CompareSound(cat, w, t, c, opno, false, parseType, x, Present(elems)[j]);
        assert elems[i] == Some(Present(elems)[j]);
      } else {
        assert w.op(opno, c.collation, x, None) != True;
      }
    }
  }

  lemma {:induction false} OverlapSound(cat: Catalog, w: World, t: TypeOps, regions: Datum -> seq<Extent>,
                                        c: ColSummary,
                                        opno: Oid, commuted: bool, parseType: Oid, collation: Oid,
                                        x: Option<Datum>, k: Datum)
    requires OverlapLaw(cat, w, t, regions, opno, commuted, parseType)
    requires c.overlap && Written(t, c) && Covers(t, c, x)
    requires EvalOverlap(cat, c, parseType, cat.opcode(opno), collation, k, commuted)
    ensures (if commuted then w.op(opno, collation, Some(k), x) else w.op(opno, collation, x, Some(k))) != True
  {
    var ext := cat.input(parseType, c.min.value).value;
    assert t.input(c.min.value).Some? ==> SameValue(t, ext, t.input(c.min.value).value);
    if x.Some? && Meets(t.extent(x.value), regions(k)) {
      MeetsMonotone(t.extent(x.value), t.extent(ext), regions(k));
    }
  }

  lemma {:induction false} MeetsMonotone(a: Extent, b: Extent, regions: seq<Extent>)
    requires Within(a, b) && Meets(a, regions)
    ensures Meets(b, regions)
  {
    var i :| 0 <= i < |regions| && Overlaps(a, regions[i]);
    OverlapMonotone(a, b, regions[i]);
  }

  /** What extracting a leaf looks through does not change what the leaf compares. */
  lemma {:induction false} OperandValues(w: World, args: seq<Node>, row: Row)
    requires VarAndConst(args).Some?
    ensures var o := VarAndConst(args).value;
      var x, k := Value(row, o.v.attnum), Some(o.k.value);
      (Scalar(w, args[0], row), Scalar(w, args[1], row)) == if o.commuted then (k, x) else (x, k)
  {
    StripIsTransparent(w, args[0], row);
    StripIsTransparent(w, args[1], row);
  }

  lemma {:induction false} LeafSound(cat: Catalog, w: World, regions: Datum -> seq<Extent>, types: Types,
                                     attrs: seq<IndexAttr>, cols: seq<ColSummary>, node: Node, row: Row)
    requires !node.BoolExpr? && !node.NullNode? && Tame(cat, w, regions, types, attrs, node)
    requires DescribesAll(types, attrs, cols) && CoversRow(types, attrs, cols, row)
    requires ClauseProvesPrune(cat, node, cols, 0)
    ensures Eval(w, cat, node, row) != True
  {
    var q := ExtractQual(cat, node).value;
    var k := FindCol(cols, q.attnum).value;
    FoundIsFirst(types, attrs, cols, q.attnum);
    var a := Summarized(attrs)[k];
    var c, t, x := cols[k], types(a.typ), Value(row, a.attnum);
    assert Describes(t, a, c) && Covers(t, c, x);
    hide Covers;
    match node
    case OpExpr(opno, collid, args) =>
      var o := VarAndConst(args).value;
      OperandValues(w, args, row);
      if q.Compare? {
        FoundMeans(cat, w, t, opno, o.commuted, o.v.vartype);
        CompareSound(cat, w, t, c, opno, o.commuted, q.parseType, x, o.k.value);
      } else {
        OverlapSound(cat, w, t, regions, c, opno, o.commuted, q.parseType, collid, x, o.k.value);
      }
    case NullTest(arg, isNull) =>
      StripIsTransparent(w, arg, row);
      NullSound(t, c, x);
    case ScalarArrayOp(opno, useOr, collid, args) =>
      OperandValues(w, args, row);
      FoundMeans(cat, w, t, opno, false, VarAndConst(args).value.v.vartype);
      InListSound(cat, w, t, c, opno, q.parseType, x, VarAndConst(args).value.k.value);
  }

  lemma {:induction false} NullSound(t: TypeOps, c: ColSummary, x: Option<Datum>)
    requires Covers(t, c, x)
    ensures !c.hasNulls ==> x.Some?
    ensures c.allNulls ==> x.None?
  {
  }

  /**
   * A clause that proves the prune is TRUE of no covered row, whatever its shape: three-valued
   * logic, NULLs, NOT, unknown nodes, the depth cutoff and mismatched collations included.
   */
  lemma {:induction false} PruneSound(cat: Catalog, w: World, regions: Datum -> seq<Extent>, types: Types,
                                      attrs: seq<IndexAttr>, cols: seq<ColSummary>, node: Node, depth: nat, row: Row)
    requires Tame(cat, w, regions, types, attrs, node)
    requires DescribesAll(types, attrs, cols) && CoversRow(types, attrs, cols, row)
    requires ClauseProvesPrune(cat, node, cols, depth)
    ensures Eval(w, cat, node, row) != True
    decreases node
  {
    if node.BoolExpr? {
      hide DescribesAll, CoversRow;
      match node.op
      case And =>
        var i :| 0 <= i < |node.args| && ClauseProvesPrune(cat, node.args[i], cols, depth + 1);
        PruneSound(cat, w, regions, types, attrs, cols, node.args[i], depth + 1, row);
        AndNotTrue(w, cat, node, row, i);
      case Or =>
        forall i | 0 <= i < |node.args| ensures Eval(w, cat, node.args[i], row) != True {
          PruneSound(cat, w, regions, types, attrs, cols, node.args[i], depth + 1, row);
        }
      case Not =>
    } else {
      LeafSound(cat, w, regions, types, attrs, cols, node, row);
    }
  }

  lemma {:induction false} AndNotTrue(w: World, cat: Catalog, node: Node, row: Row, i: nat)
    requires node.BoolExpr? && node.op == And && i < |node.args| && Eval(w, cat, node.args[i], row) != True
    ensures Eval(w, cat, node, row) != True
  {
    var truths := seq(|node.args|, i requires 0 <= i < |node.args| => Eval(w, cat, node.args[i], row));
    assert truths[i] in truths;
  }

  /** Without a readable summary nothing is pruned. */
  lemma {:induction false} NothingPruned(cat: Catalog, node: Node, depth: nat)
    ensures !ClauseProvesPrune(cat, node, [], depth)
    decreases node
  {
    hide ExtractQual, ProvesPrune;
    if node.BoolExpr? {
      forall i | 0 <= i < |node.args| ensures !ClauseProvesPrune(cat, node.args[i], [], depth + 1) {
        NothingPruned(cat, node.args[i], depth + 1);
      }
      assert node.args != [] ==> !ClauseProvesPrune(cat, node.args[0], [], depth + 1);
    }
  }

  /** A relation pruned by its restriction clauses has no covered row that satisfies them all. */
  lemma {:induction false} RelationSound(cat: Catalog, w: World, regions: Datum -> seq<Extent>, types: Types,
                                         attrs: seq<IndexAttr>, cols: seq<ColSummary>, clauses: seq<Node>, row: Row)
    requires forall clause | clause in clauses :: Tame(cat, w, regions, types, attrs, clause)
    requires cols != [] ==> DescribesAll(types, attrs, cols) && CoversRow(types, attrs, cols, row)
    requires EvaluateRelation(cat, clauses, cols)
    ensures exists clause | clause in clauses :: Eval(w, cat, clause, row) != True
  {
    var i :| 0 <= i < |clauses| && ClauseProvesPrune(cat, clauses[i], cols, 0);
    assert clauses[i] in clauses;
    PruneSound(cat, w, regions, types, attrs, cols, clauses[i], 0, row);
  }
}
