/** Pinning the settings that change a bound's text: stable_io.rs. */
module StableIo {
  import opened Base
  import opened Format
  import opened Coverage
  import opened Prune
  import opened Sessions
  import opened Widening

  /** A body ends with a value or by raising an error. */
  datatype Ran<T> = Ended(value: T) | Raised

  class Session {
    var settings: Settings
    /** The settings to return to when each GUC nest level ends. */
    var saved: seq<Settings>
    const parallel: bool

    constructor (settings: Settings, parallel: bool)
      ensures this.settings == settings && saved == [] && this.parallel == parallel
    {
      this.settings, this.saved, this.parallel := settings, [], parallel;
    }

    method NewGucNestLevel() returns (level: nat)
      modifies this
      ensures settings == old(settings) && saved == old(saved) + [settings] && level == |saved|
    {
      saved := saved + [settings];
      level := |saved|;
    }

    /** `AtEOXact_GUC`: undoes everything set since the level began. */
    method EndGucNestLevel(level: nat)
      requires 0 < level <= |saved|
      modifies this
      ensures settings == old(saved)[level - 1] && saved == old(saved)[..level - 1]
    {
      settings := saved[level - 1];
      saved := saved[..level - 1];
    }

    /**
     * `with_stable_io`: runs the body under pinned settings, or not at all, and leaves the
     * session as it was however the body ends.
     */
    method WithStableIo<T>(body: Settings -> Ran<T>) returns (r: Option<Ran<T>>)
      modifies this
      ensures settings == old(settings) && saved == old(saved)
      ensures r == if parallel && !Stable(settings) then None else Some(body(Pinned(settings)))
    {
      var needDate := settings.dateStyle != Iso;
      var needInterval := settings.intervalStyle != PostgresInterval;
      var needFloat := settings.extraFloatDigits < 1;
      if !(needDate || needInterval || needFloat) {
        return Some(body(settings));
      }
      if parallel {
        return None;
      }
      var level := NewGucNestLevel();
      if needDate {
        settings := settings.(dateStyle := Iso);
      }
      if needInterval {
        settings := settings.(intervalStyle := PostgresInterval);
      }
      if needFloat {
        settings := settings.(extraFloatDigits := 1);
      }
      r := Some(body(settings));
      EndGucNestLevel(level);
    }
  }

  // ---- deciding on bounds however they are read ------------------------------------------------

  /** What a text is read as, under each type. */
  type Reading = (Oid, Text) -> Option<Datum>

  /** The prune decision when the bounds of the `k`-th entry are read by `readers[k]`. */
  predicate Decide(cat: Catalog, node: Node, cols: seq<ColSummary>, readers: seq<Reading>, depth: nat)
    requires |readers| == |cols|
    decreases node
  {
    if node.NullNode? || depth > MAX_DEPTH then false
    else if node.BoolExpr? then
      match node.op
      case And => exists i :: 0 <= i < |node.args| && Decide(cat, node.args[i], cols, readers, depth + 1)
      case Or => node.args != []
                 && forall i :: 0 <= i < |node.args| ==> Decide(cat, node.args[i], cols, readers, depth + 1)
      case Not => false
    else
      var q := ExtractQual(cat, node);
      q.Some? &&
      var k := FindCol(cols, q.value.attnum);
      k.Some? && ProvesPrune(cat.(input := readers[k.value]), q.value, cols[k.value])
  }

  function Everywhere(n: nat, f: Reading): (readers: seq<Reading>)
    ensures |readers| == n && forall k :: 0 <= k < n ==> readers[k] == f
  {
    seq(n, _ => f)
  }

  lemma {:induction false} SameQual(cat: Catalog, f: Reading, node: Node)
    ensures ExtractQual(cat.(input := f), node) == ExtractQual(cat, node)
  {
  }

  /** Where all bounds are read alike, it is the decision of `clause_proves_prune`. */
  lemma {:induction false} DecideIsProves(cat: Catalog, f: Reading, node: Node, cols: seq<ColSummary>, depth: nat)
    ensures ClauseProvesPrune(cat.(input := f), node, cols, depth)
         == Decide(cat, node, cols, Everywhere(|cols|, f), depth)
    decreases node
  {
    hide ExtractQual, ProvesPrune, FindCol;
    if node.BoolExpr? {
      forall i | 0 <= i < |node.args|
        ensures ClauseProvesPrune(cat.(input := f), node.args[i], cols, depth + 1)
             == Decide(cat, node.args[i], cols, Everywhere(|cols|, f), depth + 1)
      {
        DecideIsProves(cat, f, node.args[i], cols, depth + 1);
      }
    } else {
      SameQual(cat, f, node);
    }
  }

  // ---- what a clause can tell apart ------------------------------------------------------------

  /** The types a clause with this operator may read the column's bounds as. */
  ghost predicate ReadAs(cat: Catalog, opno: Oid, commuted: bool, vartype: Oid, p: Oid) {
    var (left, right) := cat.inputTypes(opno);
    p in {if commuted then right else left, cat.baseType(vartype)} && !cat.polymorphic(p)
  }

  ghost predicate SameSign(x: int, y: int) {
    (x < 0 <==> y < 0) && (x > 0 <==> y > 0)
  }

  /** A compare function sees nothing of its left operand but its value. */
  ghost predicate ProcSees(cat: Catalog, t: TypeOps, p: Oid) {
    forall c: Oid, a: Datum, b: Datum, k: Datum | SameValue(t, a, b) ::
      SameSign(cat.call(p, c, a, k), cat.call(p, c, b, k))
  }

  /** Nor does an operator's function of either operand. */
  ghost predicate FuncSees(cat: Catalog, t: TypeOps, f: Oid) {
    forall c: Oid, a: Datum, b: Datum, k: Datum | SameValue(t, a, b) ::
      && IsTrue(cat.call(f, c, a, k)) == IsTrue(cat.call(f, c, b, k))
      && IsTrue(cat.call(f, c, k, a)) == IsTrue(cat.call(f, c, k, b))
  }

  /** The operator's compare function, or the operator itself if it is a trusted `&&`, sees nothing but values. */
  ghost predicate SeesValues(cat: Catalog, t: TypeOps, opno: Oid, commuted: bool, vartype: Oid) {
    var (left, right) := cat.inputTypes(opno);
    var (column, constant) := if commuted then (right, left) else (left, right);
    && !cat.polymorphic(cat.baseType(vartype))
    && (cat.btreeFamily(column).Some? ==>
          ProcSees(cat, t, cat.familyProc(cat.btreeFamily(column).value, column, constant)))
    && (NamedOverlap(cat, opno, vartype) ==> FuncSees(cat, t, cat.opcode(opno)))
  }

  /** Two readings make the same values of the entry's bounds, under every type the clause may read them as. */
  ghost predicate SameBounds(cat: Catalog, t: TypeOps, c: ColSummary, one: Reading, other: Reading, opno: Oid,
                             commuted: bool, vartype: Oid)
  {
    forall p: Oid | ReadAs(cat, opno, commuted, vartype, p) ::
      && (c.min.Some? ==> SameRead(t, one(p, c.min.value), other(p, c.min.value)))
      && (c.max.Some? ==> SameRead(t, one(p, c.max.value), other(p, c.max.value)))
  }

  /** The two readings agree wherever the clause reads a bound. */
  ghost predicate ReadAlike(cat: Catalog, types: Types, attrs: seq<IndexAttr>, cols: seq<ColSummary>,
                            one: seq<Reading>, other: seq<Reading>, node: Node)
    requires |cols| == |one| == |other| == |Summarized(attrs)|
    decreases node
  {
    var s := Summarized(attrs);
    match node
    case BoolExpr(_, args) => forall i :: 0 <= i < |args| ==> ReadAlike(cat, types, attrs, cols, one, other, args[i])
    case OpExpr(opno, _, args) =>
      var o := VarAndConst(args);
      o.Some? ==> forall k | 0 <= k < |s| && s[k].attnum == o.value.v.attnum ::
        ReadAlikeAt(cat, types(s[k].typ), cols[k], one[k], other[k], opno, o.value.commuted, o.value.v.vartype)
    case ScalarArrayOp(opno, _, _, args) =>
      var o := VarAndConst(args);
      o.Some? ==> forall k | 0 <= k < |s| && s[k].attnum == o.value.v.attnum ::
        ReadAlikeAt(cat, types(s[k].typ), cols[k], one[k], other[k], opno, false, o.value.v.vartype)
    case _ => true
  }

  ghost predicate ReadAlikeAt(cat: Catalog, t: TypeOps, c: ColSummary, one: Reading, other: Reading, opno: Oid,
                              commuted: bool, vartype: Oid)
  {
    SeesValues(cat, t, opno, commuted, vartype) && SameBounds(cat, t, c, one, other, opno, commuted, vartype)
  }

  // ---- leaves ----------------------------------------------------------------------------------

  /** Two catalogs that differ in how they read the bounds of `c`, but read the same values. */
  ghost predicate BoundsAgree(t: TypeOps, one: Catalog, other: Catalog, parseType: Oid, c: ColSummary) {
    && one == other.(input := one.input)
    && (c.min.Some? ==> SameRead(t, one.input(parseType, c.min.value), other.input(parseType, c.min.value)))
    && (c.max.Some? ==> SameRead(t, one.input(parseType, c.max.value), other.input(parseType, c.max.value)))
  }

  lemma {:induction false} CompareAgrees(t: TypeOps, one: Catalog, other: Catalog, c: ColSummary, strategy: int,
                                         parseType: Oid, p: Oid, collation: Oid, k: Datum)
    requires BoundsAgree(t, one, other, parseType, c) && ProcSees(other, t, p)
    ensures EvalCompare(one, c, strategy, parseType, p, collation, k)
         == EvalCompare(other, c, strategy, parseType, p, collation, k)
  {
    var a, b := ParsedBounds(one, c, parseType), ParsedBounds(other, c, parseType);
    if a.Some? && b.Some? {
      assert SameSign(other.call(p, collation, a.value.0, k), other.call(p, collation, b.value.0, k));
      assert SameSign(other.call(p, collation, a.value.1, k), other.call(p, collation, b.value.1, k));
    }
  }

  lemma {:induction false} InListAgrees(t: TypeOps, one: Catalog, other: Catalog, c: ColSummary, parseType: Oid, p: Oid,
                                        collation: Oid, elems: seq<Datum>)
    requires BoundsAgree(t, one, other, parseType, c) && ProcSees(other, t, p)
    ensures EvalInList(one, c, parseType, p, collation, elems) == EvalInList(other, c, parseType, p, collation, elems)
  {
    InIsOrOfEqualities(one, c, parseType, p, collation, elems);
    InIsOrOfEqualities(other, c, parseType, p, collation, elems);
    forall i | 0 <= i < |elems|
      ensures EvalCompare(one, c, 3, parseType, p, collation, elems[i])
           == EvalCompare(other, c, 3, parseType, p, collation, elems[i])
    {
      CompareAgrees(t, one, other, c, 3, parseType, p, collation, elems[i]);
    }
    assert ParsedBounds(one, c, parseType).Some? == ParsedBounds(other, c, parseType).Some?;
    hide EvalCompare, EvalInList, ProcSees, ParsedBounds, BoundsAgree;
  }

  lemma {:induction false} OverlapAgrees(t: TypeOps, one: Catalog, other: Catalog, c: ColSummary, parseType: Oid,
                                         f: Oid,
                                         collation: Oid, k: Datum, commuted: bool)
    requires BoundsAgree(t, one, other, parseType, c) && FuncSees(other, t, f)
    ensures EvalOverlap(one, c, parseType, f, collation, k, commuted)
         == EvalOverlap(other, c, parseType, f, collation, k, commuted)
  {
    hide IsTrue;
  }

  /** What the catalog says of an operator carries over to the functions the decision calls. */
  lemma {:induction false} FoundSees(cat: Catalog, t: TypeOps, opno: Oid, commuted: bool, vartype: Oid)
    requires SeesValues(cat, t, opno, commuted, vartype)
    ensures FindCompareOp(cat, opno, commuted).Some? ==>
      var op := FindCompareOp(cat, opno, commuted).value;
      ProcSees(cat, t, op.cmpproc) && ReadAs(cat, opno, commuted, vartype, SummaryParseType(cat, op.varType, vartype))
    ensures TrustedOverlap(cat, opno, vartype) ==>
      FuncSees(cat, t, cat.opcode(opno)) && ReadAs(cat, opno, commuted, vartype, cat.baseType(vartype))
  {
    hide ProcSees, FuncSees;
  }

  lemma {:induction false} LeafAgrees(cat: Catalog, t: TypeOps, q: QualSpec, c: ColSummary, one: Reading,
                                      other: Reading,
                                      parseType: Oid)
    requires q.Compare? || q.InList? ==> ProcSees(cat, t, q.cmpproc)
    requires q.Overlap? ==> FuncSees(cat, t, q.opfunc)
    requires !q.Null? ==> q.parseType == parseType
    requires c.min.Some? ==> SameRead(t, one(parseType, c.min.value), other(parseType, c.min.value))
    requires c.max.Some? ==> SameRead(t, one(parseType, c.max.value), other(parseType, c.max.value))
    ensures ProvesPrune(cat.(input := one), q, c) == ProvesPrune(cat.(input := other), q, c)
  {
    var a, b := cat.(input := one), cat.(input := other);
    assert BoundsAgree(t, a, b, parseType, c);
    assert (q.Compare? || q.InList? ==> ProcSees(b, t, q.cmpproc)) && (q.Overlap? ==> FuncSees(b, t, q.opfunc));
    hide BoundsAgree, ProcSees, FuncSees, EvalCompare, EvalInList, EvalOverlap, SameRead;
    match q
    case Null(_, _) =>
    case Compare(_, strategy, _, cmpproc, collation, k) =>
      CompareAgrees(t, a, b, c, strategy, parseType, cmpproc, collation, k);
    case InList(_, _, cmpproc, collation, elems) =>
      InListAgrees(t, a, b, c, parseType, cmpproc, collation, elems);
    case Overlap(_, _, opfunc, collation, k, commuted) =>
      OverlapAgrees(t, a, b, c, parseType, opfunc, collation, k, commuted);
  }

  lemma {:induction false} ExtractedAgrees(cat: Catalog, types: Types, attrs: seq<IndexAttr>, cols: seq<ColSummary>,
                                           one: seq<Reading>, other: seq<Reading>, node: Node, k: nat)
    requires |cols| == |one| == |other| == |Summarized(attrs)| && k < |cols| && !node.BoolExpr?
    requires ReadAlike(cat, types, attrs, cols, one, other, node)
    requires ExtractQual(cat, node).Some? && ExtractQual(cat, node).value.attnum == Summarized(attrs)[k].attnum
    ensures ProvesPrune(cat.(input := one[k]), ExtractQual(cat, node).value, cols[k])
         == ProvesPrune(cat.(input := other[k]), ExtractQual(cat, node).value, cols[k])
  {
    var t, q := types(Summarized(attrs)[k].typ), ExtractQual(cat, node).value;
    hide ProvesPrune, SeesValues, FindCompareOp, TrustedOverlap, SameRead, ProcSees, FuncSees, ReadAs;
    match node
    case OpExpr(opno, _, args) =>
      var o := VarAndConst(args).value;
      FoundSees(cat, t, opno, o.commuted, o.v.vartype);
      LeafAgrees(cat, t, q, cols[k], one[k], other[k], q.parseType);
    case NullTest(_, _) =>
      NullAgrees(cat, q, cols[k], one[k], other[k]);
    case ScalarArrayOp(opno, _, _, args) =>
      var o := VarAndConst(args).value;
      FoundSees(cat, t, opno, false, o.v.vartype);
      LeafAgrees(cat, t, q, cols[k], one[k], other[k], q.parseType);
  }

  lemma {:induction false} NullAgrees(cat: Catalog, q: QualSpec, c: ColSummary, one: Reading, other: Reading)
    requires q.Null?
    ensures ProvesPrune(cat.(input := one), q, c) == ProvesPrune(cat.(input := other), q, c)
  {
  }

  /** Readings that agree wherever the clause reads a bound decide alike. */
  lemma {:induction false} SameDecision(cat: Catalog, types: Types, attrs: seq<IndexAttr>, cols: seq<ColSummary>,
                                        one: seq<Reading>, other: seq<Reading>, node: Node, depth: nat)
    requires |one| == |other| == |cols| && DescribesAll(types, attrs, cols)
    requires |cols| == |Summarized(attrs)| && ReadAlike(cat, types, attrs, cols, one, other, node)
    ensures Decide(cat, node, cols, one, depth) == Decide(cat, node, cols, other, depth)
    decreases node
  {
    hide ProvesPrune, DescribesAll, FindCol, ReadAlikeAt, ExtractQual;
    if node.BoolExpr? {
      forall i | 0 <= i < |node.args|
        ensures Decide(cat, node.args[i], cols, one, depth + 1) == Decide(cat, node.args[i], cols, other, depth + 1)
      {
        SameDecision(cat, types, attrs, cols, one, other, node.args[i], depth + 1);
      }
    } else if !node.NullNode? {
      var q := ExtractQual(cat, node);
      if q.Some? {
        FoundIsFirst(types, attrs, cols, q.value.attnum);
        if FindCol(cols, q.value.attnum).Some? {
          ExtractedAgrees(cat, types, attrs, cols, one, other, node, FindCol(cols, q.value.attnum).value);
        }
      }
    }
  }

  // ---- sessions --------------------------------------------------------------------------------

  /** A type's output and input functions, which see the session's settings. */
  datatype TextIo = TextIo(
    output: (Settings, Datum) -> Option<Text>,
    input: (Settings, Text) -> Option<Datum>)

  /** What a session with settings `s` reads inside `with_stable_io`. */
  function ReadIn(io: Oid -> TextIo, s: Settings): Reading {
    (typ: Oid, text: Text) => io(typ).input(Pinned(s), text)
  }

  /** The catalog as that session sees it. */
  function InSession(cat: Catalog, io: Oid -> TextIo, s: Settings): Catalog {
    cat.(input := ReadIn(io, s))
  }

  /**
   * The type `p` makes the same of the texts stored for a column of type `t` in every session.
   * Stored texts are in ISO style: no date among them reads differently under another field order.
   */
  ghost predicate PortableLaw(io: Oid -> TextIo, t: TypeOps, p: Oid) {
    forall text: Text, s: Settings, u: Settings | t.writes(text) && Stable(s) && Stable(u) ::
      SameRead(t, io(p).input(s, text), io(p).input(u, text))
  }

  ghost predicate PortableAt(cat: Catalog, io: Oid -> TextIo, t: TypeOps, opno: Oid, commuted: bool, vartype: Oid) {
    && SeesValues(cat, t, opno, commuted, vartype)
    && forall p: Oid | ReadAs(cat, opno, commuted, vartype, p) :: PortableLaw(io, t, p)
  }

  /** The clause reads each column's bounds as types that are portable for that column. */
  ghost predicate Portable(cat: Catalog, io: Oid -> TextIo, types: Types, attrs: seq<IndexAttr>, node: Node)
    decreases node
  {
    var s := Summarized(attrs);
    match node
    case BoolExpr(_, args) => forall i :: 0 <= i < |args| ==> Portable(cat, io, types, attrs, args[i])
    case OpExpr(opno, _, args) =>
      var o := VarAndConst(args);
      o.Some? ==> forall k | 0 <= k < |s| && s[k].attnum == o.value.v.attnum ::
        PortableAt(cat, io, types(s[k].typ), opno, o.value.commuted, o.value.v.vartype)
    case ScalarArrayOp(opno, _, _, args) =>
      var o := VarAndConst(args);
      o.Some? ==> forall k | 0 <= k < |s| && s[k].attnum == o.value.v.attnum ::
        PortableAt(cat, io, types(s[k].typ), opno, false, o.value.v.vartype)
    case _ => true
  }

  lemma {:induction false} PortableReads(cat: Catalog, io: Oid -> TextIo, t: TypeOps, a: IndexAttr, c: ColSummary,
                                         one: Settings, other: Settings, opno: Oid, commuted: bool, vartype: Oid)
    requires PortableAt(cat, io, t, opno, commuted, vartype) && Describes(t, a, c)
    ensures ReadAlikeAt(cat, t, c, ReadIn(io, one), ReadIn(io, other), opno, commuted, vartype)
  {
    hide SeesValues, SameRead, ReadAs, PortableLaw, ReadIn;
    forall p: Oid | ReadAs(cat, opno, commuted, vartype, p)
      ensures c.min.Some? ==> SameRead(t, ReadIn(io, one)(p, c.min.value), ReadIn(io, other)(p, c.min.value))
      ensures c.max.Some? ==> SameRead(t, ReadIn(io, one)(p, c.max.value), ReadIn(io, other)(p, c.max.value))
    {
      assert PortableLaw(io, t, p);
      if c.min.Some? {
        PortableText(io, t, p, c.min.value, one, other);
      }
      if c.max.Some? {
        PortableText(io, t, p, c.max.value, one, other);
      }
    }
  }

  lemma {:induction false} PortableText(io: Oid -> TextIo, t: TypeOps, p: Oid, text: Text, one: Settings,
                                        other: Settings)
    requires PortableLaw(io, t, p) && t.writes(text)
    ensures SameRead(t, ReadIn(io, one)(p, text), ReadIn(io, other)(p, text))
  {
    hide SameRead;
    assert Stable(Pinned(one)) && Stable(Pinned(other));
    assert SameRead(t, io(p).input(Pinned(one), text), io(p).input(Pinned(other), text));
  }

  lemma {:induction false} PortableReadsAlike(cat: Catalog, io: Oid -> TextIo, types: Types, attrs: seq<IndexAttr>,
                                              cols: seq<ColSummary>, node: Node, one: Settings, other: Settings)
    requires Portable(cat, io, types, attrs, node) && DescribesAll(types, attrs, cols) && |cols| == |Summarized(attrs)|
    ensures ReadAlike(cat, types, attrs, cols, Everywhere(|cols|, ReadIn(io, one)),
                      Everywhere(|cols|, ReadIn(io, other)), node)
    decreases node
  {
    hide PortableAt, ReadAlikeAt, VarAndConst, Describes, Summarized;
    match node
    case BoolExpr(_, args) =>
      forall i | 0 <= i < |args|
        ensures ReadAlike(cat, types, attrs, cols, Everywhere(|cols|, ReadIn(io, one)),
                          Everywhere(|cols|, ReadIn(io, other)),
                          args[i])
      {
        PortableReadsAlike(cat, io, types, attrs, cols, args[i], one, other);
      }
    case OpExpr(opno, _, args) =>
      var s, o := Summarized(attrs), VarAndConst(args);
      forall k | 0 <= k < |s| && o.Some? && s[k].attnum == o.value.v.attnum
        ensures ReadAlikeAt(cat, types(s[k].typ), cols[k], ReadIn(io, one), ReadIn(io, other), opno, o.value.commuted,
                            o.value.v.vartype)
      {
        PortableReads(cat, io, types(s[k].typ), s[k], cols[k], one, other, opno, o.value.commuted, o.value.v.vartype);
      }
    case ScalarArrayOp(opno, _, _, args) =>
      var s, o := Summarized(attrs), VarAndConst(args);
      forall k | 0 <= k < |s| && o.Some? && s[k].attnum == o.value.v.attnum
        ensures ReadAlikeAt(cat, types(s[k].typ), cols[k], ReadIn(io, one), ReadIn(io, other), opno, false,
                            o.value.v.vartype)
      {
        PortableReads(cat, io, types(s[k].typ), s[k], cols[k], one, other, opno, false, o.value.v.vartype);
      }
    case _ =>
  }

  /** Sessions agree on every clause, whoever wrote the bounds. */
  lemma {:induction false} ReaderIndependent(cat: Catalog, io: Oid -> TextIo, types: Types, attrs: seq<IndexAttr>,
                                             cols: seq<ColSummary>, node: Node, depth: nat, one: Settings,
                                             other: Settings)
    requires Portable(cat, io, types, attrs, node) && DescribesAll(types, attrs, cols)
    ensures ClauseProvesPrune(InSession(cat, io, one), node, cols, depth)
         == ClauseProvesPrune(InSession(cat, io, other), node, cols, depth)
  {
    hide Portable, DescribesAll, ReadAlike, Decide, ClauseProvesPrune, ReadIn;
    SizesMatch(types, attrs, cols);
    PortableReadsAlike(cat, io, types, attrs, cols, node, one, other);
    SameDecision(cat, types, attrs, cols, Everywhere(|cols|, ReadIn(io, one)), Everywhere(|cols|, ReadIn(io, other)),
                 node, depth);
    DecideIsProves(cat, ReadIn(io, one), node, cols, depth);
    DecideIsProves(cat, ReadIn(io, other), node, cols, depth);
  }

  // ---- the original values ---------------------------------------------------------------------

  /** A bound and the value it was written for. */
  datatype Origin = Origin(min: Option<Datum>, max: Option<Datum>)

  /** Reading an entry's bounds as the values they were written for. */
  function ReadOrigin(c: ColSummary, o: Origin): Reading {
    (_: Oid, text: Text) => if c.min == Some(text) then o.min else if c.max == Some(text) then o.max else None
  }

  function Origins(cols: seq<ColSummary>, os: seq<Origin>): (readers: seq<Reading>)
    requires |os| == |cols|
    ensures |readers| == |cols| && forall k :: 0 <= k < |cols| ==> readers[k] == ReadOrigin(cols[k], os[k])
  {
    seq(|cols|, k requires 0 <= k < |cols| => ReadOrigin(cols[k], os[k]))
  }

  /** `text` is what some session stored for `d`. */
  ghost predicate StoredFor(io: Oid -> TextIo, typ: Oid, text: Text, d: Option<Datum>) {
    d.Some? && exists s: Settings :: io(typ).output(Pinned(s), d.value) == Some(text)
  }

  /** Each bound is the text some session stored for its value. */
  ghost predicate WrittenFor(io: Oid -> TextIo, typ: Oid, c: ColSummary, o: Origin) {
    && (c.min.Some? ==> StoredFor(io, typ, c.min.value, o.min))
    && (c.max.Some? ==> StoredFor(io, typ, c.max.value, o.max))
  }

  /** What a column of type `typ` stores anywhere, `p` reads back anywhere as the same value. */
  ghost predicate StableLaw(io: Oid -> TextIo, t: TypeOps, typ: Oid, p: Oid) {
    forall s: Settings, u: Settings, d: Datum | Stable(s) && Stable(u) && io(typ).output(s, d).Some? ::
      SameRead(t, io(p).input(u, io(typ).output(s, d).value), Some(d))
  }

  ghost predicate StableAt(cat: Catalog, io: Oid -> TextIo, t: TypeOps, typ: Oid, opno: Oid, commuted: bool,
                           vartype: Oid)
  {
    && SeesValues(cat, t, opno, commuted, vartype)
    && forall p: Oid | ReadAs(cat, opno, commuted, vartype, p) :: StableLaw(io, t, typ, p)
  }

  ghost predicate StableClause(cat: Catalog, io: Oid -> TextIo, types: Types, attrs: seq<IndexAttr>, node: Node)
    decreases node
  {
    var s := Summarized(attrs);
    match node
    case BoolExpr(_, args) => forall i :: 0 <= i < |args| ==> StableClause(cat, io, types, attrs, args[i])
    case OpExpr(opno, _, args) =>
      var o := VarAndConst(args);
      o.Some? ==> forall k | 0 <= k < |s| && s[k].attnum == o.value.v.attnum ::
        StableAt(cat, io, types(s[k].typ), s[k].typ, opno, o.value.commuted, o.value.v.vartype)
    case ScalarArrayOp(opno, _, _, args) =>
      var o := VarAndConst(args);
      o.Some? ==> forall k | 0 <= k < |s| && s[k].attnum == o.value.v.attnum ::
        StableAt(cat, io, types(s[k].typ), s[k].typ, opno, false, o.value.v.vartype)
    case _ => true
  }

  lemma {:induction false} StableReads(io: Oid -> TextIo, t: TypeOps, typ: Oid, p: Oid, s: Settings, u: Settings,
                                       d: Datum)
    requires StableLaw(io, t, typ, p) && Stable(s) && Stable(u) && io(typ).output(s, d).Some?
    ensures SameRead(t, io(p).input(u, io(typ).output(s, d).value), Some(d))
  {
  }

  lemma {:induction false} StoredReads(io: Oid -> TextIo, t: TypeOps, typ: Oid, p: Oid, text: Text, d: Option<Datum>,
                                       reader: Settings)
    requires StableLaw(io, t, typ, p) && StoredFor(io, typ, text, d)
    ensures SameRead(t, ReadIn(io, reader)(p, text), d)
  {
    hide SameRead, StableLaw;
    var s: Settings :| io(typ).output(Pinned(s), d.value) == Some(text);
    StableReads(io, t, typ, p, Pinned(s), Pinned(reader), d.value);
  }

  lemma {:induction false} OriginReads(cat: Catalog, io: Oid -> TextIo, t: TypeOps, typ: Oid, c: ColSummary, o: Origin,
                                       reader: Settings, opno: Oid, commuted: bool, vartype: Oid)
    requires StableAt(cat, io, t, typ, opno, commuted, vartype) && WrittenFor(io, typ, c, o)
    ensures ReadAlikeAt(cat, t, c, ReadIn(io, reader), ReadOrigin(c, o), opno, commuted, vartype)
  {
    hide SeesValues, SameRead, ReadAs, StableLaw, StoredFor, ReadIn;
    forall p: Oid | ReadAs(cat, opno, commuted, vartype, p)
      ensures c.min.Some? ==> SameRead(t, ReadIn(io, reader)(p, c.min.value), ReadOrigin(c, o)(p, c.min.value))
      ensures c.max.Some? ==> SameRead(t, ReadIn(io, reader)(p, c.max.value), ReadOrigin(c, o)(p, c.max.value))
    {
      assert StableLaw(io, t, typ, p);
      if c.min.Some? {
        StoredReads(io, t, typ, p, c.min.value, o.min, reader);
      }
      if c.max.Some? {
        if c.max == c.min {
          StoredReads(io, t, typ, p, c.max.value, o.min, reader);
        } else {
          StoredReads(io, t, typ, p, c.max.value, o.max, reader);
        }
      }
    }
  }

  lemma {:induction false} OriginsReadAlike(cat: Catalog, io: Oid -> TextIo, types: Types, attrs: seq<IndexAttr>,
                                            cols: seq<ColSummary>, os: seq<Origin>, node: Node, reader: Settings)
    requires StableClause(cat, io, types, attrs, node) && |cols| == |os| == |Summarized(attrs)|
    requires forall k :: 0 <= k < |cols| ==> WrittenFor(io, Summarized(attrs)[k].typ, cols[k], os[k])
    ensures ReadAlike(cat, types, attrs, cols, Everywhere(|cols|, ReadIn(io, reader)), Origins(cols, os), node)
    decreases node
  {
    hide StableAt, ReadAlikeAt, VarAndConst, Summarized, WrittenFor;
    match node
    case BoolExpr(_, args) =>
      forall i | 0 <= i < |args|
        ensures ReadAlike(cat, types, attrs, cols, Everywhere(|cols|, ReadIn(io, reader)), Origins(cols, os), args[i])
      {
        OriginsReadAlike(cat, io, types, attrs, cols, os, args[i], reader);
      }
    case OpExpr(opno, _, args) =>
      var s, o := Summarized(attrs), VarAndConst(args);
      forall k | 0 <= k < |s| && o.Some? && s[k].attnum == o.value.v.attnum
        ensures ReadAlikeAt(cat, types(s[k].typ), cols[k], ReadIn(io, reader), ReadOrigin(cols[k], os[k]), opno,
                            o.value.commuted, o.value.v.vartype)
      {
        OriginReads(cat, io, types(s[k].typ), s[k].typ, cols[k], os[k], reader, opno, o.value.commuted,
                    o.value.v.vartype);
      }
    case ScalarArrayOp(opno, _, _, args) =>
      var s, o := Summarized(attrs), VarAndConst(args);
      forall k | 0 <= k < |s| && o.Some? && s[k].attnum == o.value.v.attnum
        ensures ReadAlikeAt(cat, types(s[k].typ), cols[k], ReadIn(io, reader), ReadOrigin(cols[k], os[k]), opno, false,
                            o.value.v.vartype)
      {
        OriginReads(cat, io, types(s[k].typ), s[k].typ, cols[k], os[k], reader, opno, false, o.value.v.vartype);
      }
    case _ =>
  }

  /** Whoever wrote the bounds and whoever evaluates them, every clause decides as on the values themselves. */
  lemma {:induction false} SessionIndependent(cat: Catalog, io: Oid -> TextIo, types: Types, attrs: seq<IndexAttr>,
                                              cols: seq<ColSummary>, os: seq<Origin>, node: Node, depth: nat,
                                              reader: Settings)
    requires StableClause(cat, io, types, attrs, node) && DescribesAll(types, attrs, cols)
    requires |cols| == |os| == |Summarized(attrs)|
    requires forall k :: 0 <= k < |cols| ==> WrittenFor(io, Summarized(attrs)[k].typ, cols[k], os[k])
    ensures ClauseProvesPrune(InSession(cat, io, reader), node, cols, depth)
         == Decide(cat, node, cols, Origins(cols, os), depth)
  {
    hide StableClause, DescribesAll, ReadAlike, Decide, ClauseProvesPrune, ReadIn, WrittenFor;
    OriginsReadAlike(cat, io, types, attrs, cols, os, node, reader);
    SameDecision(cat, types, attrs, cols, Everywhere(|cols|, ReadIn(io, reader)), Origins(cols, os), node, depth);
    DecideIsProves(cat, ReadIn(io, reader), node, cols, depth);
  }
}
