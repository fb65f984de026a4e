/** The state a planner invocation keeps: nesting depth and per-plan memos of prune_hook.rs. */
module Planner {
  import opened Base
  import opened Format
  import opened Prune

  /** What happens inside one planner invocation, in order; it may end in an error. */
  datatype Plan = Plan(work: seq<Work>, fails: bool)

  datatype Work =
    | Nested(plan: Plan)                                  // SPI during planning plans again
    | LoadSummary(relid: Oid, now: seq<ColSummary>)       // `now` is what the index or its cache gives
    | FindOp(opno: Oid, commuted: bool)

  /** An error inside a nested invocation ends the invocations around it. */
  predicate Succeeds(plan: Plan) {
    !plan.fails && forall i :: 0 <= i < |plan.work| ==> plan.work[i].Nested? ==> Succeeds(plan.work[i].plan)
  }

  class PlannerState {
    var depth: nat
    var summaries: map<Oid, seq<ColSummary>>
    var opMemo: map<(Oid, bool), Option<CompareOp>>

    /** Nothing outlives the outermost invocation, and memos agree with the catalog of this one. */
    ghost predicate Valid(cat: Catalog)
      reads this
    {
      && (depth == 0 ==> summaries == map[] && opMemo == map[])
      && forall key | key in opMemo :: opMemo[key] == FindCompareOp(cat, key.0, key.1)
    }

    /** The current plan's summaries only get more; none changes under it. */
    twostate predicate Kept()
      reads this
    {
      forall relid | relid in old(summaries) :: relid in summaries && summaries[relid] == old(summaries[relid])
    }

    constructor ()
      ensures depth == 0 && summaries == map[] && opMemo == map[]
    {
      depth, summaries, opMemo := 0, map[], map[];
    }

    method ClearCache()
      modifies this`summaries, this`opMemo
      ensures summaries == map[] && opMemo == map[]
    {
      summaries, opMemo := map[], map[];
    }

    method CompareOpCached(cat: Catalog, opno: Oid, commuted: bool) returns (op: Option<CompareOp>)
      requires Valid(cat) && depth > 0
      modifies this`opMemo
      ensures Valid(cat) && op == FindCompareOp(cat, opno, commuted)
    {
      var key := (opno, commuted);
      if key in opMemo {
        return opMemo[key];
      }
      op := FindCompareOp(cat, opno, commuted);
      opMemo := opMemo[key := op];
    }

    /** One plan sees one summary of a relation, however the page changes meanwhile. */
    method LoadRelation(cat: Catalog, relid: Oid, now: seq<ColSummary>) returns (cols: seq<ColSummary>)
      requires Valid(cat) && depth > 0
      modifies this`summaries
      ensures Valid(cat) && Kept()
      ensures cols == if relid in old(summaries) then old(summaries[relid]) else now
      ensures summaries == old(summaries)[relid := cols]
    {
      if relid !in summaries {
        summaries := summaries[relid := now];
      }
      cols := summaries[relid];
      assert summaries[relid := cols] == summaries;
    }

    /** `table_range_planner_hook`: whatever is planned inside, and however it ends. */
    method PlannerHook(cat: Catalog, plan: Plan) returns (ok: bool)
      requires Valid(cat)
      modifies this
      ensures Valid(cat) && depth == old(depth)
      ensures depth > 0 ==> Kept()
      ensures ok == Succeeds(plan)
      decreases plan
    {
      var outermost := depth == 0;
      depth := depth + 1;
      if outermost {
        ClearCache();
      }
      ok := true;
      var i := 0;
      while i < |plan.work| && ok
        invariant 0 <= i <= |plan.work|
        invariant Valid(cat) && depth == old(depth) + 1
        invariant old(depth) > 0 ==> Kept()
        invariant ok ==> forall j :: 0 <= j < i ==> plan.work[j].Nested? ==> Succeeds(plan.work[j].plan)
        invariant !ok ==> !Succeeds(plan)
        decreases |plan.work| - i
      {
        match plan.work[i] {
          case Nested(inner) =>
            ok := PlannerHook(cat, inner);
          case LoadSummary(relid, now) =>
            var _ := LoadRelation(cat, relid, now);
          case FindOp(opno, commuted) =>
            var _ := CompareOpCached(cat, opno, commuted);
        }
        i := i + 1;
      }
      ok := ok && !plan.fails;
      depth := depth - 1;
      if depth == 0 {
        ClearCache();
      }
    }
  }
}
