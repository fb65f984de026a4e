/** How often the compare-and-swap loop can fail. */
module Retries {
  import opened Base
  import opened Coverage
  import opened Protocol
  import opened Sessions

  /** 0 + 1 + ... + n */
  function Triangle(n: nat): nat {
    if n == 0 then 0 else n + Triangle(n - 1)
  }

  lemma {:induction false} TriangleFormula(n: nat)
    ensures 2 * Triangle(n) == n * (n + 1)
  {
    if n > 0 {
      TriangleFormula(n - 1);
    }
  }

  /** Backends whose next swap will fail: they hold bytes the page no longer has. */
  function Stale(s: State): set<Pid> {
    set p | p in s.active && s.active[p].held.Some? && s.page != Some(s.active[p].held.value.before)
  }

  function Unread(s: State): set<Pid> {
    set p | p in s.active && s.active[p].held.None?
  }

  /** Swaps still possible, when `arriving` more inserts will begin. */
  function Potential(s: State, arriving: nat): nat {
    Triangle(|s.active| + arriving) + |Stale(s)|
  }

  /** Steps still possible. */
  function Fuel(s: State, arriving: nat): nat {
    2 * Potential(s, arriving) + |Unread(s)| + 2 * arriving
  }

  function Begins(steps: seq<Step>): nat {
    if steps == [] then 0 else Begins(steps[1..]) + if steps[0].Begin? then 1 else 0
  }

  lemma {:induction false} Subset(a: set<Pid>, b: set<Pid>)
    requires a <= b
    ensures |a| <= |b|
  {
    if a != {} {
      var p :| p in a;
      Subset(a - {p}, b - {p});
    }
  }

  lemma {:induction false} LeftSize(s: State, p: Pid)
    requires p in s.active
    ensures |Left(s, p).active| == |s.active| - 1
    ensures |Stale(Left(s, p))| <= |Stale(s)| && |Unread(Left(s, p))| <= |Unread(s)|
    ensures s.active[p].held.None? ==> |Unread(Left(s, p))| == |Unread(s)| - 1
  {
    var r := Left(s, p);
    assert s.active.Keys == r.active.Keys + {p} && p !in r.active.Keys;
    Subset(Stale(r), Stale(s));
    Subset(Unread(r), Unread(s));
    if s.active[p].held.None? {
      assert Unread(s) == Unread(r) + {p} && p !in Unread(r);
    }
  }

  /** `p` read the page and means to replace it by `after`. */
  lemma {:induction false} HoldSize(s: State, p: Pid, after: Bytes)
    requires p in s.active && s.active[p].held.None? && s.page.Some?
    ensures var r := s.(active := s.active[p := s.active[p].(held := Some(Held(s.page.value, after)))]);
      |r.active| == |s.active| && |Stale(r)| == |Stale(s)| && |Unread(r)| == |Unread(s)| - 1
  {
    var r := s.(active := s.active[p := s.active[p].(held := Some(Held(s.page.value, after)))]);
    assert r.active.Keys == s.active.Keys;
    assert Stale(r) == Stale(s);
    assert Unread(s) == Unread(r) + {p} && p !in Unread(r);
  }

  /** `p`'s swap failed and it will read again. */
  lemma {:induction false} DropSize(s: State, p: Pid)
    requires p in Stale(s)
    ensures var r := s.(active := s.active[p := s.active[p].(held := None)]);
      |r.active| == |s.active| && |Stale(r)| == |Stale(s)| - 1 && |Unread(r)| == |Unread(s)| + 1
  {
    var r := s.(active := s.active[p := s.active[p].(held := None)]);
    DropSets(s, p);
    hide Stale, Unread;
    assert r.active.Keys == s.active.Keys;
  }

  lemma {:induction false} DropSets(s: State, p: Pid)
    requires p in Stale(s)
    ensures p in s.active
    ensures var r := s.(active := s.active[p := s.active[p].(held := None)]);
      && Stale(s) == Stale(r) + {p} && p !in Stale(r)
      && Unread(r) == Unread(s) + {p} && p !in Unread(s)
  {
  }

  lemma {:induction false} StaleIsActive(s: State)
    ensures |Stale(s)| <= |s.active|
  {
    Subset(Stale(s), s.active.Keys);
  }

  /** Only the backends' phases and the page decide which of them are stale. */
  lemma {:induction false} SamePhases(s: State, r: State)
    requires s.active == r.active
    ensures Unread(s) == Unread(r) && (s.page == r.page ==> Stale(s) == Stale(r))
  {
  }

  lemma {:induction false} ReadCost(ix: Index, s: State, p: Pid, arriving: nat)
    requires TuplesMatch(ix, s) && Enabled(ix, s, Read(p))
    ensures var r := AfterRead(ix, s, p);
      && r.attempts == s.attempts
      && Potential(r, arriving) <= Potential(s, arriving)
      && Fuel(r, arriving) < Fuel(s, arriving)
  {
    hide Widening.WidenRow, EncodeFitted, Format.Decode, Stale, Unread, Potential, Fuel;
    var r := AfterRead(ix, s, p);
    if p in r.active {
      HoldSize(s, p, r.active[p].held.value.after);
    } else {
      LeftSize(s, p);
      SamePhases(r, Left(s, p));
    }
    SizesSettle(s, r, 0, arriving, arriving);
  }

  /** A swap ends an insert, at the price of making every other backend's bytes stale, or wastes stale bytes. */
  lemma {:induction false} SwapCost(ix: Index, s: State, p: Pid, arriving: nat)
    requires Enabled(ix, s, Swap(p))
    ensures var r := AfterSwap(s, p);
      && r.attempts == s.attempts + 1
      && Potential(r, arriving) < Potential(s, arriving)
      && Fuel(r, arriving) < Fuel(s, arriving)
  {
    var r := AfterSwap(s, p);
    if p in r.active {
      assert p in Stale(s);
      hide Stale, Unread, Potential, Fuel;
      DropSize(s, p);
      SamePhases(r, s.(active := r.active));
    } else {
      hide Stale, Unread, Potential, Fuel;
      LeftSize(s, p);
      StaleIsActive(r);
      SamePhases(r, Left(s, p));
    }
    SizesSettle(s, r, 1, arriving, arriving);
  }

  lemma {:induction false} BeginSize(s: State, p: Pid, i: Insert)
    requires p !in s.active && i.held.None?
    ensures var r := s.(active := s.active[p := i]);
      |r.active| == |s.active| + 1 && |Stale(r)| == |Stale(s)| && |Unread(r)| == |Unread(s)| + 1
  {
    var r := s.(active := s.active[p := i]);
    BeginSets(s, p, i);
    hide Stale, Unread;
    assert r.active.Keys == s.active.Keys + {p};
  }

  lemma {:induction false} BeginSets(s: State, p: Pid, i: Insert)
    requires p !in s.active && i.held.None?
    ensures var r := s.(active := s.active[p := i]);
      Stale(r) == Stale(s) && Unread(r) == Unread(s) + {p} && p !in Unread(s)
  {
  }

  lemma {:induction false} BeginCost(s: State, p: Pid, i: Insert, arriving: nat)
    requires p !in s.active && i.held.None? && arriving > 0
    ensures var r := s.(active := s.active[p := i]);
      Potential(r, arriving - 1) <= Potential(s, arriving) && Fuel(r, arriving - 1) < Fuel(s, arriving)
  {
    hide Stale, Unread, Potential, Fuel;
    BeginSize(s, p, i);
    SizesSettle(s, s.(active := s.active[p := i]), 0, arriving, arriving - 1);
  }

  lemma {:induction false} AbortCost(s: State, p: Pid, arriving: nat)
    requires p in s.active
    ensures Potential(Left(s, p), arriving) <= Potential(s, arriving) && Fuel(Left(s, p), arriving) < Fuel(s, arriving)
  {
    LeftSize(s, p);
    hide Stale, Unread, Potential, Fuel;
    SizesSettle(s, Left(s, p), 0, arriving, arriving);
  }

  lemma {:induction false} RebuildCost(s: State, r: State, arriving: nat)
    requires s.active == map[] && r.active == map[]
    ensures Potential(r, arriving) == Potential(s, arriving)
  {
    assert Stale(s) == {} && Stale(r) == {};
  }

  /** The numbers behind `Potential` and `Fuel`: active, stale and unread backends before and after a step. */
  lemma {:induction false} SizesSettle(s: State, r: State, swaps: nat, arriving: nat, later: nat)
    requires
      || (|r.active| <= |s.active| && |Stale(r)| <= |Stale(s)| && |Unread(r)| <= |Unread(s)| && later == arriving
          && swaps == 0 && |r.active| + |Unread(r)| < |s.active| + |Unread(s)|)
      || (|r.active| == |s.active| - 1 && |Stale(r)| < |s.active| && |Unread(r)| <= |Unread(s)| && later == arriving
          && swaps == 1)
      || (|r.active| == |s.active| && |Stale(r)| == |Stale(s)| - 1 && |Unread(r)| == |Unread(s)| + 1
          && later == arriving && swaps == 1)
      || (|r.active| == |s.active| + 1 && |Stale(r)| == |Stale(s)| && |Unread(r)| == |Unread(s)| + 1
          && later + 1 == arriving && swaps == 0)
    ensures swaps + Potential(r, later) <= Potential(s, arriving)
    ensures Fuel(r, later) < Fuel(s, arriving)
  {
    hide Stale, Unread;
    TriangleGrows(|r.active| + later, |s.active| + arriving);
    if |r.active| < |s.active| && later == arriving {
      TriangleGrows(|r.active| + later, |s.active| + arriving - 1);
      assert Triangle(|s.active| + arriving) == |s.active| + arriving + Triangle(|s.active| + arriving - 1);
    }
  }

  /** What one step costs: a swap uses up potential, any step but a rebuild uses up fuel. */
  lemma {:induction false} StepCost(ix: Index, s: State, step: Step, arriving: nat)
    requires TuplesMatch(ix, s) && Enabled(ix, s, step)
    requires step.Begin? ==> arriving > 0
    ensures var r, later := After(ix, s, step), if step.Begin? then arriving - 1 else arriving;
      && r.attempts - s.attempts + Potential(r, later) <= Potential(s, arriving)
      && (!step.Rebuild? ==> Fuel(r, later) < Fuel(s, arriving))
  {
    hide AfterRead, AfterSwap, AfterRebuild, Potential, Fuel, TuplesMatch, TupleOf;
    match step
    case Begin(p, row, values, session) => BeginCost(s, p, Insert(row, values, session, None), arriving);
    case Read(p) => ReadCost(ix, s, p, arriving);
    case Swap(p) => SwapCost(ix, s, p, arriving);
    case Abort(p) => AbortCost(s, p, arriving);
    case Rebuild(scan, session) =>
      RebuildKeeps(ix, s, scan, session);
      RebuildCost(s, AfterRebuild(ix, s, scan, session), arriving);
  }

  lemma {:induction false} RebuildKeeps(ix: Index, s: State, scan: seq<seq<Option<Datum>>>, session: Settings)
    requires Enabled(ix, s, Rebuild(scan, session))
    ensures AfterRebuild(ix, s, scan, session).active == map[]
    ensures AfterRebuild(ix, s, scan, session).attempts == s.attempts
  {
  }

  lemma {:induction false} TriangleGrows(m: nat, n: nat)
    requires m <= n
    ensures Triangle(m) <= Triangle(n)
  {
    if m < n {
      TriangleGrows(m, n - 1);
    }
  }

  lemma {:induction false} BeginsAppend(steps: seq<Step>, step: Step)
    ensures Begins(steps + [step]) == Begins(steps) + if step.Begin? then 1 else 0
  {
    if steps == [] {
      assert [step][1..] == [];
    } else {
      assert (steps + [step])[1..] == steps[1..] + [step];
      BeginsAppend(steps[1..], step);
    }
  }

  lemma {:induction false} RunCost(ix: Index, s: State, steps: seq<Step>, arriving: nat)
    requires TuplesMatch(ix, s)
    ensures var r := Exec(ix, s, steps);
      r.attempts - s.attempts + Potential(r, arriving) <= Potential(s, arriving + Begins(steps))
  {
    hide After, Enabled, TuplesMatch;
    if steps != [] {
      var init, step := steps[..|steps| - 1], steps[|steps| - 1];
      assert steps == init + [step];
      BeginsAppend(init, step);
      var more := arriving + if step.Begin? then 1 else 0;
      RunCost(ix, s, init, more);
      var mid := Exec(ix, s, init);
      if Enabled(ix, mid, step) {
        StepCost(ix, mid, step, more);
      } else {
        TriangleGrows(|mid.active| + arriving, |mid.active| + more);
      }
    }
  }

  /**
   * However N inserts arrive and interleave, with rebuilds and failures in between, they make at
   * most N(N+1)/2 swap attempts in all.
   */
  lemma {:induction false} AttemptBound(ix: Index, s: State, steps: seq<Step>)
    requires s.active == map[]
    ensures TuplesMatch(ix, s)
    ensures var n := Begins(steps);
      2 * (Exec(ix, s, steps).attempts - s.attempts) <= n * (n + 1)
  {
    hide Potential, Fuel, Exec;
    RunCost(ix, s, steps, 0);
    NoneActive(s, Begins(steps));
  }

  /** A schedule in which every step does something, and none is a rebuild. */
  ghost predicate AllEnabled(ix: Index, s: State, steps: seq<Step>)
    requires TuplesMatch(ix, s)
  {
    steps == [] ||
    var init, last := steps[..|steps| - 1], steps[|steps| - 1];
    AllEnabled(ix, s, init) && !last.Rebuild? && Enabled(ix, Exec(ix, s, init), last)
  }

  lemma {:induction false} RunFuel(ix: Index, s: State, steps: seq<Step>, arriving: nat)
    requires TuplesMatch(ix, s) && AllEnabled(ix, s, steps)
    ensures |steps| + Fuel(Exec(ix, s, steps), arriving) <= Fuel(s, arriving + Begins(steps))
  {
    hide After, Enabled, Potential, Fuel, TuplesMatch;
    if steps != [] {
      var init, step := steps[..|steps| - 1], steps[|steps| - 1];
      assert steps == init + [step];
      BeginsAppend(init, step);
      var more := arriving + if step.Begin? then 1 else 0;
      RunFuel(ix, s, init, more);
      StepCost(ix, Exec(ix, s, init), step, more);
    }
  }

  /** So the retry loops terminate: N inserts are over after at most N(N+3) steps. */
  lemma {:induction false} ScheduleBound(ix: Index, s: State, steps: seq<Step>)
    requires s.active == map[]
    requires TuplesMatch(ix, s) && AllEnabled(ix, s, steps)
    ensures var n := Begins(steps); |steps| <= n * (n + 3)
  {
    hide Exec, AllEnabled, TuplesMatch, Begins, Fuel;
    RunFuel(ix, s, steps, 0);
    NoneActive(s, Begins(steps));
  }

  lemma {:induction false} NoneActive(s: State, n: nat)
    requires s.active == map[]
    ensures Fuel(s, n) == n * (n + 3) && 2 * Potential(s, n) == n * (n + 1)
  {
    assert Stale(s) == {} && Unread(s) == {};
    TriangleFormula(n);
    assert n * (n + 3) == n * (n + 1) + 2 * n;
  }
}
