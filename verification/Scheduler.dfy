/**
The in-memory schedule of scheduler/scheduler.go. Times are nanoseconds from an
arbitrary origin; the clock is whatever the caller reads and may even go back.
Go's random map iteration is modelled by picking any key that is left.
*/
module Schedules {
  import opened Common

  /** The fields of client.MonitorAssignment the schedule uses. */
  datatype Monitor = Monitor(uuid: string, checkIntervalSeconds: int)

  datatype Job = Job(monitor: Monitor, nextCheckAt: int)

  type Table = map<string, Job>

  const SECOND := 1_000_000_000

  /** The pause after an emission; zero means 60 seconds. */
  function Interval(m: Monitor): int {
    if m.checkIntervalSeconds == 0 then 60 * SECOND else m.checkIntervalSeconds * SECOND
  }

  predicate Due(j: Job, now: int) {
    j.nextCheckAt <= now
  }

  function Emitted(j: Job, now: int): Job {
    j.(nextCheckAt := now + Interval(j.monitor))
  }

  /** The last entry of the list for this uuid. */
  function Latest(monitors: seq<Monitor>, uuid: string): Option<nat>
    ensures Latest(monitors, uuid).Some? ==>
      Latest(monitors, uuid).value < |monitors| && monitors[Latest(monitors, uuid).value].uuid == uuid
    decreases |monitors|
  {
    if monitors == [] then None
    else if monitors[|monitors| - 1].uuid == uuid then Some(|monitors| - 1)
    else Latest(monitors[..|monitors| - 1], uuid)
  }

  /**
  What a refresh leaves: exactly the listed monitors with their latest
  assignment; a tracked one keeps its time, a new one is due at the clock
  reading taken for it.
  */
  ghost predicate Refreshed(before: Table, monitors: seq<Monitor>, clock: seq<int>, after: Table)
    requires |clock| == |monitors|
  {
    && (forall u :: u in after <==> Latest(monitors, u).Some?)
    && (forall u :: u in after ==>
          after[u] == Job(monitors[Latest(monitors, u).value],
                          if u in before then before[u].nextCheckAt else clock[Latest(monitors, u).value]))
  }

  /** The last entry for its uuid. */
  predicate IsLast(monitors: seq<Monitor>, k: nat)
    requires k < |monitors|
  {
    forall j :: k < j < |monitors| ==> monitors[j].uuid != monitors[k].uuid
  }

  lemma {:induction false} LatestIsLast(monitors: seq<Monitor>, k: nat)
    requires k < |monitors| && IsLast(monitors, k)
    ensures Latest(monitors, monitors[k].uuid) == Some(k)
    decreases |monitors|
  {
    if k == |monitors| - 1 {
    } else {
      LatestIsLast(monitors[..|monitors| - 1], k);
    }
  }

  /**
  A refresh, entry by entry: the last entry of each uuid becomes its
  assignment; a monitor that was tracked keeps its time, and one that was not
  is due from the moment its entry was processed.
  */
  lemma RefreshTakesLast(before: Table, monitors: seq<Monitor>, clock: seq<int>, after: Table, k: nat, now: int)
    requires |clock| == |monitors| && Refreshed(before, monitors, clock, after)
    requires k < |monitors| && IsLast(monitors, k)
    ensures var u := monitors[k].uuid;
      && u in after && after[u].monitor == monitors[k]
      && (u in before ==> after[u].nextCheckAt == before[u].nextCheckAt)
      && (u !in before ==> (u in Overdue(after, now) <==> now >= clock[k]))
  {
    LatestIsLast(monitors, k);
  }

  function Overdue(t: Table, now: int): set<string> {
    set u | u in t && Due(t[u], now)
  }

  function Limit(maxBatch: int): nat {
    if maxBatch < 1 then 1 else maxBatch
  }

  function Min(a: nat, b: nat): nat {
    if a < b then a else b
  }

  /**
  What one GetDueChecks does: it emits distinct overdue monitors, as many as
  the batch admits, moves each to one interval from now, and touches no other.
  */
  ghost predicate Dispatched(before: Table, maxBatch: int, now: int, due: seq<string>, after: Table) {
    && Distinct(due)
    && (forall u :: u in due ==> u in before && Due(before[u], now))
    && |due| == Min(Limit(maxBatch), |Overdue(before, now)|)
    && after.Keys == before.Keys
    && (forall u :: u in before ==> after[u] == if u in due then Emitted(before[u], now) else before[u])
  }

  class Scheduler {
    var monitors: Table

    constructor ()
      ensures monitors == map[]
    {
      monitors := map[];
    }

    /** `clock[i]` is what time.Now returns while entry i is processed. */
    method UpdateMonitors(assignments: seq<Monitor>, clock: seq<int>)
      requires |clock| == |assignments|
      modifies this
      ensures Refreshed(old(monitors), assignments, clock, monitors)
    {
      var newSet: Table := map[];
      for i := 0 to |assignments|
        invariant forall u :: u in newSet <==> Latest(assignments[..i], u).Some?
        invariant forall u :: u in newSet ==>
          newSet[u] == Job(assignments[Latest(assignments[..i], u).value],
                           if u in monitors then monitors[u].nextCheckAt else clock[Latest(assignments[..i], u).value])
        invariant monitors == old(monitors)
      {
        var m := assignments[i];
        assert assignments[..i + 1][..i] == assignments[..i];
        if m.uuid in monitors {
          newSet := newSet[m.uuid := monitors[m.uuid].(monitor := m)];
        } else {
          newSet := newSet[m.uuid := Job(m, clock[i])];
        }
      }
      assert assignments[..|assignments|] == assignments;
      monitors := newSet;
    }

    method GetDueChecks(maxBatch: int, now: int) returns (due: seq<string>)
      modifies this
      ensures Dispatched(old(monitors), maxBatch, now, due, monitors)
    {
      ghost var before := monitors;
      due := [];
      var left := monitors.Keys;
      while left != {}
        invariant left <= before.Keys && monitors.Keys == before.Keys
        invariant Distinct(due)
        invariant forall u :: u in due ==> u in before && Due(before[u], now) && u !in left
        invariant forall u :: u in before && u !in left && Due(before[u], now) ==> u in due
        invariant forall u :: u in before ==> monitors[u] == if u in due then Emitted(before[u], now) else before[u]
        invariant |due| == 0 || |due| < maxBatch
        decreases left
      {
        var uuid :| uuid in left;
        left := left - {uuid};
        var job := monitors[uuid];
        if Due(job, now) {
          due := due + [uuid];
          monitors := monitors[uuid := Emitted(job, now)];
          if |due| >= maxBatch {
            break;
          }
        }
      }
      EmittedAll(before, now, due, maxBatch);
    }
  }

  lemma {:induction false} DistinctSize(due: seq<string>, s: set<string>)
    requires Distinct(due) && forall u :: u in due ==> u in s
    ensures |due| <= |s|
    ensures (forall u :: u in s ==> u in due) ==> |due| == |s|
    decreases |due|
  {
    if due == [] {
      assert (forall u :: u in s ==> u in due) ==> s == {};
    } else {
      var rest, last := due[..|due| - 1], due[|due| - 1];
      assert last in due && due == rest + [last];
      DistinctSize(rest, s - {last});
    }
  }

  lemma EmittedAll(before: Table, now: int, due: seq<string>, maxBatch: int)
    requires Distinct(due) && forall u :: u in due ==> u in Overdue(before, now)
    requires
      || |due| == Limit(maxBatch)
      || (|due| <= Limit(maxBatch) && forall u :: u in Overdue(before, now) ==> u in due)
    ensures |due| == Min(Limit(maxBatch), |Overdue(before, now)|)
  {
    DistinctSize(due, Overdue(before, now));
  }

  // ----- runs ------------------------------------------------------------------------

  datatype Op =
    | Refresh(monitors: seq<Monitor>, clock: seq<int>)
    | Dispatch(maxBatch: int, now: int, due: seq<string>)

  ghost predicate Step(before: Table, op: Op, after: Table) {
    match op
    case Refresh(monitors, clock) => |clock| == |monitors| && Refreshed(before, monitors, clock, after)
    case Dispatch(maxBatch, now, due) => Dispatched(before, maxBatch, now, due, after)
  }

  /** A run: the table before each operation and after the last one. */
  ghost predicate IsRun(tables: seq<Table>, ops: seq<Op>) {
    |tables| == |ops| + 1 && forall k :: 0 <= k < |ops| ==> Step(tables[k], ops[k], tables[k + 1])
  }

  predicate Emits(op: Op, uuid: string) {
    op.Dispatch? && uuid in op.due
  }

  /** The operation leaves a tracked monitor tracked: a refresh has to list it. */
  predicate Tracks(op: Op, uuid: string) {
    op.Refresh? ==> Latest(op.monitors, uuid).Some?
  }

  /** Until the next emission a monitor that stays listed keeps the time its last emission set. */
  lemma {:induction false} KeepsTime(tables: seq<Table>, ops: seq<Op>, uuid: string, i: nat, j: nat)
    requires IsRun(tables, ops) && i < j <= |ops| && Emits(ops[i], uuid)
    requires forall k :: i < k < j ==> Tracks(ops[k], uuid) && !Emits(ops[k], uuid)
    ensures uuid in tables[i] && uuid in tables[j]
    ensures tables[j][uuid].nextCheckAt == ops[i].now + Interval(tables[i][uuid].monitor)
    decreases j
  {
    assert Step(tables[i], ops[i], tables[i + 1]);
    if j == i + 1 {
    } else {
      KeepsTime(tables, ops, uuid, i, j - 1);
      assert Step(tables[j - 1], ops[j - 1], tables[j]);
      assert Tracks(ops[j - 1], uuid) && !Emits(ops[j - 1], uuid);
    }
  }

  /**
  Over any run, with any clock readings and refreshes in between, two
  consecutive emissions of a monitor that stays listed are at least the
  interval it had at the first one apart.
  */
  lemma EmissionsAreSpaced(tables: seq<Table>, ops: seq<Op>, uuid: string, i: nat, j: nat)
    requires IsRun(tables, ops) && i < j < |ops| && Emits(ops[i], uuid) && Emits(ops[j], uuid)
    requires forall k :: i < k < j ==> Tracks(ops[k], uuid) && !Emits(ops[k], uuid)
    ensures uuid in tables[i] && ops[j].now >= ops[i].now + Interval(tables[i][uuid].monitor)
  {
    KeepsTime(tables, ops, uuid, i, j);
    assert Step(tables[j], ops[j], tables[j + 1]);
  }

  /**
  When a monitor that stays listed is due again after an emission: exactly from
  its interval in seconds on, or 60 seconds when the interval is zero.
  */
  lemma DueAgainExactly(tables: seq<Table>, ops: seq<Op>, uuid: string, i: nat, j: nat, now: int)
    requires IsRun(tables, ops) && i < j <= |ops| && Emits(ops[i], uuid)
    requires forall k :: i < k < j ==> Tracks(ops[k], uuid) && !Emits(ops[k], uuid)
    ensures uuid in tables[i]
    ensures var seconds := tables[i][uuid].monitor.checkIntervalSeconds;
      uuid in Overdue(tables[j], now)
      <==> now >= ops[i].now + if seconds == 0 then 60_000_000_000 else seconds * 1_000_000_000
  {
    KeepsTime(tables, ops, uuid, i, j);
  }

  ghost predicate PositiveIntervals(t: Table) {
    forall u :: u in t ==> Interval(t[u].monitor) > 0
  }

  /** One call at a fixed clock takes exactly the emitted monitors out of the overdue set. */
  lemma DispatchDrains(before: Table, maxBatch: int, now: int, due: seq<string>, after: Table)
    requires PositiveIntervals(before) && Dispatched(before, maxBatch, now, due, after)
    ensures PositiveIntervals(after)
    ensures |Overdue(after, now)| == |Overdue(before, now)| - |due|
  {
    var emitted := set u | u in due;
    assert Overdue(after, now) == Overdue(before, now) - emitted by {
      forall u
        ensures u in Overdue(after, now) <==> u in Overdue(before, now) && u !in due
      {
        if u in before {
          assert after[u] == if u in due then Emitted(before[u], now) else before[u];
        }
      }
    }
    DistinctSize(due, emitted);
    assert emitted <= Overdue(before, now);
  }

  /** Calls at one clock reading, with no refresh in between. */
  ghost predicate Burst(tables: seq<Table>, ops: seq<Op>, maxBatch: int, now: int) {
    && IsRun(tables, ops)
    && forall k :: 0 <= k < |ops| ==> ops[k].Dispatch? && ops[k].now == now && ops[k].maxBatch == maxBatch
  }

  /**
  At a fixed clock with positive intervals, k calls leave the overdue count
  less k times max(1, maxBatch), or nothing.
  */
  lemma {:induction false} BurstDrains(tables: seq<Table>, ops: seq<Op>, maxBatch: int, now: int)
    requires Burst(tables, ops, maxBatch, now) && PositiveIntervals(tables[0])
    ensures PositiveIntervals(tables[|ops|])
    ensures var overdue, taken := |Overdue(tables[0], now)|, |ops| * Limit(maxBatch);
      |Overdue(tables[|ops|], now)| == if taken >= overdue then 0 else overdue - taken
    decreases |ops|
  {
    if ops == [] {
    } else {
      var n := |ops| - 1;
      BurstDrains(tables[..n + 1], ops[..n], maxBatch, now);
      assert Step(tables[n], ops[n], tables[n + 1]);
      DispatchDrains(tables[n], maxBatch, now, ops[n].due, tables[n + 1]);
      OneMoreTimes(n, Limit(maxBatch));
    }
  }

  /** So every overdue job has been emitted after exactly the number of calls that covers them. */
  lemma DrainedExactlyWhenCovered(tables: seq<Table>, ops: seq<Op>, maxBatch: int, now: int)
    requires Burst(tables, ops, maxBatch, now) && PositiveIntervals(tables[0])
    ensures Overdue(tables[|ops|], now) == {} <==> |ops| >= Calls(|Overdue(tables[0], now)|, Limit(maxBatch))
  {
    BurstDrains(tables, ops, maxBatch, now);
    CallsCover(|Overdue(tables[0], now)|, Limit(maxBatch), |ops|);
  }

  /** jobs / limit, rounded up. */
  function Calls(jobs: nat, limit: nat): nat
    requires limit >= 1
  {
    (jobs + limit - 1) / limit
  }

  lemma OneMoreTimes(n: nat, limit: nat)
    ensures (n + 1) * limit == n * limit + limit
  {
  }

  lemma TimesIsMonotone(a: int, b: int, limit: nat)
    requires a <= b
    ensures a * limit <= b * limit
  {
    assert b * limit == a * limit + (b - a) * limit;
  }

  lemma CallsBounds(jobs: nat, limit: nat)
    requires limit >= 1
    ensures var c := Calls(jobs, limit); (c - 1) * limit < jobs <= c * limit
  {
    var c, n := Calls(jobs, limit), jobs + limit - 1;
    assert n == c * limit + n % limit;
    assert (c - 1) * limit == c * limit - limit;
  }

  lemma CallsCover(jobs: nat, limit: nat, k: nat)
    requires limit >= 1
    ensures k * limit >= jobs <==> k >= Calls(jobs, limit)
  {
    var c := Calls(jobs, limit);
    CallsBounds(jobs, limit);
    if k >= c {
      TimesIsMonotone(c, k, limit);
    } else {
      TimesIsMonotone(k, c - 1, limit);
    }
  }
}
