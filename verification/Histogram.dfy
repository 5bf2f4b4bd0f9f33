/**
The fixed-bucket histogram of health/prometheus.go. The object is modelled as
it is; what concurrent Observe calls do to it is a step system over the same
atomic operations.
*/
module Histograms {

  /** One observer's progress through Observe. `Loaded` carries the sum it read before its compare-and-swap. */
  datatype Progress = Called | Bucketed | Counted | Loaded(old_: nat) | Done

  datatype Call = Call(v: real, at: Progress)

  /** The shared words. The sum is the 64-bit pattern of a float. */
  datatype Words = Words(counts: seq<nat>, count: nat, sum: nat)

  /** The first bucket whose bound is not below v; the last bucket is +Inf. */
  function Bucket(bounds: seq<real>, v: real): (i: nat)
    ensures i <= |bounds|
    ensures i < |bounds| ==> v <= bounds[i]
    ensures forall k :: 0 <= k < i ==> v > bounds[k]
  {
    if bounds == [] || v <= bounds[0] then 0 else 1 + Bucket(bounds[1..], v)
  }

  function Bump(w: Words, i: nat): Words
    requires i < |w.counts|
  {
    w.(counts := w.counts[i := w.counts[i] + 1])
  }

  class Histogram {
    const bounds: seq<real>
    var counts: array<nat>
    var sum: nat
    var count: nat

    ghost predicate Valid()
      reads this
    {
      counts.Length == |bounds| + 1
    }

    ghost function Snapshot(): Words
      reads this, counts
    {
      Words(counts[..], count, sum)
    }

    constructor (bounds: seq<real>)
      ensures Valid() && fresh(counts) && this.bounds == bounds
      ensures Snapshot() == Words(seq(|bounds| + 1, _ => 0), 0, 0)
    {
      this.bounds := bounds;
      counts := new nat[|bounds| + 1](_ => 0);
      sum, count := 0, 0;
    }

    /** The compare-and-swap on the sum word. */
    method CompareAndSwap(old_: nat, new_: nat) returns (swapped: bool)
      modifies this`sum
      ensures swapped <==> old(sum) == old_
      ensures sum == if swapped then new_ else old(sum)
    {
      swapped := sum == old_;
      if swapped {
        sum := new_;
      }
    }

    /** Observe with nobody else about; `add` adds a value to a float's bit pattern. */
    method Observe(v: real, add: (nat, real) -> nat)
      requires Valid()
      modifies this`sum, this`count, counts
      ensures Valid()
      ensures Snapshot() ==
        Bump(old(Snapshot()), Bucket(bounds, v)).(count := old(count) + 1, sum := add(old(sum), v))
    {
      var idx, i := |bounds|, 0;
      while i < |bounds|
        invariant 0 <= i <= |bounds|
        invariant forall k :: 0 <= k < i ==> v > bounds[k]
        invariant idx == |bounds|
      {
        if v <= bounds[i] {
          idx := i;
          break;
        }
        i := i + 1;
      }
      assert idx == Bucket(bounds, v);
      counts[idx] := counts[idx] + 1;
      count := count + 1;
      assert counts[..] == Bump(old(Snapshot()), idx).counts;
      var swapped := false;
      while !swapped
        invariant counts[..] == Bump(old(Snapshot()), idx).counts && count == old(count) + 1
        invariant swapped ==> sum == add(old(sum), v)
        invariant !swapped ==> sum == old(sum)
        decreases !swapped
      {
        var before := sum;
        swapped := CompareAndSwap(before, add(before, v));
      }
    }

    /** The cumulative buckets write renders, one row per bound and one for +Inf. */
    method Write() returns (rows: seq<nat>, total: nat)
      requires Valid()
      ensures |rows| == |bounds| + 1 && total == count
      ensures forall i :: 0 <= i < |rows| ==> rows[i] == Total(counts[..i + 1])
    {
      rows := [];
      var cumulative, i := 0, 0;
      while i < |bounds|
        invariant 0 <= i <= |bounds| && |rows| == i
        invariant cumulative == Total(counts[..i])
        invariant forall k :: 0 <= k < i ==> rows[k] == Total(counts[..k + 1])
      {
        cumulative := cumulative + counts[i];
        assert counts[..i + 1] == counts[..i] + [counts[i]];
        TotalAppend(counts[..i], counts[i]);
        rows := rows + [cumulative];
        i := i + 1;
      }
      cumulative := cumulative + counts[i];
      assert counts[..i + 1] == counts[..i] + [counts[i]];
      TotalAppend(counts[..i], counts[i]);
      rows := rows + [cumulative];
      total := count;
    }
  }

  function Total(s: seq<nat>): nat {
    if s == [] then 0 else s[0] + Total(s[1..])
  }

  lemma {:induction false} TotalAppend(s: seq<nat>, x: nat)
    ensures Total(s + [x]) == Total(s) + x
  {
    if s == [] {
      assert [x][1..] == [] && [] + [x] == [x];
    } else {
      TotalAppend(s[1..], x);
      assert (s + [x])[1..] == s[1..] + [x];
    }
  }

  lemma {:induction false} TotalBump(s: seq<nat>, i: nat)
    requires i < |s|
    ensures Total(s[i := s[i] + 1]) == Total(s) + 1
  {
    if i == 0 {
      assert s[0 := s[0] + 1][1..] == s[1..];
    } else {
      TotalBump(s[1..], i - 1);
      assert s[i := s[i] + 1][1..] == s[1..][i - 1 := s[1..][i - 1] + 1];
    }
  }

  // ----- concurrent observers --------------------------------------------------------

  /** The words, every call so far, and the values in the order their compare-and-swaps succeeded. */
  datatype State = State(words: Words, calls: seq<Call>, swapped: seq<real>)

  datatype Action =
    | Begin(v: real)
    | AddBucket(c: nat)
    | AddCount(c: nat)
    | Load(c: nat)
    | Swap(c: nat)

  function Init(bounds: seq<real>): State {
    State(Words(seq(|bounds| + 1, _ => 0), 0, 0), [], [])
  }

  predicate Enabled(s: State, a: Action) {
    match a
    case Begin(_) => true
    case AddBucket(c) => c < |s.calls| && s.calls[c].at.Called?
    case AddCount(c) => c < |s.calls| && s.calls[c].at.Bucketed?
    case Load(c) => c < |s.calls| && s.calls[c].at.Counted?
    case Swap(c) => c < |s.calls| && s.calls[c].at.Loaded?
  }

  function Advance(calls: seq<Call>, c: nat, at: Progress): seq<Call>
    requires c < |calls|
  {
    calls[c := Call(calls[c].v, at)]
  }

  /** A failed swap goes back to the load. */
  function Next(bounds: seq<real>, add: (nat, real) -> nat, s: State, a: Action): State
    requires |s.words.counts| == |bounds| + 1 && Enabled(s, a)
  {
    match a
    case Begin(v) => s.(calls := s.calls + [Call(v, Called)])
    case AddBucket(c) =>
      s.(words := Bump(s.words, Bucket(bounds, s.calls[c].v)), calls := Advance(s.calls, c, Bucketed))
    case AddCount(c) =>
      s.(words := s.words.(count := s.words.count + 1), calls := Advance(s.calls, c, Counted))
    case Load(c) => s.(calls := Advance(s.calls, c, Loaded(s.words.sum)))
    case Swap(c) =>
      if s.words.sum == s.calls[c].at.old_ then
        s.(words := s.words.(sum := add(s.calls[c].at.old_, s.calls[c].v)),
           calls := Advance(s.calls, c, Done), swapped := s.swapped + [s.calls[c].v])
      else s.(calls := Advance(s.calls, c, Counted))
  }

  predicate Legal(bounds: seq<real>, add: (nat, real) -> nat, s: State, acts: seq<Action>)
    requires |s.words.counts| == |bounds| + 1
    decreases |acts|
  {
    acts == [] || (Enabled(s, acts[0]) && Legal(bounds, add, Next(bounds, add, s, acts[0]), acts[1..]))
  }

  function Exec(bounds: seq<real>, add: (nat, real) -> nat, s: State, acts: seq<Action>): State
    requires |s.words.counts| == |bounds| + 1 && Legal(bounds, add, s, acts)
    decreases |acts|
  {
    if acts == [] then s else Exec(bounds, add, Next(bounds, add, s, acts[0]), acts[1..])
  }

  // ----- what the words say about the calls --------------------------------------------

  /** How many calls satisfy p. */
  function CountCalls(calls: seq<Call>, p: Call -> bool): nat {
    if calls == [] then 0 else (if p(calls[0]) then 1 else 0) + CountCalls(calls[1..], p)
  }

  lemma {:induction false} CountUpdate(calls: seq<Call>, p: Call -> bool, c: nat, x: Call)
    requires c < |calls|
    ensures CountCalls(calls[c := x], p) + (if p(calls[c]) then 1 else 0)
         == CountCalls(calls, p) + (if p(x) then 1 else 0)
  {
    if c == 0 {
      assert calls[0 := x][1..] == calls[1..];
    } else {
      CountUpdate(calls[1..], p, c - 1, x);
      assert calls[c := x][1..] == calls[1..][c - 1 := x];
    }
  }

  lemma {:induction false} CountAppend(calls: seq<Call>, p: Call -> bool, x: Call)
    ensures CountCalls(calls + [x], p) == CountCalls(calls, p) + (if p(x) then 1 else 0)
  {
    if calls == [] {
      assert [x][1..] == [] && [] + [x] == [x];
    } else {
      CountAppend(calls[1..], p, x);
      assert (calls + [x])[1..] == calls[1..] + [x];
    }
  }

  function InBucket(bounds: seq<real>, i: nat): Call -> bool {
    (c: Call) => !c.at.Called? && Bucket(bounds, c.v) == i
  }

  function HasBucketed(): Call -> bool {
    (c: Call) => !c.at.Called?
  }

  function HasCounted(): Call -> bool {
    (c: Call) => !c.at.Called? && !c.at.Bucketed?
  }

  function HasValue(v: real): Call -> bool {
    (c: Call) => c.at.Done? && c.v == v
  }

  function InProgress(): Call -> bool {
    (c: Call) => !c.at.Done?
  }

  /** The sum a single thread would reach by adding the values in this order. */
  function Fold(add: (nat, real) -> nat, vs: seq<real>): nat {
    if vs == [] then 0 else add(Fold(add, vs[..|vs| - 1]), vs[|vs| - 1])
  }

  ghost predicate Inv(bounds: seq<real>, add: (nat, real) -> nat, s: State) {
    && |s.words.counts| == |bounds| + 1
    && (forall i :: 0 <= i < |s.words.counts| ==> s.words.counts[i] == CountCalls(s.calls, InBucket(bounds, i)))
    && Total(s.words.counts) == CountCalls(s.calls, HasBucketed())
    && s.words.count == CountCalls(s.calls, HasCounted())
    && s.words.sum == Fold(add, s.swapped)
    && (forall v: real :: multiset(s.swapped)[v] == CountCalls(s.calls, HasValue(v)))
  }

  /** The call that moved, and everything the counting functions see of it. */
  lemma CountsAfter(bounds: seq<real>, add: (nat, real) -> nat, s: State, a: Action, p: Call -> bool)
    requires |s.words.counts| == |bounds| + 1 && Enabled(s, a)
    ensures var calls := Next(bounds, add, s, a).calls;
      && (a.Begin? ==> CountCalls(calls, p) == CountCalls(s.calls, p) + (if p(Call(a.v, Called)) then 1 else 0))
      && (!a.Begin? ==>
            && |calls| == |s.calls|
            && CountCalls(calls, p) + (if p(s.calls[a.c]) then 1 else 0)
               == CountCalls(s.calls, p) + (if p(calls[a.c]) then 1 else 0))
  {
    if a.Begin? {
      CountAppend(s.calls, p, Call(a.v, Called));
    } else {
      CountUpdate(s.calls, p, a.c, Next(bounds, add, s, a).calls[a.c]);
      assert Next(bounds, add, s, a).calls == s.calls[a.c := Next(bounds, add, s, a).calls[a.c]];
    }
  }

  lemma StepKeepsBucket(bounds: seq<real>, add: (nat, real) -> nat, s: State, a: Action, i: nat)
    requires Inv(bounds, add, s) && Enabled(s, a) && i <= |bounds|
    ensures var s' := Next(bounds, add, s, a); s'.words.counts[i] == CountCalls(s'.calls, InBucket(bounds, i))
  {
    CountsAfter(bounds, add, s, a, InBucket(bounds, i));
    assert s.words.counts[i] == CountCalls(s.calls, InBucket(bounds, i));
  }

  lemma StepKeepsTotals(bounds: seq<real>, add: (nat, real) -> nat, s: State, a: Action)
    requires Inv(bounds, add, s) && Enabled(s, a)
    ensures var s' := Next(bounds, add, s, a);
      && Total(s'.words.counts) == CountCalls(s'.calls, HasBucketed())
      && s'.words.count == CountCalls(s'.calls, HasCounted())
  {
    CountsAfter(bounds, add, s, a, HasBucketed());
    CountsAfter(bounds, add, s, a, HasCounted());
    if a.AddBucket? {
      TotalBump(s.words.counts, Bucket(bounds, s.calls[a.c].v));
    }
  }

  lemma StepKeepsSum(bounds: seq<real>, add: (nat, real) -> nat, s: State, a: Action)
    requires Inv(bounds, add, s) && Enabled(s, a)
    ensures Next(bounds, add, s, a).words.sum == Fold(add, Next(bounds, add, s, a).swapped)
  {
    if a.Swap? {
      assert (s.swapped + [s.calls[a.c].v])[..|s.swapped|] == s.swapped;
    }
  }

  lemma StepKeepsSwapped(bounds: seq<real>, add: (nat, real) -> nat, s: State, a: Action, v: real)
    requires Inv(bounds, add, s) && Enabled(s, a)
    ensures var s' := Next(bounds, add, s, a); multiset(s'.swapped)[v] == CountCalls(s'.calls, HasValue(v))
  {
    CountsAfter(bounds, add, s, a, HasValue(v));
    assert multiset(s.swapped)[v] == CountCalls(s.calls, HasValue(v));
  }

  lemma StepKeepsInv(bounds: seq<real>, add: (nat, real) -> nat, s: State, a: Action)
    requires Inv(bounds, add, s) && Enabled(s, a)
    ensures Inv(bounds, add, Next(bounds, add, s, a))
  {
    var s' := Next(bounds, add, s, a);
    forall i | 0 <= i <= |bounds|
      ensures s'.words.counts[i] == CountCalls(s'.calls, InBucket(bounds, i))
    {
      StepKeepsBucket(bounds, add, s, a, i);
    }
    StepKeepsTotals(bounds, add, s, a);
    StepKeepsSum(bounds, add, s, a);
    forall v: real
      ensures multiset(s'.swapped)[v] == CountCalls(s'.calls, HasValue(v))
    {
      StepKeepsSwapped(bounds, add, s, a, v);
    }
  }

  lemma {:induction false} RunKeepsInv(bounds: seq<real>, add: (nat, real) -> nat, s: State, acts: seq<Action>)
    requires Inv(bounds, add, s) && Legal(bounds, add, s, acts)
    ensures Inv(bounds, add, Exec(bounds, add, s, acts))
    decreases |acts|
  {
    if acts == [] {
    } else {
      StepKeepsInv(bounds, add, s, acts[0]);
      RunKeepsInv(bounds, add, Next(bounds, add, s, acts[0]), acts[1..]);
    }
  }

  lemma {:induction false} NothingYet(n: nat)
    ensures Total(seq(n, _ => 0)) == 0
  {
    if n == 0 {
    } else {
      NothingYet(n - 1);
      assert seq(n, _ => 0)[1..] == seq(n - 1, _ => 0);
    }
  }

  lemma Reachable(bounds: seq<real>, add: (nat, real) -> nat, acts: seq<Action>)
    requires Legal(bounds, add, Init(bounds), acts)
    ensures Inv(bounds, add, Exec(bounds, add, Init(bounds), acts))
  {
    NothingYet(|bounds| + 1);
    RunKeepsInv(bounds, add, Init(bounds), acts);
  }

  lemma {:induction false} CountBetween(calls: seq<Call>)
    ensures CountCalls(calls, HasCounted()) <= CountCalls(calls, HasBucketed())
    ensures CountCalls(calls, HasBucketed()) <= CountCalls(calls, HasCounted()) + CountCalls(calls, InProgress())
  {
    if calls == [] {
    } else {
      CountBetween(calls[1..]);
    }
  }

  /** In every interleaving the count trails the buckets by at most the calls in progress. */
  lemma CountTrailsBuckets(bounds: seq<real>, add: (nat, real) -> nat, acts: seq<Action>)
    requires Legal(bounds, add, Init(bounds), acts)
    ensures var s := Exec(bounds, add, Init(bounds), acts);
      s.words.count <= Total(s.words.counts) <= s.words.count + CountCalls(s.calls, InProgress())
  {
    Reachable(bounds, add, acts);
    CountBetween(Exec(bounds, add, Init(bounds), acts).calls);
  }

  /**
  No update is lost: the sum is the fold, in the order the swaps succeeded, of
  exactly the values whose calls have returned.
  */
  lemma SumIsFold(bounds: seq<real>, add: (nat, real) -> nat, acts: seq<Action>)
    requires Legal(bounds, add, Init(bounds), acts)
    ensures var s := Exec(bounds, add, Init(bounds), acts);
      && s.words.sum == Fold(add, s.swapped)
      && forall v: real :: multiset(s.swapped)[v] == CountCalls(s.calls, HasValue(v))
  {
    Reachable(bounds, add, acts);
  }

  // ----- the rendered buckets ----------------------------------------------------------

  predicate Ascending(bounds: seq<real>) {
    forall i, j :: 0 <= i < j < |bounds| ==> bounds[i] < bounds[j]
  }

  predicate Idle(s: State) {
    forall c :: 0 <= c < |s.calls| ==> s.calls[c].at.Done?
  }

  function InBucketsUpTo(bounds: seq<real>, i: nat): Call -> bool {
    (c: Call) => !c.at.Called? && Bucket(bounds, c.v) <= i
  }

  function AtMost(b: real): Call -> bool {
    (c: Call) => c.v <= b
  }

  lemma {:induction false} CountSplit(bounds: seq<real>, calls: seq<Call>, i: nat)
    ensures CountCalls(calls, InBucketsUpTo(bounds, i + 1))
         == CountCalls(calls, InBucketsUpTo(bounds, i)) + CountCalls(calls, InBucket(bounds, i + 1))
    ensures CountCalls(calls, InBucketsUpTo(bounds, 0)) == CountCalls(calls, InBucket(bounds, 0))
  {
    if calls == [] {
    } else {
      CountSplit(bounds, calls[1..], i);
    }
  }

  lemma {:induction false} CumulativeCounts(bounds: seq<real>, calls: seq<Call>, counts: seq<nat>, i: nat)
    requires forall k :: 0 <= k < |counts| ==> counts[k] == CountCalls(calls, InBucket(bounds, k))
    requires i < |counts|
    ensures Total(counts[..i + 1]) == CountCalls(calls, InBucketsUpTo(bounds, i))
  {
    assert counts[..i + 1] == counts[..i] + [counts[i]];
    TotalAppend(counts[..i], counts[i]);
    if i == 0 {
      CountSplit(bounds, calls, 0);
    } else {
      CumulativeCounts(bounds, calls, counts, i - 1);
      CountSplit(bounds, calls, i - 1);
    }
  }

  lemma {:induction false} SameCount(calls: seq<Call>, p: Call -> bool, q: Call -> bool)
    requires forall c :: 0 <= c < |calls| ==> p(calls[c]) == q(calls[c])
    ensures CountCalls(calls, p) == CountCalls(calls, q)
  {
    if calls == [] {
    } else {
      assert forall c :: 0 <= c < |calls[1..]| ==> calls[1..][c] == calls[c + 1];
      SameCount(calls[1..], p, q);
    }
  }

  lemma {:induction false} CountAll(calls: seq<Call>, p: Call -> bool)
    requires forall c :: 0 <= c < |calls| ==> p(calls[c])
    ensures CountCalls(calls, p) == |calls|
  {
    if calls == [] {
    } else {
      assert forall c :: 0 <= c < |calls[1..]| ==> calls[1..][c] == calls[c + 1];
      CountAll(calls[1..], p);
    }
  }

  lemma RowWhenIdle(bounds: seq<real>, add: (nat, real) -> nat, s: State, i: nat)
    requires Inv(bounds, add, s) && Idle(s) && Ascending(bounds) && i < |bounds|
    ensures Total(s.words.counts[..i + 1]) == CountCalls(s.calls, AtMost(bounds[i]))
  {
    CumulativeCounts(bounds, s.calls, s.words.counts, i);
    forall c | 0 <= c < |s.calls|
      ensures InBucketsUpTo(bounds, i)(s.calls[c]) == AtMost(bounds[i])(s.calls[c])
    {
      BucketUpTo(bounds, s.calls[c].v, i);
    }
    SameCount(s.calls, InBucketsUpTo(bounds, i), AtMost(bounds[i]));
  }

  lemma BucketUpTo(bounds: seq<real>, v: real, i: nat)
    requires Ascending(bounds) && i < |bounds|
    ensures Bucket(bounds, v) <= i <==> v <= bounds[i]
  {
  }

  lemma CountWhenIdle(bounds: seq<real>, add: (nat, real) -> nat, s: State)
    requires Inv(bounds, add, s) && Idle(s)
    ensures Total(s.words.counts[..|bounds| + 1]) == s.words.count == |s.calls|
  {
    CumulativeCounts(bounds, s.calls, s.words.counts, |bounds|);
    CountAll(s.calls, InBucketsUpTo(bounds, |bounds|));
    CountAll(s.calls, HasCounted());
  }

  /**
  With nobody in Observe and ascending bounds, the cumulative row for a bound
  is the number of observations not above it, and the count and the +Inf row
  are the number of observations.
  */
  lemma RenderedWhenIdle(bounds: seq<real>, add: (nat, real) -> nat, acts: seq<Action>, i: nat)
    requires Ascending(bounds) && Legal(bounds, add, Init(bounds), acts)
    requires Idle(Exec(bounds, add, Init(bounds), acts))
    ensures var s := Exec(bounds, add, Init(bounds), acts);
      && |s.words.counts| == |bounds| + 1
      && (i < |bounds| ==> Total(s.words.counts[..i + 1]) == CountCalls(s.calls, AtMost(bounds[i])))
      && Total(s.words.counts[..|bounds| + 1]) == s.words.count == |s.calls| == |s.swapped|
  {
    var s := Exec(bounds, add, Init(bounds), acts);
    Reachable(bounds, add, acts);
    CountWhenIdle(bounds, add, s);
    OneSwapEach(bounds, add, Init(bounds), acts);
    CountAll(s.calls, HasReturned());
    if i < |bounds| {
      RowWhenIdle(bounds, add, s, i);
    }
  }

  function HasReturned(): Call -> bool {
    (c: Call) => c.at.Done?
  }

  lemma {:induction false} OneSwapEach(bounds: seq<real>, add: (nat, real) -> nat, s: State, acts: seq<Action>)
    requires |s.words.counts| == |bounds| + 1 && Legal(bounds, add, s, acts)
    requires |s.swapped| == CountCalls(s.calls, HasReturned())
    ensures var r := Exec(bounds, add, s, acts); |r.swapped| == CountCalls(r.calls, HasReturned())
    decreases |acts|
  {
    if acts == [] {
    } else {
      CountsAfter(bounds, add, s, acts[0], HasReturned());
      OneSwapEach(bounds, add, Next(bounds, add, s, acts[0]), acts[1..]);
    }
  }

  /** The rows never decrease from one bound to the next, whatever is in progress. */
  lemma {:induction false} RowsNeverDecrease(counts: seq<nat>, i: nat, j: nat)
    requires i <= j <= |counts|
    ensures Total(counts[..i]) <= Total(counts[..j])
  {
    if i == j {
    } else {
      RowsNeverDecrease(counts, i, j - 1);
      assert counts[..j] == counts[..j - 1] + [counts[j - 1]];
      TotalAppend(counts[..j - 1], counts[j - 1]);
    }
  }

  // ----- a rendering among observers ------------------------------------------------------

  /** Some interleaving leads from s to s'. */
  ghost predicate Later(bounds: seq<real>, add: (nat, real) -> nat, s: State, s': State) {
    |s.words.counts| == |bounds| + 1 &&
    exists acts :: Legal(bounds, add, s, acts) && Exec(bounds, add, s, acts) == s'
  }

  /** write begins in `start` and loads bucket k in states[k]; observers run before, between and after the loads. */
  ghost predicate Rendering(bounds: seq<real>, add: (nat, real) -> nat, start: State, states: seq<State>) {
    && |states| == |bounds| + 1
    && Later(bounds, add, start, states[0])
    && forall k :: 0 <= k < |bounds| ==> Later(bounds, add, states[k], states[k + 1])
  }

  /** What write has loaded. */
  ghost predicate Loads(states: seq<State>, readings: seq<nat>) {
    |readings| == |states| &&
    forall k :: 0 <= k < |states| ==> k < |states[k].words.counts| && readings[k] == states[k].words.counts[k]
  }

  predicate NoGreater(a: seq<nat>, b: seq<nat>) {
    |a| == |b| && forall k :: 0 <= k < |a| ==> a[k] <= b[k]
  }

  lemma {:induction false} TotalNoGreater(a: seq<nat>, b: seq<nat>)
    requires NoGreater(a, b)
    ensures Total(a) <= Total(b)
  {
    if a == [] {
    } else {
      TotalNoGreater(a[1..], b[1..]);
    }
  }

  lemma {:induction false} RunOnlyAdds(bounds: seq<real>, add: (nat, real) -> nat, s: State, acts: seq<Action>)
    requires Inv(bounds, add, s) && Legal(bounds, add, s, acts)
    ensures NoGreater(s.words.counts, Exec(bounds, add, s, acts).words.counts)
    decreases |acts|
  {
    if acts == [] {
    } else {
      StepKeepsInv(bounds, add, s, acts[0]);
      RunOnlyAdds(bounds, add, Next(bounds, add, s, acts[0]), acts[1..]);
    }
  }

  lemma LaterOnlyAdds(bounds: seq<real>, add: (nat, real) -> nat, s: State, s': State)
    requires Inv(bounds, add, s) && Later(bounds, add, s, s')
    ensures Inv(bounds, add, s') && NoGreater(s.words.counts, s'.words.counts)
  {
    var acts :| Legal(bounds, add, s, acts) && Exec(bounds, add, s, acts) == s';
    RunKeepsInv(bounds, add, s, acts);
    RunOnlyAdds(bounds, add, s, acts);
  }

  /** All loads up to bucket i lie between the buckets at the start and those when bucket i is loaded. */
  lemma {:induction false} LoadsBetween(bounds: seq<real>, add: (nat, real) -> nat, start: State, states: seq<State>,
                                        readings: seq<nat>, i: nat)
    requires Inv(bounds, add, start) && Rendering(bounds, add, start, states) && Loads(states, readings) && i < |states|
    ensures Inv(bounds, add, states[i]) && NoGreater(start.words.counts, states[i].words.counts)
    ensures NoGreater(start.words.counts[..i + 1], readings[..i + 1])
    ensures NoGreater(readings[..i + 1], states[i].words.counts[..i + 1])
  {
    if i == 0 {
      LaterOnlyAdds(bounds, add, start, states[0]);
    } else {
      LoadsBetween(bounds, add, start, states, readings, i - 1);
      assert Later(bounds, add, states[i - 1], states[i - 1 + 1]);
      LaterOnlyAdds(bounds, add, states[i - 1], states[i]);
      OneMoreLoad(start.words.counts, states[i - 1].words.counts, states[i].words.counts, readings, i);
    }
  }

  lemma OneMoreLoad(first: seq<nat>, before: seq<nat>, now: seq<nat>, readings: seq<nat>, i: nat)
    requires 1 <= i < |now| && i < |readings| && readings[i] == now[i]
    requires NoGreater(first, before) && NoGreater(before, now)
    requires NoGreater(first[..i], readings[..i]) && NoGreater(readings[..i], before[..i])
    ensures NoGreater(first, now)
    ensures NoGreater(first[..i + 1], readings[..i + 1]) && NoGreater(readings[..i + 1], now[..i + 1])
  {
    forall k | 0 <= k <= i
      ensures first[k] <= readings[k] <= now[k]
    {
      if k < i {
        assert first[..i][k] <= readings[..i][k] <= before[..i][k];
      }
    }
  }

  lemma {:induction false} CountFewer(calls: seq<Call>, p: Call -> bool, q: Call -> bool)
    requires forall c :: p(c) ==> q(c)
    ensures CountCalls(calls, p) <= CountCalls(calls, q)
  {
    if calls == [] {
    } else {
      CountFewer(calls[1..], p, q);
    }
  }

  /** The calls that have returned, of a value not above b. */
  function ReturnedAtMost(b: real): Call -> bool {
    (c: Call) => c.at.Done? && c.v <= b
  }

  function Anything(): Call -> bool {
    (c: Call) => true
  }

  /** What the buckets up to i hold in a state lies between what has returned and what has begun. */
  lemma BucketsBetween(bounds: seq<real>, add: (nat, real) -> nat, s: State, i: nat)
    requires Inv(bounds, add, s) && Ascending(bounds) && i < |bounds|
    ensures CountCalls(s.calls, ReturnedAtMost(bounds[i])) <= Total(s.words.counts[..i + 1])
      <= CountCalls(s.calls, AtMost(bounds[i]))
  {
    CumulativeCounts(bounds, s.calls, s.words.counts, i);
    forall c: Call
      ensures ReturnedAtMost(bounds[i])(c) ==> InBucketsUpTo(bounds, i)(c)
      ensures InBucketsUpTo(bounds, i)(c) ==> AtMost(bounds[i])(c)
    {
      BucketUpTo(bounds, c.v, i);
    }
    CountFewer(s.calls, ReturnedAtMost(bounds[i]), InBucketsUpTo(bounds, i));
    CountFewer(s.calls, InBucketsUpTo(bounds, i), AtMost(bounds[i]));
  }

  lemma AllBucketsBetween(bounds: seq<real>, add: (nat, real) -> nat, s: State)
    requires Inv(bounds, add, s)
    ensures CountCalls(s.calls, HasReturned()) <= Total(s.words.counts[..|bounds| + 1]) <= |s.calls|
  {
    CumulativeCounts(bounds, s.calls, s.words.counts, |bounds|);
    CountFewer(s.calls, HasReturned(), InBucketsUpTo(bounds, |bounds|));
    CountFewer(s.calls, InBucketsUpTo(bounds, |bounds|), Anything());
    CountAll(s.calls, Anything());
  }

  /**
  However observers interleave with write, the row of a bound is at least the
  number of observations not above it that had returned when write began, and
  at most the number of those begun when its bucket was loaded; likewise +Inf
  for all observations.
  */
  lemma RowsAmongObservers(bounds: seq<real>, add: (nat, real) -> nat, acts: seq<Action>, states: seq<State>,
                           readings: seq<nat>, i: nat)
    requires Ascending(bounds) && Legal(bounds, add, Init(bounds), acts) && i <= |bounds|
    requires Rendering(bounds, add, Exec(bounds, add, Init(bounds), acts), states) && Loads(states, readings)
    ensures var start, row := Exec(bounds, add, Init(bounds), acts), Total(readings[..i + 1]);
      && (i < |bounds| ==>
            CountCalls(start.calls, ReturnedAtMost(bounds[i])) <= row <= CountCalls(states[i].calls, AtMost(bounds[i])))
      && (i == |bounds| ==> CountCalls(start.calls, HasReturned()) <= row <= |states[i].calls|)
  {
    var start := Exec(bounds, add, Init(bounds), acts);
    Reachable(bounds, add, acts);
    LoadsBetween(bounds, add, start, states, readings, i);
    TotalNoGreater(start.words.counts[..i + 1], readings[..i + 1]);
    TotalNoGreater(readings[..i + 1], states[i].words.counts[..i + 1]);
    if i < |bounds| {
      BucketsBetween(bounds, add, start, i);
      BucketsBetween(bounds, add, states[i], i);
    } else {
      AllBucketsBetween(bounds, add, start);
      AllBucketsBetween(bounds, add, states[i]);
    }
  }
}
