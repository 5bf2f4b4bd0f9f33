/**
The lease election of leader/leader.go as a timed step system.

Any number of pollers share one lease server. Time is discrete, a local
computation takes no time, a sleep lasts exactly its interval, and a client
call lasts at most `call`. The server, the network and the consumer of the
transition channel are environment: requests may be refused, replies may be
lost, and a request may still reach the server after its caller gave up.
*/
module Election {
  import opened Common

  datatype Role = Follower | Leader

  /** The server's TTL, the two elector intervals and the longest client call. */
  datatype Params = Params(ttl: nat, renew: nat, acquire: nat, call: nat)

  /** How a lease call ends for its caller; ErrLeaseConflict and every other error take the same branch. */
  datatype Reply = Granted(term: nat) | Refused

  const CHANNEL_SLOTS := 4

  // ----- one elector's memory ------------------------------------------------

  /** The atomic role and term, and the buffered transition channel. */
  datatype Memory = Memory(role: Role, term: nat, ch: seq<Role>)

  /** setState would publish a transition and finds every slot taken. */
  predicate Drops(m: Memory, s: Role) {
    m.role != s && |m.ch| >= CHANNEL_SLOTS
  }

  function SetState(m: Memory, s: Role): Memory {
    if m.role == s then m
    else if Drops(m, s) then m.(role := s)
    else m.(role := s, ch := m.ch + [s])
  }

  function AfterAcquire(m: Memory, r: Reply): Memory {
    match r
    case Granted(term) => SetState(m.(term := term), Leader)
    case Refused => m
  }

  function AfterRenew(m: Memory, r: Reply): Memory {
    match r
    case Granted(term) => m.(term := term)
    case Refused => SetState(m, Follower)
  }

  // ----- the whole system ----------------------------------------------------

  datatype Request = Acquire | Renew | Release

  /** Where a poller's Run loop is. A call carries the server's answer once there is one. */
  datatype Phase =
    | Down
    | Top
    | Asleep(wake: nat)
    | Calling(began: nat, request: Request, answer: Option<Reply>)
    | Stopped

  /**
  A poller: its elector memory and loop position, plus what an observer has
  seen: the values the consumer received, the number of transitions dropped
  in all, and the number dropped since a value was last accepted.
  */
  datatype Poller = Poller(mem: Memory, phase: Phase, received: seq<Role>, dropped: nat, lost: nat)

  /** `owners[t]` is the poller that was given term t; the current term is the last one. */
  datatype Lease = Lease(holder: Option<nat>, expires: nat, owners: seq<nat>)

  /** `ends[i]` is the expiry of the last lease the server gave poller i, -1 when it never had one. */
  datatype System = System(now: nat, lease: Lease, ends: seq<int>, pollers: seq<Poller>)

  datatype Action =
    | Tick
    | Start(i: nat)
    | Loop(i: nat)
    | Wake(i: nat)
    | Serve(i: nat, willing: bool)
    | Stray(i: nat, renewal: bool)
    | Return(i: nat, replyLost: bool)
    | Receive(i: nat)
    | Stop(i: nat)

  function InitPoller(): Poller {
    Poller(Memory(Follower, 0, []), Down, [], 0, 0)
  }

  function Init(n: nat): System {
    System(0, Lease(None, 0, []), seq(n, _ => -1), seq(n, _ => InitPoller()))
  }

  /** One unexpired holder: an acquire is granted to nobody else. */
  predicate MayGrant(l: Lease, i: nat, now: nat) {
    l.holder == None || l.holder == Some(i) || l.expires < now
  }

  /** Only the holder renews. */
  predicate HoldsLease(l: Lease, i: nat) {
    l.holder == Some(i) && l.owners != []
  }

  function GrantAcquire(p: Params, s: System, i: nat): System
    requires i < |s.ends|
  {
    s.(lease := Lease(Some(i), s.now + p.ttl, s.lease.owners + [i]), ends := s.ends[i := s.now + p.ttl])
  }

  function GrantRenew(p: Params, s: System, i: nat): System
    requires i < |s.ends|
  {
    s.(lease := s.lease.(expires := s.now + p.ttl), ends := s.ends[i := s.now + p.ttl])
  }

  function WithPoller(s: System, i: nat, q: Poller): System
    requires i < |s.pollers|
  {
    s.(pollers := s.pollers[i := q])
  }

  /** Publishing `s` through setState, with the observer's counters kept up to date. */
  function Publish(q: Poller, after: Memory): Poller {
    if q.mem.role == after.role then q.(mem := after)
    else if Drops(q.mem, after.role) then q.(mem := after, dropped := q.dropped + 1, lost := q.lost + 1)
    else q.(mem := after, lost := 0)
  }

  /** A deadline that has come due holds time back until its poller has acted. */
  predicate MayWait(p: Params, q: Poller, now: nat) {
    match q.phase
    case Down => true
    case Top => false
    case Asleep(wake) => now < wake
    case Calling(began, _, _) => now < began + p.call
    case Stopped => true
  }

  predicate WellFormed(s: System) {
    |s.ends| == |s.pollers|
  }

  predicate Enabled(p: Params, s: System, a: Action)
    requires WellFormed(s)
  {
    if a.Tick? then forall q | q in s.pollers :: MayWait(p, q, s.now)
    else a.i < |s.pollers| && var q := s.pollers[a.i];
      match a
      case Tick => true
      case Start(_) => q.phase.Down?
      case Loop(_) => q.phase.Top?
      case Wake(_) => q.phase.Asleep? && q.phase.wake <= s.now
      case Serve(_, _) => q.phase.Calling? && q.phase.answer == None
      case Stray(_, renewal) => if renewal then HoldsLease(s.lease, a.i) else MayGrant(s.lease, a.i, s.now)
      case Return(_, replyLost) => q.phase.Calling? && (replyLost || q.phase.answer.Some?)
      case Receive(_) => q.mem.ch != []
      case Stop(_) => q.phase.Top? || q.phase.Asleep?
  }

  /** Run's two branches at the top of the loop. */
  function LoopTop(p: Params, q: Poller, now: nat): Phase {
    if q.mem.role == Leader then Asleep(now + p.renew) else Calling(now, Acquire, None)
  }

  function ServeCall(p: Params, s: System, i: nat, willing: bool): System
    requires WellFormed(s) && i < |s.pollers| && s.pollers[i].phase.Calling?
  {
    var q := s.pollers[i];
    match q.phase.request
    case Acquire =>
      if willing && MayGrant(s.lease, i, s.now)
      then WithPoller(GrantAcquire(p, s, i), i, q.(phase := q.phase.(answer := Some(Granted(|s.lease.owners|)))))
      else WithPoller(s, i, q.(phase := q.phase.(answer := Some(Refused))))
    case Renew =>
      if willing && HoldsLease(s.lease, i)
      then WithPoller(GrantRenew(p, s, i), i, q.(phase := q.phase.(answer := Some(Granted(|s.lease.owners| - 1)))))
      else WithPoller(s, i, q.(phase := q.phase.(answer := Some(Refused))))
    case Release =>
      var s' := if willing && s.lease.holder == Some(i) then s.(lease := s.lease.(holder := None)) else s;
      WithPoller(s', i, q.(phase := q.phase.(answer := Some(Refused))))
  }

  /** The caller learns how its call ended; a lost reply or a timeout reads as a refusal. */
  function EndCall(p: Params, q: Poller, now: nat, replyLost: bool): Poller
    requires q.phase.Calling? && (replyLost || q.phase.answer.Some?)
  {
    var r := if replyLost then Refused else q.phase.answer.value;
    match q.phase.request
    case Acquire =>
      Publish(q, AfterAcquire(q.mem, r)).(phase := if r.Granted? then Top else Asleep(now + p.acquire))
    case Renew => Publish(q, AfterRenew(q.mem, r)).(phase := Top)
    case Release => q.(phase := Stopped)
  }

  function Next(p: Params, s: System, a: Action): System
    requires WellFormed(s) && Enabled(p, s, a)
    ensures WellFormed(Next(p, s, a)) && |Next(p, s, a).pollers| == |s.pollers|
  {
    if a.Tick? then s.(now := s.now + 1) else
    var q := s.pollers[a.i];
    match a
    case Tick => s
    case Start(i) => WithPoller(s, i, q.(mem := q.mem.(ch := q.mem.ch + [Follower]), phase := Top))
    case Loop(i) => WithPoller(s, i, q.(phase := LoopTop(p, q, s.now)))
    case Wake(i) => WithPoller(s, i, q.(phase := if q.mem.role == Leader then Calling(s.now, Renew, None) else Top))
    case Serve(i, willing) => ServeCall(p, s, i, willing)
    case Stray(i, renewal) => if renewal then GrantRenew(p, s, i) else GrantAcquire(p, s, i)
    case Return(i, replyLost) => WithPoller(s, i, EndCall(p, q, s.now, replyLost))
    case Receive(i) =>
      WithPoller(s, i, q.(mem := q.mem.(ch := q.mem.ch[1..]), received := q.received + [q.mem.ch[0]]))
    case Stop(i) =>
      WithPoller(s, i, q.(phase := if q.mem.role == Leader then Calling(s.now, Release, None) else Stopped))
  }

  predicate Legal(p: Params, s: System, acts: seq<Action>)
    requires WellFormed(s)
    decreases |acts|
  {
    acts == [] || (Enabled(p, s, acts[0]) && Legal(p, Next(p, s, acts[0]), acts[1..]))
  }

  function Exec(p: Params, s: System, acts: seq<Action>): (r: System)
    requires WellFormed(s) && Legal(p, s, acts)
    ensures WellFormed(r) && |r.pollers| == |s.pollers|
    decreases |acts|
  {
    if acts == [] then s else Exec(p, Next(p, s, acts[0]), acts[1..])
  }

  /** Run has not begun its shutdown. */
  predicate Running(q: Poller) {
    match q.phase
    case Calling(_, request, _) => request != Release
    case Stopped => false
    case _ => true
  }

  predicate RunningLeader(s: System, i: nat) {
    i < |s.pollers| && Running(s.pollers[i]) && s.pollers[i].mem.role == Leader
  }

  // ----- leases ----------------------------------------------------------------

  /** How old a leader's last known grant can be, phase by phase. */
  predicate Timely(p: Params, q: Poller, now: nat, end: int) {
    && end <= now + p.ttl
    && match q.phase
       case Down => q.mem.role == Follower && q.mem.ch == []
       case Top => q.mem.role == Leader ==> now + p.ttl <= end + p.call
       case Asleep(wake) => q.mem.role == Leader ==> now <= wake && wake + p.ttl <= end + p.call + p.renew
       case Calling(began, request, answer) =>
         && began <= now
         && (request == Acquire ==> q.mem.role == Follower)
         && (request == Renew ==> q.mem.role == Leader && began + p.ttl <= end + p.call + p.renew)
         && now <= began + p.call
         && (request != Release && answer.Some? && answer.value.Granted? ==> began + p.ttl <= end)
       case Stopped => true
  }

  /** A running poller whose lease has not expired is the holder on record. */
  predicate OnRecord(q: Poller, i: nat, end: int, lease: Lease, now: nat) {
    Running(q) && end >= now ==> lease.holder == Some(i) && lease.expires == end
  }

  ghost predicate LeaseInv(p: Params, s: System) {
    && WellFormed(s)
    && forall i :: 0 <= i < |s.pollers| ==>
         Timely(p, s.pollers[i], s.now, s.ends[i]) && OnRecord(s.pollers[i], i, s.ends[i], s.lease, s.now)
  }

  lemma TickKeepsLeases(p: Params, s: System)
    requires LeaseInv(p, s) && Enabled(p, s, Tick)
    ensures LeaseInv(p, Next(p, s, Tick))
  {
    var s' := Next(p, s, Tick);
    forall i | 0 <= i < |s'.pollers|
      ensures Timely(p, s'.pollers[i], s'.now, s'.ends[i]) && OnRecord(s'.pollers[i], i, s'.ends[i], s'.lease, s'.now)
    {
      assert MayWait(p, s.pollers[i], s.now);
      assert Timely(p, s.pollers[i], s.now, s.ends[i]) && OnRecord(s.pollers[i], i, s.ends[i], s.lease, s.now);
    }
  }

  /** A poller whose call is served, or ends. */
  lemma CallKeepsLease(p: Params, s: System, a: Action)
    requires LeaseInv(p, s) && (a.Serve? || a.Return?) && Enabled(p, s, a)
    ensures var s', i := Next(p, s, a), a.i;
      Timely(p, s'.pollers[i], s'.now, s'.ends[i]) && OnRecord(s'.pollers[i], i, s'.ends[i], s'.lease, s'.now)
  {
    assert Timely(p, s.pollers[a.i], s.now, s.ends[a.i]);
    assert OnRecord(s.pollers[a.i], a.i, s.ends[a.i], s.lease, s.now);
  }

  /** The poller that acts. */
  lemma ActorKeepsLease(p: Params, s: System, a: Action)
    requires LeaseInv(p, s) && !a.Tick? && Enabled(p, s, a)
    ensures var s', i := Next(p, s, a), a.i;
      Timely(p, s'.pollers[i], s'.now, s'.ends[i]) && OnRecord(s'.pollers[i], i, s'.ends[i], s'.lease, s'.now)
  {
    if a.Serve? || a.Return? {
      CallKeepsLease(p, s, a);
    } else {
      assert Timely(p, s.pollers[a.i], s.now, s.ends[a.i]);
      assert OnRecord(s.pollers[a.i], a.i, s.ends[a.i], s.lease, s.now);
    }
  }

  /** A poller that does not act: nobody takes its unexpired lease. */
  lemma OtherKeepsLease(p: Params, s: System, a: Action, i: nat)
    requires LeaseInv(p, s) && !a.Tick? && Enabled(p, s, a) && i < |s.pollers| && i != a.i
    ensures var s' := Next(p, s, a);
      Timely(p, s'.pollers[i], s'.now, s'.ends[i]) && OnRecord(s'.pollers[i], i, s'.ends[i], s'.lease, s'.now)
  {
    var s' := Next(p, s, a);
    assert s'.pollers[i] == s.pollers[i] && s'.ends[i] == s.ends[i] && s'.now == s.now;
    assert Timely(p, s.pollers[i], s.now, s.ends[i]) && OnRecord(s.pollers[i], i, s.ends[i], s.lease, s.now);
  }

  lemma ActKeepsLeases(p: Params, s: System, a: Action)
    requires LeaseInv(p, s) && !a.Tick? && Enabled(p, s, a)
    ensures LeaseInv(p, Next(p, s, a))
  {
    var s' := Next(p, s, a);
    forall i | 0 <= i < |s'.pollers|
      ensures Timely(p, s'.pollers[i], s'.now, s'.ends[i]) && OnRecord(s'.pollers[i], i, s'.ends[i], s'.lease, s'.now)
    {
      if i == a.i {
        ActorKeepsLease(p, s, a);
      } else {
        OtherKeepsLease(p, s, a, i);
      }
    }
  }

  lemma {:induction false} RunKeepsLeases(p: Params, s: System, acts: seq<Action>)
    requires LeaseInv(p, s) && Legal(p, s, acts)
    ensures LeaseInv(p, Exec(p, s, acts))
    decreases |acts|
  {
    if acts == [] {
    } else {
      StepKeepsLeases(p, s, acts[0]);
      RunKeepsLeases(p, Next(p, s, acts[0]), acts[1..]);
    }
  }

  /**
  In every run, a poller that is in StateLeader outlasts its own server lease
  by at most 2 * call + renew - ttl.
  */
  lemma LeaseOverrun(p: Params, n: nat, acts: seq<Action>, i: nat)
    requires Legal(p, Init(n), acts) && RunningLeader(Exec(p, Init(n), acts), i)
    ensures var s := Exec(p, Init(n), acts); s.now + p.ttl <= s.ends[i] + 2 * p.call + p.renew
  {
    RunKeepsLeases(p, Init(n), acts);
    var s := Exec(p, Init(n), acts);
    assert Timely(p, s.pollers[i], s.now, s.ends[i]);
  }

  ghost predicate TwoLeaders(s: System) {
    exists i, j :: 0 <= i < j < |s.pollers| && RunningLeader(s, i) && RunningLeader(s, j)
  }

  /** Within the safe parameters no two running pollers are ever in StateLeader together. */
  lemma AtMostOneLeader(p: Params, n: nat, acts: seq<Action>)
    requires 2 * p.call + p.renew <= p.ttl && Legal(p, Init(n), acts)
    ensures !TwoLeaders(Exec(p, Init(n), acts))
  {
    var s := Exec(p, Init(n), acts);
    RunKeepsLeases(p, Init(n), acts);
    forall i: nat | RunningLeader(s, i)
      ensures s.lease.holder == Some(i)
    {
      assert Timely(p, s.pollers[i], s.now, s.ends[i]) && OnRecord(s.pollers[i], i, s.ends[i], s.lease, s.now);
    }
  }

  // ----- the bound is exact ------------------------------------------------------

  /** `acts` is a legal run from s that ends in r. */
  ghost predicate Leads(p: Params, s: System, acts: seq<Action>, r: System) {
    WellFormed(s) && Legal(p, s, acts) && Exec(p, s, acts) == r
  }

  lemma {:induction false} Concat(p: Params, s: System, a: seq<Action>, m: System, b: seq<Action>, r: System)
    requires Leads(p, s, a, m) && Leads(p, m, b, r)
    ensures Leads(p, s, a + b, r)
    decreases |a|
  {
    if a == [] {
      assert a + b == b;
    } else {
      Concat(p, Next(p, s, a[0]), a[1..], m, b, r);
      assert (a + b)[1..] == a[1..] + b && (a + b)[0] == a[0];
    }
  }

  /** The consumers read nothing and nobody shuts down. */
  predicate Unattended(acts: seq<Action>) {
    forall k :: 0 <= k < |acts| ==> !acts[k].Receive? && !acts[k].Stop?
  }

  /** Time can pass until `until` when nobody has a deadline before it. */
  lemma {:induction false} LetTimePass(p: Params, s: System, until: nat) returns (acts: seq<Action>)
    requires WellFormed(s) && s.now <= until
    requires forall t: nat, q | s.now <= t < until && q in s.pollers :: MayWait(p, q, t)
    ensures Leads(p, s, acts, s.(now := until)) && Unattended(acts)
    decreases until - s.now
  {
    if s.now == until {
      acts := [];
    } else {
      var rest := LetTimePass(p, s.(now := s.now + 1), until);
      acts := [Tick] + rest;
      assert acts[1..] == rest;
    }
  }

  /** Poller `i` starts up and wins the lease at this instant, its reply taking until `until`. */
  lemma Win(p: Params, s: System, i: nat, until: nat) returns (acts: seq<Action>, r: System)
    requires WellFormed(s) && i < |s.pollers| && s.pollers[i] == InitPoller()
    requires MayGrant(s.lease, i, s.now) && s.now <= until <= s.now + p.call
    requires forall t: nat, k | s.now <= t < until && 0 <= k < |s.pollers| && k != i :: MayWait(p, s.pollers[k], t)
    ensures Leads(p, s, acts, r) && Unattended(acts)
    ensures r.now == until && |r.pollers| == |s.pollers|
    ensures r.lease == Lease(Some(i), s.now + p.ttl, s.lease.owners + [i])
    ensures r.pollers == s.pollers[i := Poller(Memory(Leader, |s.lease.owners|, [Follower, Leader]), Top, [], 0, 0)]
  {
    var s1 := Next(p, s, Start(i));
    var s2 := Next(p, s1, Loop(i));
    var s3 := Next(p, s2, Serve(i, true));
    var wait := LetTimePass(p, s3, until);
    var s4 := s3.(now := until);
    r := Next(p, s4, Return(i, false));
    Single(p, s, Start(i));
    Single(p, s1, Loop(i));
    Single(p, s2, Serve(i, true));
    Single(p, s4, Return(i, false));
    Concat(p, s, [Start(i)], s1, [Loop(i)], s2);
    Concat(p, s, [Start(i)] + [Loop(i)], s2, [Serve(i, true)], s3);
    Concat(p, s, [Start(i)] + [Loop(i)] + [Serve(i, true)], s3, wait, s4);
    acts := [Start(i)] + [Loop(i)] + [Serve(i, true)] + wait + [Return(i, false)];
    Concat(p, s, [Start(i)] + [Loop(i)] + [Serve(i, true)] + wait, s4, [Return(i, false)], r);
    assert r.pollers == s.pollers[i := r.pollers[i]];
    assert r.pollers[i].mem.ch == [Follower, Leader];
  }

  lemma Single(p: Params, s: System, a: Action)
    requires WellFormed(s) && Enabled(p, s, a)
    ensures Leads(p, s, [a], Next(p, s, a))
  {
    assert [a][1..] == [];
    assert Legal(p, Next(p, s, a), []);
    assert Exec(p, Next(p, s, a), []) == Next(p, s, a);
  }

  /** A leader in no hurry: it renews as late as it may and the renewal never gets an answer in time. */
  lemma Linger(p: Params, s: System, until: nat) returns (acts: seq<Action>, r: System)
    requires WellFormed(s) && |s.pollers| >= 2 && s.pollers[0].phase.Top? && s.pollers[0].mem.role == Leader
    requires forall k :: 1 <= k < |s.pollers| ==> s.pollers[k].phase.Down?
    requires s.now <= until <= s.now + p.renew + p.call
    ensures Leads(p, s, acts, r) && r.now == until && r.lease == s.lease && |r.pollers| == |s.pollers|
    ensures forall k :: 1 <= k < |s.pollers| ==> r.pollers[k] == s.pollers[k]
    ensures RunningLeader(r, 0)
  {
    var s1 := Next(p, s, Loop(0));
    var wake := s.now + p.renew;
    Single(p, s, Loop(0));
    if until <= wake {
      var wait := LetTimePass(p, s1, until);
      r := s1.(now := until);
      acts := [Loop(0)] + wait;
      Concat(p, s, [Loop(0)], s1, wait, r);
    } else {
      var nap := LetTimePass(p, s1, wake);
      var s2 := s1.(now := wake);
      var s3 := Next(p, s2, Wake(0));
      var wait := LetTimePass(p, s3, until);
      r := s3.(now := until);
      acts := [Loop(0)] + nap + [Wake(0)] + wait;
      Single(p, s2, Wake(0));
      Concat(p, s, [Loop(0)], s1, nap, s2);
      Concat(p, s, [Loop(0)] + nap, s2, [Wake(0)], s3);
      Concat(p, s, [Loop(0)] + nap + [Wake(0)], s3, wait, r);
    }
  }

  /** Outside the safe parameters some run has two running pollers in StateLeader at once. */
  lemma Overlap(p: Params, n: nat) returns (acts: seq<Action>)
    requires n >= 2 && 2 * p.call + p.renew > p.ttl
    ensures Legal(p, Init(n), acts) && TwoLeaders(Exec(p, Init(n), acts))
  {
    var meet := if p.ttl + 1 <= p.call then p.call else p.ttl + 1;
    var first, s1 := Win(p, Init(n), 0, p.call);
    var second, s2 := Linger(p, s1, meet);
    var third, s3 := Win(p, s2, 1, meet);
    Concat(p, Init(n), first, s1, second, s2);
    Concat(p, Init(n), first + second, s2, third, s3);
    acts := first + second + third;
    assert RunningLeader(s3, 0) && RunningLeader(s3, 1);
  }

  ghost predicate AlwaysSafe(p: Params, n: nat) {
    forall acts :: Legal(p, Init(n), acts) ==> !TwoLeaders(Exec(p, Init(n), acts))
  }

  /**
  Mutual exclusion over all runs holds exactly when two calls and a renewal
  interval fit into the TTL. The shipped values (calls of 30s, renewal every
  10s, TTL of 30s) do not meet the condition.
  */
  lemma SafetyIsExact(p: Params, n: nat)
    requires n >= 2
    ensures AlwaysSafe(p, n) <==> 2 * p.call + p.renew <= p.ttl
  {
    if 2 * p.call + p.renew <= p.ttl {
      forall acts | Legal(p, Init(n), acts)
        ensures !TwoLeaders(Exec(p, Init(n), acts))
      {
        AtMostOneLeader(p, n, acts);
      }
    } else {
      var acts := Overlap(p, n);
      assert Legal(p, Init(n), acts) && TwoLeaders(Exec(p, Init(n), acts));
    }
  }

  /**
  shutdown() releases the lease and leaves the state at StateLeader, so a
  poller that is shutting down can still report IsLeader beside its successor,
  whatever the parameters. AtMostOneLeader is therefore about running pollers.
  */
  lemma ShutdownStillReportsLeader(p: Params, n: nat) returns (acts: seq<Action>)
    requires n >= 2
    ensures Legal(p, Init(n), acts)
    ensures var s := Exec(p, Init(n), acts);
      && s.pollers[0].mem.role == Leader && s.pollers[1].mem.role == Leader
      && !Running(s.pollers[0]) && s.lease.holder == Some(1)
  {
    var first, s1 := Win(p, Init(n), 0, 0);
    var s2 := Next(p, s1, Stop(0));
    var s3 := Next(p, s2, Serve(0, true));
    Single(p, s1, Stop(0));
    Single(p, s2, Serve(0, true));
    var last, s4 := Win(p, s3, 1, 0);
    Concat(p, Init(n), first, s1, [Stop(0)], s2);
    Concat(p, Init(n), first + [Stop(0)], s2, [Serve(0, true)], s3);
    Concat(p, Init(n), first + [Stop(0)] + [Serve(0, true)], s3, last, s4);
    acts := first + [Stop(0)] + [Serve(0, true)] + last;
  }

  // ----- terms -------------------------------------------------------------------

  /** Poller i leads, or is about to be told it leads, only under terms the server gave to i. */
  predicate OwnTerm(q: Poller, i: nat, owners: seq<nat>) {
    && (q.mem.role == Leader ==> q.mem.term < |owners| && owners[q.mem.term] == i)
    && (q.phase.Calling? && q.phase.answer.Some? && q.phase.answer.value.Granted? ==>
          q.phase.answer.value.term < |owners| && owners[q.phase.answer.value.term] == i)
  }

  ghost predicate TermInv(s: System) {
    && WellFormed(s)
    && (s.lease.holder.Some? ==> s.lease.owners != [] && s.lease.owners[|s.lease.owners| - 1] == s.lease.holder.value)
    && forall i :: 0 <= i < |s.pollers| ==> OwnTerm(s.pollers[i], i, s.lease.owners)
  }

  lemma ActorKeepsTerm(p: Params, s: System, a: Action)
    requires TermInv(s) && !a.Tick? && Enabled(p, s, a)
    ensures OwnTerm(Next(p, s, a).pollers[a.i], a.i, Next(p, s, a).lease.owners)
  {
    assert OwnTerm(s.pollers[a.i], a.i, s.lease.owners);
  }

  lemma StepKeepsTerms(p: Params, s: System, a: Action)
    requires TermInv(s) && Enabled(p, s, a)
    ensures TermInv(Next(p, s, a))
  {
    var s' := Next(p, s, a);
    assert s.lease.owners <= s'.lease.owners;
    forall i | 0 <= i < |s'.pollers|
      ensures OwnTerm(s'.pollers[i], i, s'.lease.owners)
    {
      assert OwnTerm(s.pollers[i], i, s.lease.owners);
      if !a.Tick? && i == a.i {
        ActorKeepsTerm(p, s, a);
      }
    }
  }

  lemma {:induction false} RunKeepsTerms(p: Params, s: System, acts: seq<Action>)
    requires TermInv(s) && Legal(p, s, acts)
    ensures TermInv(Exec(p, s, acts))
    decreases |acts|
  {
    if acts == [] {
    } else {
      StepKeepsTerms(p, s, acts[0]);
      RunKeepsTerms(p, Next(p, s, acts[0]), acts[1..]);
    }
  }

  /**
  A term fences: whatever the timing, and shutting down or not, two pollers
  that both report StateLeader hold different terms.
  */
  lemma TermsDistinguishLeaders(p: Params, n: nat, acts: seq<Action>, i: nat, j: nat)
    requires Legal(p, Init(n), acts) && i < n && j < n && i != j
    requires var s := Exec(p, Init(n), acts); s.pollers[i].mem.role == Leader && s.pollers[j].mem.role == Leader
    ensures var s := Exec(p, Init(n), acts); s.pollers[i].mem.term != s.pollers[j].mem.term
  {
    RunKeepsTerms(p, Init(n), acts);
    var s := Exec(p, Init(n), acts);
    assert OwnTerm(s.pollers[i], i, s.lease.owners) && OwnTerm(s.pollers[j], j, s.lease.owners);
  }

  /** The term of the last grant whose reply reached poller i; `before` when none has in these actions. */
  function LastGrant(p: Params, s: System, acts: seq<Action>, i: nat, before: nat): nat
    requires WellFormed(s) && Legal(p, s, acts) && i < |s.pollers|
    decreases |acts|
  {
    if acts == [] then before
    else
      var call := s.pollers[i].phase;
      var heard := acts[0] == Return(i, false) && call.request != Release && call.answer.value.Granted?;
      LastGrant(p, Next(p, s, acts[0]), acts[1..], i, if heard then call.answer.value.term else before)
  }

  lemma {:induction false} RunFollowsGrants(p: Params, s: System, acts: seq<Action>, i: nat)
    requires WellFormed(s) && Legal(p, s, acts) && i < |s.pollers|
    ensures Exec(p, s, acts).pollers[i].mem.term == LastGrant(p, s, acts, i, s.pollers[i].mem.term)
    decreases |acts|
  {
    if acts == [] {
    } else {
      StepFollowsGrants(p, s, acts[0], i);
      RunFollowsGrants(p, Next(p, s, acts[0]), acts[1..], i);
    }
  }

  lemma StepFollowsGrants(p: Params, s: System, a: Action, i: nat)
    requires WellFormed(s) && Enabled(p, s, a) && i < |s.pollers|
    ensures var call := s.pollers[i].phase;
      Next(p, s, a).pollers[i].mem.term ==
        if a == Return(i, false) && call.request != Release && call.answer.value.Granted? then call.answer.value.term
        else s.pollers[i].mem.term
  {
    if a.Return? && a.i == i {
      assert Next(p, s, a).pollers[i] == EndCall(p, s.pollers[i], s.now, a.replyLost);
    }
  }

  /** In every run a poller's term is that of the last grant, acquired or renewed, whose reply has reached it. */
  lemma TermIsLastGrant(p: Params, n: nat, acts: seq<Action>, i: nat)
    requires Legal(p, Init(n), acts) && i < n
    ensures Exec(p, Init(n), acts).pollers[i].mem.term == LastGrant(p, Init(n), acts, i, 0)
  {
    RunFollowsGrants(p, Init(n), acts, i);
  }

  // ----- the pace of lease calls ---------------------------------------------------

  /** A poller that makes no lease call before `at`, and its next one then. */
  predicate Waits(p: Params, q: Poller, now: nat, at: nat) {
    || (q.phase.Top? && at == now + if q.mem.role == Leader then p.renew else 0)
    || (q.phase == Asleep(at) && now <= at)
  }

  /** In some state of the run poller i has just begun this lease call, at this time. */
  predicate CallsAt(p: Params, s: System, acts: seq<Action>, i: nat, request: Request, at: nat)
    requires WellFormed(s) && Legal(p, s, acts) && i < |s.pollers|
    decreases |acts|
  {
    || s.pollers[i].phase == Calling(at, request, None)
    || (acts != [] && CallsAt(p, Next(p, s, acts[0]), acts[1..], i, request, at))
  }

  /** No lease call but a release is under way. */
  predicate NotCalling(q: Poller) {
    q.phase.Calling? ==> q.phase.request == Release
  }

  lemma StepWaits(p: Params, s: System, a: Action, i: nat, at: nat)
    requires WellFormed(s) && Enabled(p, s, a) && i < |s.pollers| && Waits(p, s.pollers[i], s.now, at)
    ensures var q, q', s' := s.pollers[i], Next(p, s, a).pollers[i], Next(p, s, a);
      || (Waits(p, q', s'.now, at) && q'.mem.role == q.mem.role)
      || (s'.now == at && q'.phase == Calling(at, if q.mem.role == Leader then Renew else Acquire, None))
      || (a == Stop(i) && !Running(q'))
  {
    assert a.Tick? ==> MayWait(p, s.pollers[i], s.now);
  }

  lemma StepStaysAway(p: Params, s: System, a: Action, i: nat)
    requires WellFormed(s) && Enabled(p, s, a) && i < |s.pollers|
    ensures s.now <= Next(p, s, a).now && (!Running(s.pollers[i]) ==> !Running(Next(p, s, a).pollers[i]))
  {
  }

  lemma {:induction false} WaitsUntil(p: Params, s: System, acts: seq<Action>, i: nat, at: nat)
    requires WellFormed(s) && Legal(p, s, acts) && i < |s.pollers|
    requires s.now >= at || Waits(p, s.pollers[i], s.now, at) || !Running(s.pollers[i])
    ensures var r := Exec(p, s, acts); r.now < at ==> NotCalling(r.pollers[i])
    decreases |acts|
  {
    if acts == [] {
    } else {
      StepStaysAway(p, s, acts[0], i);
      if s.now < at && Waits(p, s.pollers[i], s.now, at) {
        StepWaits(p, s, acts[0], i, at);
      }
      WaitsUntil(p, Next(p, s, acts[0]), acts[1..], i, at);
    }
  }

  lemma {:induction false} CallsThen(p: Params, s: System, acts: seq<Action>, i: nat, at: nat)
    requires WellFormed(s) && Legal(p, s, acts) && i < |s.pollers| && Waits(p, s.pollers[i], s.now, at)
    requires Stop(i) !in acts
    ensures var request := if s.pollers[i].mem.role == Leader then Renew else Acquire;
      Exec(p, s, acts).now > at ==> CallsAt(p, s, acts, i, request, at)
    decreases |acts|
  {
    if acts == [] {
    } else {
      var s' := Next(p, s, acts[0]);
      StepWaits(p, s, acts[0], i, at);
      assert acts[0] in acts;
      if Waits(p, s'.pollers[i], s'.now, at) && s'.pollers[i].mem.role == s.pollers[i].mem.role {
        CallsThen(p, s', acts[1..], i, at);
      }
    }
  }

  /** The server's answer has reached the caller, and it is a grant. */
  predicate Heard(q: Poller, replyLost: bool)
    requires q.phase.Calling?
  {
    !replyLost && q.phase.answer.Some? && q.phase.answer.value.Granted?
  }

  lemma ReturnWaits(p: Params, n: nat, acts: seq<Action>, i: nat, replyLost: bool)
    requires Legal(p, Init(n), acts) && i < n
    requires Enabled(p, Exec(p, Init(n), acts), Return(i, replyLost))
    requires Exec(p, Init(n), acts).pollers[i].phase.request != Release
    ensures var s := Exec(p, Init(n), acts);
      var q, q' := s.pollers[i], Next(p, s, Return(i, replyLost)).pollers[i];
      var pause := if Heard(q, replyLost) then p.renew else if q.phase.request == Acquire then p.acquire else 0;
      && Waits(p, q', s.now, s.now + pause)
      && (q'.mem.role == Leader <==> Heard(q, replyLost))
  {
    RunKeepsLeases(p, Init(n), acts);
    var s := Exec(p, Init(n), acts);
    assert Timely(p, s.pollers[i], s.now, s.ends[i]);
  }

  /**
  The pace of a poller, in every run. When an acquire or a renewal returns at
  time t, the next lease call is a renewal at t + renew if the reply is a
  grant, an acquire at t + acquire if it was an acquire that failed, and an
  acquire at once if it was a renewal that failed: none is begun earlier, and
  unless the poller is stopped the clock does not pass that time without it.
  */
  lemma NextCallIsOnTime(p: Params, n: nat, acts: seq<Action>, i: nat, replyLost: bool, after: seq<Action>)
    requires Legal(p, Init(n), acts) && i < n
    requires Enabled(p, Exec(p, Init(n), acts), Return(i, replyLost))
    requires Exec(p, Init(n), acts).pollers[i].phase.request != Release
    requires Legal(p, Next(p, Exec(p, Init(n), acts), Return(i, replyLost)), after)
    ensures var s := Exec(p, Init(n), acts);
      var q, s' := s.pollers[i], Next(p, s, Return(i, replyLost));
      var granted, r := Heard(q, replyLost), Exec(p, s', after);
      var at := s.now + if granted then p.renew else if q.phase.request == Acquire then p.acquire else 0;
      && (r.now < at ==> NotCalling(r.pollers[i]))
      && (r.now > at && Stop(i) !in after ==> CallsAt(p, s', after, i, if granted then Renew else Acquire, at))
  {
    ReturnWaits(p, n, acts, i, replyLost);
    var s := Exec(p, Init(n), acts);
    var q, s' := s.pollers[i], Next(p, s, Return(i, replyLost));
    var at := s.now + if Heard(q, replyLost) then p.renew else if q.phase.request == Acquire then p.acquire else 0;
    WaitsUntil(p, s', after, i, at);
    if Stop(i) !in after {
      CallsThen(p, s', after, i, at);
    }
  }

  // ----- the transition channel --------------------------------------------------

  /**
  What a poller can have published since its channel was empty at t0 while
  `spans` whole stretches of leadership have ended since: each of them slept
  through one renewal interval.
  */
  predicate Paced(p: Params, q: Poller, now: nat, t0: nat, spans: nat) {
    var due := if spans == 0 then t0 else t0 + p.renew;
    && now >= due
    && (q.mem.role == Follower ==> |q.mem.ch| <= 2 * spans + 1)
    && (q.mem.role == Leader ==>
         || (spans == 0 && q.mem.ch == [])
         || (&& |q.mem.ch| <= 2 * spans + 2
             && (q.phase.Asleep? ==> q.phase.wake >= due + p.renew)
             && (q.phase.Calling? && q.phase.request == Renew ==> q.phase.began >= due + p.renew)))
  }

  ghost predicate NoDropYet(p: Params, q: Poller, now: nat, t0: nat, dropped: nat) {
    now >= t0 + 2 * p.renew || (q.dropped == dropped && (Paced(p, q, now, t0, 0) || Paced(p, q, now, t0, 1)))
  }

  lemma StepPaces(p: Params, s: System, a: Action, i: nat, t0: nat, dropped: nat)
    requires LeaseInv(p, s) && Enabled(p, s, a) && i < |s.pollers|
    requires NoDropYet(p, s.pollers[i], s.now, t0, dropped)
    ensures NoDropYet(p, Next(p, s, a).pollers[i], Next(p, s, a).now, t0, dropped)
  {
    var q, q' := s.pollers[i], Next(p, s, a).pollers[i];
    assert Timely(p, q, s.now, s.ends[i]);
    if s.now < t0 + 2 * p.renew && !a.Tick? && a.i == i && a.Return? {
      assert q' == EndCall(p, q, s.now, a.replyLost);
    }
  }

  lemma {:induction false} RunPaces(p: Params, s: System, acts: seq<Action>, i: nat, t0: nat, dropped: nat)
    requires LeaseInv(p, s) && Legal(p, s, acts) && i < |s.pollers|
    requires NoDropYet(p, s.pollers[i], s.now, t0, dropped)
    ensures NoDropYet(p, Exec(p, s, acts).pollers[i], Exec(p, s, acts).now, t0, dropped)
    decreases |acts|
  {
    if acts == [] {
    } else {
      StepPaces(p, s, acts[0], i, t0, dropped);
      RunKeepsLeases(p, s, [acts[0]]);
      assert [acts[0]][1..] == [] && Exec(p, s, [acts[0]]) == Next(p, s, acts[0]);
      RunPaces(p, Next(p, s, acts[0]), acts[1..], i, t0, dropped);
    }
  }

  /**
  If a poller's channel is empty at some moment of a run, nothing it publishes
  is dropped before two renewal intervals have passed, even if nobody reads.
  */
  lemma NoDropForTwoRenewals(p: Params, n: nat, before: seq<Action>, after: seq<Action>, i: nat)
    requires Legal(p, Init(n), before) && i < n
    requires Exec(p, Init(n), before).pollers[i].mem.ch == []
    requires Legal(p, Exec(p, Init(n), before), after)
    ensures var s, s' := Exec(p, Init(n), before), Exec(p, Exec(p, Init(n), before), after);
      s'.pollers[i].dropped > s.pollers[i].dropped ==> s'.now >= s.now + 2 * p.renew
  {
    var s := Exec(p, Init(n), before);
    RunKeepsLeases(p, Init(n), before);
    RunPaces(p, s, after, i, s.now, s.pollers[i].dropped);
  }

  /** The last moment the channel was empty; `since` is that moment as of the state before. */
  function EmptySince(q: Poller, now: nat, since: nat): nat {
    if q.mem.ch == [] then now else since
  }

  /** In every state of the run, poller i's channel has been empty within the last two renewal intervals. */
  predicate Prompt(p: Params, s: System, acts: seq<Action>, i: nat, since: nat)
    requires WellFormed(s) && Legal(p, s, acts) && i < |s.pollers|
    decreases |acts|
  {
    var t := EmptySince(s.pollers[i], s.now, since);
    s.now < t + 2 * p.renew && (acts == [] || Prompt(p, Next(p, s, acts[0]), acts[1..], i, t))
  }

  lemma {:induction false} PromptRunDropsNothing(p: Params, s: System, acts: seq<Action>, i: nat, since: nat)
    requires LeaseInv(p, s) && Legal(p, s, acts) && i < |s.pollers| && Prompt(p, s, acts, i, since)
    requires s.pollers[i].dropped == 0 && NoDropYet(p, s.pollers[i], s.now, since, 0)
    ensures Exec(p, s, acts).pollers[i].dropped == 0
    decreases |acts|
  {
    if acts == [] {
    } else {
      var t, s' := EmptySince(s.pollers[i], s.now, since), Next(p, s, acts[0]);
      assert Prompt(p, s', acts[1..], i, t);
      StepPaces(p, s, acts[0], i, t, 0);
      StepKeepsLeases(p, s, acts[0]);
      StepsOnInTime(p, s, acts, i, since);
      PromptRunDropsNothing(p, s', acts[1..], i, t);
    }
  }

  /** A prompt run steps on before a drop is possible. */
  lemma StepsOnInTime(p: Params, s: System, acts: seq<Action>, i: nat, since: nat)
    requires WellFormed(s) && Legal(p, s, acts) && i < |s.pollers| && acts != [] && Prompt(p, s, acts, i, since)
    ensures Next(p, s, acts[0]).now < EmptySince(s.pollers[i], s.now, since) + 2 * p.renew
  {
    var s' := Next(p, s, acts[0]);
    assert s'.now < EmptySince(s'.pollers[i], s'.now, EmptySince(s.pollers[i], s.now, since)) + 2 * p.renew;
    assert if acts[0].Tick? then s'.pollers == s.pollers && s'.now == s.now + 1 else s'.now == s.now;
  }

  lemma StepKeepsLeases(p: Params, s: System, a: Action)
    requires LeaseInv(p, s) && Enabled(p, s, a)
    ensures LeaseInv(p, Next(p, s, a))
  {
    if a.Tick? {
      TickKeepsLeases(p, s);
    } else {
      ActKeepsLeases(p, s, a);
    }
  }

  /**
  A consumer that finds its channel empty at least once within every two
  renewal intervals never loses a transition, in any run.
  */
  lemma PromptConsumerLosesNothing(p: Params, n: nat, acts: seq<Action>, i: nat)
    requires Legal(p, Init(n), acts) && i < n && Prompt(p, Init(n), acts, i, 0)
    ensures Exec(p, Init(n), acts).pollers[i].dropped == 0
  {
    PromptRunDropsNothing(p, Init(n), acts, i, 0);
  }

  /** Everything the channel has accepted: what was received, then what waits. */
  function Accepted(q: Poller): seq<Role> {
    q.received + q.mem.ch
  }

  /** The strictly alternating history Follower, Leader, Follower, ... */
  predicate Alternates(h: seq<Role>) {
    forall k :: 0 <= k < |h| ==> (h[k] == Follower <==> k % 2 == 0)
  }

  /** The last accepted value is the role exactly when an even number of values was lost since. */
  predicate Faithful(q: Poller) {
    var h := Accepted(q);
    && |q.mem.ch| <= CHANNEL_SLOTS
    && q.lost <= q.dropped
    && (q.phase.Down? ==> q == InitPoller())
    && (!q.phase.Down? ==> h != [] && (h[|h| - 1] == q.mem.role <==> q.lost % 2 == 0))
    && (q.dropped == 0 ==> Alternates(h))
  }

  lemma PublishStaysFaithful(q: Poller, after: Memory, phase: Phase)
    requires Faithful(q) && !q.phase.Down? && !phase.Down?
    requires after.ch == SetState(q.mem, after.role).ch
    ensures Faithful(Publish(q, after).(phase := phase))
  {
    var h, q' := Accepted(q), Publish(q, after);
    if q.mem.role != after.role && !Drops(q.mem, after.role) {
      assert Accepted(q') == h + [after.role];
      assert |h + [after.role]| - 1 == |h|;
    }
  }

  lemma ReturnStaysFaithful(p: Params, q: Poller, now: nat, replyLost: bool)
    requires q.phase.Calling? && (replyLost || q.phase.answer.Some?) && Faithful(q)
    ensures Faithful(EndCall(p, q, now, replyLost))
  {
    var q' := EndCall(p, q, now, replyLost);
    if q.phase.request != Release {
      var r := if replyLost then Refused else q.phase.answer.value;
      var after := if q.phase.request == Acquire then AfterAcquire(q.mem, r) else AfterRenew(q.mem, r);
      PublishStaysFaithful(q, after, q'.phase);
    } else {
      assert Accepted(q') == Accepted(q);
    }
  }

  /** A poller whose memory and record do not change. */
  lemma SameMemoryStaysFaithful(q: Poller, q': Poller)
    requires Faithful(q) && q'.mem == q.mem && q'.received == q.received && q'.dropped == q.dropped && q'.lost == q.lost
    requires q'.phase.Down? <==> q.phase.Down?
    ensures Faithful(q')
  {
    assert Accepted(q') == Accepted(q);
  }

  lemma ActStaysFaithful(p: Params, s: System, a: Action)
    requires WellFormed(s) && !a.Tick? && Enabled(p, s, a) && Faithful(s.pollers[a.i])
    ensures Faithful(Next(p, s, a).pollers[a.i])
  {
    var q, q' := s.pollers[a.i], Next(p, s, a).pollers[a.i];
    if a.Start? {
      assert Accepted(q') == [Follower];
    } else if a.Receive? {
      assert Accepted(q') == Accepted(q);
    } else if a.Return? {
      ReturnStaysFaithful(p, q, s.now, a.replyLost);
    } else {
      SameMemoryStaysFaithful(q, q');
    }
  }

  ghost predicate AllFaithful(s: System) {
    forall i :: 0 <= i < |s.pollers| ==> Faithful(s.pollers[i])
  }

  lemma {:induction false} RunStaysFaithful(p: Params, s: System, acts: seq<Action>)
    requires WellFormed(s) && Legal(p, s, acts)
    requires AllFaithful(s)
    ensures AllFaithful(Exec(p, s, acts))
    decreases |acts|
  {
    if acts == [] {
    } else {
      if !acts[0].Tick? {
        ActStaysFaithful(p, s, acts[0]);
      }
      RunStaysFaithful(p, Next(p, s, acts[0]), acts[1..]);
    }
  }

  /** The transitions lost since the last accepted one are among those dropped. */
  lemma LostIsDropped(p: Params, n: nat, acts: seq<Action>, i: nat)
    requires Legal(p, Init(n), acts) && i < n
    ensures Exec(p, Init(n), acts).pollers[i].lost <= Exec(p, Init(n), acts).pollers[i].dropped
  {
    RunStaysFaithful(p, Init(n), acts);
  }

  /** While no transition has been dropped, the consumer has received a prefix of the alternating history. */
  lemma ReceivedAlternates(p: Params, n: nat, acts: seq<Action>, i: nat)
    requires Legal(p, Init(n), acts) && i < n && Exec(p, Init(n), acts).pollers[i].dropped == 0
    ensures Alternates(Exec(p, Init(n), acts).pollers[i].received)
  {
    RunStaysFaithful(p, Init(n), acts);
    var q := Exec(p, Init(n), acts).pollers[i];
    assert forall k :: 0 <= k < |q.received| ==> q.received[k] == Accepted(q)[k];
  }

  /**
  A consumer that has read everything knows the poller's role exactly when an
  even number of transitions was dropped since the last accepted one.
  */
  lemma DrainedConsumerIsCurrent(p: Params, n: nat, acts: seq<Action>, i: nat)
    requires Legal(p, Init(n), acts) && i < n
    requires var q := Exec(p, Init(n), acts).pollers[i]; !q.phase.Down? && q.mem.ch == []
    ensures var q := Exec(p, Init(n), acts).pollers[i];
      q.received != [] && (q.received[|q.received| - 1] == q.mem.role <==> q.lost % 2 == 0)
  {
    RunStaysFaithful(p, Init(n), acts);
    var q := Exec(p, Init(n), acts).pollers[i];
    assert Accepted(q) == q.received;
  }

  // ----- a dropped transition is not made up for -----------------------------------

  /** Poller 0, leading, loses the reply of its renewal. */
  lemma StepDown(p: Params, s: System) returns (acts: seq<Action>, r: System)
    requires WellFormed(s) && s.pollers != [] && s.pollers[0].phase.Top? && s.pollers[0].mem.role == Leader
    requires forall k :: 1 <= k < |s.pollers| ==> s.pollers[k].phase.Down?
    ensures Leads(p, s, acts, r) && Unattended(acts) && r.lease == s.lease && r.now == s.now + p.renew
    ensures r.pollers == s.pollers[0 := Publish(s.pollers[0], SetState(s.pollers[0].mem, Follower))]
  {
    var s1 := Next(p, s, Loop(0));
    var nap := LetTimePass(p, s1, s.now + p.renew);
    var s2 := s1.(now := s.now + p.renew);
    var s3 := Next(p, s2, Wake(0));
    r := Next(p, s3, Return(0, true));
    Single(p, s, Loop(0));
    Single(p, s2, Wake(0));
    Single(p, s3, Return(0, true));
    Concat(p, s, [Loop(0)], s1, nap, s2);
    Concat(p, s, [Loop(0)] + nap, s2, [Wake(0)], s3);
    Concat(p, s, [Loop(0)] + nap + [Wake(0)], s3, [Return(0, true)], r);
    acts := [Loop(0)] + nap + [Wake(0)] + [Return(0, true)];
    assert r.pollers == s.pollers[0 := r.pollers[0]];
  }

  /** Poller 0, still the holder on record, acquires again at once. */
  lemma StepUp(p: Params, s: System) returns (acts: seq<Action>, r: System)
    requires WellFormed(s) && s.pollers != [] && s.pollers[0].phase.Top? && s.pollers[0].mem.role == Follower
    requires s.lease.holder == Some(0)
    ensures Leads(p, s, acts, r) && Unattended(acts) && r.lease.holder == Some(0) && r.now == s.now
    ensures var q := s.pollers[0];
      r.pollers == s.pollers[0 := Publish(q, SetState(q.mem.(term := |s.lease.owners|), Leader))]
  {
    var s1 := Next(p, s, Loop(0));
    var s2 := Next(p, s1, Serve(0, true));
    r := Next(p, s2, Return(0, false));
    Single(p, s, Loop(0));
    Single(p, s1, Serve(0, true));
    Single(p, s2, Return(0, false));
    Concat(p, s, [Loop(0)], s1, [Serve(0, true)], s2);
    Concat(p, s, [Loop(0)] + [Serve(0, true)], s2, [Return(0, false)], r);
    acts := [Loop(0)] + [Serve(0, true)] + [Return(0, false)];
    assert r.pollers == s.pollers[0 := r.pollers[0]];
  }

  lemma {:induction false} ReadAll(p: Params, s: System) returns (acts: seq<Action>, r: System)
    requires WellFormed(s) && s.pollers != []
    ensures Leads(p, s, acts, r)
    ensures var q := s.pollers[0];
      r.pollers == s.pollers[0 := q.(mem := q.mem.(ch := []), received := q.received + q.mem.ch)]
    decreases |s.pollers[0].mem.ch|
  {
    if s.pollers[0].mem.ch == [] {
      acts, r := [], s;
      assert s.pollers[0].received + [] == s.pollers[0].received;
    } else {
      var q, s1 := s.pollers[0], Next(p, s, Receive(0));
      var rest, r' := ReadAll(p, s1);
      Single(p, s, Receive(0));
      Concat(p, s, [Receive(0)], s1, rest, r');
      acts, r := [Receive(0)] + rest, r';
      assert q.received + [q.mem.ch[0]] + q.mem.ch[1..] == q.received + q.mem.ch;
    }
  }

  /** One flap that nobody has read: Follower, Leader, Follower. */
  lemma OneFlap(p: Params, n: nat) returns (acts: seq<Action>, r: System)
    requires n >= 1
    ensures Leads(p, Init(n), acts, r) && Unattended(acts) && |r.pollers| == n
    ensures r.pollers[0].mem.ch == [Follower, Leader, Follower]
  {
    var a1, s1 := Win(p, Init(n), 0, 0);
    var a2, s2 := StepDown(p, s1);
    Concat(p, Init(n), a1, s1, a2, s2);
    acts, r := a1 + a2, s2;
  }

  /**
  The bound is tight: with a consumer that is slow for two flaps, the fifth
  transition is dropped exactly two renewal intervals after the channel was
  empty, leaving a running follower whose channel ends in Leader.
  */
  lemma FifthTransition(p: Params, n: nat) returns (acts: seq<Action>, r: System)
    requires n >= 1
    ensures Leads(p, Init(n), acts, r) && Unattended(acts) && |r.pollers| == n
    ensures Init(n).pollers[0].mem.ch == [] && Init(n).now == 0 && r.now == 2 * p.renew
    ensures var q := r.pollers[0];
      && q.mem.role == Follower && q.mem.ch == [Follower, Leader, Follower, Leader]
      && q.phase.Top? && q.received == [] && q.dropped == 1
  {
    var a1, s1 := Win(p, Init(n), 0, 0);
    var a2, s2 := StepDown(p, s1);
    var a3, s3 := StepUp(p, s2);
    assert s3.pollers[0].mem.ch == [Follower, Leader, Follower, Leader];
    var a4, s4 := StepDown(p, s3);
    Concat(p, Init(n), a1, s1, a2, s2);
    Concat(p, Init(n), a1 + a2, s2, a3, s3);
    Concat(p, Init(n), a1 + a2 + a3, s3, a4, s4);
    acts, r := a1 + a2 + a3 + a4, s4;
  }

  /** Read to its end, that channel leaves the consumer with a last value of Leader. */
  lemma DroppedStepDown(p: Params, n: nat) returns (acts: seq<Action>)
    requires n >= 1
    ensures Legal(p, Init(n), acts)
    ensures var q := Exec(p, Init(n), acts).pollers[0];
      && q.mem.role == Follower && q.mem.ch == [] && Running(q) && !q.phase.Down?
      && q.received == [Follower, Leader, Follower, Leader] && q.dropped == 1
  {
    var first, s1 := FifthTransition(p, n);
    var rest, s2 := ReadAll(p, s1);
    Concat(p, Init(n), first, s1, rest, s2);
    acts := first + rest;
  }
}
