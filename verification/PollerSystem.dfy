/**
Whole pollers: the electors of leader/leader.go and, in each process, the work
lifecycle of cmd/main.go, joined by the transition channel. Receiving a value
and beginning to handle it is one action of the consumer.
*/
module PollerSystem {
  import Election
  import LeaderWork

  datatype Fleet = Fleet(system: Election.System, works: seq<LeaderWork.Process>)

  /**
  An elector, a server or the clock moves; a consumer takes a value; another
  goroutine of a process moves. A crash is only the end of the process's work
  here: for the others, its elector is one whose requests all get lost.
  */
  datatype Action =
    | Elect(move: Election.Action)
    | Deliver(i: nat)
    | Work(i: nat, step: LeaderWork.Action)

  function Init(n: nat): (f: Fleet)
    ensures WellFormed(f)
  {
    Fleet(Election.Init(n), seq(n, _ => LeaderWork.Init(true)))
  }

  predicate WellFormed(f: Fleet) {
    && Election.WellFormed(f.system) && |f.works| == |f.system.pollers|
    && forall i :: 0 <= i < |f.works| ==> LeaderWork.WellFormed(f.works[i])
  }

  /** The first value in poller i's channel. */
  function Head(f: Fleet, i: nat): Election.Role
    requires i < |f.system.pollers| && f.system.pollers[i].mem.ch != []
  {
    f.system.pollers[i].mem.ch[0]
  }

  /** An elector stops once its root context is cancelled. */
  predicate Enabled(p: Election.Params, f: Fleet, a: Action)
    requires WellFormed(f)
  {
    match a
    case Elect(move) =>
      Election.Enabled(p, f.system, move) && !move.Receive? && (move.Stop? ==> f.works[move.i].ctxDone)
    case Deliver(i) =>
      && Election.Enabled(p, f.system, Election.Receive(i))
      && LeaderWork.Enabled(f.works[i], LeaderWork.Handle(Head(f, i)))
    case Work(i, step) => i < |f.works| && !step.Handle? && LeaderWork.Enabled(f.works[i], step)
  }

  function Next(p: Election.Params, f: Fleet, a: Action): (r: Fleet)
    requires WellFormed(f) && Enabled(p, f, a)
    ensures WellFormed(r) && |r.works| == |f.works|
  {
    match a
    case Elect(move) => f.(system := Election.Next(p, f.system, move))
    case Deliver(i) =>
      Fleet(Election.Next(p, f.system, Election.Receive(i)),
            f.works[i := LeaderWork.Next(f.works[i], LeaderWork.Handle(Head(f, i)))])
    case Work(i, step) => f.(works := f.works[i := LeaderWork.Next(f.works[i], step)])
  }

  predicate Legal(p: Election.Params, f: Fleet, acts: seq<Action>)
    requires WellFormed(f)
    decreases |acts|
  {
    acts == [] || (Enabled(p, f, acts[0]) && Legal(p, Next(p, f, acts[0]), acts[1..]))
  }

  function Exec(p: Election.Params, f: Fleet, acts: seq<Action>): (r: Fleet)
    requires WellFormed(f) && Legal(p, f, acts)
    ensures WellFormed(r) && |r.works| == |f.works|
    decreases |acts|
  {
    if acts == [] then f else Exec(p, Next(p, f, acts[0]), acts[1..])
  }

  // ----- a joint run is an election run and, in each process, a work run -----------------

  lemma {:induction false} ElectionOf(p: Election.Params, f: Fleet, acts: seq<Action>)
    returns (moves: seq<Election.Action>)
    requires WellFormed(f) && Legal(p, f, acts)
    ensures Election.Leads(p, f.system, moves, Exec(p, f, acts).system)
    decreases |acts|
  {
    if acts == [] {
      moves := [];
    } else {
      var rest := ElectionOf(p, Next(p, f, acts[0]), acts[1..]);
      moves := match acts[0]
        case Elect(move) => [move] + rest
        case Deliver(i) => [Election.Receive(i)] + rest
        case Work(_, _) => rest;
      assert !acts[0].Work? ==> moves[1..] == rest;
    }
  }

  lemma {:induction false} WorkOf(p: Election.Params, f: Fleet, acts: seq<Action>, i: nat)
    returns (steps: seq<LeaderWork.Action>)
    requires WellFormed(f) && Legal(p, f, acts) && i < |f.works|
    ensures LeaderWork.Legal(f.works[i], steps) && LeaderWork.Exec(f.works[i], steps) == Exec(p, f, acts).works[i]
    decreases |acts|
  {
    if acts == [] {
      steps := [];
    } else {
      var a := acts[0];
      var rest := WorkOf(p, Next(p, f, a), acts[1..], i);
      if a.Deliver? && a.i == i {
        steps := LeaderWork.Prefixed(f.works[i], LeaderWork.Handle(Head(f, i)), rest);
      } else if a.Work? && a.i == i {
        steps := LeaderWork.Prefixed(f.works[i], a.step, rest);
      } else {
        steps := rest;
      }
    }
  }

  /** Every consumer has handled exactly what it has received. */
  predicate Delivered(f: Fleet)
    requires WellFormed(f)
  {
    forall i :: 0 <= i < |f.works| ==> f.works[i].handled == f.system.pollers[i].received
  }

  lemma OnlyReceiveReceives(p: Election.Params, s: Election.System, move: Election.Action, i: nat)
    requires Election.WellFormed(s) && Election.Enabled(p, s, move) && i < |s.pollers|
    ensures Election.Next(p, s, move).pollers[i].received ==
      s.pollers[i].received + if move == Election.Receive(i) then [s.pollers[i].mem.ch[0]] else []
  {
  }

  lemma StepKeepsDelivered(p: Election.Params, f: Fleet, a: Action)
    requires WellFormed(f) && Enabled(p, f, a) && Delivered(f)
    ensures Delivered(Next(p, f, a))
  {
    forall i | 0 <= i < |f.works|
      ensures Next(p, f, a).works[i].handled == Next(p, f, a).system.pollers[i].received
    {
      match a
      case Elect(move) => OnlyReceiveReceives(p, f.system, move, i);
      case Deliver(k) =>
        OnlyReceiveReceives(p, f.system, Election.Receive(k), i);
        LeaderWork.StepFrame(f.works[k], LeaderWork.Handle(Head(f, k)));
      case Work(k, step) => LeaderWork.StepFrame(f.works[k], step);
    }
  }

  lemma {:induction false} RunKeepsDelivered(p: Election.Params, f: Fleet, acts: seq<Action>)
    requires WellFormed(f) && Legal(p, f, acts) && Delivered(f)
    ensures Delivered(Exec(p, f, acts))
    decreases |acts|
  {
    if acts == [] {
    } else {
      StepKeepsDelivered(p, f, acts[0]);
      RunKeepsDelivered(p, Next(p, f, acts[0]), acts[1..]);
    }
  }

  // ----- what holds of whole pollers ------------------------------------------------------

  /** Poller i has begun, its consumer has nothing left to do, and there was no shutdown signal. */
  predicate Settled(f: Fleet, i: nat)
    requires WellFormed(f) && i < |f.works|
  {
    var q, w := f.system.pollers[i], f.works[i];
    !q.phase.Down? && q.mem.ch == [] && w.consumer.Idle? && !w.signalled
  }

  /**
  In every joint run, the work of a settled poller agrees with its role if and
  only if an even number of transitions was dropped since the last accepted one.
  */
  lemma SettledWorkMatchesRole(p: Election.Params, n: nat, acts: seq<Action>, i: nat)
    requires Legal(p, Init(n), acts) && i < n && Settled(Exec(p, Init(n), acts), i)
    ensures var f := Exec(p, Init(n), acts); var q := f.system.pollers[i];
      (f.works[i].work.Some? <==> q.mem.role == Election.Leader) <==> q.lost % 2 == 0
  {
    var moves := ElectionOf(p, Init(n), acts);
    var steps := WorkOf(p, Init(n), acts, i);
    RunKeepsDelivered(p, Init(n), acts);
    LeaderWork.WorkMatchesRole(p, n, moves, i, steps);
  }

  /**
  Within the safe parameters, of the settled pollers that have dropped nothing
  since their last accepted transition and are not shutting down, at most one
  has its work running.
  */
  lemma AtMostOneWorks(p: Election.Params, n: nat, acts: seq<Action>, i: nat, j: nat)
    requires 2 * p.call + p.renew <= p.ttl && Legal(p, Init(n), acts) && i < j < n
    requires var f := Exec(p, Init(n), acts);
      && Settled(f, i) && f.system.pollers[i].lost == 0 && Election.Running(f.system.pollers[i])
      && Settled(f, j) && f.system.pollers[j].lost == 0 && Election.Running(f.system.pollers[j])
    ensures var f := Exec(p, Init(n), acts); f.works[i].work.None? || f.works[j].work.None?
  {
    var f := Exec(p, Init(n), acts);
    var moves := ElectionOf(p, Init(n), acts);
    SettledWorkMatchesRole(p, n, acts, i);
    SettledWorkMatchesRole(p, n, acts, j);
    Election.AtMostOneLeader(p, n, moves);
    if f.works[i].work.Some? && f.works[j].work.Some? {
      assert Election.RunningLeader(f.system, i) && Election.RunningLeader(f.system, j);
    }
  }

  // ----- a consumer that keeps up -----------------------------------------------------------

  /** In every state of the joint run, poller i's channel has been empty within the last two renewal intervals. */
  predicate Prompt(p: Election.Params, f: Fleet, acts: seq<Action>, i: nat, since: nat)
    requires WellFormed(f) && Legal(p, f, acts) && i < |f.works|
    decreases |acts|
  {
    var t := Election.EmptySince(f.system.pollers[i], f.system.now, since);
    f.system.now < t + 2 * p.renew && (acts == [] || Prompt(p, Next(p, f, acts[0]), acts[1..], i, t))
  }

  lemma {:induction false} PromptElectionOf(p: Election.Params, f: Fleet, acts: seq<Action>, i: nat, since: nat)
    returns (moves: seq<Election.Action>)
    requires WellFormed(f) && Legal(p, f, acts) && i < |f.works| && Prompt(p, f, acts, i, since)
    ensures Election.Leads(p, f.system, moves, Exec(p, f, acts).system)
    ensures Election.Prompt(p, f.system, moves, i, since)
    decreases |acts|
  {
    if acts == [] {
      moves := [];
    } else {
      var t := Election.EmptySince(f.system.pollers[i], f.system.now, since);
      var rest := PromptElectionOf(p, Next(p, f, acts[0]), acts[1..], i, t);
      moves := match acts[0]
        case Elect(move) => [move] + rest
        case Deliver(k) => [Election.Receive(k)] + rest
        case Work(_, _) => rest;
      assert !acts[0].Work? ==> moves[1..] == rest;
      if acts[0].Work? {
        SamePrompt(p, f.system, moves, i, t, since);
      }
    }
  }

  lemma SamePrompt(p: Election.Params, s: Election.System, moves: seq<Election.Action>, i: nat, t: nat, since: nat)
    requires Election.WellFormed(s) && Election.Legal(p, s, moves) && i < |s.pollers|
    requires t == Election.EmptySince(s.pollers[i], s.now, since) && Election.Prompt(p, s, moves, i, t)
    ensures Election.Prompt(p, s, moves, i, since)
  {
  }

  lemma PromptLosesNothing(p: Election.Params, n: nat, acts: seq<Action>, i: nat)
    requires Legal(p, Init(n), acts) && i < n && Prompt(p, Init(n), acts, i, 0)
    ensures Exec(p, Init(n), acts).system.pollers[i].lost == 0
  {
    var moves := PromptElectionOf(p, Init(n), acts, i, 0);
    Election.PromptConsumerLosesNothing(p, n, moves, i);
    Election.LostIsDropped(p, n, moves, i);
  }

  /**
  In every joint run, a poller whose consumer finds the channel empty at least
  once within every two renewal intervals works, when settled, exactly while it
  leads.
  */
  lemma PromptWorkMatchesRole(p: Election.Params, n: nat, acts: seq<Action>, i: nat)
    requires Legal(p, Init(n), acts) && i < n && Prompt(p, Init(n), acts, i, 0)
    requires Settled(Exec(p, Init(n), acts), i)
    ensures var f := Exec(p, Init(n), acts);
      f.works[i].work.Some? <==> f.system.pollers[i].mem.role == Election.Leader
  {
    PromptLosesNothing(p, n, acts, i);
    SettledWorkMatchesRole(p, n, acts, i);
  }

  /** Within the safe parameters at most one of such pollers works, of those that are settled and not shutting down. */
  lemma AtMostOnePromptWorks(p: Election.Params, n: nat, acts: seq<Action>, i: nat, j: nat)
    requires 2 * p.call + p.renew <= p.ttl && Legal(p, Init(n), acts) && i < j < n
    requires Prompt(p, Init(n), acts, i, 0) && Prompt(p, Init(n), acts, j, 0)
    requires var f := Exec(p, Init(n), acts);
      && Settled(f, i) && Election.Running(f.system.pollers[i])
      && Settled(f, j) && Election.Running(f.system.pollers[j])
    ensures var f := Exec(p, Init(n), acts); f.works[i].work.None? || f.works[j].work.None?
  {
    PromptLosesNothing(p, n, acts, i);
    PromptLosesNothing(p, n, acts, j);
    AtMostOneWorks(p, n, acts, i, j);
  }

  // ----- a dropped step-down leaves a follower working --------------------------------------

  /** `acts` is a legal run from f that ends in r. */
  ghost predicate Leads(p: Election.Params, f: Fleet, acts: seq<Action>, r: Fleet) {
    WellFormed(f) && Legal(p, f, acts) && Exec(p, f, acts) == r
  }

  lemma Prefixed(p: Election.Params, f: Fleet, a: Action, rest: seq<Action>, r: Fleet) returns (acts: seq<Action>)
    requires WellFormed(f) && Enabled(p, f, a) && Leads(p, Next(p, f, a), rest, r)
    ensures acts == [a] + rest && Leads(p, f, acts, r)
  {
    acts := [a] + rest;
    assert acts[1..] == rest;
  }

  lemma FirstStep(p: Election.Params, f: Fleet, acts: seq<Action>, r: Fleet)
    requires Leads(p, f, acts, r) && acts != []
    ensures Enabled(p, f, acts[0]) && Leads(p, Next(p, f, acts[0]), acts[1..], r)
  {
  }

  lemma {:induction false} Concat(p: Election.Params, f: Fleet, a: seq<Action>, m: Fleet, b: seq<Action>, r: Fleet)
    requires Leads(p, f, a, m) && Leads(p, m, b, r)
    ensures Leads(p, f, a + b, r)
    decreases |a|
  {
    if a == [] {
      assert a + b == b;
    } else {
      FirstStep(p, f, a, m);
      Concat(p, Next(p, f, a[0]), a[1..], m, b, r);
      var acts := Prefixed(p, f, a[0], a[1..] + b, r);
      assert acts == a + b;
    }
  }

  /** An election run in which nobody reads, with the consumers idle. */
  lemma {:induction false} Unread(p: Election.Params, f: Fleet, moves: seq<Election.Action>, s: Election.System)
    returns (acts: seq<Action>)
    requires WellFormed(f) && Election.Leads(p, f.system, moves, s) && Election.Unattended(moves)
    ensures Leads(p, f, acts, f.(system := s))
    decreases |moves|
  {
    if moves == [] {
      acts := [];
    } else {
      var f' := Next(p, f, Elect(moves[0]));
      var rest := Unread(p, f', moves[1..], s);
      acts := Prefixed(p, f, Elect(moves[0]), rest, f'.(system := s));
    }
  }

  /** A poller whose consumer has taken k values. */
  function ReadUpTo(q: Election.Poller, k: nat): Election.Poller
    requires k <= |q.mem.ch|
  {
    q.(mem := q.mem.(ch := q.mem.ch[k..]), received := q.received + q.mem.ch[..k])
  }

  /** One step of process 0, joined with the elector when it takes a value. */
  function Joined(step: LeaderWork.Action): Action {
    if step.Handle? then Deliver(0) else Work(0, step)
  }

  lemma JoinedStep(p: Election.Params, f: Fleet, step: LeaderWork.Action)
    requires WellFormed(f) && f.works != [] && LeaderWork.Enabled(f.works[0], step)
    requires LeaderWork.Taken(step) <= f.system.pollers[0].mem.ch
    ensures Enabled(p, f, Joined(step))
    ensures var f' := Next(p, f, Joined(step));
      && f'.works[0] == LeaderWork.Next(f.works[0], step)
      && f'.system.pollers[0] == ReadUpTo(f.system.pollers[0], if step.Handle? then 1 else 0)
  {
    var q := f.system.pollers[0];
    assert q.received + [] == q.received;
    if step.Handle? {
      assert q.mem.ch[..1] == [q.mem.ch[0]];
    }
  }

  /** A work run of process 0 whose values are the next ones in its channel, with everything else at rest. */
  lemma {:induction false} Attended(p: Election.Params, f: Fleet, steps: seq<LeaderWork.Action>)
    returns (acts: seq<Action>, r: Fleet)
    requires WellFormed(f) && f.works != [] && LeaderWork.Legal(f.works[0], steps)
    requires LeaderWork.Values(steps) <= f.system.pollers[0].mem.ch
    ensures Leads(p, f, acts, r) && |r.works| == |f.works|
    ensures r.works[0] == LeaderWork.Exec(f.works[0], steps)
    ensures r.system.pollers[0] == ReadUpTo(f.system.pollers[0], |LeaderWork.Values(steps)|)
    decreases |steps|
  {
    if steps == [] {
      acts, r := [], f;
      assert f.system.pollers[0].received + [] == f.system.pollers[0].received;
    } else {
      var q, taken, left := f.system.pollers[0], LeaderWork.Taken(steps[0]), LeaderWork.Values(steps[1..]);
      TakenFirst(taken, left, q.mem.ch);
      JoinedStep(p, f, steps[0]);
      var f' := Next(p, f, Joined(steps[0]));
      var rest;
      rest, r := Attended(p, f', steps[1..]);
      acts := Prefixed(p, f, Joined(steps[0]), rest, r);
      ReadMore(q, |taken|, |left|);
    }
  }

  lemma TakenFirst(taken: seq<Election.Role>, left: seq<Election.Role>, ch: seq<Election.Role>)
    requires taken + left <= ch
    ensures taken <= ch && left <= ch[|taken|..]
  {
    assert ch[..|taken|] == (taken + left)[..|taken|] == taken;
    assert ch[|taken|..][..|left|] == (taken + left)[|taken|..] == left;
  }

  lemma ReadMore(q: Election.Poller, j: nat, k: nat)
    requires j + k <= |q.mem.ch|
    ensures ReadUpTo(ReadUpTo(q, j), k) == ReadUpTo(q, j + k)
  {
    var ch := q.mem.ch;
    assert ch[..j] + ch[j..][..k] == ch[..j + k];
    assert q.received + ch[..j] + ch[j..][..k] == q.received + (ch[..j] + ch[j..][..k]);
  }

  /**
  No polling of IsLeader makes up for a dropped transition: whatever the
  parameters, some joint run leaves a running follower settled with its work
  still going.
  */
  lemma FollowerStillWorks(p: Election.Params, n: nat) returns (acts: seq<Action>)
    requires n >= 1
    ensures Legal(p, Init(n), acts)
    ensures var f := Exec(p, Init(n), acts);
      && Settled(f, 0) && Election.Running(f.system.pollers[0])
      && f.system.pollers[0].mem.role == Election.Follower && f.works[0].work.Some?
  {
    var moves, s := Election.FifthTransition(p, n);
    var first := Unread(p, Init(n), moves, s);
    var f := Init(n).(system := s);
    var steps := LeaderWork.FourValues();
    LeaderWork.HandledGrows(f.works[0], steps);
    assert LeaderWork.Values(steps) == f.system.pollers[0].mem.ch;
    var rest, r := Attended(p, f, steps);
    Concat(p, Init(n), first, f, rest, r);
    acts := first + rest;
  }

  /**
  One flap of the elector is enough for the crash: whatever the parameters,
  some joint run hands the consumer a Follower value before a goroutine of the
  lifecycle has run its first statement, and the process panics.
  */
  lemma FlapCrashes(p: Election.Params, n: nat, flusherLate: bool, otherBegun: bool) returns (acts: seq<Action>)
    requires n >= 1
    ensures Legal(p, Init(n), acts)
    ensures var w := Exec(p, Init(n), acts).works[0]; w.crashed && !w.signalled
  {
    var moves, s := Election.OneFlap(p, n);
    var first := Unread(p, Init(n), moves, s);
    var f := Init(n).(system := s);
    var steps := LeaderWork.QuickStopCrashes(flusherLate, otherBegun);
    LeaderWork.HandledGrows(f.works[0], steps);
    assert LeaderWork.Values(steps) == f.system.pollers[0].mem.ch;
    var rest, r := Attended(p, f, steps);
    Concat(p, Init(n), first, f, rest, r);
    acts := first + rest;
  }
}
