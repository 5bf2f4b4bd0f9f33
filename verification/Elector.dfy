/** leader/leader.go's Elector as the object it is: its fields are updated in place by Run. */
module ElectorObject {
  import opened Common
  import opened Election

  /**
  What the outside does to one iteration of Run's loop: how many values the
  consumer has read by then, whether the context is cancelled at the top of
  the loop or during the sleep, and how the lease call ends.
  */
  datatype Round = Round(taken: nat, cancelledAtTop: bool, cancelledAsleep: bool, reply: Reply)

  function Read(m: Memory, taken: nat): Memory {
    m.(ch := m.ch[if taken <= |m.ch| then taken else |m.ch|..])
  }

  /**
  Whether the iteration ends Run; a leader is cancelled before it renews, a
  follower only after it failed to acquire.
  */
  predicate Ends(m: Memory, r: Round) {
    r.cancelledAtTop || (r.cancelledAsleep && (m.role == Leader || r.reply.Refused?))
  }

  function OneRound(m: Memory, r: Round): Memory {
    var m := Read(m, r.taken);
    if r.cancelledAtTop then m
    else if m.role == Leader then if r.cancelledAsleep then m else AfterRenew(m, r.reply)
    else AfterAcquire(m, r.reply)
  }

  /** The memory Run leaves behind when the rounds, or the context, come to their end. */
  function RunRounds(m: Memory, rounds: seq<Round>): Memory
    decreases |rounds|
  {
    if rounds == [] then m
    else if Ends(m, rounds[0]) then OneRound(m, rounds[0])
    else RunRounds(OneRound(m, rounds[0]), rounds[1..])
  }

  /** Run releases once, when it is cancelled while it leads. */
  predicate ReleasesAtEnd(m: Memory, rounds: seq<Round>)
    decreases |rounds|
  {
    rounds != [] &&
    if Ends(m, rounds[0]) then OneRound(m, rounds[0]).role == Leader
    else ReleasesAtEnd(OneRound(m, rounds[0]), rounds[1..])
  }

  class Elector {
    const renewInterval: int
    const acquireInterval: int
    var state: Role
    var term: nat
    var stateCh: seq<Role>

    ghost function Mem(): Memory
      reads this
    {
      Memory(state, term, stateCh)
    }

    /** A zero interval means the default: renew every 10s, retry acquire every 5s. */
    constructor (renew: int, acquire: int)
      ensures renewInterval == (if renew == 0 then 10 else renew)
      ensures acquireInterval == (if acquire == 0 then 5 else acquire)
      ensures Mem() == InitPoller().mem
    {
      renewInterval := if renew == 0 then 10 else renew;
      acquireInterval := if acquire == 0 then 5 else acquire;
      state, term, stateCh := Follower, 0, [];
    }

    /** Swaps the state and publishes it without ever waiting for a slot. */
    method SetState(s: Role)
      modifies this
      ensures Mem() == Election.SetState(old(Mem()), s)
    {
      var prev := state;
      state := s;
      if prev == s {
        return;
      }
      if |stateCh| < CHANNEL_SLOTS {
        stateCh := stateCh + [s];
      }
    }

    /** Run publishes StateFollower, then loops; on cancellation a leader asks for one release and keeps its state. */
    method Run(rounds: seq<Round>) returns (releases: nat)
      requires stateCh == []
      modifies this
      ensures Mem() == RunRounds(old(Mem()).(ch := [Follower]), rounds)
      ensures releases == if ReleasesAtEnd(old(Mem()).(ch := [Follower]), rounds) then 1 else 0
    {
      stateCh := stateCh + [Follower];
      releases := 0;
      var k := 0;
      while k < |rounds|
        invariant k <= |rounds| && releases == 0
        invariant ReleasesAtEnd(Mem(), rounds[k..]) == ReleasesAtEnd(old(Mem()).(ch := [Follower]), rounds)
        invariant RunRounds(Mem(), rounds[k..]) == RunRounds(old(Mem()).(ch := [Follower]), rounds)
      {
        var r := rounds[k];
        assert rounds[k..][0] == r && rounds[k..][1..] == rounds[k + 1..];
        k := k + 1;
        stateCh := stateCh[if r.taken <= |stateCh| then r.taken else |stateCh|..];
        if r.cancelledAtTop {
          releases := Shutdown();
          return;
        }
        if state == Leader {
          if r.cancelledAsleep {
            releases := Shutdown();
            return;
          }
          match r.reply {
            case Refused => SetState(Follower);
            case Granted(t) => term := t;
          }
          continue;
        }
        match r.reply {
          case Granted(t) =>
            term := t;
            SetState(Leader);
            continue;
          case Refused =>
        }
        if r.cancelledAsleep {
          releases := Shutdown();
          return;
        }
      }
    }

    /** How many release calls shutdown makes: those of a loop that is cancelled at its top. It changes nothing here. */
    method Shutdown() returns (releases: nat)
      ensures releases <= 1
      ensures releases == 1 <==> ReleasesAtEnd(Mem(), [Round(0, true, false, Refused)])
    {
      if state != Leader {
        return 0;
      }
      return 1;
    }
  }

  predicate IsSuffix(a: seq<Role>, b: seq<Role>) {
    |a| <= |b| && a == b[|b| - |a|..]
  }

  lemma SuffixOfSuffix(a: seq<Role>, b: seq<Role>, c: seq<Role>)
    requires IsSuffix(a, b) && IsSuffix(b, c)
    ensures IsSuffix(a, c)
  {
  }

  lemma RenewedRound(m: Memory, r: Round)
    requires m.role == Leader && r.reply.Granted?
    ensures OneRound(m, r).role == Leader && IsSuffix(OneRound(m, r).ch, m.ch)
  {
  }

  /** A run in which every renewal succeeds never leaves StateLeader and publishes nothing further. */
  lemma {:induction false} RenewingKeepsLeading(m: Memory, rounds: seq<Round>)
    requires m.role == Leader && forall k :: 0 <= k < |rounds| ==> rounds[k].reply.Granted?
    ensures RunRounds(m, rounds).role == Leader && IsSuffix(RunRounds(m, rounds).ch, m.ch)
    decreases |rounds|
  {
    if rounds == [] {
    } else {
      var next := OneRound(m, rounds[0]);
      RenewedRound(m, rounds[0]);
      if !Ends(m, rounds[0]) {
        RenewingKeepsLeading(next, rounds[1..]);
        SuffixOfSuffix(RunRounds(m, rounds).ch, next.ch, m.ch);
      }
    }
  }

  // ----- every poller of an election goes through such rounds ------------------------

  /** The rounds a poller has completed, and the values read since the last one ended. */
  datatype History = History(rounds: seq<Round>, taken: nat)

  /** The memory of New, once Run has published StateFollower. */
  const STARTED: Memory := Memory(Follower, 0, [Follower])

  /** The round this action of poller q ends. A follower's round lasts through the sleep after a refused acquire. */
  function Completed(q: Poller, a: Action, taken: nat): Option<Round> {
    match a
    case Stop(_) => Some(Round(taken, q.phase.Top?, !q.phase.Top?, Refused))
    case Wake(_) => if q.mem.role == Follower then Some(Round(taken, false, false, Refused)) else None
    case Return(_, replyLost) => if q.phase.Calling? then ReturnedFrom(q.phase, replyLost, taken) else None
    case _ => None
  }

  function ReturnedFrom(call: Phase, replyLost: bool, taken: nat): Option<Round>
    requires call.Calling?
  {
    var r := if replyLost || call.answer.None? then Refused else call.answer.value;
    if call.request == Renew || (call.request == Acquire && r.Granted?)
    then Some(Round(taken, false, false, r))
    else None
  }

  function Record(q: Poller, a: Action, h: History): History {
    if a.Receive? then h.(taken := h.taken + 1)
    else match Completed(q, a, h.taken)
      case Some(r) => History(h.rounds + [r], 0)
      case None => h
  }

  /** What poller i has gone through after these actions, h before them. */
  function HistoryOf(p: Params, s: System, acts: seq<Action>, i: nat, h: History): History
    requires WellFormed(s) && Legal(p, s, acts) && i < |s.pollers|
    decreases |acts|
  {
    if acts == [] then h
    else
      var a := acts[0];
      HistoryOf(p, Next(p, s, a), acts[1..], i, if a.Tick? || a.i != i then h else Record(s.pollers[i], a, h))
  }

  /** None of these rounds ends the loop. */
  predicate Unended(m: Memory, rounds: seq<Round>)
    decreases |rounds|
  {
    rounds == [] || (!Ends(m, rounds[0]) && Unended(OneRound(m, rounds[0]), rounds[1..]))
  }

  /** One more round after rounds that did not end the loop. */
  lemma {:induction false} OneMoreRound(m: Memory, rounds: seq<Round>, r: Round)
    requires Unended(m, rounds)
    ensures var now := RunRounds(m, rounds);
      && RunRounds(m, rounds + [r]) == OneRound(now, r)
      && (Unended(m, rounds + [r]) <==> !Ends(now, r))
      && (ReleasesAtEnd(m, rounds + [r]) <==> Ends(now, r) && OneRound(now, r).role == Leader)
      && !ReleasesAtEnd(m, rounds)
    decreases |rounds|
  {
    if rounds == [] {
      assert [] + [r] == [r] && [r][1..] == [];
    } else {
      OneMoreRound(OneRound(m, rounds[0]), rounds[1..], r);
      assert (rounds + [r])[1..] == rounds[1..] + [r] && (rounds + [r])[0] == rounds[0];
    }
  }

  /** A lease call fits the role it is made in. */
  predicate CallFits(q: Poller) {
    q.phase.Calling? ==> (q.mem.role == Follower <==> q.phase.request == Acquire)
  }

  /** h is what q has gone through. */
  predicate GoneThrough(q: Poller, h: History) {
    if q.phase.Down? then q.mem == InitPoller().mem && h == History([], 0)
    else
      && CallFits(q)
      && q.mem == Read(RunRounds(STARTED, h.rounds), h.taken)
      && (if Running(q) then Unended(STARTED, h.rounds)
          else ReleasesAtEnd(STARTED, h.rounds) <==> q.mem.role == Leader)
  }

  lemma RoundGoesOn(p: Params, s: System, a: Action, h: History)
    requires WellFormed(s) && !a.Tick? && Enabled(p, s, a) && GoneThrough(s.pollers[a.i], h)
    requires Record(s.pollers[a.i], a, h).rounds == h.rounds
    ensures GoneThrough(Next(p, s, a).pollers[a.i], Record(s.pollers[a.i], a, h))
  {
  }

  lemma RoundEnds(p: Params, s: System, a: Action, h: History, r: Round)
    requires WellFormed(s) && !a.Tick? && Enabled(p, s, a) && GoneThrough(s.pollers[a.i], h)
    requires !a.Receive? && Completed(s.pollers[a.i], a, h.taken) == Some(r)
    ensures GoneThrough(Next(p, s, a).pollers[a.i], History(h.rounds + [r], 0))
  {
    OneMoreRound(STARTED, h.rounds, r);
  }

  lemma StepGoesThrough(p: Params, s: System, a: Action, h: History)
    requires WellFormed(s) && !a.Tick? && Enabled(p, s, a) && GoneThrough(s.pollers[a.i], h)
    ensures GoneThrough(Next(p, s, a).pollers[a.i], Record(s.pollers[a.i], a, h))
  {
    var r := Completed(s.pollers[a.i], a, h.taken);
    if a.Receive? || r.None? {
      RoundGoesOn(p, s, a, h);
    } else {
      RoundEnds(p, s, a, h, r.value);
    }
  }

  lemma {:induction false} RunGoesThrough(p: Params, s: System, acts: seq<Action>, i: nat, h: History)
    requires WellFormed(s) && Legal(p, s, acts) && i < |s.pollers| && GoneThrough(s.pollers[i], h)
    ensures GoneThrough(Exec(p, s, acts).pollers[i], HistoryOf(p, s, acts, i, h))
    decreases |acts|
  {
    if acts == [] {
    } else {
      var a, h' := acts[0], h;
      if !a.Tick? && a.i == i {
        StepGoesThrough(p, s, a, h);
        h' := Record(s.pollers[i], a, h);
      }
      RunGoesThrough(p, Next(p, s, a), acts[1..], i, h');
    }
  }

  /**
  In every legal run of the election, the memory of a started poller is what
  Run leaves after the rounds it went through, less what was read since; and a
  poller that has left the loop asks for a release exactly when those rounds
  make Run ask for one.
  */
  lemma PollersRunTheLoop(p: Params, n: nat, acts: seq<Action>, i: nat)
    requires Legal(p, Init(n), acts) && i < n && !Exec(p, Init(n), acts).pollers[i].phase.Down?
    ensures var q, h := Exec(p, Init(n), acts).pollers[i], HistoryOf(p, Init(n), acts, i, History([], 0));
      && q.mem == Read(RunRounds(STARTED, h.rounds), h.taken)
      && (Running(q) ==> !ReleasesAtEnd(STARTED, h.rounds))
      && (q.phase.Calling? && q.phase.request == Release ==> ReleasesAtEnd(STARTED, h.rounds))
      && (q.phase.Stopped? ==> (ReleasesAtEnd(STARTED, h.rounds) <==> q.mem.role == Leader))
  {
    RunGoesThrough(p, Init(n), acts, i, History([], 0));
    var h := HistoryOf(p, Init(n), acts, i, History([], 0));
    if Running(Exec(p, Init(n), acts).pollers[i]) {
      OneMoreRound(STARTED, h.rounds, Round(0, false, false, Refused));
    }
  }
}
