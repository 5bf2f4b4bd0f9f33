/**
The work lifecycle and the result buffer of cmd/main.go as a step system. Every
action is one stretch of code that a mutex or a single goroutine makes atomic;
any interleaving of them is a run. Results are named by the order in which the
workers appended them.
*/
module LeaderWork {
  import opened Common
  import Election

  /** The flusher goroutine of one lifecycle; it is Starting until it has run its first statement. */
  datatype Flusher = Starting | Ticking | Flushing(batch: seq<nat>) | Exited

  /** The dispatcher goroutine of one lifecycle; Run may return at any time. */
  datatype Dispatcher = Fresh | Running | Gone

  /**
  A lifecycle: its context, its wait group's counter, and its two goroutines,
  each with the lifecycle whose wait group its deferred call will count down.
  */
  datatype Life =
    Life(cancelled: bool, pending: int, flusher: Flusher, flusherOn: nat, dispatcher: Dispatcher, dispatcherOn: nat)

  function NewLife(): Life {
    Life(false, 2, Starting, 0, Fresh, 0)
  }

  /** A goroutine inside stopLeaderWork: it has taken the work pointer and waits, drains, submits, drops. */
  datatype Stopper = Idle | Waiting(id: nat) | Draining | Submitting(batch: seq<nat>) | Dropping

  /** stopLeaderWork runs in the transition consumer and, after the signal, in main. */
  datatype Who = Consumer | Main

  /** Where the results are that no flush has in flight. */
  datatype Store = Store(made: nat, buffer: seq<nat>, acked: seq<nat>, dropped: seq<nat>)

  datatype Process = Process(
    modeOk: bool, signalled: bool, ctxDone: bool, crashed: bool,
    work: Option<nat>, lives: seq<Life>, consumer: Stopper, main: Stopper,
    handled: seq<Election.Role>, store: Store)

  datatype Action =
    | Produce
    | Handle(role: Election.Role)
    | FlushBegin(id: nat)
    | FlushTake(id: nat)
    | FlushDone(id: nat, ok: bool)
    | FlushExit(id: nat)
    | DispatchBegin(id: nat)
    | DispatchExit(id: nat)
    | Waited(who: Who)
    | LastTake(who: Who)
    | LastDone(who: Who, ok: bool)
    | Drop(who: Who)
    | Signal
    | CancelRoot

  function Init(modeOk: bool): Process {
    Process(modeOk, false, false, false, None, [], Idle, Idle, [], Store(0, [], [], []))
  }

  function At(s: Process, w: Who): Stopper {
    if w == Consumer then s.consumer else s.main
  }

  function Put(s: Process, w: Who, t: Stopper): (r: Process)
    requires WellFormed(s) && (t.Waiting? ==> t.id < |s.lives|)
    ensures WellFormed(r)
  {
    if w == Consumer then s.(consumer := t) else s.(main := t)
  }

  predicate WellFormed(s: Process) {
    && (s.work.Some? ==> s.work.value < |s.lives|)
    && (s.consumer.Waiting? ==> s.consumer.id < |s.lives|)
    && (s.main.Waiting? ==> s.main.id < |s.lives|)
  }

  predicate Enabled(s: Process, a: Action)
    requires WellFormed(s)
  {
    !s.crashed &&
    match a
    case Produce => true
    case Handle(_) => s.consumer.Idle?
    case FlushBegin(id) => id < |s.lives| && s.lives[id].flusher.Starting?
    case FlushTake(id) => id < |s.lives| && s.lives[id].flusher.Ticking?
    case FlushDone(id, _) => id < |s.lives| && s.lives[id].flusher.Flushing?
    case FlushExit(id) => id < |s.lives| && s.lives[id].flusher.Ticking? && (s.lives[id].cancelled || s.ctxDone)
    case DispatchBegin(id) => id < |s.lives| && s.lives[id].dispatcher.Fresh?
    case DispatchExit(id) => id < |s.lives| && s.lives[id].dispatcher.Running?
    case Waited(w) => At(s, w).Waiting? && s.lives[At(s, w).id].pending == 0
    case LastTake(w) => At(s, w).Draining?
    case LastDone(w, _) => At(s, w).Submitting?
    case Drop(w) => At(s, w).Dropping?
    case Signal => !s.signalled
    case CancelRoot => s.signalled && s.main.Idle? && !s.ctxDone
  }

  function WithFlusher(s: Process, id: nat, f: Flusher): (r: Process)
    requires WellFormed(s) && id < |s.lives|
    ensures WellFormed(r)
  {
    s.(lives := s.lives[id := s.lives[id].(flusher := f)])
  }

  /** A worker appends its result under resultMu. */
  function Append(q: Store): Store {
    q.(buffer := q.buffer + [q.made], made := q.made + 1)
  }

  /** flushResults copies the buffer out and truncates it. */
  function Truncate(q: Store): Store {
    q.(buffer := [])
  }

  /** flushResults after Submit: done, or the batch goes back in front of the newer results. */
  function Finish(q: Store, batch: seq<nat>, ok: bool): Store {
    if ok then q.(acked := q.acked + batch) else q.(buffer := batch + q.buffer)
  }

  function Discard(q: Store): Store {
    q.(dropped := q.dropped + q.buffer, buffer := [])
  }

  /** startLeaderWork: nothing when work is already running, nothing when the transport cannot be built. */
  function StartWork(s: Process): (r: Process)
    requires WellFormed(s)
    ensures WellFormed(r)
  {
    if s.work.Some? || !s.modeOk then s
    else s.(lives := s.lives + [NewLife()], work := Some(|s.lives|))
  }

  /** The head of stopLeaderWork: take the pointer, cancel the lifecycle, go and wait for it. */
  function BeginStop(s: Process, w: Who): (r: Process)
    requires WellFormed(s)
    ensures WellFormed(r)
  {
    if s.work.None? then s
    else
      var id := s.work.value;
      Put(s.(work := None, lives := s.lives[id := s.lives[id].(cancelled := true)]), w, Waiting(id))
  }

  function HandleValue(s: Process, role: Election.Role): (r: Process)
    requires WellFormed(s)
    ensures WellFormed(r)
  {
    var s' := s.(handled := s.handled + [role]);
    if role == Election.Leader then StartWork(s') else BeginStop(s', Consumer)
  }

  function WithLife(s: Process, id: nat, l: Life): (r: Process)
    requires WellFormed(s) && id < |s.lives|
    ensures WellFormed(r)
  {
    s.(lives := s.lives[id := l])
  }

  /** wg.Done; a counter that goes below zero panics. */
  function Done(s: Process, on: nat): (r: Process)
    requires WellFormed(s)
    ensures WellFormed(r)
  {
    if on >= |s.lives| then s
    else
      var l := s.lives[on];
      WithLife(s, on, l.(pending := l.pending - 1)).(crashed := s.crashed || l.pending < 1)
  }

  /**
  A goroutine's first statement, `defer work.wg.Done()`, goes through the shared
  work pointer: it panics once that is nil, and counts down whatever lifecycle
  the pointer leads to by then.
  */
  function FlushBegun(s: Process, id: nat): (r: Process)
    requires WellFormed(s) && id < |s.lives|
    ensures WellFormed(r)
  {
    if s.work.None? then s.(crashed := true)
    else WithLife(s, id, s.lives[id].(flusher := Ticking, flusherOn := s.work.value))
  }

  function DispatchBegun(s: Process, id: nat): (r: Process)
    requires WellFormed(s) && id < |s.lives|
    ensures WellFormed(r)
  {
    if s.work.None? then s.(crashed := true)
    else WithLife(s, id, s.lives[id].(dispatcher := Running, dispatcherOn := s.work.value))
  }

  function FlushEnded(s: Process, id: nat): (r: Process)
    requires WellFormed(s) && id < |s.lives|
    ensures WellFormed(r)
  {
    Done(WithFlusher(s, id, Exited), s.lives[id].flusherOn)
  }

  function DispatchEnded(s: Process, id: nat): (r: Process)
    requires WellFormed(s) && id < |s.lives|
    ensures WellFormed(r)
  {
    Done(WithLife(s, id, s.lives[id].(dispatcher := Gone)), s.lives[id].dispatcherOn)
  }

  function FlushStart(s: Process, id: nat): (r: Process)
    requires WellFormed(s) && id < |s.lives|
    ensures WellFormed(r)
  {
    if s.store.buffer == [] then s else WithFlusher(s, id, Flushing(s.store.buffer)).(store := Truncate(s.store))
  }

  function FlushEnd(s: Process, id: nat, ok: bool): (r: Process)
    requires WellFormed(s) && id < |s.lives| && s.lives[id].flusher.Flushing?
    ensures WellFormed(r)
  {
    WithFlusher(s, id, Ticking).(store := Finish(s.store, s.lives[id].flusher.batch, ok))
  }

  function LastStart(s: Process, w: Who): (r: Process)
    requires WellFormed(s)
    ensures WellFormed(r)
  {
    if s.store.buffer == [] then Put(s, w, Dropping)
    else Put(s, w, Submitting(s.store.buffer)).(store := Truncate(s.store))
  }

  function LastEnd(s: Process, w: Who, ok: bool): (r: Process)
    requires WellFormed(s) && At(s, w).Submitting?
    ensures WellFormed(r)
  {
    Put(s, w, Dropping).(store := Finish(s.store, At(s, w).batch, ok))
  }

  function Next(s: Process, a: Action): (r: Process)
    requires WellFormed(s) && Enabled(s, a)
    ensures WellFormed(r)
  {
    match a
    case Produce => s.(store := Append(s.store))
    case Handle(role) => HandleValue(s, role)
    case FlushBegin(id) => FlushBegun(s, id)
    case FlushTake(id) => FlushStart(s, id)
    case FlushDone(id, ok) => FlushEnd(s, id, ok)
    case FlushExit(id) => FlushEnded(s, id)
    case DispatchBegin(id) => DispatchBegun(s, id)
    case DispatchExit(id) => DispatchEnded(s, id)
    case Waited(w) => Put(s, w, Draining)
    case LastTake(w) => LastStart(s, w)
    case LastDone(w, ok) => LastEnd(s, w, ok)
    case Drop(w) => Put(s, w, Idle).(store := Discard(s.store))
    case Signal => BeginStop(s.(signalled := true), Main)
    case CancelRoot => s.(ctxDone := true)
  }

  predicate Legal(s: Process, acts: seq<Action>)
    requires WellFormed(s)
    decreases |acts|
  {
    acts == [] || (Enabled(s, acts[0]) && Legal(Next(s, acts[0]), acts[1..]))
  }

  function Exec(s: Process, acts: seq<Action>): (r: Process)
    requires WellFormed(s) && Legal(s, acts)
    ensures WellFormed(r)
    decreases |acts|
  {
    if acts == [] then s else Exec(Next(s, acts[0]), acts[1..])
  }

  // ----- no result is lost or doubled --------------------------------------------

  /** How often result k occurs in q. */
  function Times(q: seq<nat>, k: nat): nat {
    multiset(q)[k]
  }

  function InFlight(f: Flusher, k: nat): nat {
    if f.Flushing? then Times(f.batch, k) else 0
  }

  function LastFlight(t: Stopper, k: nat): nat {
    if t.Submitting? then Times(t.batch, k) else 0
  }

  function Flights(lives: seq<Life>, k: nat): nat {
    if lives == [] then 0 else InFlight(lives[0].flusher, k) + Flights(lives[1..], k)
  }

  function Stored(q: Store, k: nat): nat {
    Times(q.acked, k) + Times(q.buffer, k) + Times(q.dropped, k)
  }

  /** How many places result k is in: acknowledged, in flight, buffered or dropped. */
  function Places(s: Process, k: nat): nat {
    Stored(s.store, k) + Flights(s.lives, k) + LastFlight(s.consumer, k) + LastFlight(s.main, k)
  }

  function Expected(s: Process, k: nat): nat {
    if k < s.store.made then 1 else 0
  }

  lemma {:induction false} FlightsUpdate(lives: seq<Life>, id: nat, l: Life, k: nat)
    requires id < |lives|
    ensures Flights(lives[id := l], k) + InFlight(lives[id].flusher, k) == Flights(lives, k) + InFlight(l.flusher, k)
  {
    if id == 0 {
      assert lives[0 := l][1..] == lives[1..];
    } else {
      FlightsUpdate(lives[1..], id - 1, l, k);
      assert lives[id := l][1..] == lives[1..][id - 1 := l];
    }
  }

  lemma {:induction false} FlightsAppend(lives: seq<Life>, l: Life, k: nat)
    ensures Flights(lives + [l], k) == Flights(lives, k) + InFlight(l.flusher, k)
  {
    if lives == [] {
      assert ([l])[1..] == [] && [] + [l] == [l];
    } else {
      FlightsAppend(lives[1..], l, k);
      assert (lives + [l])[1..] == lives[1..] + [l];
    }
  }

  lemma BeginStopMovesNothing(s: Process, w: Who, k: nat)
    requires WellFormed(s) && !At(s, w).Submitting?
    ensures Places(BeginStop(s, w), k) == Places(s, k)
  {
    if s.work.Some? {
      FlightsUpdate(s.lives, s.work.value, s.lives[s.work.value].(cancelled := true), k);
    }
  }

  lemma SetFlusherPlaces(s: Process, id: nat, f: Flusher, q: Store, k: nat)
    requires WellFormed(s) && id < |s.lives|
    ensures Places(WithFlusher(s, id, f).(store := q), k) + InFlight(s.lives[id].flusher, k) + Stored(s.store, k)
      == Places(s, k) + InFlight(f, k) + Stored(q, k)
  {
    FlightsUpdate(s.lives, id, s.lives[id].(flusher := f), k);
  }

  lemma AppendedOnce(q: Store, k: nat)
    ensures Stored(Append(q), k) == Stored(q, k) + if k == q.made then 1 else 0
  {
    assert multiset(q.buffer + [q.made])[k] == multiset(q.buffer)[k] + multiset([q.made])[k];
  }

  lemma FinishedOnce(q: Store, batch: seq<nat>, ok: bool, k: nat)
    ensures Stored(Finish(q, batch, ok), k) == Stored(q, k) + Times(batch, k)
    ensures Stored(Truncate(q), k) + Times(q.buffer, k) == Stored(q, k)
    ensures Stored(Discard(q), k) == Stored(q, k)
  {
  }

  lemma SetStopperPlaces(s: Process, w: Who, t: Stopper, q: Store, k: nat)
    requires WellFormed(s) && (t.Waiting? ==> t.id < |s.lives|)
    ensures Places(Put(s, w, t).(store := q), k) + LastFlight(At(s, w), k) + Stored(s.store, k)
      == Places(s, k) + LastFlight(t, k) + Stored(q, k)
  {
  }

  lemma LastFlushConserves(s: Process, a: Action, k: nat)
    requires WellFormed(s) && Enabled(s, a) && (a.LastTake? || a.LastDone?)
    ensures Places(Next(s, a), k) == Places(s, k) && Next(s, a).store.made == s.store.made
  {
    var q, t := s.store, At(s, a.who);
    FinishedOnce(q, if a.LastDone? then t.batch else [], a.LastTake? || a.ok, k);
    if a.LastDone? {
      SetStopperPlaces(s, a.who, Dropping, Finish(q, t.batch, a.ok), k);
    } else if q.buffer == [] {
      SetStopperPlaces(s, a.who, Dropping, q, k);
    } else {
      SetStopperPlaces(s, a.who, Submitting(q.buffer), Truncate(q), k);
    }
  }

  lemma StopperConserves(s: Process, a: Action, k: nat)
    requires WellFormed(s) && Enabled(s, a) && (a.Waited? || a.Drop?)
    ensures Places(Next(s, a), k) == Places(s, k) && Next(s, a).store.made == s.store.made
  {
    FinishedOnce(s.store, [], true, k);
    if a.Waited? {
      SetStopperPlaces(s, a.who, Draining, s.store, k);
    } else {
      SetStopperPlaces(s, a.who, Idle, Discard(s.store), k);
    }
  }

  predicate OfFlusher(a: Action) {
    a.FlushTake? || a.FlushDone?
  }

  /** A goroutine begins or ends. */
  predicate OfGoroutine(a: Action) {
    a.FlushBegin? || a.FlushExit? || a.DispatchBegin? || a.DispatchExit?
  }

  lemma FlusherConserves(s: Process, a: Action, k: nat)
    requires WellFormed(s) && Enabled(s, a) && OfFlusher(a)
    ensures Places(Next(s, a), k) == Places(s, k) && Next(s, a).store.made == s.store.made
  {
    var q, f := s.store, s.lives[a.id].flusher;
    if a.FlushTake? {
      SetFlusherPlaces(s, a.id, Flushing(q.buffer), Truncate(q), k);
      FinishedOnce(q, [], true, k);
    } else {
      SetFlusherPlaces(s, a.id, Ticking, Finish(q, f.batch, a.ok), k);
      FinishedOnce(q, f.batch, a.ok, k);
    }
  }

  lemma SameFlightPlaces(s: Process, id: nat, l: Life, k: nat)
    requires WellFormed(s) && id < |s.lives| && InFlight(l.flusher, k) == InFlight(s.lives[id].flusher, k)
    ensures Places(WithLife(s, id, l), k) == Places(s, k)
  {
    FlightsUpdate(s.lives, id, l, k);
  }

  lemma DoneMovesNothing(s: Process, on: nat, k: nat)
    requires WellFormed(s)
    ensures Places(Done(s, on), k) == Places(s, k) && Done(s, on).store == s.store
  {
    if on < |s.lives| {
      SameFlightPlaces(s, on, s.lives[on].(pending := s.lives[on].pending - 1), k);
    }
  }

  lemma GoroutineConserves(s: Process, a: Action, k: nat)
    requires WellFormed(s) && Enabled(s, a) && OfGoroutine(a)
    ensures Places(Next(s, a), k) == Places(s, k) && Next(s, a).store == s.store
  {
    var l := s.lives[a.id];
    match a
    case FlushBegin(id) =>
      if s.work.Some? {
        SameFlightPlaces(s, id, l.(flusher := Ticking, flusherOn := s.work.value), k);
      }
    case DispatchBegin(id) =>
      if s.work.Some? {
        SameFlightPlaces(s, id, l.(dispatcher := Running, dispatcherOn := s.work.value), k);
      }
    case FlushExit(id) =>
      SameFlightPlaces(s, id, l.(flusher := Exited), k);
      DoneMovesNothing(WithFlusher(s, id, Exited), l.flusherOn, k);
    case DispatchExit(id) =>
      SameFlightPlaces(s, id, l.(dispatcher := Gone), k);
      DoneMovesNothing(WithLife(s, id, l.(dispatcher := Gone)), l.dispatcherOn, k);
  }

  lemma StartWorkMovesNothing(s: Process, k: nat)
    requires WellFormed(s)
    ensures Places(StartWork(s), k) == Places(s, k) && StartWork(s).store == s.store
  {
    FlightsAppend(s.lives, NewLife(), k);
  }

  lemma HandleConserves(s: Process, role: Election.Role, k: nat)
    requires WellFormed(s) && Enabled(s, Handle(role))
    ensures Places(Next(s, Handle(role)), k) == Places(s, k) && Next(s, Handle(role)).store.made == s.store.made
  {
    StartWorkMovesNothing(s.(handled := s.handled + [role]), k);
    BeginStopMovesNothing(s.(handled := s.handled + [role]), Consumer, k);
  }

  lemma SignalConserves(s: Process, k: nat)
    requires WellFormed(s) && Enabled(s, Signal) && s.main.Idle?
    ensures Places(Next(s, Signal), k) == Places(s, k) && Next(s, Signal).store.made == s.store.made
  {
    BeginStopMovesNothing(s.(signalled := true), Main, k);
  }

  lemma ProduceConserves(s: Process, k: nat)
    requires WellFormed(s) && Enabled(s, Produce) && Places(s, k) == Expected(s, k)
    ensures Places(Next(s, Produce), k) == Expected(Next(s, Produce), k)
  {
    AppendedOnce(s.store, k);
  }

  lemma StepConserves(s: Process, a: Action, k: nat)
    requires WellFormed(s) && Enabled(s, a) && (!s.signalled ==> s.main.Idle?)
    requires Places(s, k) == Expected(s, k)
    ensures Places(Next(s, a), k) == Expected(Next(s, a), k)
  {
    if a.Produce? {
      ProduceConserves(s, k);
    } else if a.Handle? {
      HandleConserves(s, a.role, k);
    } else if a.Signal? {
      SignalConserves(s, k);
    } else if OfFlusher(a) {
      FlusherConserves(s, a, k);
    } else if OfGoroutine(a) {
      GoroutineConserves(s, a, k);
    } else if a.LastTake? || a.LastDone? {
      LastFlushConserves(s, a, k);
    } else if a.Waited? || a.Drop? {
      StopperConserves(s, a, k);
    }
  }

  lemma {:induction false} RunConserves(s: Process, acts: seq<Action>, k: nat)
    requires WellFormed(s) && Legal(s, acts) && (!s.signalled ==> s.main.Idle?)
    requires Places(s, k) == Expected(s, k)
    ensures Places(Exec(s, acts), k) == Expected(Exec(s, acts), k)
    decreases |acts|
  {
    if acts == [] {
    } else {
      StepConserves(s, acts[0], k);
      SignalFirst(s, acts[0]);
      RunConserves(Next(s, acts[0]), acts[1..], k);
    }
  }

  /** main stops work only after the signal. */
  lemma SignalFirst(s: Process, a: Action)
    requires WellFormed(s) && Enabled(s, a) && (!s.signalled ==> s.main.Idle?)
    ensures !Next(s, a).signalled ==> Next(s, a).main.Idle?
  {
  }

  /** In every reachable state, before or after the shutdown signal, each result made is in exactly one place. */
  lemma ExactlyOnePlace(modeOk: bool, acts: seq<Action>, k: nat)
    requires Legal(Init(modeOk), acts)
    ensures var s := Exec(Init(modeOk), acts); Places(s, k) == if k < s.store.made then 1 else 0
  {
    RunConserves(Init(modeOk), acts, k);
  }

  // ----- what a submit carries, and what its outcome does ---------------------------

  /** A submit returns. */
  predicate OfOutcome(a: Action) {
    a.FlushDone? || a.LastDone?
  }

  /** The batch of the submit that returns with this action. */
  function Carried(s: Process, a: Action): seq<nat>
    requires WellFormed(s) && Enabled(s, a) && OfOutcome(a)
  {
    if a.FlushDone? then s.lives[a.id].flusher.batch else At(s, a.who).batch
  }

  /** The batches of the submits of a run that succeeded, one after the other. */
  function Succeeded(s: Process, acts: seq<Action>): seq<nat>
    requires WellFormed(s) && Legal(s, acts)
    decreases |acts|
  {
    if acts == [] then []
    else
      (if OfOutcome(acts[0]) && acts[0].ok then Carried(s, acts[0]) else []) + Succeeded(Next(s, acts[0]), acts[1..])
  }

  /** Only a submit that succeeds acknowledges, and it acknowledges its batch; one that fails puts it back in front. */
  lemma OutcomeDecides(s: Process, a: Action)
    requires WellFormed(s) && Enabled(s, a)
    ensures var q, q' := s.store, Next(s, a).store;
      && (OfOutcome(a) && a.ok ==> q'.acked == q.acked + Carried(s, a) && q'.buffer == q.buffer)
      && (OfOutcome(a) && !a.ok ==> q'.acked == q.acked && q'.buffer == Carried(s, a) + q.buffer)
      && (!OfOutcome(a) ==> q'.acked == q.acked)
  {
    if OfGoroutine(a) {
      GoroutineConserves(s, a, 0);
    }
  }

  lemma AppendGroups(a: seq<nat>, b: seq<nat>, c: seq<nat>)
    ensures a + b + c == a + (b + c)
  {
  }

  lemma {:induction false} RunAcknowledges(s: Process, acts: seq<Action>)
    requires WellFormed(s) && Legal(s, acts)
    ensures Exec(s, acts).store.acked == s.store.acked + Succeeded(s, acts)
    decreases |acts|
  {
    if acts == [] {
    } else {
      OutcomeDecides(s, acts[0]);
      RunAcknowledges(Next(s, acts[0]), acts[1..]);
      AppendGroups(s.store.acked,
        if OfOutcome(acts[0]) && acts[0].ok then Carried(s, acts[0]) else [], Succeeded(Next(s, acts[0]), acts[1..]));
    }
  }

  /** Some submit of the run that succeeded carried result k. */
  ghost predicate SomeSubmitCarried(s: Process, acts: seq<Action>, k: nat)
    requires WellFormed(s) && Legal(s, acts)
    decreases |acts|
  {
    acts != [] &&
    (|| (OfOutcome(acts[0]) && acts[0].ok && k in Carried(s, acts[0]))
     || SomeSubmitCarried(Next(s, acts[0]), acts[1..], k))
  }

  lemma {:induction false} SucceededHas(s: Process, acts: seq<Action>, k: nat)
    requires WellFormed(s) && Legal(s, acts)
    ensures k in Succeeded(s, acts) <==> SomeSubmitCarried(s, acts, k)
    decreases |acts|
  {
    if acts == [] {
    } else {
      SucceededHas(Next(s, acts[0]), acts[1..], k);
    }
  }

  /**
  In every run, what is acknowledged is exactly what the successful submits
  carried, in the order in which they returned; so a result is acknowledged if
  and only if some submit that succeeded carried it.
  */
  lemma AcknowledgedIsSucceeded(modeOk: bool, acts: seq<Action>)
    requires Legal(Init(modeOk), acts)
    ensures var acked := Exec(Init(modeOk), acts).store.acked;
      && acked == Succeeded(Init(modeOk), acts)
      && forall k :: k in acked <==> SomeSubmitCarried(Init(modeOk), acts, k)
  {
    RunAcknowledges(Init(modeOk), acts);
    assert [] + Succeeded(Init(modeOk), acts) == Succeeded(Init(modeOk), acts);
    forall k
      ensures k in Succeeded(Init(modeOk), acts) <==> SomeSubmitCarried(Init(modeOk), acts, k)
    {
      SucceededHas(Init(modeOk), acts, k);
    }
  }

  /** What goroutine `w`, the flusher of a lifecycle or a stopper, is submitting. */
  function Submits(s: Process, a: Action): Option<seq<nat>>
    requires WellFormed(s) && ((a.FlushTake? && a.id < |s.lives|) || a.LastTake?)
  {
    if a.FlushTake? then
      match s.lives[a.id].flusher
      case Flushing(batch) => Some(batch)
      case _ => None
    else
      match At(s, a.who)
      case Submitting(batch) => Some(batch)
      case _ => None
  }

  /** A flush submits all that is buffered, and nothing when nothing is. */
  lemma FlushSubmitsTheBuffer(s: Process, a: Action)
    requires WellFormed(s) && Enabled(s, a) && (a.FlushTake? || a.LastTake?)
    ensures Submits(Next(s, a), a) == if s.store.buffer == [] then None else Some(s.store.buffer)
    ensures Next(s, a).store.buffer == []
  {
  }

  /** The take whose submit is under way in s, and an action that is not the return of that submit. */
  predicate UnderWay(s: Process, take: Action, a: Action)
    requires WellFormed(s)
  {
    && ((take.FlushTake? && take.id < |s.lives|) || take.LastTake?)
    && Submits(s, take).Some?
    && !(take.FlushTake? && a.FlushDone? && a.id == take.id)
    && !(take.LastTake? && a.LastDone? && a.who == take.who)
  }

  lemma StopperKeepsBatch(s: Process, take: Action, a: Action)
    requires WellFormed(s) && Enabled(s, a) && UnderWay(s, take, a) && OfStopper(a)
    ensures |Next(s, a).lives| == |s.lives| && Submits(Next(s, a), take) == Submits(s, take)
  {
  }

  lemma FlusherKeepsBatch(s: Process, take: Action, a: Action)
    requires WellFormed(s) && Enabled(s, a) && UnderWay(s, take, a) && OfFlusher(a)
    ensures |Next(s, a).lives| == |s.lives| && Submits(Next(s, a), take) == Submits(s, take)
  {
  }

  lemma OthersKeepBatch(s: Process, take: Action, a: Action)
    requires WellFormed(s) && Enabled(s, a) && UnderWay(s, take, a) && (!s.signalled ==> s.main.Idle?)
    requires a.Produce? || a.Handle? || a.Signal? || a.CancelRoot?
    ensures |Next(s, a).lives| >= |s.lives| && Submits(Next(s, a), take) == Submits(s, take)
  {
  }

  /** The submit that OutcomeDecides speaks of is the one the take began: nothing in between changes its batch. */
  lemma SubmitKeepsItsBatch(s: Process, take: Action, a: Action)
    requires WellFormed(s) && Enabled(s, a) && UnderWay(s, take, a) && (!s.signalled ==> s.main.Idle?)
    ensures |Next(s, a).lives| >= |s.lives| && Submits(Next(s, a), take) == Submits(s, take)
  {
    if OfGoroutine(a) {
      GoroutineKeepsFlushers(s, a);
    } else if OfStopper(a) {
      StopperKeepsBatch(s, take, a);
    } else if OfFlusher(a) {
      FlusherKeepsBatch(s, take, a);
    } else {
      OthersKeepBatch(s, take, a);
    }
  }

  /** The same goroutines waiting and submitting, flusher by flusher. */
  predicate SameFlushers(s: Process, s': Process) {
    && |s'.lives| == |s.lives| && s'.consumer == s.consumer && s'.main == s.main
    && forall k :: 0 <= k < |s.lives| && s.lives[k].flusher.Flushing? ==> s'.lives[k].flusher == s.lives[k].flusher
  }

  lemma DoneKeepsFlushers(s: Process, on: nat)
    requires WellFormed(s)
    ensures SameFlushers(s, Done(s, on))
  {
  }

  lemma GoroutineKeepsFlushers(s: Process, a: Action)
    requires WellFormed(s) && Enabled(s, a) && OfGoroutine(a)
    ensures SameFlushers(s, Next(s, a))
  {
    if a.FlushExit? {
      DoneKeepsFlushers(WithFlusher(s, a.id, Exited), s.lives[a.id].flusherOn);
    } else if a.DispatchExit? {
      DoneKeepsFlushers(WithLife(s, a.id, s.lives[a.id].(dispatcher := Gone)), s.lives[a.id].dispatcherOn);
    }
  }

  // ----- one lifecycle, one flush, production order: until the signal --------------

  /** Both goroutines of a lifecycle have returned. */
  predicate Ended(l: Life) {
    l.flusher.Exited? && l.dispatcher.Gone?
  }

  predicate EndedUpTo(lives: seq<Life>, n: nat)
    requires n <= |lives|
  {
    forall k :: 0 <= k < n ==> Ended(lives[k])
  }

  /** The counter of lifecycle k is the number of its goroutines that have not returned, and they count it down. */
  predicate Counted(l: Life, k: nat) {
    && l.pending == (if l.flusher.Exited? then 0 else 1) + (if l.dispatcher.Gone? then 0 else 1)
    && (!l.flusher.Starting? ==> l.flusherOn == k)
    && (!l.dispatcher.Fresh? ==> l.dispatcherOn == k)
  }

  /** At most the newest lifecycle is alive, and only while work points to it or its stopper waits for it. */
  predicate OneLife(s: Process)
    requires WellFormed(s)
  {
    var n := |s.lives| - 1;
    && s.main.Idle? && !s.ctxDone
    && (n >= 0 ==> Counted(s.lives[n], n))
    && match s.consumer
       case Idle =>
         if s.work.Some? then s.work.value == n && EndedUpTo(s.lives, n) else EndedUpTo(s.lives, n + 1)
       case Waiting(id) => s.work.None? && id == n && EndedUpTo(s.lives, n)
       case _ => s.work.None? && EndedUpTo(s.lives, n + 1)
  }

  /** The batch in flight. */
  function Current(s: Process): seq<nat> {
    if s.consumer.Submitting? then s.consumer.batch
    else if s.lives != [] && s.lives[|s.lives| - 1].flusher.Flushing? then s.lives[|s.lives| - 1].flusher.batch
    else []
  }

  /** Acknowledged, in flight, buffered, in this order. */
  function Stream(s: Process): seq<nat> {
    s.store.acked + Current(s) + s.store.buffer
  }

  predicate InOrder(q: seq<nat>, bound: nat) {
    && (forall i, j :: 0 <= i < j < |q| ==> q[i] < q[j])
    && (forall i :: 0 <= i < |q| ==> q[i] < bound)
  }

  predicate WorkMatches(s: Process) {
    var leading := s.handled != [] && s.handled[|s.handled| - 1] == Election.Leader;
    if s.consumer.Idle? then s.work.Some? <==> s.modeOk && leading else !leading
  }

  predicate Orderly(s: Process) {
    WellFormed(s) && (!s.signalled ==> OneLife(s) && InOrder(Stream(s), s.store.made) && WorkMatches(s))
  }

  lemma HandleKeepsOneLife(s: Process, role: Election.Role)
    requires WellFormed(s) && OneLife(s) && WorkMatches(s) && s.consumer.Idle?
    ensures OneLife(HandleValue(s, role)) && WorkMatches(HandleValue(s, role))
  {
  }

  lemma GoroutineKeepsOneLife(s: Process, a: Action)
    requires WellFormed(s) && OneLife(s) && WorkMatches(s) && Enabled(s, a) && OfGoroutine(a)
    ensures OneLife(Next(s, a)) && WorkMatches(Next(s, a))
    ensures |Next(s, a).lives| == |s.lives| && a.id == |s.lives| - 1
  {
    assert a.id == |s.lives| - 1;
  }

  lemma StepKeepsOneLife(s: Process, a: Action)
    requires Orderly(s) && Enabled(s, a) && !s.signalled && !a.Signal?
    ensures OneLife(Next(s, a)) && WorkMatches(Next(s, a))
  {
    if a.Handle? {
      HandleKeepsOneLife(s, a.role);
    } else if OfGoroutine(a) {
      GoroutineKeepsOneLife(s, a);
    } else if OfFlusher(a) {
      FlusherKeepsOneLife(s, a);
    } else if OfStopper(a) {
      StopperKeepsOneLife(s, a);
    }
  }

  lemma FlusherKeepsOneLife(s: Process, a: Action)
    requires WellFormed(s) && OneLife(s) && WorkMatches(s) && Enabled(s, a) && OfFlusher(a)
    ensures OneLife(Next(s, a)) && WorkMatches(Next(s, a))
  {
  }

  lemma StopperKeepsOneLife(s: Process, a: Action)
    requires WellFormed(s) && OneLife(s) && WorkMatches(s) && Enabled(s, a) && OfStopper(a)
    ensures OneLife(Next(s, a)) && WorkMatches(Next(s, a))
  {
  }

  /**
  Only a worker and a drop change the stream: one appends the newest result,
  the other cuts it back to what is acknowledged.
  */
  lemma StepOnStream(s: Process, a: Action)
    requires Orderly(s) && Enabled(s, a) && !s.signalled && !a.Signal?
    ensures Stream(Next(s, a)) ==
      if a.Produce? then Stream(s) + [s.store.made] else if a.Drop? then s.store.acked else Stream(s)
  {
    if OfFlusher(a) {
      FlusherOnStream(s, a);
    } else if OfGoroutine(a) {
      GoroutineOnStream(s, a);
    } else if OfStopper(a) {
      StopperOnStream(s, a);
    } else {
      OthersOnStream(s, a);
    }
  }

  /** The stretches of stopLeaderWork. */
  predicate OfStopper(a: Action) {
    a.Waited? || a.LastTake? || a.LastDone? || a.Drop?
  }

  lemma StopperOnStream(s: Process, a: Action)
    requires Orderly(s) && Enabled(s, a) && !s.signalled && OfStopper(a)
    ensures Stream(Next(s, a)) == if a.Drop? then s.store.acked else Stream(s)
  {
    var s' := Next(s, a);
    match a
    case Waited(_) => assert Current(s') == Current(s);
    case LastTake(_) => assert Stream(s') == s.store.acked + s.store.buffer;
    case LastDone(_, _) => assert Stream(s') == s.store.acked + s.consumer.batch + s.store.buffer;
    case Drop(_) => assert Stream(s') == s.store.acked;
  }

  lemma OthersOnStream(s: Process, a: Action)
    requires Orderly(s) && Enabled(s, a) && !s.signalled && (a.Produce? || a.Handle? || a.CancelRoot?)
    ensures Stream(Next(s, a)) == if a.Produce? then Stream(s) + [s.store.made] else Stream(s)
  {
    var s' := Next(s, a);
    match a
    case Produce => assert Stream(s') == Stream(s) + [s.store.made];
    case Handle(_) => assert Current(s') == Current(s);
    case CancelRoot =>
  }

  lemma FlusherOnStream(s: Process, a: Action)
    requires Orderly(s) && Enabled(s, a) && !s.signalled && OfFlusher(a)
    ensures Stream(Next(s, a)) == Stream(s)
  {
    var s' := Next(s, a);
    assert a.id == |s.lives| - 1 && !s.consumer.Submitting?;
    assert s'.lives[a.id] == s'.lives[|s'.lives| - 1] || s'.lives == s.lives;
    if a.FlushDone? {
      assert Stream(s') == s.store.acked + s.lives[a.id].flusher.batch + s.store.buffer;
    } else {
      assert Current(s) == [];
    }
  }

  lemma GoroutineOnStream(s: Process, a: Action)
    requires Orderly(s) && Enabled(s, a) && !s.signalled && OfGoroutine(a)
    ensures Stream(Next(s, a)) == Stream(s)
  {
    var s' := Next(s, a);
    GoroutineKeepsOneLife(s, a);
    assert s'.store == s.store && s'.consumer == s.consumer;
    assert Current(s') == Current(s);
  }

  /** What only the consumer, the signal and the workers change. */
  predicate SameFrame(s: Process, s': Process) {
    s'.signalled == s.signalled && s'.modeOk == s.modeOk && s'.handled == s.handled && s'.store.made == s.store.made
  }

  lemma GoroutineFrame(s: Process, a: Action)
    requires WellFormed(s) && Enabled(s, a) && (OfGoroutine(a) || OfFlusher(a))
    ensures SameFrame(s, Next(s, a))
  {
  }

  lemma StopperFrame(s: Process, a: Action)
    requires WellFormed(s) && Enabled(s, a) && OfStopper(a)
    ensures SameFrame(s, Next(s, a))
  {
  }

  lemma OthersFrame(s: Process, a: Action)
    requires WellFormed(s) && Enabled(s, a) && !OfGoroutine(a) && !OfFlusher(a) && !OfStopper(a)
    ensures var s' := Next(s, a);
      && s'.signalled == (s.signalled || a.Signal?) && s'.modeOk == s.modeOk && s'.handled == s.handled + Taken(a)
      && s'.store.made == s.store.made + if a.Produce? then 1 else 0
  {
  }

  /** The signal, the mode, the values handled and the results made, over any step. */
  lemma StepFrame(s: Process, a: Action)
    requires WellFormed(s) && Enabled(s, a)
    ensures var s' := Next(s, a);
      && s'.signalled == (s.signalled || a.Signal?) && s'.modeOk == s.modeOk && s'.handled == s.handled + Taken(a)
      && s'.store.made == s.store.made + if a.Produce? then 1 else 0
  {
    if OfGoroutine(a) || OfFlusher(a) {
      GoroutineFrame(s, a);
    } else if OfStopper(a) {
      StopperFrame(s, a);
    } else {
      OthersFrame(s, a);
    }
  }

  lemma AckedInOrder(s: Process)
    requires InOrder(Stream(s), s.store.made)
    ensures InOrder(s.store.acked, s.store.made)
  {
    assert forall i :: 0 <= i < |s.store.acked| ==> s.store.acked[i] == Stream(s)[i];
  }

  lemma StepStaysOrderly(s: Process, a: Action)
    requires Orderly(s) && Enabled(s, a)
    ensures Orderly(Next(s, a))
  {
    StepFrame(s, a);
    if !s.signalled && !a.Signal? {
      StepKeepsOneLife(s, a);
      StepOnStream(s, a);
      AckedInOrder(s);
    }
  }

  lemma {:induction false} RunStaysOrderly(s: Process, acts: seq<Action>)
    requires Orderly(s) && Legal(s, acts)
    ensures Orderly(Exec(s, acts))
    decreases |acts|
  {
    if acts == [] {
    } else {
      StepStaysOrderly(s, acts[0]);
      RunStaysOrderly(Next(s, acts[0]), acts[1..]);
    }
  }

  /** Until the signal, acknowledged ++ in flight ++ buffered is in production order in every reachable state. */
  lemma ProductionOrder(modeOk: bool, acts: seq<Action>)
    requires Legal(Init(modeOk), acts) && !Exec(Init(modeOk), acts).signalled
    ensures var s := Exec(Init(modeOk), acts); InOrder(Stream(s), s.store.made)
  {
    RunStaysOrderly(Init(modeOk), acts);
  }

  /** A stop has submitted what was buffered, or found nothing, and has not dropped the rest yet. */
  predicate PastLastTake(t: Stopper) {
    t.Submitting? || t.Dropping?
  }

  /**
  The results a stop may drop by one action: the batch of a failed last submit,
  or a result made only after it began.
  */
  function ExcusedBy(s: Process, a: Action): set<nat>
    requires WellFormed(s) && Enabled(s, a)
  {
    if a.LastDone? && !a.ok then set k | k in Carried(s, a)
    else if a.Produce? && PastLastTake(s.consumer) then {s.store.made}
    else {}
  }

  function Excused(s: Process, acts: seq<Action>): set<nat>
    requires WellFormed(s) && Legal(s, acts)
    decreases |acts|
  {
    if acts == [] then {} else ExcusedBy(s, acts[0]) + Excused(Next(s, acts[0]), acts[1..])
  }

  predicate AllIn(q: seq<nat>, e: set<nat>) {
    forall k :: k in q ==> k in e
  }

  /** All that has been dropped is excused, and all that is about to be. */
  predicate DropsExcused(s: Process, e: set<nat>) {
    s.signalled || (AllIn(s.store.dropped, e) && (PastLastTake(s.consumer) ==> AllIn(s.store.buffer, e)))
  }

  lemma StopperStaysExcused(s: Process, a: Action, e: set<nat>)
    requires Orderly(s) && Enabled(s, a) && DropsExcused(s, e) && !s.signalled && OfStopper(a)
    ensures DropsExcused(Next(s, a), e + ExcusedBy(s, a))
  {
    if a.LastTake? {
      FlushSubmitsTheBuffer(s, a);
    } else if a.LastDone? {
      OutcomeDecides(s, a);
    }
  }

  lemma OthersStayExcused(s: Process, a: Action, e: set<nat>)
    requires Orderly(s) && Enabled(s, a) && DropsExcused(s, e) && !s.signalled && !OfStopper(a)
    ensures DropsExcused(Next(s, a), e + ExcusedBy(s, a))
  {
    if OfGoroutine(a) {
      GoroutineKeepsOneLife(s, a);
    }
  }

  lemma {:induction false} RunStaysExcused(s: Process, acts: seq<Action>, e: set<nat>)
    requires Orderly(s) && Legal(s, acts) && DropsExcused(s, e)
    ensures DropsExcused(Exec(s, acts), e + Excused(s, acts))
    decreases |acts|
  {
    if acts == [] {
      assert e + {} == e;
    } else {
      var a, s' := acts[0], Next(s, acts[0]);
      StepFrame(s, a);
      StepStaysOrderly(s, a);
      if !s.signalled {
        if OfStopper(a) {
          StopperStaysExcused(s, a, e);
        } else {
          OthersStayExcused(s, a, e);
        }
      }
      RunStaysExcused(s', acts[1..], e + ExcusedBy(s, a));
      assert e + ExcusedBy(s, a) + Excused(s', acts[1..]) == e + (ExcusedBy(s, a) + Excused(s', acts[1..]));
    }
  }

  /**
  Until the signal, a step-down drops only results of a last submit that failed
  and results made after its last submit had begun: everything else that was
  buffered has been handed to the sink.
  */
  lemma DropsAreExcused(modeOk: bool, acts: seq<Action>, k: nat)
    requires Legal(Init(modeOk), acts) && !Exec(Init(modeOk), acts).signalled
    requires k in Exec(Init(modeOk), acts).store.dropped
    ensures k in Excused(Init(modeOk), acts)
  {
    RunStaysExcused(Init(modeOk), acts, {});
    assert {} + Excused(Init(modeOk), acts) == Excused(Init(modeOk), acts);
  }

  /** Who has a flushResults in progress. */
  predicate FlushInProgress(s: Process, w: Option<nat>) {
    if w.Some? then w.value < |s.lives| && s.lives[w.value].flusher.Flushing?
    else s.consumer.Submitting? || s.main.Submitting?
  }

  /** Until the signal at most one lifecycle has a goroutine and at most one flushResults is in progress. */
  lemma AtMostOneFlush(modeOk: bool, acts: seq<Action>)
    requires Legal(Init(modeOk), acts) && !Exec(Init(modeOk), acts).signalled
    ensures var s := Exec(Init(modeOk), acts);
      && (forall i, j :: 0 <= i < j < |s.lives| ==> Ended(s.lives[i]) || Ended(s.lives[j]))
      && !(s.consumer.Submitting? && s.main.Submitting?)
      && (forall v, w :: FlushInProgress(s, v) && FlushInProgress(s, w) ==> v == w)
  {
    RunStaysOrderly(Init(modeOk), acts);
    OrderlyIsSingle(Exec(Init(modeOk), acts));
  }

  lemma OrderlyIsSingle(s: Process)
    requires Orderly(s) && !s.signalled
    ensures forall i, j :: 0 <= i < j < |s.lives| ==> Ended(s.lives[i]) || Ended(s.lives[j])
    ensures forall v, w :: FlushInProgress(s, v) && FlushInProgress(s, w) ==> v == w
  {
  }

  /**
  Until the signal, once the consumer has handled a value, work is running
  exactly when that value was Leader; with a mode config.Load refuses, never.
  */
  lemma WorkFollowsLastValue(modeOk: bool, acts: seq<Action>)
    requires Legal(Init(modeOk), acts) && !Exec(Init(modeOk), acts).signalled
    requires var s := Exec(Init(modeOk), acts); s.consumer.Idle? && s.handled != []
    ensures var s := Exec(Init(modeOk), acts);
      s.work.Some? <==> modeOk && s.handled[|s.handled| - 1] == Election.Leader
  {
    RunStaysOrderly(Init(modeOk), acts);
    RunKeepsMode(Init(modeOk), acts);
  }

  lemma {:induction false} RunKeepsMode(s: Process, acts: seq<Action>)
    requires WellFormed(s) && Legal(s, acts)
    ensures Exec(s, acts).modeOk == s.modeOk
    decreases |acts|
  {
    if acts == [] {
    } else {
      StepFrame(s, acts[0]);
      RunKeepsMode(Next(s, acts[0]), acts[1..]);
    }
  }

  // ----- the shutdown signal ---------------------------------------------------------

  /** The signal makes main stop the work there is, as a Follower value makes the consumer. */
  lemma SignalStopsWork(s: Process)
    requires WellFormed(s) && Enabled(s, Signal) && s.main.Idle?
    ensures var s' := Next(s, Signal);
      && s'.signalled && s'.work.None?
      && (s.work.None? ==> s'.main.Idle?)
      && (s.work.Some? ==> s'.main == Waiting(s.work.value) && s'.lives[s.work.value].cancelled)
  {
  }

  /** The root context is cancelled only after the signal, and only when main has finished its stop. */
  predicate CancelledLast(s: Process) {
    (s.ctxDone ==> s.signalled && s.main.Idle?) && (!s.signalled ==> s.main.Idle?)
  }

  lemma StepCancelsLast(s: Process, a: Action)
    requires WellFormed(s) && Enabled(s, a) && CancelledLast(s)
    ensures CancelledLast(Next(s, a))
  {
    SignalFirst(s, a);
  }

  lemma {:induction false} RunCancelsLast(s: Process, acts: seq<Action>)
    requires WellFormed(s) && Legal(s, acts) && CancelledLast(s)
    ensures CancelledLast(Exec(s, acts))
    decreases |acts|
  {
    if acts == [] {
    } else {
      StepCancelsLast(s, acts[0]);
      RunCancelsLast(Next(s, acts[0]), acts[1..]);
    }
  }

  /** In every run the elector's context outlives the work: it is cancelled after the signal and after main's stop. */
  lemma RootCancelledLast(modeOk: bool, acts: seq<Action>)
    requires Legal(Init(modeOk), acts) && Exec(Init(modeOk), acts).ctxDone
    ensures Exec(Init(modeOk), acts).signalled && Exec(Init(modeOk), acts).main.Idle?
  {
    RunCancelsLast(Init(modeOk), acts);
  }

  // ----- a stop that overtakes a start ---------------------------------------------

  /** Some goroutine of the lifecycle has not run its first statement. */
  predicate Unbegun(l: Life) {
    l.flusher.Starting? || l.dispatcher.Fresh?
  }

  /** The consumer is about to take the work pointer of a lifecycle with a goroutine that has not run yet. */
  predicate Overtakes(s: Process, a: Action)
    requires WellFormed(s)
  {
    a == Handle(Election.Follower) && s.work.Some? && Unbegun(s.lives[s.work.value])
  }

  /** Somewhere in the run a stop overtakes a start. */
  predicate Overtaken(s: Process, acts: seq<Action>)
    requires WellFormed(s) && Legal(s, acts)
    decreases |acts|
  {
    acts != [] && (Overtakes(s, acts[0]) || Overtaken(Next(s, acts[0]), acts[1..]))
  }

  /** Nothing has crashed, and no stop waits for a goroutine that has not run yet. */
  predicate Begun(s: Process)
    requires WellFormed(s)
  {
    s.signalled || (!s.crashed && (s.consumer.Waiting? ==> !Unbegun(s.lives[s.consumer.id])))
  }

  lemma StepStaysBegun(s: Process, a: Action)
    requires Orderly(s) && Enabled(s, a) && Begun(s) && !Overtakes(s, a)
    ensures Begun(Next(s, a))
  {
    StepFrame(s, a);
    if !s.signalled && !a.Signal? {
      if OfGoroutine(a) {
        GoroutineStaysBegun(s, a);
      } else if OfStopper(a) || OfFlusher(a) {
        StopperStaysBegun(s, a);
      }
    }
  }

  lemma GoroutineStaysBegun(s: Process, a: Action)
    requires Orderly(s) && Enabled(s, a) && Begun(s) && !s.signalled && OfGoroutine(a)
    ensures Begun(Next(s, a))
  {
    GoroutineKeepsOneLife(s, a);
  }

  lemma StopperStaysBegun(s: Process, a: Action)
    requires Orderly(s) && Enabled(s, a) && Begun(s) && !s.signalled && (OfStopper(a) || OfFlusher(a))
    ensures Begun(Next(s, a))
  {
  }

  lemma {:induction false} RunStaysBegun(s: Process, acts: seq<Action>)
    requires Orderly(s) && Legal(s, acts) && Begun(s) && !Overtaken(s, acts)
    ensures Begun(Exec(s, acts))
    decreases |acts|
  {
    if acts == [] {
    } else {
      StepStaysBegun(s, acts[0]);
      StepStaysOrderly(s, acts[0]);
      RunStaysBegun(Next(s, acts[0]), acts[1..]);
    }
  }

  /** Until the signal, the process crashes only in runs where a stop overtakes a start. */
  lemma CrashNeedsOvertaking(modeOk: bool, acts: seq<Action>)
    requires Legal(Init(modeOk), acts)
    requires var s := Exec(Init(modeOk), acts); s.crashed && !s.signalled
    ensures Overtaken(Init(modeOk), acts)
  {
    if !Overtaken(Init(modeOk), acts) {
      RunStaysBegun(Init(modeOk), acts);
    }
  }

  /** And whenever one does, the goroutine's first statement crashes the process. */
  lemma OvertakingCanCrash(modeOk: bool, acts: seq<Action>) returns (more: seq<Action>)
    requires Legal(Init(modeOk), acts)
    requires var s := Exec(Init(modeOk), acts);
      Enabled(s, Handle(Election.Follower)) && Overtakes(s, Handle(Election.Follower))
    ensures |more| == 2 && Legal(Init(modeOk), acts + more) && Exec(Init(modeOk), acts + more).crashed
  {
    var s := Exec(Init(modeOk), acts);
    var s1, id := Next(s, Handle(Election.Follower)), s.work.value;
    more := Prefixed(s1, if s.lives[id].flusher.Starting? then FlushBegin(id) else DispatchBegin(id), []);
    more := Prefixed(s, Handle(Election.Follower), more);
    Extended(Init(modeOk), acts, s, more, Exec(s, more));
  }

  /**
  It happens: the first Follower value, a Leader value, a Follower value right
  after it, and either goroutine beginning only then, whether or not the other
  one has begun.
  */
  lemma QuickStopCrashes(flusherLate: bool, otherBegun: bool) returns (acts: seq<Action>)
    ensures Legal(Init(true), acts)
    ensures var s := Exec(Init(true), acts);
      s.crashed && !s.signalled && s.handled == [Election.Follower, Election.Leader, Election.Follower]
  {
    var late, other := FlushBegin(0), DispatchBegin(0);
    if !flusherLate {
      late, other := other, late;
    }
    var s0 := Next(Init(true), Handle(Election.Follower));
    var s1 := Next(s0, Handle(Election.Leader));
    if otherBegun {
      acts := StopTooEarly(Next(s1, other), late);
      acts := Prefixed(s1, other, acts);
    } else {
      acts := StopTooEarly(s1, late);
    }
    acts := Prefixed(s0, Handle(Election.Leader), acts);
    acts := Prefixed(Init(true), Handle(Election.Follower), acts);
  }

  lemma StopTooEarly(s: Process, late: Action) returns (acts: seq<Action>)
    requires WellFormed(s) && s.work == Some(0) && s.consumer.Idle? && !s.crashed && !s.signalled
    requires late == FlushBegin(0) || late == DispatchBegin(0)
    requires Enabled(s, late)
    ensures Legal(s, acts)
    ensures var r := Exec(s, acts); r.crashed && !r.signalled && r.handled == s.handled + [Election.Follower]
  {
    var s1 := Next(s, Handle(Election.Follower));
    acts := Prefixed(s1, late, []);
    acts := Prefixed(s, Handle(Election.Follower), acts);
  }

  /** `acts` is a legal run from s that ends in r. */
  ghost predicate Leads(s: Process, acts: seq<Action>, r: Process) {
    WellFormed(s) && Legal(s, acts) && Exec(s, acts) == r
  }

  lemma FirstStep(s: Process, acts: seq<Action>, r: Process)
    requires Leads(s, acts, r) && acts != []
    ensures Enabled(s, acts[0]) && Leads(Next(s, acts[0]), acts[1..], r)
  {
  }

  lemma {:induction false} Extended(s: Process, acts: seq<Action>, m: Process, more: seq<Action>, r: Process)
    requires Leads(s, acts, m) && Leads(m, more, r)
    ensures Leads(s, acts + more, r)
    decreases |acts|
  {
    if acts == [] {
      assert acts + more == more;
    } else {
      FirstStep(s, acts, m);
      Extended(Next(s, acts[0]), acts[1..], m, more, r);
      var both := Prefixed(s, acts[0], acts[1..] + more);
      assert both == acts + more;
    }
  }

  // ----- election and work together ------------------------------------------------

  /**
  The work of a poller agrees with its role, once its consumer has handled
  everything the elector got through the channel, exactly when an even number
  of transitions was dropped since the last accepted one.
  */
  lemma WorkMatchesRole(p: Election.Params, n: nat, election: seq<Election.Action>, i: nat, acts: seq<Action>)
    requires Election.Legal(p, Election.Init(n), election) && i < n
    requires var q := Election.Exec(p, Election.Init(n), election).pollers[i];
      && !q.phase.Down? && q.mem.ch == []
      && Legal(Init(true), acts)
      && var s := Exec(Init(true), acts); !s.signalled && s.consumer.Idle? && s.handled == q.received
    ensures var q, s := Election.Exec(p, Election.Init(n), election).pollers[i], Exec(Init(true), acts);
      (s.work.Some? <==> q.mem.role == Election.Leader) <==> q.lost % 2 == 0
  {
    Election.DrainedConsumerIsCurrent(p, n, election, i);
    WorkFollowsLastValue(true, acts);
  }

  /** An orderly stop with nothing buffered, from its wait on, and the Leader value after it. */
  lemma StopThenLead(s: Process) returns (acts: seq<Action>)
    requires WellFormed(s) && s.modeOk && !s.crashed && s.work.None? && s.store.buffer == []
    requires s.consumer == Waiting(0) && s.lives == [Life(true, 2, Ticking, 0, Running, 0)]
    ensures Legal(s, acts)
    ensures var r := Exec(s, acts);
      && r.signalled == s.signalled && r.consumer.Idle? && r.work.Some?
      && r.handled == s.handled + [Election.Leader]
  {
    var s1 := Next(s, FlushExit(0));
    var s2 := Next(s1, DispatchExit(0));
    acts := WaitedThenLead(s2);
    acts := Prefixed(s1, DispatchExit(0), acts);
    acts := Prefixed(s, FlushExit(0), acts);
  }

  lemma WaitedThenLead(s: Process) returns (acts: seq<Action>)
    requires WellFormed(s) && s.modeOk && !s.crashed && s.work.None? && s.store.buffer == []
    requires s.consumer == Waiting(0) && |s.lives| == 1 && s.lives[0].pending == 0
    ensures Legal(s, acts)
    ensures var r := Exec(s, acts);
      && r.signalled == s.signalled && r.consumer.Idle? && r.work.Some?
      && r.handled == s.handled + [Election.Leader]
  {
    var s1 := Next(s, Waited(Consumer));
    var s2 := Next(s1, LastTake(Consumer));
    var s3 := Next(s2, Drop(Consumer));
    acts := Prefixed(s3, Handle(Election.Leader), []);
    acts := Prefixed(s2, Drop(Consumer), acts);
    acts := Prefixed(s1, LastTake(Consumer), acts);
    acts := Prefixed(s, Waited(Consumer), acts);
  }

  /** Handling Follower, Leader, Follower, Leader leaves work running. */
  lemma FourValues() returns (acts: seq<Action>)
    ensures Legal(Init(true), acts)
    ensures var s := Exec(Init(true), acts);
      && !s.signalled && s.consumer.Idle? && s.work.Some?
      && s.handled == [Election.Follower, Election.Leader, Election.Follower, Election.Leader]
  {
    var s0 := Next(Init(true), Handle(Election.Follower));
    var s1 := Next(s0, Handle(Election.Leader));
    var s2 := Next(s1, FlushBegin(0));
    var s3 := Next(s2, DispatchBegin(0));
    acts := StopThenLead(Next(s3, Handle(Election.Follower)));
    acts := Prefixed(s3, Handle(Election.Follower), acts);
    acts := Prefixed(s2, DispatchBegin(0), acts);
    acts := Prefixed(s1, FlushBegin(0), acts);
    acts := Prefixed(s0, Handle(Election.Leader), acts);
    acts := Prefixed(Init(true), Handle(Election.Follower), acts);
  }

  lemma Prefixed(s: Process, a: Action, acts: seq<Action>) returns (r: seq<Action>)
    requires WellFormed(s) && Enabled(s, a) && Legal(Next(s, a), acts)
    ensures r == [a] + acts && Legal(s, r) && Exec(s, r) == Exec(Next(s, a), acts)
  {
    r := [a] + acts;
    assert r[1..] == acts;
  }

  /** The value the consumer takes in this action, if it takes one. */
  function Taken(a: Action): seq<Election.Role> {
    if a.Handle? then [a.role] else []
  }

  /** The values the consumer takes in these actions. */
  function Values(acts: seq<Action>): seq<Election.Role> {
    if acts == [] then [] else Taken(acts[0]) + Values(acts[1..])
  }

  lemma {:induction false} HandledGrows(s: Process, acts: seq<Action>)
    requires WellFormed(s) && Legal(s, acts)
    ensures Exec(s, acts).handled == s.handled + Values(acts)
    decreases |acts|
  {
    if acts == [] {
    } else {
      StepFrame(s, acts[0]);
      HandledGrows(Next(s, acts[0]), acts[1..]);
      Regroup(s.handled, Taken(acts[0]), Values(acts[1..]));
    }
  }

  lemma Regroup(a: seq<Election.Role>, b: seq<Election.Role>, c: seq<Election.Role>)
    ensures a + b + c == a + (b + c)
  {
  }
}
