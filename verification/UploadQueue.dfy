/**
 The bounded event queue of the EventQL plugin as a protocol: any number of
 producers in `enqueueEvent`, the upload thread in `awaitEvent`, one mutex and
 one condition variable.  A step is one statement of one thread; a waiting
 thread may also wake without being notified.
 */
module UploadQueue {
  import opened Prelude

  datatype EnqueuedEvent = EnqueuedEvent(database: string, table: string, data: string)

  /** Where a producer stands in `enqueueEvent`. */
  datatype ProducerPc =
    | Outside     // not in the call
    | Locking     // before the lock is acquired
    | Testing     // holds the lock, before the test of the loop
    | Waiting     // in cv_.wait, lock released
    | Waking      // woken inside cv_.wait, before the lock is re-acquired
    | Pushing     // holds the lock, there is room
    | Pushed      // holds the lock, the event is queued, before notify_all
    | Leaving     // holds the lock, after notify_all

  datatype Producer = Producer(pc: ProducerPc, event: EnqueuedEvent, done: seq<EnqueuedEvent>)

  /** Where the upload thread stands. */
  datatype ConsumerPc =
    | TopLocking  // before the lock for the shutdown test
    | TopTesting  // holds the lock, before the shutdown test
    | CLocking    // in awaitEvent, before the lock is acquired
    | CTesting    // holds the lock, before the first test
    | CWaiting    // in cv_.wait
    | CWaking     // woken inside cv_.wait
    | Retesting   // holds the lock, before the second test
    | Popped      // holds the lock, an event is taken, before notify_all
    | CLeaving    // holds the lock, after notify_all
    | Uploading   // in uploadEvent, without the lock
    | Exited

  datatype Thread = P(i: nat) | C

  datatype State = State(
    queue: seq<EnqueuedEvent>,
    max: nat,
    owner: Option<Thread>,
    producers: seq<Producer>,
    consumer: ConsumerPc,
    shutdown: bool,
    stopSignalled: bool,                  // stopUploadThread has sent its notification
    accepted: seq<(nat, EnqueuedEvent)>,  // events queued, each with its producer
    taken: seq<EnqueuedEvent>             // events the upload thread took off
  )

  datatype Step =
    | Call(i: nat, event: EnqueuedEvent)
    | Lock(i: nat)
    | Test(i: nat)
    | Push(i: nat)
    | Notify(i: nat)
    | Unlock(i: nat)
    | Spurious(i: nat)
    | CTopLock
    | CTopTest
    | CLock
    | CTest
    | CRetest
    | CNotify
    | CUnlock
    | CUploaded
    | CSpurious
    | SetShutdown
    | SignalStop

  function Woken(p: Producer): Producer {
    if p.pc == Waiting then p.(pc := Waking) else p
  }

  function WakeProducers(ps: seq<Producer>): (r: seq<Producer>)
    ensures |r| == |ps| && forall i :: 0 <= i < |ps| ==> r[i] == Woken(ps[i])
  {
    seq(|ps|, i requires 0 <= i < |ps| => Woken(ps[i]))
  }

  /** `notify_all`. */
  function NotifyAll(s: State): State {
    s.(producers := WakeProducers(s.producers),
       consumer := if s.consumer == CWaiting then CWaking else s.consumer)
  }

  function At(s: State, i: nat, pc: ProducerPc): State
    requires i < |s.producers|
  {
    s.(producers := s.producers[i := s.producers[i].(pc := pc)])
  }

  predicate Is(s: State, i: nat, pc: ProducerPc) {
    i < |s.producers| && s.producers[i].pc == pc
  }

  predicate Enabled(s: State, step: Step) {
    match step
    case Call(i, _) => Is(s, i, Outside)
    case Lock(i) => (Is(s, i, Locking) || Is(s, i, Waking)) && s.owner == None
    case Test(i) => Is(s, i, Testing)
    case Push(i) => Is(s, i, Pushing)
    case Notify(i) => Is(s, i, Pushed)
    case Unlock(i) => Is(s, i, Leaving)
    case Spurious(i) => Is(s, i, Waiting)
    case CTopLock => s.consumer == TopLocking && s.owner == None
    case CTopTest => s.consumer == TopTesting
    case CLock => s.consumer in {CLocking, CWaking} && s.owner == None
    case CTest => s.consumer == CTesting
    case CRetest => s.consumer == Retesting
    case CNotify => s.consumer == Popped
    case CUnlock => s.consumer == CLeaving
    case CUploaded => s.consumer == Uploading
    case CSpurious => s.consumer == CWaiting
    case SetShutdown => !s.shutdown
    case SignalStop => s.shutdown && !s.stopSignalled
  }

  function Next(s: State, step: Step): State
    requires Enabled(s, step)
  {
    match step
    case Call(i, e) => s.(producers := s.producers[i := s.producers[i].(pc := Locking, event := e)])
    case Lock(i) => At(s, i, Testing).(owner := Some(P(i)))
    case Test(i) =>
      if |s.queue| >= s.max then At(s, i, Waiting).(owner := None) else At(s, i, Pushing)
    case Push(i) =>
      At(s, i, Pushed).(queue := s.queue + [s.producers[i].event],
                        accepted := s.accepted + [(i, s.producers[i].event)])
    case Notify(i) => At(NotifyAll(s), i, Leaving)
    case Unlock(i) =>
      var p := s.producers[i];
      s.(owner := None, producers := s.producers[i := p.(pc := Outside, done := p.done + [p.event])])
    case Spurious(i) => At(s, i, Waking)
    case CTopLock => s.(consumer := TopTesting, owner := Some(C))
    case CTopTest => s.(consumer := if s.shutdown then Exited else CLocking, owner := None)
    case CLock => s.(consumer := if s.consumer == CWaking then Retesting else CTesting, owner := Some(C))
    case CTest =>
      if s.queue == [] then s.(consumer := CWaiting, owner := None) else s.(consumer := Retesting)
    case CRetest =>
      if s.queue == [] then s.(consumer := TopLocking, owner := None)
      else s.(consumer := Popped, queue := s.queue[1..], taken := s.taken + [s.queue[0]])
    case CNotify => NotifyAll(s).(consumer := CLeaving)
    case CUnlock => s.(consumer := Uploading, owner := None)
    case CUploaded => s.(consumer := TopLocking)
    case CSpurious => s.(consumer := CWaking)
    case SetShutdown => s.(shutdown := true)
    case SignalStop => NotifyAll(s).(stopSignalled := true)
  }

  predicate Init(s: State) {
    && s.queue == [] && s.owner == None && s.consumer == TopLocking && !s.shutdown && !s.stopSignalled
    && s.accepted == [] && s.taken == []
    && forall i :: 0 <= i < |s.producers| ==> s.producers[i].pc == Outside && s.producers[i].done == []
  }

  // ---------------------------------------------------------------- invariant

  predicate HoldsLock(pc: ProducerPc) {
    pc in {Testing, Pushing, Pushed, Leaving}
  }

  predicate ConsumerHolds(pc: ConsumerPc) {
    pc in {TopTesting, CTesting, Retesting, Popped, CLeaving}
  }

  predicate Exclusive(s: State) {
    && (s.owner == Some(C) <==> ConsumerHolds(s.consumer))
    && (s.owner.Some? && s.owner.value.P? ==> s.owner.value.i < |s.producers|)
    && forall i :: 0 <= i < |s.producers| ==> (s.owner == Some(P(i)) <==> HoldsLock(s.producers[i].pc))
  }

  /** A notification is about to be sent. */
  predicate NotifyPending(s: State) {
    match s.owner
    case Some(P(i)) => Is(s, i, Pushed)
    case Some(C) => s.consumer == Popped
    case None => false
  }

  /** No wakeup is lost: a sleeper whose condition holds has its notification coming. */
  predicate NoLostWakeup(s: State) {
    && (s.consumer == CWaiting && s.queue != [] ==> NotifyPending(s))
    && forall i :: 0 <= i < |s.producers| && s.producers[i].pc == Waiting && |s.queue| < s.max ==> NotifyPending(s)
  }

  predicate Bounded(s: State) {
    && |s.queue| <= s.max
    && forall i :: 0 <= i < |s.producers| && s.producers[i].pc == Pushing ==> |s.queue| < s.max
  }

  function Events(log: seq<(nat, EnqueuedEvent)>): seq<EnqueuedEvent> {
    if log == [] then [] else Events(log[..|log| - 1]) + [log[|log| - 1].1]
  }

  /** The accepted events of one producer. */
  function EventsOf(log: seq<(nat, EnqueuedEvent)>, i: nat): seq<EnqueuedEvent> {
    if log == [] then []
    else EventsOf(log[..|log| - 1], i) + if log[|log| - 1].0 == i then [log[|log| - 1].1] else []
  }

  /** What a producer has put into the queue so far. */
  function Delivered(p: Producer): seq<EnqueuedEvent> {
    p.done + if p.pc in {Pushed, Leaving} then [p.event] else []
  }

  predicate Conserved(s: State) {
    && s.taken + s.queue == Events(s.accepted)
    && forall i :: 0 <= i < |s.producers| ==> EventsOf(s.accepted, i) == Delivered(s.producers[i])
  }

  /** A producer that has queued its event still holds the lock, so the event is still there. */
  predicate Stocked(s: State) {
    forall i :: 0 <= i < |s.producers| && s.producers[i].pc in {Pushed, Leaving} ==> s.queue != []
  }

  predicate Inv(s: State) {
    && Exclusive(s) && NoLostWakeup(s) && Bounded(s) && Stocked(s) && Conserved(s)
    && (s.consumer == Exited ==> s.shutdown)
  }

  lemma {:induction false} InitInv(s: State)
    requires Init(s)
    ensures Inv(s)
  {
  }

  lemma {:induction false} EventsSnoc(log: seq<(nat, EnqueuedEvent)>, e: (nat, EnqueuedEvent), i: nat)
    ensures Events(log + [e]) == Events(log) + [e.1]
    ensures EventsOf(log + [e], i) == EventsOf(log, i) + if e.0 == i then [e.1] else []
  {
    assert (log + [e])[..|log|] == log;
  }

  predicate ByProducer(step: Step) {
    step.Call? || step.Lock? || step.Test? || step.Push? || step.Notify? || step.Unlock? || step.Spurious?
  }

  lemma {:induction false} ExclusiveKeptByProducer(s: State, step: Step)
    requires Exclusive(s) && Enabled(s, step) && ByProducer(step)
    ensures Exclusive(Next(s, step))
  {
  }

  lemma {:induction false} ExclusiveKeptByConsumer(s: State, step: Step)
    requires Exclusive(s) && Enabled(s, step) && !ByProducer(step)
    ensures Exclusive(Next(s, step))
  {
  }

  lemma {:induction false} WakeupKeptByProducer(s: State, step: Step)
    requires Exclusive(s) && NoLostWakeup(s) && Enabled(s, step) && ByProducer(step)
    ensures NoLostWakeup(Next(s, step))
  {
  }

  lemma {:induction false} WakeupKeptByConsumer(s: State, step: Step)
    requires Exclusive(s) && NoLostWakeup(s) && Enabled(s, step) && !ByProducer(step)
    ensures NoLostWakeup(Next(s, step))
  {
  }

  lemma {:induction false} BoundKept(s: State, step: Step)
    requires Exclusive(s) && Bounded(s) && Enabled(s, step)
    ensures Bounded(Next(s, step))
  {
  }

  lemma {:induction false} StockKept(s: State, step: Step)
    requires Exclusive(s) && Stocked(s) && Enabled(s, step)
    ensures Stocked(Next(s, step))
  {
  }

  /** A push appends to the queue and to the record, for its producer only. */
  lemma {:induction false} PushConserves(s: State, i: nat)
    requires Conserved(s) && Is(s, i, Pushing)
    ensures Conserved(Next(s, Push(i)))
  {
    var t := Next(s, Push(i));
    var e := s.producers[i].event;
    assert s.taken + (s.queue + [e]) == (s.taken + s.queue) + [e];
    forall k | 0 <= k < |t.producers| ensures EventsOf(t.accepted, k) == Delivered(t.producers[k]) {
      EventsSnoc(s.accepted, (i, e), k);
    }
    EventsSnoc(s.accepted, (i, e), i);
  }

  lemma {:induction false} PopConserves(s: State)
    requires Conserved(s) && s.consumer == Retesting
    ensures Conserved(Next(s, CRetest))
  {
  }

  lemma {:induction false} ConservedKept(s: State, step: Step)
    requires Conserved(s) && Enabled(s, step)
    ensures Conserved(Next(s, step))
  {
    hide Events, EventsOf;
    match step
    case Push(i) => PushConserves(s, i);
    case CRetest => PopConserves(s);
    case _ =>
  }

  lemma {:induction false} StepKeepsInv(s: State, step: Step)
    requires Inv(s) && Enabled(s, step)
    ensures Inv(Next(s, step))
  {
    hide Exclusive, NoLostWakeup, Bounded, Stocked, Conserved;
    if ByProducer(step) {
      ExclusiveKeptByProducer(s, step);
      WakeupKeptByProducer(s, step);
    } else {
      ExclusiveKeptByConsumer(s, step);
      WakeupKeptByConsumer(s, step);
    }
    BoundKept(s, step);
    StockKept(s, step);
    ConservedKept(s, step);
  }

  // ---------------------------------------------------------------- runs

  predicate Executable(s: State, steps: seq<Step>)
    decreases |steps|
  {
    steps != [] ==> Enabled(s, steps[0]) && Executable(Next(s, steps[0]), steps[1..])
  }

  function Final(s: State, steps: seq<Step>): State
    requires Executable(s, steps)
    decreases |steps|
  {
    if steps == [] then s else Final(Next(s, steps[0]), steps[1..])
  }

  lemma {:induction false} RunKeepsInv(s: State, steps: seq<Step>)
    requires Inv(s) && Executable(s, steps)
    ensures Inv(Final(s, steps))
    ensures Final(s, steps).max == s.max && |Final(s, steps).producers| == |s.producers|
    decreases |steps|
  {
    hide Inv, Enabled;
    if steps != [] {
      StepKeepsInv(s, steps[0]);
      SameShape(s, steps[0]);
      RunKeepsInv(Next(s, steps[0]), steps[1..]);
    }
  }

  lemma {:induction false} SameShape(s: State, step: Step)
    requires Enabled(s, step)
    ensures Next(s, step).max == s.max && |Next(s, step).producers| == |s.producers|
  {
  }

  /**
   Conservation, in every interleaving: what the upload thread took, followed
   by the queue, is what was accepted, in order; the accepted events of each
   producer are those of its finished calls (and of the call that has just
   queued its event), in order; the queue never exceeds its capacity.
   */
  lemma {:induction false} QueueConserves(s0: State, steps: seq<Step>, i: nat)
    requires Init(s0) && Executable(s0, steps) && i < |s0.producers|
    ensures var s := Final(s0, steps);
            && s.taken + s.queue == Events(s.accepted)
            && i < |s.producers| && EventsOf(s.accepted, i) == Delivered(s.producers[i])
            && |s.queue| <= s0.max
  {
    hide Events, EventsOf, Delivered, Exclusive, NoLostWakeup;
    InitInv(s0);
    RunKeepsInv(s0, steps);
  }

  /** The events a run passes to `enqueueEvent` from producer `i`. */
  function Requested(steps: seq<Step>, i: nat): seq<EnqueuedEvent> {
    if steps == [] then []
    else
      var step := steps[|steps| - 1];
      Requested(steps[..|steps| - 1], i) + if step.Call? && step.i == i then [step.event] else []
  }

  /**
   Each call queues the event it was given: in every interleaving the events
   of the finished calls of a producer, and then of the one in progress, are
   those passed in, in order.
   */
  lemma {:induction false} CallsArrive(s0: State, steps: seq<Step>, i: nat)
    requires Init(s0) && Executable(s0, steps) && i < |s0.producers|
    ensures |Final(s0, steps).producers| == |s0.producers|
    ensures var p := Final(s0, steps).producers[i];
            Requested(steps, i) == p.done + if p.pc == Outside then [] else [p.event]
    decreases |steps|
  {
    hide Enabled;
    if steps != [] {
      var before, step := steps[..|steps| - 1], steps[|steps| - 1];
      LastStep(s0, steps);
      CallsArrive(s0, before, i);
      CallArrives(Final(s0, before), step, i);
      assert Requested(before, i) == InHand(Final(s0, before).producers[i]);
    }
  }

  lemma {:induction false} LastStep(s: State, steps: seq<Step>)
    requires Executable(s, steps) && steps != []
    ensures var before, step := steps[..|steps| - 1], steps[|steps| - 1];
            && Executable(s, before) && Enabled(Final(s, before), step)
            && Final(s, steps) == Next(Final(s, before), step)
    decreases |steps|
  {
    hide Enabled, Next;
    if |steps| > 1 {
      LastStep(Next(s, steps[0]), steps[1..]);
      assert steps[1..][..|steps| - 2] == steps[..|steps| - 1][1..];
    }
  }

  lemma {:induction false} CallArrives(s: State, step: Step, i: nat)
    requires Enabled(s, step) && i < |s.producers|
    ensures |Next(s, step).producers| == |s.producers|
    ensures InHand(Next(s, step).producers[i])
         == InHand(s.producers[i]) + if step.Call? && step.i == i then [step.event] else []
  {
    if ByProducer(step) {
      ProducerCallArrives(s, step, i);
    } else {
      ConsumerKeepsCalls(s, step, i);
    }
  }

  /** The events of the calls of a producer so far. */
  function InHand(p: Producer): seq<EnqueuedEvent> {
    p.done + if p.pc == Outside then [] else [p.event]
  }

  lemma {:induction false} ProducerCallArrives(s: State, step: Step, i: nat)
    requires Enabled(s, step) && i < |s.producers| && ByProducer(step)
    ensures |Next(s, step).producers| == |s.producers|
    ensures InHand(Next(s, step).producers[i])
         == InHand(s.producers[i]) + if step.Call? && step.i == i then [step.event] else []
  {
  }

  lemma {:induction false} ConsumerKeepsCalls(s: State, step: Step, i: nat)
    requires Enabled(s, step) && i < |s.producers| && !ByProducer(step)
    ensures |Next(s, step).producers| == |s.producers|
    ensures InHand(Next(s, step).producers[i]) == InHand(s.producers[i])
  {
  }

  /** Calls, spurious wakeups and the stop come when they like. */
  lemma {:induction false} EnvironmentIsFree(s: State, i: nat, event: EnqueuedEvent)
    ensures i < |s.producers| && s.producers[i].pc == Outside ==> Enabled(s, Call(i, event))
    ensures i < |s.producers| && s.producers[i].pc == Waiting ==> Enabled(s, Spurious(i))
    ensures s.consumer == CWaiting ==> Enabled(s, CSpurious)
    ensures !s.shutdown ==> Enabled(s, SetShutdown)
    ensures s.shutdown && !s.stopSignalled ==> Enabled(s, SignalStop)
  {
  }

  /**
   No lost wakeup, in every interleaving with spurious wakeups: when the lock
   is free, a sleeping upload thread means an empty queue, a sleeping producer
   means a full one, and they never sleep together.
   */
  lemma {:induction false} SleepersHaveReason(s0: State, steps: seq<Step>, i: nat)
    requires Init(s0) && Executable(s0, steps) && i < |s0.producers|
    ensures var s := Final(s0, steps);
            && (s.consumer == CWaiting && !NotifyPending(s) ==> s.queue == [])
            && (Is(s, i, Waiting) && !NotifyPending(s) ==> |s.queue| == s.max)
            && (s.consumer == CWaiting && Is(s, i, Waiting) && s.max > 0 ==> NotifyPending(s))
            && (s.owner == None ==> !NotifyPending(s))
  {
    hide Exclusive, Conserved;
    InitInv(s0);
    RunKeepsInv(s0, steps);
  }

  // ---------------------------------------------------------------- progress

  /** A step of a thread that is already at work: no new call, no stop, no spurious wakeup. */
  predicate Working(step: Step) {
    !step.Call? && !step.SetShutdown? && !step.SignalStop? && !step.Spurious? && !step.CSpurious?
  }

  ghost predicate Stuck(s: State) {
    forall step :: Working(step) ==> !Enabled(s, step)
  }

  /** The next step of the thread that holds the lock. */
  lemma {:induction false} HolderCanStep(s: State)
    requires Exclusive(s) && s.owner.Some?
    ensures !Stuck(s)
  {
    match s.owner.value
    case P(i) =>
      var pc := s.producers[i].pc;
      var step := if pc == Testing then Test(i) else if pc == Pushing then Push(i)
                  else if pc == Pushed then Notify(i) else Unlock(i);
      assert Working(step) && Enabled(s, step);
    case C =>
      var step := match s.consumer
        case TopTesting => CTopTest
        case CTesting => CTest
        case Retesting => CRetest
        case Popped => CNotify
        case _ => CUnlock;
      assert Working(step) && Enabled(s, step);
  }

  predicate Asleep(s: State) {
    && s.consumer in {CWaiting, Exited}
    && forall i :: 0 <= i < |s.producers| ==> s.producers[i].pc in {Outside, Waiting}
  }

  lemma {:induction false} StuckIsAsleep(s: State)
    requires Exclusive(s) && Stuck(s)
    ensures s.owner == None && Asleep(s)
  {
    if s.owner.Some? {
      HolderCanStep(s);
    }
    forall i | 0 <= i < |s.producers| ensures s.producers[i].pc in {Outside, Waiting} {
      assert Working(Lock(i)) && !Enabled(s, Lock(i));
      assert !HoldsLock(s.producers[i].pc);
    }
    assert Working(CTopLock) && !Enabled(s, CTopLock);
    assert Working(CLock) && !Enabled(s, CLock);
    assert Working(CUploaded) && !Enabled(s, CUploaded);
  }

  /** Everything handed in has been taken off, and no producer is in a call. */
  predicate AllDone(s: State) {
    s.queue == [] && forall i :: 0 <= i < |s.producers| ==> s.producers[i].pc == Outside
  }

  /**
   No deadlock: with room for at least one event and without a stop, the
   threads have nothing left to do only when every call has returned and every
   event has been taken.
   */
  lemma {:induction false} NoDeadlock(s0: State, steps: seq<Step>)
    requires Init(s0) && Executable(s0, steps)
    requires s0.max > 0 && !Final(s0, steps).shutdown
    ensures Stuck(Final(s0, steps)) ==> AllDone(Final(s0, steps))
  {
    hide Conserved;
    InitInv(s0);
    RunKeepsInv(s0, steps);
    if Stuck(Final(s0, steps)) {
      StuckIsAsleep(Final(s0, steps));
    }
  }

  /** With no room at all, nothing is ever accepted. */
  lemma {:induction false} NoRoomNoEvents(s0: State, steps: seq<Step>)
    requires Init(s0) && Executable(s0, steps) && s0.max == 0
    ensures Final(s0, steps).accepted == []
    decreases |steps|
  {
    InitInv(s0);
    NothingAccepted(s0, steps);
  }

  lemma {:induction false} NothingAccepted(s: State, steps: seq<Step>)
    requires Inv(s) && Executable(s, steps) && s.max == 0 && s.accepted == []
    ensures Final(s, steps).accepted == []
    decreases |steps|
  {
    hide Exclusive, NoLostWakeup, Conserved;
    if steps != [] {
      StepKeepsInv(s, steps[0]);
      SameShape(s, steps[0]);
      NothingAccepted(Next(s, steps[0]), steps[1..]);
    }
  }

  // ---------------------------------------------------------------- every run of the threads ends

  /** Steps one notification or one queued event may cost, for `n` producers. */
  function Cost(n: nat): nat {
    2 * n + 8
  }

  function ProducerWork(pc: ProducerPc, n: nat): nat {
    match pc
    case Outside => 0
    case Locking => 2 * Cost(n) + 5
    case Testing => 2 * Cost(n) + 4
    case Waiting => 2 * Cost(n) + 3
    case Waking => 2 * Cost(n) + 5
    case Pushing => 2 * Cost(n) + 3
    case Pushed => Cost(n) + 2
    case Leaving => 1
  }

  function ConsumerWork(pc: ConsumerPc, empty: bool, n: nat): nat {
    match pc
    case TopLocking => 4
    case TopTesting => 3
    case CLocking => 2
    case CTesting => 1
    case CWaiting => 0
    case CWaking => 6
    case Retesting => if empty then 5 else 0
    case Popped => 2 * n + 7
    case CLeaving => 6
    case Uploading => 5
    case Exited => 0
  }

  function TotalWork(ps: seq<Producer>, n: nat): nat {
    if ps == [] then 0 else ProducerWork(ps[0].pc, n) + TotalWork(ps[1..], n)
  }

  /** An upper bound on the steps the threads can still take by themselves. */
  function Work(s: State): nat {
    var n := |s.producers|;
    TotalWork(s.producers, n) + |s.queue| * Cost(n) + ConsumerWork(s.consumer, s.queue == [], n)
  }

  lemma {:induction false} WorkAt(ps: seq<Producer>, i: nat, p: Producer, n: nat)
    requires i < |ps|
    ensures TotalWork(ps[i := p], n) + ProducerWork(ps[i].pc, n) == TotalWork(ps, n) + ProducerWork(p.pc, n)
  {
    hide ProducerWork;
    if i == 0 {
      assert ps[i := p][1..] == ps[1..];
    } else {
      assert ps[i := p][1..] == ps[1..][i - 1 := p];
      WorkAt(ps[1..], i - 1, p, n);
    }
  }

  lemma {:induction false} WorkWoken(ps: seq<Producer>, n: nat)
    ensures TotalWork(WakeProducers(ps), n) <= TotalWork(ps, n) + 2 * |ps|
  {
    if ps != [] {
      assert WakeProducers(ps)[1..] == WakeProducers(ps[1..]);
      WorkWoken(ps[1..], n);
    }
  }

  lemma {:induction false} QueueWork(q: seq<EnqueuedEvent>, e: EnqueuedEvent, n: nat)
    ensures |q + [e]| * Cost(n) == |q| * Cost(n) + Cost(n)
  {
  }

  lemma {:induction false} ProducerStepWorks(s: State, step: Step, i: nat)
    requires Exclusive(s) && Enabled(s, step)
    requires step in {Lock(i), Test(i), Push(i), Notify(i), Unlock(i)}
    ensures Work(Next(s, step)) < Work(s)
  {
    hide TotalWork;
    var n := |s.producers|;
    var t := Next(s, step);
    if step.Notify? {
      WorkWoken(s.producers, n);
      WorkAt(WakeProducers(s.producers), i, t.producers[i], n);
    } else {
      WorkAt(s.producers, i, t.producers[i], n);
      if step.Push? {
        QueueWork(s.queue, s.producers[i].event, n);
      }
    }
  }

  lemma {:induction false} ConsumerStepWorks(s: State, step: Step)
    requires Enabled(s, step)
    requires step in {CTopLock, CTopTest, CLock, CTest, CRetest, CNotify, CUnlock, CUploaded}
    ensures Work(Next(s, step)) < Work(s)
  {
    hide TotalWork, ProducerWork;
    var n := |s.producers|;
    if step.CRetest? && s.queue != [] {
      QueueWork(s.queue[1..], s.queue[0], n);
    } else if step.CNotify? {
      WorkWoken(s.producers, n);
    }
  }

  lemma {:induction false} WorkingStepWorks(s: State, step: Step)
    requires Exclusive(s) && Enabled(s, step) && Working(step)
    ensures Work(Next(s, step)) < Work(s)
  {
    hide Exclusive, Work;
    match step
    case Lock(i) => ProducerStepWorks(s, step, i);
    case Test(i) => ProducerStepWorks(s, step, i);
    case Push(i) => ProducerStepWorks(s, step, i);
    case Notify(i) => ProducerStepWorks(s, step, i);
    case Unlock(i) => ProducerStepWorks(s, step, i);
    case _ => ConsumerStepWorks(s, step);
  }

  /**
   Progress under any scheduler: without new calls, stops and spurious
   wakeups, the threads take at most `Work` steps, whatever their order.
   */
  lemma {:induction false} WorkingRunsEnd(s: State, steps: seq<Step>)
    requires Inv(s) && Executable(s, steps)
    requires forall k :: 0 <= k < |steps| ==> Working(steps[k])
    ensures |steps| + Work(Final(s, steps)) <= Work(s)
    decreases |steps|
  {
    hide Inv, Work, Enabled, Working;
    if steps != [] {
      InvExclusive(s);
      WorkingStepWorks(s, steps[0]);
      StepKeepsInv(s, steps[0]);
      assert forall k :: 0 <= k < |steps| - 1 ==> steps[1..][k] == steps[k + 1];
      WorkingRunsEnd(Next(s, steps[0]), steps[1..]);
    }
  }

  lemma {:induction false} InvExclusive(s: State)
    requires Inv(s)
    ensures Exclusive(s)
  {
  }

  /**
   So after any history, once the threads run on by themselves they come to
   rest, and then every accepted event has been taken, in order, and every
   call has returned.
   */
  lemma {:induction false} ComesToRestDone(s0: State, history: seq<Step>, steps: seq<Step>)
    requires Init(s0) && s0.max > 0 && Executable(s0, history) && !Final(s0, history).shutdown
    requires Executable(Final(s0, history), steps)
    requires forall k :: 0 <= k < |steps| ==> Working(steps[k])
    ensures |steps| <= Work(Final(s0, history))
    ensures var s := Final(Final(s0, history), steps);
            Stuck(s) ==> AllDone(s) && s.taken == Events(s.accepted)
  {
    hide Exclusive, NoLostWakeup, Work, Events, EventsOf, Stuck, Working;
    InitInv(s0);
    RunKeepsInv(s0, history);
    var h := Final(s0, history);
    WorkingRunsEnd(h, steps);
    RunKeepsInv(h, steps);
    KeepsRunning(h, steps);
    var s := Final(h, steps);
    if Stuck(s) {
      InvExclusive(s);
      StuckIsAsleep(s);
      RestIsDone(s);
      assert s.taken + [] == s.taken;
    }
  }

  lemma {:induction false} KeepsRunning(s: State, steps: seq<Step>)
    requires Executable(s, steps) && !s.shutdown
    requires forall k :: 0 <= k < |steps| ==> Working(steps[k])
    ensures !Final(s, steps).shutdown
    decreases |steps|
  {
    if steps != [] {
      assert Working(steps[0]);
      assert forall k :: 0 <= k < |steps| - 1 ==> steps[1..][k] == steps[k + 1];
      KeepsRunning(Next(s, steps[0]), steps[1..]);
    }
  }

  lemma {:induction false} RestIsDone(s: State)
    requires Inv(s) && s.owner == None && Asleep(s) && s.max > 0 && !s.shutdown
    ensures AllDone(s)
  {
    hide Conserved, Exclusive;
  }

  // ---------------------------------------------------------------- stopping

  /** The upload thread has passed the shutdown test and is about to wait, and nothing will wake it. */
  predicate Unwakeable(s: State) {
    s.consumer in {CLocking, CTesting} && s.queue == [] && NoEventComing(s)
  }

  /** No producer is in a call, or none can ever queue its event. */
  predicate NoEventComing(s: State) {
    s.max == 0 || forall i :: 0 <= i < |s.producers| ==> s.producers[i].pc == Outside
  }

  /** After the stop, the upload thread waits or is about to, and nothing will wake it. */
  predicate Doomed(s: State) {
    s.shutdown && s.consumer in {CLocking, CTesting, CWaiting} && s.queue == [] && NoEventComing(s)
  }

  /** After the stop, a producer on its way wakes the upload thread wherever it waits without an event. */
  predicate Wakeable(s: State) {
    s.shutdown && (s.consumer in {CLocking, CTesting, CWaiting} && s.queue == [] ==> !NoEventComing(s))
  }

  lemma {:induction false} DoomedStays(s: State, step: Step)
    requires Doomed(s) && Bounded(s) && Stocked(s) && Enabled(s, step) && Working(step)
    ensures Doomed(Next(s, step))
  {
  }

  lemma {:induction false} WakeableStays(s: State, step: Step)
    requires Wakeable(s) && Exclusive(s) && Stocked(s) && Enabled(s, step) && Working(step)
    ensures Wakeable(Next(s, step))
  {
    var t := Next(s, step);
    if t.consumer in {CLocking, CTesting, CWaiting} && t.queue == [] {
      var i :| 0 <= i < |s.producers| && s.producers[i].pc != Outside;
      assert t.producers[i].pc != Outside;
    }
  }

  lemma {:induction false} DoomedRun(s: State, steps: seq<Step>)
    requires Doomed(s) && Inv(s) && Executable(s, steps)
    requires forall k :: 0 <= k < |steps| ==> Working(steps[k])
    ensures Doomed(Final(s, steps))
    decreases |steps|
  {
    hide Doomed, Enabled, Working, Next, Exclusive, NoLostWakeup, Bounded, Stocked, Conserved;
    if steps != [] {
      DoomedStays(s, steps[0]);
      StepKeepsInv(s, steps[0]);
      assert forall k :: 0 <= k < |steps| - 1 ==> steps[1..][k] == steps[k + 1];
      DoomedRun(Next(s, steps[0]), steps[1..]);
    }
  }

  lemma {:induction false} WakeableRun(s: State, steps: seq<Step>)
    requires Wakeable(s) && Inv(s) && Executable(s, steps)
    requires forall k :: 0 <= k < |steps| ==> Working(steps[k])
    ensures Wakeable(Final(s, steps)) && Inv(Final(s, steps))
    decreases |steps|
  {
    hide Wakeable, Enabled, Working, Next, Exclusive, NoLostWakeup, Bounded, Stocked, Conserved;
    if steps != [] {
      WakeableStays(s, steps[0]);
      StepKeepsInv(s, steps[0]);
      assert forall k :: 0 <= k < |steps| - 1 ==> steps[1..][k] == steps[k + 1];
      WakeableRun(Next(s, steps[0]), steps[1..]);
    }
  }

  /** What the notification of the stop decides. */
  lemma {:induction false} SignalDecides(s: State)
    requires Enabled(s, SignalStop)
    ensures if Unwakeable(s) then Doomed(Next(s, SignalStop)) else Wakeable(Next(s, SignalStop))
  {
    var t := Next(s, SignalStop);
    if !Unwakeable(s) && t.consumer in {CLocking, CTesting, CWaiting} && t.queue == [] {
      var i :| 0 <= i < |s.producers| && s.producers[i].pc != Outside;
      assert t.producers[i].pc != Outside;
    }
  }

  /** A thread that could still be woken is not left asleep. */
  lemma {:induction false} WakeableAtRest(s: State)
    requires Wakeable(s) && Inv(s) && s.owner == None && Asleep(s)
    ensures s.consumer == Exited
  {
    hide Conserved, Exclusive;
  }

  /**
   Exactly when a stop is honoured: whatever happened before, and whatever
   happened between setting the flag and sending the notification, the threads
   then come to rest, and the upload thread has exited unless the notification
   found it between its shutdown test and its wait, with nothing in the queue
   and, if there is room for an event at all, no producer in a call.
   */
  lemma {:induction false} StopIsHonoured(s0: State, history: seq<Step>, steps: seq<Step>)
    requires Init(s0) && Executable(s0, history)
    requires Enabled(Final(s0, history), SignalStop)
    requires Executable(Next(Final(s0, history), SignalStop), steps)
    requires forall k :: 0 <= k < |steps| ==> Working(steps[k])
    ensures
      var h := Final(s0, history);
      var s := Final(Next(h, SignalStop), steps);
      && |steps| <= Work(Next(h, SignalStop))
      && (Stuck(s) ==> (s.consumer == Exited <==> !Unwakeable(h)))
  {
    hide Inv, Work, Stuck, Working, Next, Enabled, Unwakeable, Wakeable, Doomed, Executable, Final, Asleep;
    InitInv(s0);
    RunKeepsInv(s0, history);
    var h := Final(s0, history);
    var t := Next(h, SignalStop);
    StepKeepsInv(h, SignalStop);
    SameShape(h, SignalStop);
    WorkingRunsEnd(t, steps);
    RunKeepsInv(t, steps);
    SignalDecides(h);
    var s := Final(t, steps);
    if Stuck(s) {
      InvExclusive(s);
      StuckIsAsleep(s);
      if Unwakeable(h) {
        DoomedRun(t, steps);
        DoomedNotExited(s);
      } else {
        WakeableRun(t, steps);
        WakeableAtRest(s);
      }
    }
  }

  lemma {:induction false} DoomedNotExited(s: State)
    requires Doomed(s)
    ensures s.consumer != Exited
  {
  }

  /** The upload thread is between its shutdown test and the next event. */
  predicate PastTest(s: State) {
    s.consumer in {CLocking, CTesting, CWaiting, CWaking, Retesting}
  }

  lemma {:induction false} StopStays(s: State, step: Step)
    requires s.shutdown && Enabled(s, step)
    ensures var t := Next(s, step);
            && t.shutdown && s.taken <= t.taken
            && |t.taken| + (if PastTest(t) then 1 else 0) <= |s.taken| + (if PastTest(s) then 1 else 0)
  {
  }

  /**
   The stop does not wait for the queue: once the flag is set, whatever else
   happens, the upload thread takes at most one more event, and none if it is
   not between its shutdown test and the next event.  The others stay behind.
   */
  lemma {:induction false} StopLeavesEvents(s: State, steps: seq<Step>)
    requires s.shutdown && Executable(s, steps)
    ensures var t := Final(s, steps);
            && s.taken <= t.taken
            && |t.taken| <= |s.taken| + 1
            && (s.consumer in {TopLocking, TopTesting, Popped, CLeaving, Uploading, Exited} ==> t.taken == s.taken)
  {
    StopLeavesEventsIn(s, steps);
  }

  lemma {:induction false} StopLeavesEventsIn(s: State, steps: seq<Step>)
    requires s.shutdown && Executable(s, steps)
    ensures var t := Final(s, steps);
            && s.taken <= t.taken
            && |t.taken| + (if PastTest(t) then 1 else 0) <= |s.taken| + (if PastTest(s) then 1 else 0)
    decreases |steps|
  {
    hide Enabled, Next, PastTest;
    if steps != [] {
      StopStays(s, steps[0]);
      StopLeavesEventsIn(Next(s, steps[0]), steps[1..]);
    }
  }

  /** A schedule in which a stop is missed: the notification comes between the shutdown test and the wait. */
  lemma {:induction false} StopCanBeMissed(s0: State)
    requires Init(s0)
    ensures var steps := [CTopLock, CTopTest, SetShutdown, SignalStop, CLock, CTest];
            && Executable(s0, steps)
            && var s := Final(s0, steps);
               s.shutdown && s.consumer == CWaiting && Stuck(s)
  {
    hide Executable, Final, Stuck;
    var s1 := Next(s0, CTopLock);
    StopBeforeWait(Next(s1, CTopTest));
    Unfold(s1, CTopTest, [SetShutdown, SignalStop, CLock, CTest]);
    Unfold(s0, CTopLock, [CTopTest] + [SetShutdown, SignalStop, CLock, CTest]);
    assert [CTopLock] + ([CTopTest] + [SetShutdown, SignalStop, CLock, CTest])
        == [CTopLock, CTopTest, SetShutdown, SignalStop, CLock, CTest];
  }

  lemma {:induction false} StopBeforeWait(s: State)
    requires s.consumer == CLocking && s.owner == None && s.queue == [] && !s.shutdown && !s.stopSignalled
    requires forall i :: 0 <= i < |s.producers| ==> s.producers[i].pc == Outside
    ensures Executable(s, [SetShutdown, SignalStop, CLock, CTest])
    ensures var t := Final(s, [SetShutdown, SignalStop, CLock, CTest]);
            t.shutdown && t.consumer == CWaiting && Stuck(t)
  {
    hide Executable, Final, Stuck;
    var s1 := Next(s, SetShutdown);
    var s2 := Next(s1, SignalStop);
    var s3 := Next(s2, CLock);
    var s4 := Next(s3, CTest);
    NoSteps(s4);
    Unfold(s3, CTest, []);
    Unfold(s2, CLock, [CTest] + []);
    Unfold(s1, SignalStop, [CLock] + ([CTest] + []));
    Unfold(s, SetShutdown, [SignalStop] + ([CLock] + ([CTest] + [])));
    assert [SetShutdown] + ([SignalStop] + ([CLock] + ([CTest] + []))) == [SetShutdown, SignalStop, CLock, CTest];
    AllIdleIsStuck(s4);
  }

  lemma {:induction false} NoSteps(s: State)
    ensures Executable(s, []) && Final(s, []) == s
  {
  }

  lemma {:induction false} AllIdleIsStuck(s: State)
    requires s.consumer == CWaiting
    requires forall i :: 0 <= i < |s.producers| ==> s.producers[i].pc == Outside
    ensures Stuck(s)
  {
  }

  lemma {:induction false} Unfold(s: State, step: Step, rest: seq<Step>)
    requires Enabled(s, step) && Executable(Next(s, step), rest)
    ensures Executable(s, [step] + rest) && Final(s, [step] + rest) == Final(Next(s, step), rest)
  {
    assert ([step] + rest)[1..] == rest;
  }
}
