/**
 The tick queue of the service, as values: a list of jobs ordered by tick, the
 turns of the run loop, and what holds over every run under a clock that
 never goes back.
 */
module Scheduler {
  import opened Prelude

  /** An event binding: when it was registered, how often it is due, and its next tick. */
  datatype Job = Job(id: nat, registered: nat, interval: nat, tick: nat)

  /** One call of `processEvent`: the tick it was due, the clock before it and after it. */
  datatype Firing = Firing(id: nat, tick: nat, now: nat, after: nat)

  /** How `select` ended one turn of the loop, and the clock readings that follow. */
  datatype Turn =
    | Monitor
    | Woken(now: nat, after: nat)

  datatype Sched = Sched(queue: seq<Job>, log: seq<Firing>, clock: nat)

  /** `multiset::insert`: behind all jobs with an equal or earlier tick. */
  function Insert(q: seq<Job>, j: Job): (r: seq<Job>)
    ensures |r| == |q| + 1
  {
    if q == [] || q[0].tick > j.tick then [j] + q else [q[0]] + Insert(q[1..], j)
  }

  /** The next tick after a firing that ended at `after`; a late job skips to now. */
  function NextTick(j: Job, after: nat): nat {
    Max(j.tick + j.interval, after)
  }

  /** `addEvent`: the first tick is one interval from now. */
  function Add(s: Sched, id: nat, interval: nat, now: nat): Sched {
    Sched(Insert(s.queue, Job(id, now, interval, now + interval)), s.log, now)
  }

  /** One turn of `run`. */
  function Step(s: Sched, turn: Turn): Sched
    requires s.queue != []
  {
    match turn
    case Monitor => s
    case Woken(now, after) =>
      var j := s.queue[0];
      if j.tick > now then s.(clock := now)
      else Sched(Insert(s.queue[1..], j.(tick := NextTick(j, after))),
                 s.log + [Firing(j.id, j.tick, now, after)],
                 after)
  }

  predicate Monotone(clock: nat, turn: Turn) {
    turn.Woken? ==> clock <= turn.now <= turn.after
  }

  // ---------------------------------------------------------------- order and contents

  predicate Sorted(q: seq<Job>) {
    forall i, k :: 0 <= i <= k < |q| ==> q[i].tick <= q[k].tick
  }

  lemma {:induction false} InsertSorted(q: seq<Job>, j: Job)
    requires Sorted(q)
    ensures Sorted(Insert(q, j))
  {
    if q != [] && q[0].tick <= j.tick {
      InsertSorted(q[1..], j);
      InsertBounded(q[1..], j, q[0].tick);
    }
  }

  lemma {:induction false} InsertBounded(q: seq<Job>, j: Job, low: nat)
    requires low <= j.tick && forall i :: 0 <= i < |q| ==> low <= q[i].tick
    ensures forall i :: 0 <= i < |Insert(q, j)| ==> low <= Insert(q, j)[i].tick
  {
    if q != [] && q[0].tick <= j.tick {
      InsertBounded(q[1..], j, low);
    }
  }

  lemma {:induction false} InsertContents(q: seq<Job>, j: Job)
    ensures multiset(Insert(q, j)) == multiset(q) + multiset{j}
  {
    if q != [] && q[0].tick <= j.tick {
      InsertContents(q[1..], j);
      assert q == [q[0]] + q[1..];
    }
  }

  /** Jobs that are due no later than the new one keep their places in front of it. */
  lemma {:induction false} InsertKeepsPrefix(q: seq<Job>, j: Job, n: nat)
    requires n <= |q| && forall i :: 0 <= i < n ==> q[i].tick <= j.tick
    ensures Insert(q, j)[..n] == q[..n]
  {
    if n > 0 {
      InsertKeepsPrefix(q[1..], j, n - 1);
      assert q[..n] == [q[0]] + q[1..][..n - 1];
      assert Insert(q, j)[..n] == [q[0]] + Insert(q[1..], j)[..n - 1];
    }
  }

  /** The bindings in the queue, without their ticks. */
  function Names(q: seq<Job>): multiset<(nat, nat, nat)> {
    if q == [] then multiset{} else Names(q[1..]) + multiset{(q[0].id, q[0].registered, q[0].interval)}
  }

  lemma {:induction false} NamesCons(j: Job, q: seq<Job>)
    ensures Names([j] + q) == Names(q) + multiset{(j.id, j.registered, j.interval)}
  {
    assert ([j] + q)[1..] == q;
  }

  lemma {:induction false} NamesInsert(q: seq<Job>, j: Job)
    ensures Names(Insert(q, j)) == Names(q) + multiset{(j.id, j.registered, j.interval)}
  {
    if q == [] || q[0].tick > j.tick {
      NamesCons(j, q);
    } else {
      NamesInsert(q[1..], j);
      NamesCons(q[0], Insert(q[1..], j));
    }
  }

  // ---------------------------------------------------------------- invariant

  function Count(log: seq<Firing>, id: nat): nat {
    if log == [] then 0
    else Count(log[..|log| - 1], id) + if log[|log| - 1].id == id then 1 else 0
  }

  /** The firing ended past the job's next regular tick, so samples are skipped. */
  predicate Late(f: Firing, interval: nat) {
    f.after > f.tick + interval
  }

  predicate NeverLate(log: seq<Firing>, id: nat, interval: nat) {
    forall i :: 0 <= i < |log| && log[i].id == id ==> !Late(log[i], interval)
  }

  /** The tick is at least the regular one, and equal to it exactly when the job was never late. */
  predicate OnTrack(j: Job, log: seq<Firing>) {
    var regular := j.registered + (Count(log, j.id) + 1) * j.interval;
    j.tick >= regular && (j.tick == regular <==> NeverLate(log, j.id, j.interval))
  }

  /** Firing `i` is the last one of the binding. */
  predicate LastFiring(log: seq<Firing>, i: nat, id: nat) {
    i < |log| && log[i].id == id && forall k :: i < k < |log| ==> log[k].id != id
  }

  /**
   The tick is one interval behind the one that fired last, or the time that
   firing ended if that is later; before any firing, one interval behind the
   registration.
   */
  predicate TickFollows(j: Job, log: seq<Firing>) {
    && (forall i :: 0 <= i < |log| && LastFiring(log, i, j.id) ==>
          j.tick == if log[i].after > log[i].tick + j.interval then log[i].after else log[i].tick + j.interval)
    && ((forall i :: 0 <= i < |log| ==> log[i].id != j.id) ==> j.tick == j.registered + j.interval)
  }

  /** A job's firings so far all fit between its registration and the clock. */
  predicate InRate(j: Job, log: seq<Firing>, clock: nat) {
    j.registered <= clock && j.registered + Count(log, j.id) * j.interval <= clock
  }

  predicate NoId(q: seq<Job>, id: nat) {
    forall j :: j in q ==> j.id != id
  }

  predicate Distinct(q: seq<Job>) {
    q == [] || (NoId(q[1..], q[0].id) && Distinct(q[1..]))
  }

  predicate NoneEarly(log: seq<Firing>, clock: nat) {
    forall i :: 0 <= i < |log| ==> log[i].tick <= log[i].now <= log[i].after <= clock
  }

  predicate Inv(s: Sched) {
    && Sorted(s.queue) && Distinct(s.queue) && NoneEarly(s.log, s.clock)
    && (forall j :: j in s.queue ==> OnTrack(j, s.log) && InRate(j, s.log, s.clock) && TickFollows(j, s.log))
  }

  lemma {:induction false} InsertMembers(q: seq<Job>, j: Job, x: Job)
    ensures x in Insert(q, j) <==> x == j || x in q
  {
    if q != [] && q[0].tick <= j.tick {
      InsertMembers(q[1..], j, x);
    }
  }

  lemma {:induction false} InsertNoId(q: seq<Job>, j: Job, id: nat)
    requires NoId(q, id) && j.id != id
    ensures NoId(Insert(q, j), id)
  {
    forall x | x in Insert(q, j) ensures x.id != id {
      InsertMembers(q, j, x);
    }
  }

  lemma {:induction false} InsertDistinct(q: seq<Job>, j: Job)
    requires Distinct(q) && NoId(q, j.id)
    ensures Distinct(Insert(q, j))
  {
    if q == [] || q[0].tick > j.tick {
      assert ([j] + q)[1..] == q;
    } else {
      InsertDistinct(q[1..], j);
      InsertNoId(q[1..], j, q[0].id);
      assert ([q[0]] + Insert(q[1..], j))[1..] == Insert(q[1..], j);
    }
  }

  lemma {:induction false} CountSnoc(log: seq<Firing>, f: Firing, id: nat)
    ensures Count(log + [f], id) == Count(log, id) + (if f.id == id then 1 else 0)
  {
    assert (log + [f])[..|log|] == log;
  }

  lemma {:induction false} NeverLateSnoc(log: seq<Firing>, f: Firing, id: nat, interval: nat)
    ensures NeverLate(log + [f], id, interval) <==> NeverLate(log, id, interval) && (f.id == id ==> !Late(f, interval))
  {
    if NeverLate(log + [f], id, interval) {
      forall i | 0 <= i < |log| && log[i].id == id ensures !Late(log[i], interval) {
        assert (log + [f])[i] == log[i];
      }
      assert (log + [f])[|log|] == f;
    }
  }

  /** Another job's firing leaves a job on track. */
  lemma {:induction false} OtherFired(j: Job, log: seq<Firing>, f: Firing, clock: nat)
    requires f.id != j.id && OnTrack(j, log) && InRate(j, log, clock) && clock <= f.after
    ensures OnTrack(j, log + [f]) && InRate(j, log + [f], f.after)
  {
    hide NeverLate;
    CountSnoc(log, f, j.id);
    NeverLateSnoc(log, f, j.id, j.interval);
  }

  /** A job that fires at or after its tick stays on track with its next tick. */
  lemma {:induction false} SelfFired(j: Job, log: seq<Firing>, now: nat, after: nat)
    requires OnTrack(j, log) && j.tick <= now <= after
    ensures var f := Firing(j.id, j.tick, now, after);
            var j' := j.(tick := NextTick(j, after));
            OnTrack(j', log + [f]) && InRate(j', log + [f], after)
  {
    hide NeverLate;
    var f := Firing(j.id, j.tick, now, after);
    CountSnoc(log, f, j.id);
    NeverLateSnoc(log, f, j.id, j.interval);
    var n := Count(log, j.id);
    assert (n + 1 + 1) * j.interval == (n + 1) * j.interval + j.interval;
    assert j.registered <= j.tick by { assert (n + 1) * j.interval >= 0; }
  }

  lemma {:induction false} OtherFollows(j: Job, log: seq<Firing>, f: Firing)
    requires f.id != j.id && TickFollows(j, log)
    ensures TickFollows(j, log + [f])
  {
    var more := log + [f];
    assert forall i :: 0 <= i < |log| ==> more[i] == log[i];
    forall i: nat | LastFiring(more, i, j.id) ensures LastFiring(log, i, j.id) && log[i] == more[i] {
      assert more[|log|] == f;
    }
  }

  lemma {:induction false} SelfFollows(j: Job, log: seq<Firing>, now: nat, after: nat)
    ensures TickFollows(j.(tick := NextTick(j, after)), log + [Firing(j.id, j.tick, now, after)])
  {
    var more := log + [Firing(j.id, j.tick, now, after)];
    assert more[|log|].id == j.id;
    assert forall i: nat :: LastFiring(more, i, j.id) ==> i == |log|;
  }

  lemma {:induction false} ClockKeepsInv(s: Sched, now: nat)
    requires Inv(s) && s.clock <= now
    ensures Inv(s.(clock := now))
  {
    hide Sorted, Distinct, OnTrack, TickFollows;
  }

  lemma {:induction false} FireKeepsInv(s: Sched, now: nat, after: nat)
    requires Inv(s) && s.queue != [] && s.clock <= now <= after && s.queue[0].tick <= now
    ensures Inv(Step(s, Woken(now, after)))
  {
    hide Sorted, OnTrack, InRate, TickFollows, NextTick, Count;
    var j, q := s.queue[0], s.queue[1..];
    var f := Firing(j.id, j.tick, now, after);
    var j' := j.(tick := NextTick(j, after));
    var t := Step(s, Woken(now, after));
    assert s.queue == [j] + q;
    SortedTail(s.queue);
    InsertSorted(q, j');
    InsertDistinct(q, j');
    SelfFired(j, s.log, now, after);
    SelfFollows(j, s.log, now, after);
    forall x | x in t.queue ensures OnTrack(x, t.log) && InRate(x, t.log, t.clock) && TickFollows(x, t.log) {
      InsertMembers(q, j', x);
      if x != j' {
        OtherFired(x, s.log, f, s.clock);
        OtherFollows(x, s.log, f);
      }
    }
  }

  lemma {:induction false} SortedTail(q: seq<Job>)
    requires Sorted(q) && q != []
    ensures Sorted(q[1..])
  {
  }

  lemma {:induction false} StepKeepsInv(s: Sched, turn: Turn)
    requires Inv(s) && s.queue != [] && Monotone(s.clock, turn)
    ensures Inv(Step(s, turn))
    ensures Names(Step(s, turn).queue) == Names(s.queue)
  {
    hide Inv;
    match turn
    case Monitor =>
    case Woken(now, after) =>
      if s.queue[0].tick > now {
        ClockKeepsInv(s, now);
      } else {
        FireKeepsInv(s, now, after);
        NamesInsert(s.queue[1..], s.queue[0].(tick := NextTick(s.queue[0], after)));
      }
  }

  lemma {:induction false} AddKeepsInv(s: Sched, id: nat, interval: nat, now: nat)
    requires Inv(s) && s.clock <= now && NoId(s.queue, id) && Count(s.log, id) == 0
    ensures Inv(Add(s, id, interval, now))
    ensures Names(Add(s, id, interval, now).queue) == Names(s.queue) + multiset{(id, now, interval)}
  {
    hide Sorted, Distinct, OnTrack, InRate, TickFollows, Count;
    var j := Job(id, now, interval, now + interval);
    InsertSorted(s.queue, j);
    InsertDistinct(s.queue, j);
    NamesInsert(s.queue, j);
    NotFiredYet(s.log, id);
    NewOnTrack(j, s.log, now);
    NeverFired(j, s.log);
    forall x | x in Insert(s.queue, j) ensures OnTrack(x, s.log) && InRate(x, s.log, now) && TickFollows(x, s.log) {
      InsertMembers(s.queue, j, x);
      if x != j {
        RateLater(x, s.log, s.clock, now);
      }
    }
  }

  lemma {:induction false} NewOnTrack(j: Job, log: seq<Firing>, clock: nat)
    requires Count(log, j.id) == 0 && j.registered == clock && j.tick == clock + j.interval
    requires forall i :: 0 <= i < |log| ==> log[i].id != j.id
    ensures OnTrack(j, log) && InRate(j, log, clock)
  {
  }

  lemma {:induction false} RateLater(j: Job, log: seq<Firing>, clock: nat, now: nat)
    requires InRate(j, log, clock) && clock <= now
    ensures InRate(j, log, now)
  {
  }

  lemma {:induction false} NeverFired(j: Job, log: seq<Firing>)
    requires forall i :: 0 <= i < |log| ==> log[i].id != j.id
    requires j.tick == j.registered + j.interval
    ensures TickFollows(j, log)
  {
  }

  lemma {:induction false} NotFiredYet(log: seq<Firing>, id: nat)
    requires Count(log, id) == 0
    ensures forall i :: 0 <= i < |log| ==> log[i].id != id
  {
    if log != [] {
      NotFiredYet(log[..|log| - 1], id);
      assert forall i :: 0 <= i < |log| - 1 ==> log[i] == log[..|log| - 1][i];
    }
  }

  // ---------------------------------------------------------------- runs

  predicate MonotoneRun(clock: nat, turns: seq<Turn>)
    decreases |turns|
  {
    turns != [] ==>
      && Monotone(clock, turns[0])
      && MonotoneRun(if turns[0].Woken? then turns[0].after else clock, turns[1..])
  }

  function Run(s: Sched, turns: seq<Turn>): Sched
    requires s.queue != []
    decreases |turns|
  {
    if turns == [] then s else Run(Step(s, turns[0]), turns[1..])
  }

  lemma {:induction false} MonotoneLater(clock: nat, clock': nat, turns: seq<Turn>)
    requires MonotoneRun(clock, turns) && clock' <= clock
    ensures MonotoneRun(clock', turns)
    decreases |turns|
  {
    if turns != [] && !turns[0].Woken? {
      MonotoneLater(clock, clock', turns[1..]);
    }
  }

  lemma {:induction false} StepClock(s: Sched, turn: Turn)
    requires s.queue != [] && Monotone(s.clock, turn)
    ensures s.clock <= Step(s, turn).clock <= (if turn.Woken? then turn.after else s.clock)
  {
  }

  /**
   Every run of the loop: each binding is in the queue exactly once, the
   queue stays ordered, no job fires before its tick, a job has fired at most
   once per interval since its registration, and its next tick is the regular
   one exactly when none of its firings was late.
   */
  lemma {:induction false} RunIsSafe(s: Sched, turns: seq<Turn>)
    requires Inv(s) && s.queue != [] && MonotoneRun(s.clock, turns)
    ensures Inv(Run(s, turns)) && Names(Run(s, turns).queue) == Names(s.queue)
    decreases |turns|
  {
    hide Inv, Step, Names;
    if turns != [] {
      var t := Step(s, turns[0]);
      StepKeepsInv(s, turns[0]);
      StepClock(s, turns[0]);
      MonotoneLater(if turns[0].Woken? then turns[0].after else s.clock, t.clock, turns[1..]);
      StepNotEmpty(s, turns[0]);
      RunIsSafe(t, turns[1..]);
    }
  }

  /** The bindings of a configuration, registered one after the other; each takes the next number as its id. */
  function Registered(intervals: seq<nat>, times: seq<nat>): Sched
    requires |intervals| == |times|
    decreases |intervals|
  {
    if intervals == [] then Sched([], [], 0)
    else
      var n := |intervals| - 1;
      Add(Registered(intervals[..n], times[..n]), n, intervals[n], times[n])
  }

  /** What stays the same of a job, its tick aside. */
  function Name(j: Job): (nat, nat, nat) {
    (j.id, j.registered, j.interval)
  }

  /** The binding number `name.0` of the configuration, with its interval and the time it was registered. */
  predicate AsRegistered(name: (nat, nat, nat), intervals: seq<nat>, times: seq<nat>) {
    && |intervals| == |times| && name.0 < |intervals|
    && name.1 == times[name.0] && name.2 == intervals[name.0]
  }

  lemma {:induction false} NamesOfMembers(q: seq<Job>, j: Job)
    requires j in q
    ensures Name(j) in Names(q)
  {
    if j != q[0] {
      NamesOfMembers(q[1..], j);
    }
  }

  lemma {:induction false} RegisteredInv(intervals: seq<nat>, times: seq<nat>)
    requires |intervals| == |times| && forall i, k :: 0 <= i <= k < |times| ==> times[i] <= times[k]
    ensures var s := Registered(intervals, times);
            && Inv(s) && s.log == [] && |s.queue| == |intervals|
            && (forall name :: name in Names(s.queue) <==> AsRegistered(name, intervals, times))
            && s.clock == (if times == [] then 0 else times[|times| - 1])
    decreases |intervals|
  {
    hide Inv, Insert, AsRegistered, Names;
    if intervals == [] {
      EmptyInv();
      NoneRegistered();
    } else {
      var n := |intervals| - 1;
      var before := Registered(intervals[..n], times[..n]);
      RegisteredInv(intervals[..n], times[..n]);
      NotYetRegistered(before.queue, intervals[..n], times[..n]);
      AddKeepsInv(before, n, intervals[n], times[n]);
      forall name
        ensures AsRegistered(name, intervals, times) <==>
                  AsRegistered(name, intervals[..n], times[..n]) || name == (n, times[n], intervals[n])
      {
        OneMoreRegistered(name, intervals, times);
      }
    }
  }

  lemma {:induction false} NoneRegistered()
    ensures Names([]) == multiset{} && forall name :: !AsRegistered(name, [], [])
  {
  }

  lemma {:induction false} OneMoreRegistered(name: (nat, nat, nat), intervals: seq<nat>, times: seq<nat>)
    requires |intervals| == |times| > 0
    ensures
      var n := |intervals| - 1;
      AsRegistered(name, intervals, times) <==>
        AsRegistered(name, intervals[..n], times[..n]) || name == (n, times[n], intervals[n])
  {
  }

  lemma {:induction false} NotYetRegistered(q: seq<Job>, intervals: seq<nat>, times: seq<nat>)
    requires forall name :: name in Names(q) <==> AsRegistered(name, intervals, times)
    ensures NoId(q, |intervals|)
  {
    forall j | j in q ensures j.id != |intervals| {
      NamesOfMembers(q, j);
    }
  }

  lemma {:induction false} EmptyInv()
    ensures Inv(Sched([], [], 0))
  {
  }

  /**
   What this means for one binding after any registration and any run: the
   number of its firings, its next tick, and that nothing fired early.
   */
  lemma {:induction false} FiringRate(intervals: seq<nat>, times: seq<nat>, turns: seq<Turn>, j: Job)
    requires |intervals| == |times| > 0 && forall i, k :: 0 <= i <= k < |times| ==> times[i] <= times[k]
    requires MonotoneRun(Registered(intervals, times).clock, turns)
    requires Registered(intervals, times).queue != []
    requires j in Run(Registered(intervals, times), turns).queue
    ensures var t := Run(Registered(intervals, times), turns);
            var fired := Count(t.log, j.id);
            && AsRegistered(Name(j), intervals, times)
            && fired * j.interval <= t.clock - j.registered
            && j.tick >= j.registered + (fired + 1) * j.interval
            && (j.tick == j.registered + (fired + 1) * j.interval <==>
                  forall i :: 0 <= i < |t.log| && t.log[i].id == j.id ==> t.log[i].after <= t.log[i].tick + j.interval)
            && (forall i :: 0 <= i < |t.log| && LastFiring(t.log, i, j.id) ==>
                  var f := t.log[i];
                  j.tick == if f.after > f.tick + j.interval then f.after else f.tick + j.interval)
            && (fired == 0 ==> j.tick == j.registered + j.interval)
            && (forall i :: 0 <= i < |t.log| ==> t.log[i].tick <= t.log[i].now)
  {
    hide Inv, Run, Registered, AsRegistered, Names, LastFiring, Count;
    RegisteredInv(intervals, times);
    RunIsSafe(Registered(intervals, times), turns);
    NamesOfMembers(Run(Registered(intervals, times), turns).queue, j);
    WhatHoldsOf(Run(Registered(intervals, times), turns), j);
  }

  lemma {:induction false} WhatHoldsOf(t: Sched, j: Job)
    requires Inv(t) && j in t.queue
    ensures var fired := Count(t.log, j.id);
            && fired * j.interval <= t.clock - j.registered
            && j.tick >= j.registered + (fired + 1) * j.interval
            && (j.tick == j.registered + (fired + 1) * j.interval <==>
                  forall i :: 0 <= i < |t.log| && t.log[i].id == j.id ==> t.log[i].after <= t.log[i].tick + j.interval)
            && (forall i :: 0 <= i < |t.log| && LastFiring(t.log, i, j.id) ==>
                  var f := t.log[i];
                  j.tick == if f.after > f.tick + j.interval then f.after else f.tick + j.interval)
            && (fired == 0 ==> j.tick == j.registered + j.interval)
            && (forall i :: 0 <= i < |t.log| ==> t.log[i].tick <= t.log[i].now)
  {
    hide Sorted, Distinct, LastFiring, Count;
    if Count(t.log, j.id) == 0 {
      NotFiredYet(t.log, j.id);
    }
  }

  lemma {:induction false} StepNotEmpty(s: Sched, turn: Turn)
    requires s.queue != []
    ensures Step(s, turn).queue != []
  {
  }

  /** The ids fired, in order. */
  function FiredIds(log: seq<Firing>): seq<nat> {
    if log == [] then [] else FiredIds(log[..|log| - 1]) + [log[|log| - 1].id]
  }

  function Ids(q: seq<Job>): (ids: seq<nat>)
    ensures |ids| == |q|
  {
    if q == [] then [] else [q[0].id] + Ids(q[1..])
  }

  function Wakes(turns: seq<Turn>): nat {
    if turns == [] then 0 else (if turns[0].Woken? then 1 else 0) + Wakes(turns[1..])
  }

  lemma {:induction false} DueHeadFires(s: Sched, now: nat, after: nat, n: nat)
    requires Sorted(s.queue) && s.clock <= now <= after
    requires 0 < n <= |s.queue| && s.queue[n - 1].tick <= s.clock
    ensures var t := Step(s, Woken(now, after));
            && |t.queue| == |s.queue|
            && t.queue[..n - 1] == s.queue[1..n]
            && (n > 1 ==> t.queue[n - 2] == s.queue[n - 1])
            && FiredIds(t.log) == FiredIds(s.log) + [s.queue[0].id]
            && t.clock == after
  {
    var j, q := s.queue[0], s.queue[1..];
    var f := Firing(j.id, j.tick, now, after);
    assert (s.log + [f])[..|s.log|] == s.log;
    InsertKeepsPrefix(q, j.(tick := NextTick(j, after)), n - 1);
    if n > 1 {
      var t := Step(s, Woken(now, after));
      assert t.queue[n - 2] == t.queue[..n - 1][n - 2];
    }
  }

  lemma {:induction false} NoIds(q: seq<Job>)
    ensures Ids(q[..0]) == []
  {
  }

  /** The ids of the first places after the head has fired. */
  lemma {:induction false} PlacesMoveUp(q: seq<Job>, q': seq<Job>, n: nat, m: nat)
    requires 0 < n <= |q| == |q'| && q'[..n - 1] == q[1..n] && m < n
    ensures [q[0].id] + Ids(q'[..m]) == Ids(q[..m + 1])
  {
    IdsPrefix(q, m + 1);
    assert q'[..m] == q'[..n - 1][..m];
    assert q[1..m + 1] == q[1..n][..m];
  }

  lemma {:induction false} IdsPrefix(q: seq<Job>, m: nat)
    requires 0 < m <= |q|
    ensures Ids(q[..m]) == [q[0].id] + Ids(q[1..m])
  {
    assert q[..m][1..] == q[1..m];
  }

  /**
   Bounded waiting: once the job at place `n` of the queue is due, the next
   firings are exactly the jobs at the places up to `n`, in queue order, one
   for every time the loop is woken.  So the due job fires after at most all
   others, each of which fires at most once before it.
   */
  lemma {:induction false} DueJobsFireInOrder(s: Sched, turns: seq<Turn>, n: nat)
    requires Inv(s) && MonotoneRun(s.clock, turns)
    requires 0 < n <= |s.queue| && s.queue[n - 1].tick <= s.clock
    requires Wakes(turns) <= n
    ensures FiredIds(Run(s, turns).log) == FiredIds(s.log) + Ids(s.queue[..Wakes(turns)])
    decreases |turns|
  {
    hide Inv, Step, Sorted, Ids, FiredIds;
    if turns == [] {
      NoIds(s.queue);
      assert FiredIds(s.log) + [] == FiredIds(s.log);
    } else {
      var t := Step(s, turns[0]);
      var rest := turns[1..];
      StepKeepsInv(s, turns[0]);
      StepNotEmpty(s, turns[0]);
      match turns[0]
      case Monitor =>
        StepMonitor(s);
        DueJobsFireInOrder(s, rest, n);
      case Woken(now, after) =>
        InvSorted(s);
        DueHeadFires(s, now, after, n);
        var m := Wakes(rest);
        PlacesMoveUp(s.queue, t.queue, n, m);
        if n == 1 {
          NoWakes(t, rest);
          NoIds(t.queue);
        } else {
          DueJobsFireInOrder(t, rest, n - 1);
        }
        Regroup(FiredIds(s.log), [s.queue[0].id], Ids(t.queue[..m]));
    }
  }

  lemma {:induction false} Regroup(a: seq<nat>, b: seq<nat>, c: seq<nat>)
    ensures (a + b) + c == a + (b + c)
  {
  }

  lemma {:induction false} InvSorted(s: Sched)
    requires Inv(s)
    ensures Sorted(s.queue)
  {
  }

  lemma {:induction false} StepMonitor(s: Sched)
    requires s.queue != []
    ensures Step(s, Monitor) == s
  {
  }

  lemma {:induction false} NoWakes(s: Sched, turns: seq<Turn>)
    requires s.queue != [] && Wakes(turns) == 0
    ensures Run(s, turns) == s
    decreases |turns|
  {
    if turns != [] {
      NoWakes(s, turns[1..]);
    }
  }
}
