/**
 The fan-out with a ceiling: every task asks a counting semaphore for a permit, in source order, before its
 body runs, and gives it back when the body ends. A freed permit goes straight to the first waiter.
 */
module BoundedFanOut {
  import opened Options

  /** The semaphore's two fields, and which tasks hold a permit or are through. */
  datatype State = State(permits: nat, waiters: seq<nat>, running: set<nat>, done: set<nat>)

  function Acquire(s: State, task: nat): State {
    if s.permits > 0 then s.(permits := s.permits - 1, running := s.running + {task})
    else s.(waiters := s.waiters + [task])
  }

  /** The first `n` tasks have been created and have asked for a permit. */
  function Created(max: nat, n: nat): State
    decreases n
  {
    if n == 0 then State(max, [], {}, {}) else Acquire(Created(max, n - 1), n - 1)
  }

  /** A running body ends, however it ends, and releases its permit. */
  function Finish(s: State, task: nat): State {
    if task !in s.running then s
    else if s.waiters == [] then
      State(s.permits + 1, [], s.running - {task}, s.done + {task})
    else
      State(s.permits, s.waiters[1..], s.running - {task} + {s.waiters[0]}, s.done + {task})
  }

  function Run(s: State, schedule: seq<nat>): State
    decreases schedule
  {
    if schedule == [] then s else Run(Finish(s, schedule[0]), schedule[1..])
  }

  /**
   Permits are conserved; a task waits only while none is free; each created task is in exactly one place;
   waiters queue in source order, behind everything that has started.
   */
  ghost predicate Fair(max: nat, n: nat, s: State) {
    && s.permits + |s.running| == max
    && (s.waiters != [] ==> s.permits == 0)
    && s.running !! s.done
    && (forall t: nat :: t < n <==> t in s.running || t in s.done || t in s.waiters)
    && (forall i, j | 0 <= i < j < |s.waiters| :: s.waiters[i] < s.waiters[j])
    && (forall t, j | t in s.running && 0 <= j < |s.waiters| :: t < s.waiters[j])
    && (forall t, j | t in s.done && 0 <= j < |s.waiters| :: t < s.waiters[j])
  }

  lemma AcquireKeepsFair(max: nat, n: nat, s: State)
    requires Fair(max, n, s)
    ensures Fair(max, n + 1, Acquire(s, n))
  {
    var t := Acquire(s, n);
    forall j | 0 <= j < |s.waiters| ensures s.waiters[j] < n { assert s.waiters[j] in s.waiters; }
    if s.permits > 0 {
      assert s.waiters == [] && |t.running| == |s.running| + 1;
    } else {
      assert forall x :: x in t.waiters <==> x in s.waiters || x == n;
    }
  }

  lemma FinishKeepsFair(max: nat, n: nat, s: State, task: nat)
    requires Fair(max, n, s)
    ensures Fair(max, n, Finish(s, task))
  {
    if task in s.running && s.waiters != [] {
      var first := s.waiters[0];
      assert first in s.waiters;
      assert forall w :: w in s.waiters <==> w == first || w in s.waiters[1..];
      assert |s.running - {task} + {first}| == |s.running|;
    }
  }

  lemma {:induction false} CreatedIsFair(max: nat, n: nat)
    ensures Fair(max, n, Created(max, n))
    decreases n
  {
    if n > 0 {
      CreatedIsFair(max, n - 1);
      AcquireKeepsFair(max, n - 1, Created(max, n - 1));
    }
  }

  lemma {:induction false} RunKeepsFair(max: nat, n: nat, s: State, schedule: seq<nat>)
    requires Fair(max, n, s)
    ensures Fair(max, n, Run(s, schedule))
    decreases schedule
  {
    if schedule != [] {
      FinishKeepsFair(max, n, s, schedule[0]);
      RunKeepsFair(max, n, Finish(s, schedule[0]), schedule[1..]);
    }
  }

  /** At no point of any schedule do more than `max` bodies run, and until all tasks are done one of them does. */
  lemma CeilingHoldsWithoutDeadlock(max: nat, n: nat, schedule: seq<nat>)
    requires max > 0
    ensures var s := Run(Created(max, n), schedule);
      && |s.running| <= max
      && (s.running == {} ==> forall t: nat :: t < n <==> t in s.done)
  {
    CreatedIsFair(max, n);
    RunKeepsFair(max, n, Created(max, n), schedule);
    var s := Run(Created(max, n), schedule);
    if s.running == {} {
      assert s.permits == max;
    }
  }

  /** Every entry of the schedule names a task that is running at that point. */
  predicate Effective(s: State, schedule: seq<nat>)
    decreases schedule
  {
    schedule == [] || (schedule[0] in s.running && Effective(Finish(s, schedule[0]), schedule[1..]))
  }

  lemma {:induction false} EffectiveRunFinishes(max: nat, n: nat, s: State, schedule: seq<nat>)
    requires Fair(max, n, s) && Effective(s, schedule)
    ensures |Run(s, schedule).done| == |s.done| + |schedule|
    decreases schedule
  {
    if schedule != [] {
      var t := Finish(s, schedule[0]);
      FinishKeepsFair(max, n, s, schedule[0]);
      assert t.done == s.done + {schedule[0]};
      EffectiveRunFinishes(max, n, t, schedule[1..]);
    }
  }

  /** So after one completion per record, in any order the bodies choose, every record has been processed. */
  lemma EveryRecordIsProcessed(max: nat, n: nat, schedule: seq<nat>)
    requires max > 0 && Effective(Created(max, n), schedule) && |schedule| == n
    ensures forall t: nat :: t < n <==> t in Run(Created(max, n), schedule).done
  {
    CreatedIsFair(max, n);
    CreatedDoesNothing(max, n);
    RunKeepsFair(max, n, Created(max, n), schedule);
    EffectiveRunFinishes(max, n, Created(max, n), schedule);
    var s := Run(Created(max, n), schedule);
    assert s.done <= Below(n);
    SubsetOfSameSize(s.done, Below(n));
  }

  lemma {:induction false} CreatedDoesNothing(max: nat, n: nat)
    ensures Created(max, n).done == {}
    decreases n
  {
    if n > 0 {
      CreatedDoesNothing(max, n - 1);
    }
  }

  function Below(n: nat): (s: set<nat>)
    ensures |s| == n
    ensures forall t: nat :: t in s <==> t < n
    decreases n
  {
    if n == 0 then {} else Below(n - 1) + {n - 1}
  }

  lemma SubsetOfSameSize(a: set<nat>, b: set<nat>)
    requires a <= b && |a| == |b|
    ensures a == b
  {
    assert |b - a| == |b| - |a|;
  }

  // ---------- the object

  class AsyncSemaphore {
    var permits: nat
    var waiters: seq<nat>

    constructor (permits: nat)
      ensures this.permits == permits && waiters == []
    {
      this.permits, waiters := permits, [];
    }

    /** Whether the permit is granted at once; otherwise the task joins the queue. */
    method Acquire(task: nat) returns (granted: bool)
      modifies this
      ensures granted <==> old(permits) > 0
      ensures permits == if granted then old(permits) - 1 else old(permits)
      ensures waiters == if granted then old(waiters) else old(waiters) + [task]
    {
      if permits > 0 {
        permits := permits - 1;
        return true;
      }
      waiters := waiters + [task];
      granted := false;
    }

    /** The task the permit is handed to, if one waits. */
    method Release() returns (woken: seq<nat>)
      modifies this
      ensures woken == old(waiters)[..if old(waiters) == [] then 0 else 1]
      ensures permits == if old(waiters) == [] then old(permits) + 1 else old(permits)
      ensures waiters == old(waiters)[|woken|..]
    {
      if waiters == [] {
        permits := permits + 1;
        return [];
      }
      woken := [waiters[0]];
      waiters := waiters[1..];
    }
  }

  // ---------- the whole fan-out

  /** How the body of one record ends. */
  datatype Body = Returns(value: int) | Throws

  /** What the caller awaits: every value in source order, or the rejection of one task. */
  datatype Joined = Resolved(values: seq<int>) | Rejected(task: nat)

  /** The first task of the schedule whose body throws. */
  function FirstThrow(bodies: seq<Body>, schedule: seq<nat>): (first: Option<nat>)
    ensures first.None? <==> forall t | t in schedule && t < |bodies| :: bodies[t].Returns?
    ensures first.Some? ==> first.value < |bodies| && bodies[first.value].Throws?
    decreases |schedule|
  {
    if schedule == [] then None
    else
      var init, t := schedule[..|schedule| - 1], schedule[|schedule| - 1];
      var before := FirstThrow(bodies, init);
      assert schedule == init + [t];
      if before.Some? then before else if t < |bodies| && bodies[t].Throws? then Some(t) else None
  }

  lemma {:induction false} ThrowsFirst(bodies: seq<Body>, schedule: seq<nat>) returns (k: nat)
    requires FirstThrow(bodies, schedule).Some?
    ensures k < |schedule| && schedule[k] == FirstThrow(bodies, schedule).value
    ensures forall j | 0 <= j < k && schedule[j] < |bodies| :: bodies[schedule[j]].Returns?
    decreases |schedule|
  {
    var init := schedule[..|schedule| - 1];
    if FirstThrow(bodies, init).Some? {
      k := ThrowsFirst(bodies, init);
    } else {
      k := |schedule| - 1;
      assert forall j | 0 <= j < k :: schedule[j] == init[j] && init[j] in init;
    }
  }

  predicate IsBounded(max: Option<int>) {
    max.Some? && max.value > 0
  }

  /** The orders in which `n` bodies may end. */
  predicate Possible(max: Option<int>, n: nat, schedule: seq<nat>) {
    if IsBounded(max) then Effective(Created(max.value, n), schedule) && |schedule| == n
    else (forall j | 0 <= j < |schedule| :: schedule[j] < n) && (forall t: nat | t < n :: t in schedule)
  }

  /** What has been collected after some of the bodies have ended. */
  ghost predicate Collected(bodies: seq<Body>, ended: seq<nat>, values: seq<int>, rejected: Option<nat>) {
    && |values| == |bodies|
    && rejected == FirstThrow(bodies, ended)
    && forall t | t in ended && t < |bodies| && bodies[t].Returns? :: values[t] == bodies[t].value
  }

  /** One more body ends: its value goes to its place, or its rejection is kept if it is the first. */
  method Collect(bodies: seq<Body>, ghost ended: seq<nat>, task: nat, values: seq<int>, rejected: Option<nat>)
    returns (v: seq<int>, r: Option<nat>)
    requires Collected(bodies, ended, values, rejected) && task < |bodies|
    ensures Collected(bodies, ended + [task], v, r)
  {
    ghost var longer := ended + [task];
    assert longer[..|longer| - 1] == ended;
    assert forall t :: t in longer <==> t in ended || t == task;
    v, r := values, rejected;
    match bodies[task]
    case Returns(value) => v := v[task := value];
    case Throws => r := if r.Some? then r else Some(task);
  }

  /** Without a ceiling every body starts at once, and they end in any order. */
  method RunUnbounded(bodies: seq<Body>, schedule: seq<nat>) returns (values: seq<int>, rejected: Option<nat>)
    requires Possible(None, |bodies|, schedule)
    ensures Collected(bodies, schedule, values, rejected)
  {
    values, rejected := seq(|bodies|, _ => 0), None;
    for k := 0 to |schedule|
      invariant Collected(bodies, schedule[..k], values, rejected)
    {
      assert schedule[..k + 1] == schedule[..k] + [schedule[k]];
      values, rejected := Collect(bodies, schedule[..k], schedule[k], values, rejected);
    }
    assert schedule[..|schedule|] == schedule;
  }

  /** Every task asks for its permit up front, in source order; those that get one at once are running. */
  method CreateTasks(semaphore: AsyncSemaphore, max: nat, n: nat) returns (running: set<nat>)
    requires semaphore.permits == max && semaphore.waiters == []
    modifies semaphore
    ensures State(semaphore.permits, semaphore.waiters, running, {}) == Created(max, n)
  {
    running := {};
    for i := 0 to n
      invariant State(semaphore.permits, semaphore.waiters, running, {}) == Created(max, i)
    {
      var granted := semaphore.Acquire(i);
      if granted {
        running := running + {i};
      }
    }
  }

  /** A body ends and releases its permit, which starts the first waiter if there is one. */
  method EndBody(semaphore: AsyncSemaphore, running: set<nat>, ghost done: set<nat>, task: nat) returns (now: set<nat>)
    requires task in running
    modifies semaphore
    ensures State(semaphore.permits, semaphore.waiters, now, done + {task})
         == Finish(State(old(semaphore.permits), old(semaphore.waiters), running, done), task)
  {
    now := running - {task};
    var woken := semaphore.Release();
    if woken != [] {
      now := now + {woken[0]};
    }
  }

  /** With one, each body starts once the semaphore lets it; a body that throws gives its permit back too. */
  method RunBounded(bodies: seq<Body>, max: nat, schedule: seq<nat>) returns (values: seq<int>, rejected: Option<nat>)
    requires max > 0 && Possible(Some(max), |bodies|, schedule)
    ensures Collected(bodies, schedule, values, rejected)
  {
    var n := |bodies|;
    var semaphore := new AsyncSemaphore(max);
    var running := CreateTasks(semaphore, max, n);
    ghost var done := {};
    CreatedIsFair(max, n);
    values, rejected := seq(n, _ => 0), None;
    for k := 0 to |schedule|
      invariant Fair(max, n, State(semaphore.permits, semaphore.waiters, running, done))
      invariant Effective(State(semaphore.permits, semaphore.waiters, running, done), schedule[k..])
      invariant Collected(bodies, schedule[..k], values, rejected)
    {
      ghost var s := State(semaphore.permits, semaphore.waiters, running, done);
      var task := schedule[k];
      NextToEnd(max, n, s, schedule, k);
      values, rejected := Collect(bodies, schedule[..k], task, values, rejected);
      running := EndBody(semaphore, running, done, task);
      done := done + {task};
    }
    assert schedule[..|schedule|] == schedule;
  }

  lemma NextToEnd(max: nat, n: nat, s: State, schedule: seq<nat>, k: nat)
    requires k < |schedule| && Fair(max, n, s) && Effective(s, schedule[k..])
    ensures schedule[k] in s.running && schedule[k] < n
    ensures Fair(max, n, Finish(s, schedule[k])) && Effective(Finish(s, schedule[k]), schedule[k + 1..])
    ensures schedule[..k + 1] == schedule[..k] + [schedule[k]]
  {
    assert schedule[k..][0] == schedule[k] && schedule[k..][1..] == schedule[k + 1..];
    FinishKeepsFair(max, n, s, schedule[k]);
  }

  lemma {:induction false} DoneIsScheduled(max: nat, n: nat, s: State, schedule: seq<nat>, t: nat)
    requires Fair(max, n, s) && Effective(s, schedule)
    ensures t in Run(s, schedule).done <==> t in s.done || t in schedule
    decreases schedule
  {
    if schedule != [] {
      FinishKeepsFair(max, n, s, schedule[0]);
      DoneIsScheduled(max, n, Finish(s, schedule[0]), schedule[1..], t);
      assert schedule == [schedule[0]] + schedule[1..];
    }
  }

  /** In either mode every record's body ends. */
  lemma EveryBodyEnds(max: Option<int>, n: nat, schedule: seq<nat>, t: nat)
    requires Possible(max, n, schedule) && t < n
    ensures t in schedule
  {
    if IsBounded(max) {
      EveryRecordIsProcessed(max.value, n, schedule);
      CreatedIsFair(max.value, n);
      CreatedDoesNothing(max.value, n);
      DoneIsScheduled(max.value, n, Created(max.value, n), schedule, t);
    }
  }

  /**
   The values in source order when every body returns, whatever order they end in; else the rejection of the
   one that throws first, while the others go on.
   */
  method WhenAll(bodies: seq<Body>, max: Option<int>, schedule: seq<nat>) returns (joined: Joined)
    requires Possible(max, |bodies|, schedule)
    ensures joined.Resolved? <==> forall i | 0 <= i < |bodies| :: bodies[i].Returns?
    ensures joined.Resolved? ==>
      && |joined.values| == |bodies|
      && forall i | 0 <= i < |bodies| && bodies[i].Returns? :: joined.values[i] == bodies[i].value
    ensures joined.Rejected? ==> exists k ::
      && 0 <= k < |schedule| && schedule[k] == joined.task < |bodies| && bodies[joined.task].Throws?
      && forall j | 0 <= j < k && schedule[j] < |bodies| :: bodies[schedule[j]].Returns?
  {
    var values, rejected;
    if IsBounded(max) {
      values, rejected := RunBounded(bodies, max.value, schedule);
    } else {
      values, rejected := RunUnbounded(bodies, schedule);
    }
    forall i: nat | i < |bodies|
      ensures i in schedule
    {
      EveryBodyEnds(max, |bodies|, schedule, i);
    }
    if rejected.Some? {
      var k := ThrowsFirst(bodies, schedule);
      joined := Rejected(rejected.value);
    } else {
      joined := Resolved(values);
    }
  }
}
