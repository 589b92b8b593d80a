/**
 The Event Hub worker at work: many partitions sharing one counter map and one stop flag, first as tasks
 that interleave at every await, then as the object whose method handles one call.
 */
module EventHubWorker {
  import opened Settlement
  import opened Checkpoints
  import opened EventHub

  // ---------- interleaved calls

  /** Between awaits a call is about to take its next event, or waits for a checkpoint write. */
  datatype Phase = Ready | Writing

  /** The calls still to be made for a partition (the first is in flight), and what they have done. */
  datatype Task = Task(calls: seq<seq<Event>>, phase: Phase, log: seq<Delivery>, writes: seq<Settled>)

  /** The worker's shared state and every partition's task. */
  datatype World = World(
    counts: map<PartitionId, nat>, tasks: map<PartitionId, Task>, stopInitiated: bool, closes: nat)

  /** A partition seen alone. */
  datatype Local = Local(partition: Partition, calls: seq<seq<Event>>, phase: Phase)

  function CountOf(counts: map<PartitionId, nat>, id: PartitionId): nat {
    if id in counts then counts[id] else 0
  }

  function Seen(w: World, id: PartitionId): Local
    requires id in w.tasks
  {
    var t := w.tasks[id];
    Local(Partition(CountOf(w.counts, id), t.log, t.writes), t.calls, t.phase)
  }

  /** One step of a partition's task on what that partition owns; the flag says whether it stops the worker. */
  function LocalStep(cfg: Config, l: Local): (Local, bool) {
    if l.calls == [] then (l, false)
    else if l.phase.Writing? then
      if l.partition.log == [] then (l, false)
      else
        var (q, end) := SettleWrite(l.partition);
        if end.Completed? then (Local(q, l.calls, Ready), false)
        else (Local(Drop(q, l.calls[0]), l.calls[1..], Ready), false)
    else if l.calls[0] == [] then (l.(calls := l.calls[1..]), false)
    else
      var a := Attempt(l.partition, l.calls[0][0]);
      var rest := [l.calls[0][1..]] + l.calls[1..];
      match Judge(cfg, l.calls[0][0])
      case Skip => (Local(a, rest, Ready), false)
      case Stop => (Local(Drop(a, l.calls[0][1..]), l.calls[1..], Ready), true)
      case Count =>
        if ReachesInterval(cfg, a) then (Local(a, rest, Writing), false)
        else (Local(a.(count := a.count + 1), rest, Ready), false)
  }

  /** The same step on the shared state; a stop closes the subscription unless one already has. */
  function Step(cfg: Config, w: World, id: PartitionId): World {
    if id !in w.tasks then w
    else
      var (l, stops) := LocalStep(cfg, Seen(w, id));
      World(
        w.counts[id := l.partition.count],
        w.tasks[id := Task(l.calls, l.phase, l.partition.log, l.partition.writes)],
        w.stopInitiated || stops,
        if stops && !w.stopInitiated then w.closes + 1 else w.closes)
  }

  function Interleave(cfg: Config, w: World, schedule: seq<PartitionId>): World
    decreases schedule
  {
    if schedule == [] then w else Interleave(cfg, Step(cfg, w, schedule[0]), schedule[1..])
  }

  function Alone(cfg: Config, l: Local, steps: nat): Local
    decreases steps
  {
    if steps == 0 then l else Alone(cfg, LocalStep(cfg, l).0, steps - 1)
  }

  function Turns(schedule: seq<PartitionId>, id: PartitionId): nat
    decreases schedule
  {
    if schedule == [] then 0 else (if schedule[0] == id then 1 else 0) + Turns(schedule[1..], id)
  }

  lemma StepTouchesOne(cfg: Config, w: World, other: PartitionId, id: PartitionId)
    requires id in w.tasks
    ensures id in Step(cfg, w, other).tasks
    ensures Seen(Step(cfg, w, other), id) == if other == id then LocalStep(cfg, Seen(w, id)).0 else Seen(w, id)
  {
  }

  /**
   Partitions do not interfere: under every interleaving, and whatever stops elsewhere, a partition is where
   it would be had it taken its own steps alone.
   */
  lemma {:induction false} PartitionsDoNotInterfere(cfg: Config, w: World, schedule: seq<PartitionId>, id: PartitionId)
    requires id in w.tasks
    ensures id in Interleave(cfg, w, schedule).tasks
    ensures Seen(Interleave(cfg, w, schedule), id) == Alone(cfg, Seen(w, id), Turns(schedule, id))
    decreases schedule
  {
    if schedule != [] {
      StepTouchesOne(cfg, w, schedule[0], id);
      PartitionsDoNotInterfere(cfg, Step(cfg, w, schedule[0]), schedule[1..], id);
    }
  }

  /** Where a partition ends up once its calls are through. */
  function Finish(cfg: Config, l: Local): Partition {
    if l.calls == [] then l.partition
    else if l.phase.Writing? && l.partition.log != [] then
      var (q, end) := SettleWrite(l.partition);
      if end.Completed? then HandleBatches(cfg, q, l.calls)
      else HandleBatches(cfg, Drop(q, l.calls[0]), l.calls[1..])
    else HandleBatches(cfg, l.partition, l.calls)
  }

  lemma FirstEvent(cfg: Config, p: Partition, calls: seq<seq<Event>>)
    requires calls != [] && calls[0] != []
    ensures var (q, end) := HandleEvent(cfg, p, calls[0][0]);
      HandleBatches(cfg, p, calls) ==
        if end.Completed? then HandleBatches(cfg, q, [calls[0][1..]] + calls[1..])
        else HandleBatches(cfg, Drop(q, calls[0][1..]), calls[1..])
  {
    var rest := [calls[0][1..]] + calls[1..];
    assert rest[0] == calls[0][1..] && rest[1..] == calls[1..];
  }

  lemma StepKeepsFinish(cfg: Config, l: Local)
    requires l.phase.Writing? ==> l.partition.log != []
    ensures var next := LocalStep(cfg, l).0;
      && Finish(cfg, next) == Finish(cfg, l)
      && (next.phase.Writing? ==> next.partition.log != [])
  {
    var next := LocalStep(cfg, l).0;
    if l.calls != [] && l.phase.Ready? && l.calls[0] != [] {
      FirstEvent(cfg, l.partition, l.calls);
      var a := Attempt(l.partition, l.calls[0][0]);
      if next.phase.Writing? {
        assert HandleEvent(cfg, l.partition, l.calls[0][0]) == SettleWrite(a);
        assert next.calls[0] == l.calls[0][1..] && next.calls[1..] == l.calls[1..];
      }
      assert next.phase.Ready? ==> Finish(cfg, next) == HandleBatches(cfg, next.partition, next.calls);
    } else if l.calls != [] && l.phase.Ready? {
      assert HandleBatches(cfg, l.partition, l.calls) == HandleBatches(cfg, l.partition, l.calls[1..]);
    }
  }

  lemma {:induction false} StepsKeepFinish(cfg: Config, l: Local, steps: nat)
    requires l.phase.Writing? ==> l.partition.log != []
    ensures Finish(cfg, Alone(cfg, l, steps)) == Finish(cfg, l)
    decreases steps
  {
    if steps > 0 {
      StepKeepsFinish(cfg, l);
      StepsKeepFinish(cfg, LocalStep(cfg, l).0, steps - 1);
    }
  }

  /** A bound on the steps a partition still takes: two an event, one a call, and one for a pending write. */
  function Work(calls: seq<seq<Event>>): nat
    decreases calls
  {
    if calls == [] then 0 else 2 * |calls[0]| + 1 + Work(calls[1..])
  }

  function WorkLeft(l: Local): nat {
    Work(l.calls) + (if l.phase.Writing? && l.calls != [] then 1 else 0)
  }

  lemma StepDoesWork(cfg: Config, l: Local)
    requires l.calls != [] && (l.phase.Writing? ==> l.partition.log != [])
    ensures WorkLeft(LocalStep(cfg, l).0) < WorkLeft(l)
  {
    if l.phase.Ready? && l.calls[0] != [] {
      var rest := [l.calls[0][1..]] + l.calls[1..];
      assert rest[0] == l.calls[0][1..] && rest[1..] == l.calls[1..];
    }
  }

  lemma {:induction false} EnoughStepsSettle(cfg: Config, l: Local, steps: nat)
    requires (l.phase.Writing? ==> l.partition.log != []) && WorkLeft(l) <= steps
    ensures Alone(cfg, l, steps).calls == []
    decreases steps
  {
    if steps > 0 {
      StepKeepsFinish(cfg, l);
      if l.calls != [] {
        StepDoesWork(cfg, l);
      }
      EnoughStepsSettle(cfg, LocalStep(cfg, l).0, steps - 1);
    }
  }

  /** Every partition that gets enough turns settles, whatever the others do. */
  lemma EnoughTurnsSettle(cfg: Config, w: World, schedule: seq<PartitionId>, id: PartitionId)
    requires id in w.tasks && w.tasks[id].phase.Ready?
    requires Turns(schedule, id) >= Work(w.tasks[id].calls)
    ensures id in Interleave(cfg, w, schedule).tasks && Interleave(cfg, w, schedule).tasks[id].calls == []
  {
    PartitionsDoNotInterfere(cfg, w, schedule, id);
    EnoughStepsSettle(cfg, Seen(w, id), Turns(schedule, id));
  }

  /**
   So once a partition's calls have settled, under any interleaving with the other partitions, its counter,
   checkpoints and attempts are those of its own calls made one after the other.
   */
  lemma SettledPartitionIsSequential(cfg: Config, w: World, schedule: seq<PartitionId>, id: PartitionId)
    requires id in w.tasks && w.tasks[id].phase.Ready?
    requires id in Interleave(cfg, w, schedule).tasks ==> Interleave(cfg, w, schedule).tasks[id].calls == []
    ensures id in Interleave(cfg, w, schedule).tasks
    ensures Seen(Interleave(cfg, w, schedule), id).partition
         == HandleBatches(cfg, Seen(w, id).partition, w.tasks[id].calls)
  {
    PartitionsDoNotInterfere(cfg, w, schedule, id);
    StepsKeepFinish(cfg, Seen(w, id), Turns(schedule, id));
  }

  /** From the start of a worker, that is the run of calls whose checkpoints and counter the ledger is about. */
  lemma StartedPartitionIsSequential(
    cfg: Config, w: World, schedule: seq<PartitionId>, id: PartitionId, calls: seq<seq<Event>>)
    requires w.counts == map[] && id in w.tasks && w.tasks[id] == Task(calls, Ready, [], [])
    requires id in Interleave(cfg, w, schedule).tasks ==> Interleave(cfg, w, schedule).tasks[id].calls == []
    ensures id in Interleave(cfg, w, schedule).tasks
    ensures Seen(Interleave(cfg, w, schedule), id).partition == HandleBatches(cfg, Fresh, calls)
  {
    SettledPartitionIsSequential(cfg, w, schedule, id);
  }

  /** And if those calls neither stop nor lose a write, however they are cut they amount to one pass. */
  lemma SettledPartitionIsOnePass(cfg: Config, w: World, schedule: seq<PartitionId>, id: PartitionId)
    requires id in w.tasks && w.tasks[id].phase.Ready?
    requires id in Interleave(cfg, w, schedule).tasks ==> Interleave(cfg, w, schedule).tasks[id].calls == []
    requires HandleBatch(cfg, Seen(w, id).partition, Concat(w.tasks[id].calls)).1.Completed?
    ensures id in Interleave(cfg, w, schedule).tasks
    ensures Seen(Interleave(cfg, w, schedule), id).partition
         == HandleBatch(cfg, Seen(w, id).partition, Concat(w.tasks[id].calls)).0
  {
    SettledPartitionIsSequential(cfg, w, schedule, id);
    SplitsDoNotMatter(cfg, Seen(w, id).partition, w.tasks[id].calls);
  }

  /** Failures close the subscription at most once, in any interleaving: exactly when a stop was initiated. */
  lemma {:induction false} ClosedAtMostOnce(cfg: Config, w: World, schedule: seq<PartitionId>)
    requires w.closes == if w.stopInitiated then 1 else 0
    ensures var t := Interleave(cfg, w, schedule);
      && t.closes == (if t.stopInitiated then 1 else 0)
      && (w.stopInitiated ==> t.stopInitiated)
    decreases schedule
  {
    if schedule != [] {
      ClosedAtMostOnce(cfg, Step(cfg, w, schedule[0]), schedule[1..]);
    }
  }

  predicate EventStops(cfg: Config, w: World) {
    exists id | id in w.tasks :: HasStop(cfg, w.tasks[id].log)
  }

  predicate IsStop(cfg: Config, d: Delivery) {
    d.attempted && Judge(cfg, d.event).Stop?
  }

  predicate HasStop(cfg: Config, log: seq<Delivery>) {
    exists d | d in log :: IsStop(cfg, d)
  }

  /** The worker is stopped exactly when some partition has attempted an event that stops it. */
  lemma {:induction false} StoppedExactlyWhen(cfg: Config, w: World, schedule: seq<PartitionId>)
    requires w.stopInitiated <==> EventStops(cfg, w)
    ensures var t := Interleave(cfg, w, schedule); t.stopInitiated <==> EventStops(cfg, t)
    decreases schedule
  {
    if schedule != [] {
      StepKeepsStopFlag(cfg, w, schedule[0]);
      StoppedExactlyWhen(cfg, Step(cfg, w, schedule[0]), schedule[1..]);
    }
  }

  lemma LocalStepFindsStop(cfg: Config, l: Local)
    ensures var (next, stops) := LocalStep(cfg, l);
      HasStop(cfg, next.partition.log) <==> HasStop(cfg, l.partition.log) || stops
  {
    var log := l.partition.log;
    var (next, stops) := LocalStep(cfg, l);
    if l.calls != [] && l.phase.Writing? && log != [] && !SettleWrite(l.partition).1.Completed? {
      NoStopAmong(cfg, log, Unattempted(l.calls[0]));
    } else if l.calls != [] && l.phase.Ready? && l.calls[0] != [] {
      var d := Delivery(l.calls[0][0], true);
      OneMoreDelivery(cfg, log, d);
      if stops {
        NoStopAmong(cfg, log + [d], Unattempted(l.calls[0][1..]));
      }
    }
  }

  lemma OneMoreDelivery(cfg: Config, log: seq<Delivery>, d: Delivery)
    ensures HasStop(cfg, log + [d]) <==> HasStop(cfg, log) || IsStop(cfg, d)
  {
    assert forall x :: x in log + [d] <==> x in log || x == d;
  }

  lemma NoStopAmong(cfg: Config, log: seq<Delivery>, more: seq<Delivery>)
    requires forall i | 0 <= i < |more| :: !more[i].attempted
    ensures HasStop(cfg, log + more) <==> HasStop(cfg, log)
  {
    assert forall x :: x in log + more <==> x in log || x in more;
  }

  lemma StepKeepsStopFlag(cfg: Config, w: World, id: PartitionId)
    requires w.stopInitiated <==> EventStops(cfg, w)
    ensures Step(cfg, w, id).stopInitiated <==> EventStops(cfg, Step(cfg, w, id))
  {
    if id in w.tasks {
      var t := Step(cfg, w, id);
      LocalStepFindsStop(cfg, Seen(w, id));
      assert forall other | other in w.tasks && other != id :: t.tasks[other] == w.tasks[other];
      assert HasStop(cfg, t.tasks[id].log) <==> HasStop(cfg, w.tasks[id].log) || LocalStep(cfg, Seen(w, id)).1;
      if EventStops(cfg, w) {
        var some :| some in w.tasks && HasStop(cfg, w.tasks[some].log);
        assert some in t.tasks && HasStop(cfg, t.tasks[some].log);
      }
    }
  }

  // ---------- the object

  /** The SDK's per-partition handle, with the history of what came and went through it. */
  class PartitionContext {
    const partitionId: PartitionId
    ghost var log: seq<Delivery>
    ghost var writes: seq<Settled>

    constructor (partitionId: PartitionId)
      ensures this.partitionId == partitionId && log == [] && writes == []
    {
      this.partitionId, log, writes := partitionId, [], [];
    }

    method UpdateCheckpoint(event: Event) returns (resolved: bool)
      requires log != [] && log[|log| - 1] == Delivery(event, true)
      modifies this`writes
      ensures resolved <==> event.write.Stored?
      ensures writes == old(writes) + [Settled(|log| - 1, event.write)]
      ensures Durable(writes) == if event.write.Lands() then |log| else Durable(old(writes))
    {
      OneMoreWrite(writes, Settled(|log| - 1, event.write));
      writes := writes + [Settled(|log| - 1, event.write)];
      resolved := event.write.Stored?;
    }
  }

  class Worker {
    const config: Config
    var uncheckpointedCounts: map<PartitionId, nat>
    var stopInitiated: bool
    var closes: nat

    constructor (config: Config)
      ensures this.config == config && !stopInitiated && closes == 0
      ensures forall context: PartitionContext | context.log == [] && context.writes == [] :: View(context) == Fresh
    {
      this.config := config;
      uncheckpointedCounts, stopInitiated, closes := map[], false, 0;
    }

    ghost function View(context: PartitionContext): Partition
      reads this, context
    {
      Partition(CountOf(uncheckpointedCounts, context.partitionId), context.log, context.writes)
    }

    /** Runs the pipeline for an event; the escalation of a failure status ends in the same catch. */
    method Dispatch(event: Event) returns (failed: bool)
      ensures failed == Fails(config, event)
    {
      match event.outcome
      case Threw => failed := true;
      case Finished(result) =>
        failed := !config.atMostOnce && config.raiseOnFailureStatus
          && IsSettledAsFailure(result, config.ignoreUnmatchedTopics, Acknowledge);
    }

    /** One turn of the loop, on this partition's counter and no other. A rejected checkpoint write leaves the counter as it was. */
    method ProcessEvent(event: Event, context: PartitionContext) returns (end: End)
      modifies this, context
      ensures HandleEvent(config, old(View(context)), event) == (View(context), end)
      ensures forall other | other != context.partitionId ::
        CountOf(uncheckpointedCounts, other) == CountOf(old(uncheckpointedCounts), other)
      ensures stopInitiated == (old(stopInitiated) || end.Stopped?)
      ensures closes == old(closes) + if stopInitiated && !old(stopInitiated) then 1 else 0
    {
      context.log := context.log + [Delivery(event, true)];
      var failed := Dispatch(event);
      if failed && !config.atMostOnce {
        if !config.catchHandlerExceptions {
          InitiateStop();
          return Stopped;
        }
        return Completed;
      }
      var seen := CountOf(uncheckpointedCounts, context.partitionId) + 1;
      if seen >= config.checkpointInterval {
        var resolved := context.UpdateCheckpoint(event);
        if !resolved {
          return WriteFailed;
        }
        uncheckpointedCounts := uncheckpointedCounts[context.partitionId := 0];
      } else {
        uncheckpointedCounts := uncheckpointedCounts[context.partitionId := seen];
      }
      end := Completed;
    }

    /** One call for a partition: a stop or a rejected write ends it early. */
    method OnProcessEvents(events: seq<Event>, context: PartitionContext) returns (end: End)
      modifies this, context
      ensures HandleBatch(config, old(View(context)), events) == (View(context), end)
      ensures forall other | other != context.partitionId ::
        CountOf(uncheckpointedCounts, other) == CountOf(old(uncheckpointedCounts), other)
      ensures stopInitiated == (old(stopInitiated) || end.Stopped?)
      ensures closes == old(closes) + if stopInitiated && !old(stopInitiated) then 1 else 0
    {
      ghost var wanted := HandleBatch(config, View(context), events);
      end := Completed;
      var i := 0;
      while i < |events| && end.Completed?
        invariant 0 <= i <= |events|
        invariant wanted ==
          if end.Completed? then HandleBatch(config, View(context), events[i..])
          else (Drop(View(context), events[i..]), end)
        invariant forall other | other != context.partitionId ::
          CountOf(uncheckpointedCounts, other) == CountOf(old(uncheckpointedCounts), other)
        invariant stopInitiated == (old(stopInitiated) || end.Stopped?)
        invariant closes == old(closes) + if stopInitiated && !old(stopInitiated) then 1 else 0
      {
        assert events[i..][0] == events[i] && events[i..][1..] == events[i + 1..];
        end := ProcessEvent(events[i], context);
        i := i + 1;
      }
      if !end.Completed? {
        context.log := context.log + Unattempted(events[i..]);
      }
    }

    method InitiateStop()
      modifies this`stopInitiated, this`closes
      ensures stopInitiated
      ensures closes == old(closes) + if old(stopInitiated) then 0 else 1
    {
      if stopInitiated {
        return;
      }
      stopInitiated := true;
      closes := closes + 1;
    }
  }
}
