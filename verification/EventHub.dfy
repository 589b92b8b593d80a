/**
 The Event Hub worker: one checkpoint counter per partition, and three ways to treat a failed event.

 `Partition` is what the worker and the checkpoint store hold for one partition, with a history of every
 event that was delivered for it. A call that ends early leaves the rest of its batch in that history as
 delivered but never attempted, so a checkpoint is a position in what was delivered, not in what was run.
 */
module EventHub {
  import opened Options
  import opened Sequences
  import opened Settlement
  import opened Checkpoints

  type PartitionId = string

  /** One delivered event: how its pipeline run ends, and how a checkpoint write for it would settle. */
  datatype Event = Event(outcome: Outcome, write: Write)

  datatype Config = Config(
    checkpointInterval: int, catchHandlerExceptions: bool, raiseOnFailureStatus: bool,
    atMostOnce: bool, ignoreUnmatchedTopics: bool)

  /** What the worker does with an event: count it, skip it, or stop. */
  datatype Verdict = Count | Skip | Stop

  datatype End = Completed | Stopped | WriteFailed

  datatype Delivery = Delivery(event: Event, attempted: bool)

  /** A checkpoint write for delivery number `at`. */
  datatype Settled = Settled(at: nat, write: Write)

  datatype Partition = Partition(count: nat, log: seq<Delivery>, writes: seq<Settled>)

  // ---------- one event, one batch

  /** The event failed: it threw, or its status is escalated into the same path. */
  predicate Fails(cfg: Config, e: Event) {
    match e.outcome
    case Threw => true
    case Finished(result) =>
      && !cfg.atMostOnce && cfg.raiseOnFailureStatus
      && IsSettledAsFailure(result, cfg.ignoreUnmatchedTopics, Acknowledge)
  }

  function Judge(cfg: Config, e: Event): (v: Verdict)
    ensures !v.Count? <==> Escalates(cfg, e.outcome)
    ensures cfg.atMostOnce || Succeeded(e.outcome) ==> v.Count?
    ensures e.outcome.Threw? && !cfg.atMostOnce ==> v == if cfg.catchHandlerExceptions then Skip else Stop
    ensures cfg.raiseOnFailureStatus ==> (!v.Count? <==> MustRedeliver(StreamPolicy(cfg), e.outcome))
    ensures !v.Count? ==> (v.Stop? <==> StopMode(cfg))
  {
    if !Fails(cfg, e) || cfg.atMostOnce then Count
    else if !cfg.catchHandlerExceptions then Stop
    else Skip
  }

  /** The settlement rule of a stream binding under this configuration. */
  function StreamPolicy(cfg: Config): Policy {
    Policy(cfg.atMostOnce, cfg.ignoreUnmatchedTopics, Acknowledge)
  }

  /** The outcomes that must not count as acknowledged; a failure status is one only where statuses are raised. */
  predicate Escalates(cfg: Config, o: Outcome) {
    MustRedeliver(StreamPolicy(cfg), o) && (o.Threw? || cfg.raiseOnFailureStatus)
  }

  predicate StopMode(cfg: Config) {
    !cfg.catchHandlerExceptions && !cfg.atMostOnce
  }

  predicate SkipMode(cfg: Config) {
    cfg.catchHandlerExceptions && !cfg.atMostOnce
  }

  function Attempt(p: Partition, e: Event): Partition {
    p.(log := p.log + [Delivery(e, true)])
  }

  function Unattempted(events: seq<Event>): (log: seq<Delivery>)
    ensures |log| == |events|
    ensures forall i | 0 <= i < |events| :: log[i] == Delivery(events[i], false)
  {
    seq(|events|, i requires 0 <= i < |events| => Delivery(events[i], false))
  }

  /** The events a call that ended early never came to. */
  function Drop(p: Partition, events: seq<Event>): Partition {
    p.(log := p.log + Unattempted(events))
  }

  predicate ReachesInterval(cfg: Config, p: Partition) {
    p.count + 1 >= cfg.checkpointInterval
  }

  /** The checkpoint write for the last delivery settles: only a resolved one resets the counter. */
  function SettleWrite(p: Partition): (Partition, End)
    requires p.log != []
  {
    var last := |p.log| - 1;
    var write := p.log[last].event.write;
    (Partition(if write.Stored? then 0 else p.count, p.log, p.writes + [Settled(last, write)]),
     if write.Stored? then Completed else WriteFailed)
  }

  function CountLast(cfg: Config, p: Partition): (Partition, End)
    requires p.log != []
  {
    if ReachesInterval(cfg, p) then SettleWrite(p) else (p.(count := p.count + 1), Completed)
  }

  function HandleEvent(cfg: Config, p: Partition, e: Event): (Partition, End) {
    match Judge(cfg, e)
    case Skip => (Attempt(p, e), Completed)
    case Stop => (Attempt(p, e), Stopped)
    case Count => CountLast(cfg, Attempt(p, e))
  }

  /** One call for a partition: the batch in order, up to its end or to the event that ends it early. */
  function HandleBatch(cfg: Config, p: Partition, events: seq<Event>): (Partition, End)
    decreases events
  {
    if events == [] then (p, Completed)
    else
      var (q, end) := HandleEvent(cfg, p, events[0]);
      if end.Completed? then HandleBatch(cfg, q, events[1..]) else (Drop(q, events[1..]), end)
  }

  /** A call runs to its end exactly when it attempts each event, none of them stops it, and every write resolves. */
  lemma {:induction false} CompletesExactlyWhen(cfg: Config, p: Partition, events: seq<Event>)
    ensures var (q, end) := HandleBatch(cfg, p, events);
      && p.log <= q.log && p.writes <= q.writes
      && (end.Completed? <==>
          && (forall i | |p.log| <= i < |q.log| :: q.log[i].attempted && !Judge(cfg, q.log[i].event).Stop?)
          && (forall k | |p.writes| <= k < |q.writes| :: q.writes[k].write == Stored))
      && (end.Stopped? ==> exists i | |p.log| <= i < |q.log| :: q.log[i].attempted && Judge(cfg, q.log[i].event).Stop?)
    decreases events
  {
    if events != [] {
      var (q, end) := HandleEvent(cfg, p, events[0]);
      assert q.log == p.log + [Delivery(events[0], true)];
      if end.Completed? {
        CompletesExactlyWhen(cfg, q, events[1..]);
      } else {
        var dropped := Drop(q, events[1..]);
        assert dropped.log[|p.log|] == Delivery(events[0], true);
        if end.WriteFailed? {
          assert dropped.writes == p.writes + [Settled(|p.log|, events[0].write)];
          assert dropped.writes[|p.writes|].write != Stored;
        }
      }
    }
  }

  /** Consecutive calls for one partition, whatever the ends of the earlier ones. */
  function HandleBatches(cfg: Config, p: Partition, batches: seq<seq<Event>>): Partition
    decreases batches
  {
    if batches == [] then p else HandleBatches(cfg, HandleBatch(cfg, p, batches[0]).0, batches[1..])
  }

  const Fresh := Partition(0, [], [])

  // ---------- the history is what was delivered

  function Events(log: seq<Delivery>): (events: seq<Event>)
    ensures |events| == |log|
    ensures forall i | 0 <= i < |log| :: events[i] == log[i].event
  {
    seq(|log|, i requires 0 <= i < |log| => log[i].event)
  }

  function Concat(batches: seq<seq<Event>>): seq<Event>
    decreases batches
  {
    if batches == [] then [] else batches[0] + Concat(batches[1..])
  }

  lemma {:induction false} BatchIsDelivered(cfg: Config, p: Partition, events: seq<Event>)
    ensures Events(HandleBatch(cfg, p, events).0.log) == Events(p.log) + events
    decreases events
  {
    if events != [] {
      var (q, end) := HandleEvent(cfg, p, events[0]);
      assert Events(q.log) == Events(p.log) + [events[0]];
      assert Events(p.log) + events == Events(q.log) + events[1..];
      if end.Completed? {
        BatchIsDelivered(cfg, q, events[1..]);
      }
    }
  }

  /** Whatever ends early, the history of a partition is all that was delivered for it, in order. */
  lemma {:induction false} HistoryIsWhatWasDelivered(cfg: Config, p: Partition, batches: seq<seq<Event>>)
    ensures Events(HandleBatches(cfg, p, batches).log) == Events(p.log) + Concat(batches)
    decreases batches
  {
    if batches != [] {
      var q := HandleBatch(cfg, p, batches[0]).0;
      BatchIsDelivered(cfg, p, batches[0]);
      HistoryIsWhatWasDelivered(cfg, q, batches[1..]);
      Regroup(Events(p.log), batches[0], Concat(batches[1..]));
    }
  }

  // ---------- the checkpoint writes

  /** How many writes resolved. */
  function Resolved(writes: seq<Settled>): (n: nat)
    ensures n <= |writes|
    decreases |writes|
  {
    if writes == [] then 0
    else Resolved(writes[..|writes| - 1]) + (if writes[|writes| - 1].write.Stored? then 1 else 0)
  }

  /** Where a restart resumes: after the last delivery a landed write names. */
  function Durable(writes: seq<Settled>): nat
    decreases |writes|
  {
    if writes == [] then 0
    else if writes[|writes| - 1].write.Lands() then writes[|writes| - 1].at + 1
    else Durable(writes[..|writes| - 1])
  }

  /** How many writes have not landed since the last one that did. */
  function Missed(writes: seq<Settled>): nat
    decreases |writes|
  {
    if writes == [] || writes[|writes| - 1].write.Lands() then 0
    else 1 + Missed(writes[..|writes| - 1])
  }

  /** The last write that landed was rejected all the same, and so left the counter where it was. */
  predicate LandedUnseen(writes: seq<Settled>)
    decreases |writes|
  {
    writes != [] && (
      var last := writes[|writes| - 1].write;
      if last.Lands() then last.Rejected? else LandedUnseen(writes[..|writes| - 1]))
  }

  lemma OneMoreWrite(writes: seq<Settled>, w: Settled)
    ensures Resolved(writes + [w]) == Resolved(writes) + (if w.write.Stored? then 1 else 0)
    ensures Durable(writes + [w]) == if w.write.Lands() then w.at + 1 else Durable(writes)
    ensures Missed(writes + [w]) == if w.write.Lands() then 0 else 1 + Missed(writes)
    ensures LandedUnseen(writes + [w]) <==> if w.write.Lands() then w.write.Rejected? else LandedUnseen(writes)
  {
    assert (writes + [w])[..|writes|] == writes;
  }

  // ---------- the ledger

  function Interval(cfg: Config): (n: nat)
    ensures n >= 1
  {
    if cfg.checkpointInterval < 1 then 1 else cfg.checkpointInterval
  }

  predicate IsAcknowledged(cfg: Config, d: Delivery) {
    d.attempted && Judge(cfg, d.event).Count?
  }

  /** How many of the deliveries were counted as acknowledged. */
  function Acknowledged(cfg: Config, log: seq<Delivery>): nat
    decreases |log|
  {
    if log == [] then 0
    else Acknowledged(cfg, log[..|log| - 1]) + (if IsAcknowledged(cfg, log[|log| - 1]) then 1 else 0)
  }

  lemma {:induction false} AcknowledgedSplits(cfg: Config, a: seq<Delivery>, b: seq<Delivery>)
    ensures Acknowledged(cfg, a + b) == Acknowledged(cfg, a) + Acknowledged(cfg, b)
    decreases |b|
  {
    if b == [] {
      assert a + b == a;
    } else {
      var init := b[..|b| - 1];
      assert (a + b)[..|a + b| - 1] == a + init;
      AcknowledgedSplits(cfg, a, init);
    }
  }

  lemma {:induction false} NoneAcknowledged(cfg: Config, log: seq<Delivery>)
    requires forall i | 0 <= i < |log| :: !log[i].attempted
    ensures Acknowledged(cfg, log) == 0
    decreases |log|
  {
    if log != [] {
      NoneAcknowledged(cfg, log[..|log| - 1]);
    }
  }

  /** The acknowledged events that `checkpoints` full intervals account for. */
  function Saved(cfg: Config, checkpoints: nat): nat
    decreases checkpoints
  {
    if checkpoints == 0 then 0 else Interval(cfg) + Saved(cfg, checkpoints - 1)
  }

  lemma {:induction false} SavedIsProduct(cfg: Config, checkpoints: nat)
    ensures Saved(cfg, checkpoints) == Interval(cfg) * checkpoints
    decreases checkpoints
  {
    if checkpoints > 0 {
      SavedIsProduct(cfg, checkpoints - 1);
    }
  }

  /** The acknowledged events a restart would replay. */
  function ReplayWindow(cfg: Config, p: Partition): nat
    requires Durable(p.writes) <= |p.log|
  {
    Acknowledged(cfg, p.log[Durable(p.writes)..])
  }

  /**
   Every acknowledged event is in exactly one of three places: in a full interval that ended in a resolved
   write, in the counter, or spent on a rejected write. A rejected write leaves the counter one short of the
   interval, whether it landed or not.
   */
  predicate Balanced(cfg: Config, p: Partition) {
    && p.count < Interval(cfg)
    && Acknowledged(cfg, p.log) == Saved(cfg, Resolved(p.writes)) + p.count + (|p.writes| - Resolved(p.writes))
    && Durable(p.writes) <= |p.log|
    && ReplayWindow(cfg, p) == Missed(p.writes) + (if LandedUnseen(p.writes) then 0 else p.count)
    && (Missed(p.writes) > 0 || LandedUnseen(p.writes) ==> p.count == Interval(cfg) - 1)
  }

  /** Writes are for acknowledged events, each later than the one before. */
  ghost predicate Landings(cfg: Config, p: Partition) {
    && (forall k | 0 <= k < |p.writes| ::
          p.writes[k].at < |p.log| && IsAcknowledged(cfg, p.log[p.writes[k].at]))
    && (forall j, k | 0 <= j < k < |p.writes| :: p.writes[j].at < p.writes[k].at)
  }

  lemma EventKeepsLandings(cfg: Config, p: Partition, e: Event)
    requires Landings(cfg, p)
    ensures Landings(cfg, HandleEvent(cfg, p, e).0)
  {
    assert forall i | 0 <= i < |p.log| :: (p.log + [Delivery(e, true)])[i] == p.log[i];
  }

  lemma DropKeepsLandings(cfg: Config, p: Partition, events: seq<Event>)
    requires Landings(cfg, p)
    ensures Landings(cfg, Drop(p, events))
  {
    assert forall i | 0 <= i < |p.log| :: (p.log + Unattempted(events))[i] == p.log[i];
  }

  lemma DropAcknowledgesNothing(cfg: Config, log: seq<Delivery>, more: seq<Delivery>, n: nat)
    requires n <= |log| && forall i | 0 <= i < |more| :: !more[i].attempted
    ensures Acknowledged(cfg, log + more) == Acknowledged(cfg, log)
    ensures Acknowledged(cfg, (log + more)[n..]) == Acknowledged(cfg, log[n..])
  {
    NoneAcknowledged(cfg, more);
    AcknowledgedSplits(cfg, log, more);
    assert (log + more)[n..] == log[n..] + more;
    AcknowledgedSplits(cfg, log[n..], more);
  }

  lemma DropKeepsBalance(cfg: Config, p: Partition, events: seq<Event>)
    requires Balanced(cfg, p)
    ensures Balanced(cfg, Drop(p, events))
  {
    DropAcknowledgesNothing(cfg, p.log, Unattempted(events), Durable(p.writes));
  }

  lemma AttemptIsCounted(cfg: Config, p: Partition, e: Event)
    requires Durable(p.writes) <= |p.log|
    ensures var one := if Judge(cfg, e).Count? then 1 else 0;
      && Acknowledged(cfg, Attempt(p, e).log) == Acknowledged(cfg, p.log) + one
      && ReplayWindow(cfg, Attempt(p, e)) == ReplayWindow(cfg, p) + one
  {
    var d := Delivery(e, true);
    var n := Durable(p.writes);
    assert (p.log + [d])[..|p.log|] == p.log;
    assert (p.log + [d])[n..] == p.log[n..] + [d];
    assert (p.log[n..] + [d])[..|p.log| - n] == p.log[n..];
  }

  lemma WriteKeepsBalance(cfg: Config, a: Partition)
    requires a.log != [] && Durable(a.writes) <= |a.log|
    requires a.count == Interval(cfg) - 1
    requires Acknowledged(cfg, a.log) == Saved(cfg, Resolved(a.writes)) + a.count + (|a.writes| - Resolved(a.writes)) + 1
    requires ReplayWindow(cfg, a) == Missed(a.writes) + (if LandedUnseen(a.writes) then 0 else a.count) + 1
    ensures Balanced(cfg, SettleWrite(a).0)
  {
    var last := |a.log| - 1;
    var w := Settled(last, a.log[last].event.write);
    var q := SettleWrite(a).0;
    OneMoreWrite(a.writes, w);
    assert q.log == a.log && q.writes == a.writes + [w];
    if w.write.Lands() {
      assert q.log[last + 1..] == [] && ReplayWindow(cfg, q) == 0;
    } else {
      assert ReplayWindow(cfg, q) == ReplayWindow(cfg, a);
    }
  }

  lemma EventKeepsBalance(cfg: Config, p: Partition, e: Event)
    requires Balanced(cfg, p)
    ensures Balanced(cfg, HandleEvent(cfg, p, e).0)
  {
    AttemptIsCounted(cfg, p, e);
    if Judge(cfg, e).Count? && ReachesInterval(cfg, p) {
      WriteKeepsBalance(cfg, Attempt(p, e));
    }
  }

  lemma {:induction false} BatchKeepsBalance(cfg: Config, p: Partition, events: seq<Event>)
    requires Balanced(cfg, p) && Landings(cfg, p)
    ensures Balanced(cfg, HandleBatch(cfg, p, events).0) && Landings(cfg, HandleBatch(cfg, p, events).0)
    decreases events
  {
    if events != [] {
      EventKeepsBalance(cfg, p, events[0]);
      EventKeepsLandings(cfg, p, events[0]);
      var (q, end) := HandleEvent(cfg, p, events[0]);
      if end.Completed? {
        BatchKeepsBalance(cfg, q, events[1..]);
      } else {
        DropKeepsBalance(cfg, q, events[1..]);
        DropKeepsLandings(cfg, q, events[1..]);
      }
    }
  }

  lemma {:induction false} BatchesKeepBalance(cfg: Config, p: Partition, batches: seq<seq<Event>>)
    requires Balanced(cfg, p) && Landings(cfg, p)
    ensures Balanced(cfg, HandleBatches(cfg, p, batches)) && Landings(cfg, HandleBatches(cfg, p, batches))
    decreases batches
  {
    if batches != [] {
      BatchKeepsBalance(cfg, p, batches[0]);
      BatchesKeepBalance(cfg, HandleBatch(cfg, p, batches[0]).0, batches[1..]);
    }
  }

  lemma FreshIsBalanced(cfg: Config)
    ensures Balanced(cfg, Fresh) && Landings(cfg, Fresh)
  {
  }

  /** The ledger over any run of a fresh partition, for every interval setting. */
  lemma Ledger(cfg: Config, batches: seq<seq<Event>>)
    ensures var p := HandleBatches(cfg, Fresh, batches);
      && Acknowledged(cfg, p.log) == Interval(cfg) * Resolved(p.writes) + p.count + (|p.writes| - Resolved(p.writes))
      && p.count < Interval(cfg)
      && (forall k | 0 <= k < |p.writes| ::
            p.writes[k].at < |p.log| && IsAcknowledged(cfg, p.log[p.writes[k].at]))
      && (forall j, k | 0 <= j < k < |p.writes| :: p.writes[j].at < p.writes[k].at)
  {
    FreshIsBalanced(cfg);
    BatchesKeepBalance(cfg, Fresh, batches);
    SavedIsProduct(cfg, Resolved(HandleBatches(cfg, Fresh, batches).writes));
  }

  /**
   A restart replays at most interval - 1 acknowledged events exactly when every write since the last landed
   one has landed, with one exception: a landed write that was rejected leaves a full counter, and from then
   on each miss costs one event.
   */
  lemma ReplayBoundHoldsExactlyWhen(cfg: Config, batches: seq<seq<Event>>)
    ensures var p := HandleBatches(cfg, Fresh, batches);
      && Durable(p.writes) <= |p.log|
      && ReplayWindow(cfg, p) == Missed(p.writes) + (if LandedUnseen(p.writes) then 0 else p.count)
      && (ReplayWindow(cfg, p) <= Interval(cfg) - 1 <==>
          Missed(p.writes) == 0 || (LandedUnseen(p.writes) && Missed(p.writes) < Interval(cfg)))
  {
    FreshIsBalanced(cfg);
    BatchesKeepBalance(cfg, Fresh, batches);
  }

  function Succeeding(write: Write): Event {
    Event(Finished(None), write)
  }

  /** A lost write widens the window: with an interval of 2, both events of this call are replayed. */
  lemma LostWriteWidensTheWindow(cfg: Config)
    requires cfg.checkpointInterval == 2
    ensures var lost := Succeeding(Rejected(false, false));
      var p := HandleBatches(cfg, Fresh, [[lost, lost]]);
      Durable(p.writes) == 0 && Missed(p.writes) == 1 && ReplayWindow(cfg, p) == 2 > Interval(cfg) - 1
  {
    var lost := Succeeding(Rejected(false, false));
    assert Judge(cfg, lost).Count?;
    var d := Delivery(lost, true);
    var one := Partition(1, [d], []);
    var two := Partition(1, [d, d], [Settled(1, lost.write)]);
    assert Attempt(Fresh, lost).log == one.log && Attempt(one, lost).log == two.log;
    assert one.writes + [Settled(1, lost.write)] == two.writes;
    assert HandleEvent(cfg, Fresh, lost) == (one, Completed);
    assert HandleEvent(cfg, one, lost) == (two, WriteFailed);
    assert [lost, lost][1..] == [lost] && [lost][1..] == [] && two.log + Unattempted([]) == two.log;
    assert HandleBatch(cfg, one, [lost]) == (two, WriteFailed);
    assert HandleBatch(cfg, Fresh, [lost, lost]) == (two, WriteFailed);
    assert [[lost, lost]][1..] == [];
    ReplayBoundHoldsExactlyWhen(cfg, [[lost, lost]]);
  }

  // ---------- what a checkpoint covers

  /** What should hold of every delivery a restart no longer replays. */
  datatype Promise = Attempted | Acked

  predicate Kept(cfg: Config, promise: Promise, d: Delivery) {
    d.attempted && (promise.Acked? ==> Judge(cfg, d.event).Count?)
  }

  ghost predicate AllKept(cfg: Config, promise: Promise, log: seq<Delivery>) {
    forall i | 0 <= i < |log| :: Kept(cfg, promise, log[i])
  }

  /** Every delivery before the durable checkpoint was kept. */
  ghost predicate Honoured(cfg: Config, promise: Promise, p: Partition) {
    Durable(p.writes) <= |p.log| && AllKept(cfg, promise, p.log[..Durable(p.writes)])
  }

  /** The promises a configuration makes: a worker that skips failed events only attempts them. */
  predicate Makes(cfg: Config, promise: Promise) {
    promise.Acked? ==> !SkipMode(cfg)
  }

  /** The call stops at a failed event, or a stop or a rejected write ends it before its last event. */
  predicate LeavesGap(cfg: Config, promise: Promise, p: Partition, events: seq<Event>)
    decreases events
  {
    events != [] && (
      var (q, end) := HandleEvent(cfg, p, events[0]);
      match end
      case Completed => LeavesGap(cfg, promise, q, events[1..])
      case Stopped => promise.Acked? || events[1..] != []
      case WriteFailed => events[1..] != [])
  }

  /** From the counter and the events alone: whether a call lands a checkpoint, and the counter it leaves. */
  function Scan(cfg: Config, count: nat, events: seq<Event>): (bool, nat)
    decreases events
  {
    if events == [] then (false, count)
    else
      match Judge(cfg, events[0])
      case Skip => Scan(cfg, count, events[1..])
      case Stop => (false, count)
      case Count =>
        if count + 1 < cfg.checkpointInterval then Scan(cfg, count + 1, events[1..])
        else (events[0].write.Lands(), count)
  }

  predicate LandsLater(cfg: Config, count: nat, batches: seq<seq<Event>>)
    decreases batches
  {
    batches != [] && (
      var (lands, next) := Scan(cfg, count, batches[0]);
      lands || LandsLater(cfg, next, batches[1..]))
  }

  /** Some call leaves a gap and a later one lands a checkpoint. */
  predicate PassesGap(cfg: Config, promise: Promise, p: Partition, batches: seq<seq<Event>>)
    decreases batches
  {
    batches != [] && (
      var q := HandleBatch(cfg, p, batches[0]).0;
      if LeavesGap(cfg, promise, p, batches[0]) then LandsLater(cfg, q.count, batches[1..])
      else PassesGap(cfg, promise, q, batches[1..]))
  }

  /** A call adds to the history, and moves the durable checkpoint into what it added or not at all. */
  ghost predicate Extends(p: Partition, q: Partition, lands: bool) {
    && p.log <= q.log
    && Durable(q.writes) <= |q.log|
    && (if lands then |p.log| < Durable(q.writes) else Durable(q.writes) == Durable(p.writes))
  }

  lemma ExtendsOnwards(p: Partition, q: Partition, r: Partition, first: bool, second: bool)
    requires Extends(p, q, first) && Extends(q, r, second)
    ensures Extends(p, r, first || second)
  {
  }

  lemma EventExtends(cfg: Config, p: Partition, e: Event)
    requires Durable(p.writes) <= |p.log|
    ensures var (q, end) := HandleEvent(cfg, p, e);
      && Extends(p, q, Judge(cfg, e).Count? && ReachesInterval(cfg, p) && e.write.Lands())
      && (end.Completed? && Judge(cfg, e).Count? && ReachesInterval(cfg, p) ==> e.write.Lands())
      && |q.log| == |p.log| + 1 && q.log[|p.log|] == Delivery(e, true)
  {
    OneMoreWrite(p.writes, Settled(|p.log|, e.write));
  }

  lemma DropExtends(p: Partition, events: seq<Event>)
    requires Durable(p.writes) <= |p.log|
    ensures Extends(p, Drop(p, events), false)
  {
  }

  /** A call lands a checkpoint exactly when the scan of its events says so. */
  lemma {:induction false} ScanIsExact(cfg: Config, p: Partition, events: seq<Event>)
    requires Durable(p.writes) <= |p.log|
    ensures Extends(p, HandleBatch(cfg, p, events).0, Scan(cfg, p.count, events).0)
    ensures !Scan(cfg, p.count, events).0 ==> HandleBatch(cfg, p, events).0.count == Scan(cfg, p.count, events).1
    decreases events
  {
    if events != [] {
      var e := events[0];
      var (q, end) := HandleEvent(cfg, p, e);
      EventExtends(cfg, p, e);
      var now := Judge(cfg, e).Count? && ReachesInterval(cfg, p) && e.write.Lands();
      if end.Completed? {
        ScanIsExact(cfg, q, events[1..]);
        ExtendsOnwards(p, q, HandleBatch(cfg, p, events).0, now, Scan(cfg, q.count, events[1..]).0);
      } else {
        DropExtends(q, events[1..]);
        ExtendsOnwards(p, q, HandleBatch(cfg, p, events).0, now, false);
      }
    }
  }

  lemma {:induction false} LandsLaterIsExact(cfg: Config, p: Partition, batches: seq<seq<Event>>)
    requires Durable(p.writes) <= |p.log|
    ensures Extends(p, HandleBatches(cfg, p, batches), LandsLater(cfg, p.count, batches))
    decreases batches
  {
    if batches != [] {
      var q := HandleBatch(cfg, p, batches[0]).0;
      ScanIsExact(cfg, p, batches[0]);
      LandsLaterIsExact(cfg, q, batches[1..]);
      var (lands, next) := Scan(cfg, p.count, batches[0]);
      ExtendsOnwards(p, q, HandleBatches(cfg, p, batches), lands, LandsLater(cfg, q.count, batches[1..]));
    }
  }

  lemma OneMoreKept(cfg: Config, promise: Promise, log: seq<Delivery>, d: Delivery)
    requires AllKept(cfg, promise, log)
    ensures AllKept(cfg, promise, log + [d]) <==> Kept(cfg, promise, d)
  {
    assert (log + [d])[|log|] == d;
  }

  lemma PrefixIsKept(cfg: Config, promise: Promise, log: seq<Delivery>, n: nat)
    requires n <= |log| && AllKept(cfg, promise, log)
    ensures AllKept(cfg, promise, log[..n])
  {
  }

  lemma EventKeepsPromise(cfg: Config, promise: Promise, p: Partition, e: Event)
    requires Makes(cfg, promise) && Durable(p.writes) <= |p.log| && AllKept(cfg, promise, p.log)
    ensures var (q, end) := HandleEvent(cfg, p, e);
      && Honoured(cfg, promise, q)
      && (AllKept(cfg, promise, q.log) <==> !(promise.Acked? && end.Stopped?))
  {
    var (q, end) := HandleEvent(cfg, p, e);
    EventExtends(cfg, p, e);
    OneMoreKept(cfg, promise, p.log, Delivery(e, true));
    assert q.log == p.log + [Delivery(e, true)];
    if Durable(q.writes) <= |p.log| {
      assert q.log[..Durable(q.writes)] == p.log[..Durable(q.writes)];
      PrefixIsKept(cfg, promise, p.log, Durable(q.writes));
    } else {
      PrefixIsKept(cfg, promise, q.log, Durable(q.writes));
    }
  }

  lemma DropLeavesGap(cfg: Config, promise: Promise, p: Partition, events: seq<Event>)
    requires Honoured(cfg, promise, p)
    ensures Honoured(cfg, promise, Drop(p, events))
    ensures AllKept(cfg, promise, Drop(p, events).log) <==> AllKept(cfg, promise, p.log) && events == []
  {
    var log := p.log + Unattempted(events);
    assert log[..Durable(p.writes)] == p.log[..Durable(p.writes)];
    assert forall i | 0 <= i < |p.log| :: log[i] == p.log[i];
    if events != [] {
      assert !Kept(cfg, promise, log[|p.log|]);
    }
  }

  /** A call that starts without a gap checkpoints nothing past one, and ends with one exactly when it leaves one. */
  lemma {:induction false} GapIsExact(cfg: Config, promise: Promise, p: Partition, events: seq<Event>)
    requires Makes(cfg, promise) && Durable(p.writes) <= |p.log| && AllKept(cfg, promise, p.log)
    ensures Honoured(cfg, promise, HandleBatch(cfg, p, events).0)
    ensures AllKept(cfg, promise, HandleBatch(cfg, p, events).0.log) <==> !LeavesGap(cfg, promise, p, events)
    decreases events
  {
    if events != [] {
      EventKeepsPromise(cfg, promise, p, events[0]);
      var (q, end) := HandleEvent(cfg, p, events[0]);
      if end.Completed? {
        GapIsExact(cfg, promise, q, events[1..]);
      } else {
        DropLeavesGap(cfg, promise, q, events[1..]);
      }
    }
  }

  lemma PastAGap(cfg: Config, promise: Promise, p: Partition, q: Partition, lands: bool)
    requires Honoured(cfg, promise, p) && !AllKept(cfg, promise, p.log) && Extends(p, q, lands)
    ensures Honoured(cfg, promise, q) <==> !lands
  {
    var gap :| 0 <= gap < |p.log| && !Kept(cfg, promise, p.log[gap]);
    if lands {
      assert q.log[..Durable(q.writes)][gap] == p.log[gap];
    } else {
      assert q.log[..Durable(q.writes)] == p.log[..Durable(p.writes)];
    }
  }

  lemma {:induction false} HonouredExactlyWhen(cfg: Config, promise: Promise, p: Partition, batches: seq<seq<Event>>)
    requires Makes(cfg, promise) && Durable(p.writes) <= |p.log| && AllKept(cfg, promise, p.log)
    ensures Honoured(cfg, promise, HandleBatches(cfg, p, batches)) <==> !PassesGap(cfg, promise, p, batches)
    decreases batches
  {
    if batches != [] {
      var q := HandleBatch(cfg, p, batches[0]).0;
      GapIsExact(cfg, promise, p, batches[0]);
      if LeavesGap(cfg, promise, p, batches[0]) {
        LandsLaterIsExact(cfg, q, batches[1..]);
        PastAGap(cfg, promise, q, HandleBatches(cfg, p, batches), LandsLater(cfg, q.count, batches[1..]));
      } else {
        HonouredExactlyWhen(cfg, promise, q, batches[1..]);
      }
    }
  }

  /**
   What a checkpoint covers, over every run: all deliveries up to it were attempted, or acknowledged where no
   failed event is skipped, exactly when no call that lands a checkpoint follows one that left a gap.
   */
  lemma CheckpointsCoverExactlyWhen(cfg: Config, promise: Promise, batches: seq<seq<Event>>)
    requires Makes(cfg, promise)
    ensures var p := HandleBatches(cfg, Fresh, batches);
      && Events(p.log) == Concat(batches)
      && (Honoured(cfg, promise, p) <==> !PassesGap(cfg, promise, Fresh, batches))
  {
    HistoryIsWhatWasDelivered(cfg, Fresh, batches);
    HonouredExactlyWhen(cfg, promise, Fresh, batches);
  }

  lemma TwoCalls(cfg: Config, p: Partition, a: seq<Event>, b: seq<Event>)
    ensures HandleBatches(cfg, p, [a, b]) == HandleBatch(cfg, HandleBatch(cfg, p, a).0, b).0
    ensures LeavesGap(cfg, Attempted, p, a) ==>
      (PassesGap(cfg, Attempted, p, [a, b]) <==> Scan(cfg, HandleBatch(cfg, p, a).0.count, b).0)
  {
    assert [a, b][1..] == [b] && [b][1..] == [];
    var q := HandleBatch(cfg, p, a).0;
    assert HandleBatches(cfg, q, [b]) == HandleBatch(cfg, q, b).0;
    assert LandsLater(cfg, q.count, [b]) == Scan(cfg, q.count, b).0;
  }

  lemma LostFirstWrite(cfg: Config, first: Event, hidden: Event)
    requires cfg.checkpointInterval <= 1 && first == Succeeding(Rejected(false, false))
    ensures HandleBatch(cfg, Fresh, [first, hidden])
         == (Partition(0, [Delivery(first, true), Delivery(hidden, false)], [Settled(0, first.write)]), WriteFailed)
    ensures LeavesGap(cfg, Attempted, Fresh, [first, hidden])
  {
    assert [first, hidden][1..] == [hidden];
    assert Judge(cfg, first).Count?;
    var one := Partition(0, [Delivery(first, true)], [Settled(0, first.write)]);
    assert Attempt(Fresh, first).log == one.log && Fresh.writes + [Settled(0, first.write)] == one.writes;
    assert HandleEvent(cfg, Fresh, first) == (one, WriteFailed);
    assert one.log + Unattempted([hidden]) == [Delivery(first, true), Delivery(hidden, false)];
  }

  /**
   In either mode: the write for the first event is lost, so the second is never run, and the next call
   checkpoints past it.
   */
  lemma LostWriteHidesEvent(cfg: Config, hidden: Event)
    requires cfg.checkpointInterval <= 1
    ensures var batches := [[Succeeding(Rejected(false, false)), hidden], [Succeeding(Stored)]];
      var p := HandleBatches(cfg, Fresh, batches);
      && |p.log| == 3 && p.log[1] == Delivery(hidden, false) && Durable(p.writes) == 3
      && PassesGap(cfg, Attempted, Fresh, batches) && !Honoured(cfg, Attempted, p)
  {
    var a, b := [Succeeding(Rejected(false, false)), hidden], [Succeeding(Stored)];
    LostFirstWrite(cfg, a[0], hidden);
    TwoCalls(cfg, Fresh, a, b);
    var q := HandleBatch(cfg, Fresh, a).0;
    assert Durable(q.writes) == 0 && Scan(cfg, q.count, b).0;
    ScanIsExact(cfg, q, b);
    BatchIsDelivered(cfg, q, b);
    var p := HandleBatches(cfg, Fresh, [a, b]);
    assert |p.log| == |Events(p.log)| == 3;
    CheckpointsCoverExactlyWhen(cfg, Attempted, [a, b]);
  }

  // ---------- stop mode

  /** No call but the last stops or loses a write before its last event. */
  predicate NoGapBeforeLast(cfg: Config, promise: Promise, p: Partition, batches: seq<seq<Event>>)
    decreases batches
  {
    |batches| <= 1 || (
      && !LeavesGap(cfg, promise, p, batches[0])
      && NoGapBeforeLast(cfg, promise, HandleBatch(cfg, p, batches[0]).0, batches[1..]))
  }

  lemma {:induction false} LastCallPassesNothing(cfg: Config, promise: Promise, p: Partition, batches: seq<seq<Event>>)
    requires NoGapBeforeLast(cfg, promise, p, batches)
    ensures !PassesGap(cfg, promise, p, batches)
    decreases batches
  {
    if |batches| > 1 {
      LastCallPassesNothing(cfg, promise, HandleBatch(cfg, p, batches[0]).0, batches[1..]);
    } else if |batches| == 1 {
      assert batches[1..] == [];
    }
  }

  /**
   At-least-once: a partition that gets no call after one that stopped or lost a write midway never
   checkpoints at or past a failed event; everything delivered up to a checkpoint was acknowledged.
   */
  lemma StopModeNeverPassesFailure(cfg: Config, batches: seq<seq<Event>>)
    requires StopMode(cfg) && NoGapBeforeLast(cfg, Acked, Fresh, batches)
    ensures Honoured(cfg, Acked, HandleBatches(cfg, Fresh, batches))
    ensures var p := HandleBatches(cfg, Fresh, batches);
      forall i | 0 <= i < Durable(p.writes) <= |p.log| ::
        p.log[i].attempted && !p.log[i].event.outcome.Threw?
        && (cfg.raiseOnFailureStatus ==> !MustRedeliver(StreamPolicy(cfg), p.log[i].event.outcome))
  {
    LastCallPassesNothing(cfg, Acked, Fresh, batches);
    CheckpointsCoverExactlyWhen(cfg, Acked, batches);
    var p := HandleBatches(cfg, Fresh, batches);
    forall i | 0 <= i < Durable(p.writes)
      ensures Kept(cfg, Acked, p.log[i])
    {
      assert p.log[i] == p.log[..Durable(p.writes)][i];
    }
  }

  /** The batch starts with enough acknowledged events to fill the interval, and that write lands. */
  predicate FillsInterval(cfg: Config, count: nat, events: seq<Event>)
    requires count < Interval(cfg)
  {
    var need := Interval(cfg) - count;
    && need <= |events|
    && (forall j | 0 <= j < need :: Judge(cfg, events[j]).Count?)
    && events[need - 1].write.Lands()
  }

  lemma FillsIntervalLater(cfg: Config, count: nat, events: seq<Event>)
    requires count + 1 < Interval(cfg)
    requires events != [] && Judge(cfg, events[0]).Count?
    ensures FillsInterval(cfg, count, events) <==> FillsInterval(cfg, count + 1, events[1..])
  {
    var need := Interval(cfg) - count;
    if FillsInterval(cfg, count + 1, events[1..]) {
      forall j | 0 <= j < need
        ensures Judge(cfg, events[j]).Count?
      {
        assert j > 0 ==> events[j] == events[1..][j - 1];
      }
    }
  }

  lemma {:induction false} StopModeScan(cfg: Config, count: nat, events: seq<Event>)
    requires StopMode(cfg) && count < Interval(cfg)
    ensures Scan(cfg, count, events).0 <==> FillsInterval(cfg, count, events)
    decreases events
  {
    if events != [] && Judge(cfg, events[0]).Count? && count + 1 < cfg.checkpointInterval {
      StopModeScan(cfg, count + 1, events[1..]);
      FillsIntervalLater(cfg, count, events);
    }
  }

  /** In stop mode a call lands a checkpoint exactly when its first events fill the interval. */
  lemma FirstCheckpoint(cfg: Config, p: Partition, events: seq<Event>)
    requires StopMode(cfg) && p.count < Interval(cfg) && Durable(p.writes) <= |p.log|
    ensures Durable(HandleBatch(cfg, p, events).0.writes) > |p.log| <==> FillsInterval(cfg, p.count, events)
  {
    ScanIsExact(cfg, p, events);
    StopModeScan(cfg, p.count, events);
  }

  /**
   The worker itself never looks at its stop flag: a late call for a partition with a gap checkpoints past it
   exactly when it fills the interval.
   */
  lemma LateCallIsSafeExactlyWhen(cfg: Config, p: Partition, events: seq<Event>)
    requires StopMode(cfg) && p.count < Interval(cfg)
    requires Honoured(cfg, Acked, p) && !AllKept(cfg, Acked, p.log)
    ensures Honoured(cfg, Acked, HandleBatch(cfg, p, events).0) <==> !FillsInterval(cfg, p.count, events)
  {
    ScanIsExact(cfg, p, events);
    StopModeScan(cfg, p.count, events);
    PastAGap(cfg, Acked, p, HandleBatch(cfg, p, events).0, Scan(cfg, p.count, events).0);
  }

  // ---------- how a partition's events are cut into calls

  lemma {:induction false} BatchSplits(cfg: Config, p: Partition, a: seq<Event>, b: seq<Event>)
    ensures var (q, end) := HandleBatch(cfg, p, a);
      HandleBatch(cfg, p, a + b) == if end.Completed? then HandleBatch(cfg, q, b) else (Drop(q, b), end)
    decreases a
  {
    if a == [] {
      assert a + b == b;
    } else {
      assert (a + b)[0] == a[0] && (a + b)[1..] == a[1..] + b;
      var (q, end) := HandleEvent(cfg, p, a[0]);
      if end.Completed? {
        BatchSplits(cfg, q, a[1..], b);
      } else {
        assert Unattempted(a[1..] + b) == Unattempted(a[1..]) + Unattempted(b);
        assert Drop(q, a[1..] + b).log == Drop(Drop(q, a[1..]), b).log;
      }
    }
  }

  /**
   Calls that never stop and whose writes succeed: any split of the events into batches gives the counter,
   the writes and the history of one pass over all of them.
   */
  lemma {:induction false} SplitsDoNotMatter(cfg: Config, p: Partition, batches: seq<seq<Event>>)
    requires HandleBatch(cfg, p, Concat(batches)).1.Completed?
    ensures HandleBatches(cfg, p, batches) == HandleBatch(cfg, p, Concat(batches)).0
    decreases batches
  {
    if batches != [] {
      BatchSplits(cfg, p, batches[0], Concat(batches[1..]));
      SplitsDoNotMatter(cfg, HandleBatch(cfg, p, batches[0]).0, batches[1..]);
    }
  }

  /** Such a pass attempts every event, in order. */
  lemma {:induction false} CompletedMeansAttempted(cfg: Config, p: Partition, events: seq<Event>)
    requires HandleBatch(cfg, p, events).1.Completed?
    ensures var q := HandleBatch(cfg, p, events).0;
      && p.log <= q.log
      && Events(q.log) == Events(p.log) + events
      && (forall i | |p.log| <= i < |q.log| :: q.log[i].attempted)
    decreases events
  {
    BatchIsDelivered(cfg, p, events);
    if events != [] {
      CompletedMeansAttempted(cfg, HandleEvent(cfg, p, events[0]).0, events[1..]);
    }
  }
}
