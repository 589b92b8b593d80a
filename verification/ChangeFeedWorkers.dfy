/**
 The objects around the poll loop: the checkpoint store, the processor with its two loop variables, the
 batch checkpointer, and the two workers that decide when a batch counts as done.

 The handler is the environment: a `Batch` says which hook calls it makes, how their writes go, how it
 ends, and whether the processor is being stopped. Each method is proved against a `Dispatch` value, and the
 lemmas say what those values mean for a whole run of the loop.
 */
module ChangeFeedWorkers {
  import opened Options
  import opened Checkpoints
  import opened ChangeFeed

  /** How an awaited call settled. */
  datatype Completion = Returned | Threw(cancelled: bool)

  function Settles(w: Write): Completion {
    if w.Stored? then Returned else Threw(w.cancelled)
  }

  /**
   One batch: the writes of the handler's own hook calls, how the pipeline ends, the writes of the worker's
   first and second hook call should it make them, and whether the stop signal is raised meanwhile.
   */
  datatype Batch = Batch(handlerWrites: seq<Write>, outcome: Completion, first: Write, second: Write, aborted: bool)

  datatype Config = Config(autoCheckpointOnSuccess: bool, catchHandlerExceptions: bool, atMostOnce: bool) {
    predicate Skips() { catchHandlerExceptions || atMostOnce }
  }

  /** Which of the two change-feed modes a processor was created in. */
  datatype Mode = Manual | AllVersions

  // ---------- what a batch means for the loop

  function AfterFailure(cfg: Config, aborted: bool, writes: seq<Write>, cancelled: bool, retry: Write): Dispatch {
    if aborted && cancelled then Dispatch(writes, false)
    else if cfg.Skips() then Dispatch(writes + [retry], retry.Stored?)
    else Dispatch(writes, false)
  }

  function ManualDispatch(cfg: Config, b: Batch): Dispatch {
    match b.outcome
    case Threw(cancelled) => AfterFailure(cfg, b.aborted, b.handlerWrites, cancelled, b.first)
    case Returned =>
      if Stored in b.handlerWrites || !cfg.autoCheckpointOnSuccess then Dispatch(b.handlerWrites, true)
      else if b.first.Stored? then Dispatch(b.handlerWrites + [b.first], true)
      else AfterFailure(cfg, b.aborted, b.handlerWrites + [b.first], b.first.cancelled, b.second)
  }

  /** The all-versions handler gets no hook; the processor persists once it has returned. */
  function AllVersionsDispatch(cfg: Config, b: Batch): Dispatch {
    if b.outcome.Threw? && ((b.aborted && b.outcome.cancelled) || !cfg.Skips()) then Dispatch([], false)
    else Dispatch([b.first], b.first.Stored?)
  }

  function DispatchIn(mode: Mode, cfg: Config, b: Batch): Dispatch {
    if mode.Manual? then ManualDispatch(cfg, b) else AllVersionsDispatch(cfg, b)
  }

  /** One pass of a worker's loop: the read, the batch it would dispatch, and whether a stop follows. */
  datatype Pass = Pass(response: Response, tail: nat, later: nat, batch: Batch, stop: bool)

  datatype WorkerEvent = Passed(pass: Pass) | Rebooted(tail: nat)

  function PollOf(mode: Mode, cfg: Config, p: Pass): Poll {
    Poll(p.response, p.tail, p.later, DispatchIn(mode, cfg, p.batch))
  }

  function EventOf(mode: Mode, cfg: Config, e: WorkerEvent): Event {
    match e
    case Passed(p) => Polled(PollOf(mode, cfg, p))
    case Rebooted(tail) => Restarted(tail)
  }

  function EventsOf(mode: Mode, cfg: Config, es: seq<WorkerEvent>): (events: seq<Event>)
    ensures |events| == |es|
    decreases es
  {
    if es == [] then [] else [EventOf(mode, cfg, es[0])] + EventsOf(mode, cfg, es[1..])
  }

  // ---------- one batch

  /**
   With auto-checkpoint on, a batch that is dispatched without an error has reached the store, whoever made
   the call: the handler, the worker after it, or skip mode. The all-versions mode has no other setting.
   */
  lemma ReturningMeansStored(mode: Mode, cfg: Config, b: Batch)
    requires mode.Manual? ==> cfg.autoCheckpointOnSuccess
    requires DispatchIn(mode, cfg, b).returned
    ensures Stored in DispatchIn(mode, cfg, b).writes
    ensures Landed(DispatchIn(mode, cfg, b).writes)
  {
    var writes := DispatchIn(mode, cfg, b).writes;
    assert Stored in writes;
    assert Stored.Lands();
  }

  /** So every page dispatched without an error leaves the durable token exactly at the page's end. */
  lemma ReturnedPageIsDurable(
    mode: Mode, cfg: Config, feed: seq<Change>, start: StartFrom, s: State, p: Pass)
    requires mode.Manual? ==> cfg.autoCheckpointOnSuccess
    ensures var t := AfterPoll(feed, start, s, PollOf(mode, cfg, p));
      |t.log| > |s.log| && t.log[|s.log|].returned ==>
        t.durable == Some(t.log[|s.log|].End()) && t.checkpointed == t.durable && t.position == t.log[|s.log|].End()
  {
    var t := AfterPoll(feed, start, s, PollOf(mode, cfg, p));
    if |t.log| > |s.log| && t.log[|s.log|].returned {
      ReturningMeansStored(mode, cfg, p.batch);
    }
  }

  /** A batch cancelled by shutdown gets no write from the worker, skip mode or not, and is not passed. */
  lemma CancelledBatchIsNotCheckpointed(mode: Mode, cfg: Config, b: Batch)
    requires b.aborted && b.outcome == Threw(true)
    ensures DispatchIn(mode, cfg, b) == Dispatch(if mode.Manual? then b.handlerWrites else [], false)
  {
  }

  /**
   The worker leaves the store to the handler exactly when the batch succeeded and either the handler's own
   call resolved or auto-checkpoint is off, or when the failure is not one it skips.
   */
  lemma WorkerAddsNoWriteExactlyWhen(cfg: Config, b: Batch)
    ensures ManualDispatch(cfg, b).writes == b.handlerWrites <==>
      if b.outcome.Returned? then Stored in b.handlerWrites || !cfg.autoCheckpointOnSuccess
      else !PassesOver(cfg, b.aborted, b.outcome.cancelled)
    ensures b.handlerWrites <= ManualDispatch(cfg, b).writes
  {
    assert |b.handlerWrites + [b.first]| == |b.handlerWrites| + 1;
    assert |b.handlerWrites + [b.first] + [b.second]| == |b.handlerWrites| + 2;
  }

  /** The worker passes over a failure: a skip setting is on, and the failure is not the shutdown's own. */
  predicate PassesOver(cfg: Config, aborted: bool, cancelled: bool) {
    (cfg.catchHandlerExceptions || cfg.atMostOnce) && !(aborted && cancelled)
  }

  /**
   Which writes a batch makes and when it is done, case by case. A success without a checkpoint of its own gets
   one; any failure after that, the worker's own write included, gets another one exactly when it is passed
   over, and the last write decides. The all-versions mode has the one write of a batch that is done.
   */
  lemma WritesByCase(cfg: Config, b: Batch)
    ensures var d := ManualDispatch(cfg, b);
      match b.outcome
      case Threw(cancelled) =>
        if PassesOver(cfg, b.aborted, cancelled) then d == Dispatch(b.handlerWrites + [b.first], b.first == Stored)
        else d == Dispatch(b.handlerWrites, false)
      case Returned =>
        if Stored in b.handlerWrites || !cfg.autoCheckpointOnSuccess then d == Dispatch(b.handlerWrites, true)
        else if b.first == Stored then d == Dispatch(b.handlerWrites + [b.first], true)
        else if !PassesOver(cfg, b.aborted, b.first.cancelled) then d == Dispatch(b.handlerWrites + [b.first], false)
        else d == Dispatch(b.handlerWrites + [b.first] + [b.second], b.second == Stored)
    ensures var d := AllVersionsDispatch(cfg, b);
      if b.outcome.Returned? || PassesOver(cfg, b.aborted, b.outcome.cancelled)
      then d == Dispatch([b.first], b.first == Stored)
      else d == Dispatch([], false)
  {
  }

  /** With no token and the default start, a batch that is not passed over resumes at the feed's end of that time. */
  lemma NowRewindsToTheTail(mode: Mode, cfg: Config, feed: seq<Change>, s: State, p: Pass)
    requires s.checkpointed == None && p.batch.handlerWrites == [] && p.batch.outcome.Threw?
    requires !PassesOver(cfg, p.batch.aborted, p.batch.outcome.cancelled)
    ensures var t := AfterPoll(feed, Now, s, PollOf(mode, cfg, p));
      |t.log| > |s.log| ==> t.position == p.later
  {
  }

  /** Whether the two modes do the same with a batch whose handler makes no hook call of its own. */
  lemma ModesAgreeExactlyWhen(cfg: Config, b: Batch)
    requires cfg.autoCheckpointOnSuccess && b.handlerWrites == []
    ensures ManualDispatch(cfg, b) == AllVersionsDispatch(cfg, b) <==>
      !(b.outcome.Returned? && b.first.Rejected? && PassesOver(cfg, b.aborted, b.first.cancelled))
  {
    assert |[b.first] + [b.second]| == 2;
  }

  // ---------- whole runs

  predicate Quiet(e: WorkerEvent) {
    e.Passed? ==> e.pass.batch.handlerWrites == [] && e.pass.batch.first.Stored?
  }

  /**
   The two modes simulate each other: over every run in which the handler never checkpoints and writes
   succeed, they go through the same states, so the same durable tokens and the same redeliveries.
   */
  lemma {:induction false} ModesSimulateEachOther(
    cfg: Config, feed: seq<Change>, start: StartFrom, s: State, es: seq<WorkerEvent>)
    requires cfg.autoCheckpointOnSuccess
    requires forall e | e in es :: Quiet(e)
    ensures EventsOf(Manual, cfg, es) == EventsOf(AllVersions, cfg, es)
    ensures Run(feed, start, s, EventsOf(Manual, cfg, es)) == Run(feed, start, s, EventsOf(AllVersions, cfg, es))
    decreases es
  {
    if es != [] {
      assert es[0] in es && forall e | e in es[1..] :: e in es;
      if es[0].Passed? {
        ModesAgreeExactlyWhen(cfg, es[0].pass.batch);
      }
      ModesSimulateEachOther(cfg, feed, start, s, es[1..]);
    }
  }

  /** Any batch that would hold change `x` fails, and its handler calls no hook. */
  predicate Poisons(feedLength: nat, x: nat, position: nat, e: WorkerEvent) {
    e.Passed? && e.pass.response.Page?
    && position <= x < PageEnd(Min(e.pass.tail, feedLength), position, e.pass.response.count)
    ==> e.pass.batch.outcome.Threw? && e.pass.batch.handlerWrites == []
  }

  /** Change `x` is poisonous at every point of the run. */
  predicate PoisonedThroughout(
    mode: Mode, cfg: Config, feed: seq<Change>, start: StartFrom, s: State, x: nat, es: seq<WorkerEvent>)
    decreases es
  {
    es == [] || (
      && Poisons(|feed|, x, s.position, es[0])
      && PoisonedThroughout(mode, cfg, feed, start, Next(feed, start, s, EventOf(mode, cfg, es[0])), x, es[1..]))
  }

  /** Neither the iterator nor a token is beyond change `x`. */
  predicate Behind(start: StartFrom, s: State, x: nat) {
    Anchored(start, s) && DurableAt(start, s) <= CheckpointedAt(start, s) <= s.position <= x
  }

  lemma PoisonStopsPass(mode: Mode, cfg: Config, feed: seq<Change>, start: StartFrom, s: State, x: nat, e: WorkerEvent)
    requires !cfg.catchHandlerExceptions && !cfg.atMostOnce
    requires Behind(start, s, x) && Poisons(|feed|, x, s.position, e)
    ensures Behind(start, Next(feed, start, s, EventOf(mode, cfg, e)), x)
  {
    if e.Passed? && e.pass.response.Page? {
      var end := PageEnd(Min(e.pass.tail, |feed|), s.position, e.pass.response.count);
      var d := DispatchIn(mode, cfg, e.pass.batch);
      if x < end {
        assert d == Dispatch([], false);
        assert !Landed(d.writes);
      }
    }
  }

  /**
   In retry mode a poisonous change is never passed: over any run, restarts included, neither the iterator
   nor any token gets beyond it. In skip mode one batch with a good write is enough to pass it.
   */
  lemma {:induction false} PoisonIsNeverPassed(
    mode: Mode, cfg: Config, feed: seq<Change>, start: StartFrom, s: State, x: nat, es: seq<WorkerEvent>)
    requires !cfg.catchHandlerExceptions && !cfg.atMostOnce && Behind(start, s, x)
    requires PoisonedThroughout(mode, cfg, feed, start, s, x, es)
    ensures Behind(start, Run(feed, start, s, EventsOf(mode, cfg, es)), x)
    decreases es
  {
    if es != [] {
      PoisonStopsPass(mode, cfg, feed, start, s, x, es[0]);
      PoisonIsNeverPassed(mode, cfg, feed, start, Next(feed, start, s, EventOf(mode, cfg, es[0])), x, es[1..]);
      assert EventsOf(mode, cfg, es)[1..] == EventsOf(mode, cfg, es[1..]);
    }
  }

  lemma SkipModePassesPoison(
    mode: Mode, cfg: Config, feed: seq<Change>, start: StartFrom, s: State, p: Pass)
    requires PassesOver(cfg, p.batch.aborted, p.batch.outcome.Threw? && p.batch.outcome.cancelled)
    requires p.response.Page? && s.position < PageEnd(Min(p.tail, |feed|), s.position, p.response.count)
    requires p.batch.outcome.Threw? && p.batch.first.Stored?
    ensures var t := AfterPoll(feed, start, s, PollOf(mode, cfg, p));
      t.durable == Some(PageEnd(Min(p.tail, |feed|), s.position, p.response.count)) && t.position == t.durable.value
  {
    var d := DispatchIn(mode, cfg, p.batch);
    assert d.writes[|d.writes| - 1] == Stored;
    assert Stored.Lands() && Landed(d.writes);
  }

  /** A stop ends the loop at its next guard: the passes that run are those up to the first stop. */
  function Live(script: seq<Pass>): (live: seq<Pass>)
    ensures live <= script
    decreases script
  {
    if script == [] then []
    else if script[0].stop || script[0].batch.aborted then [script[0]]
    else [script[0]] + Live(script[1..])
  }

  function PassesOf(mode: Mode, cfg: Config, script: seq<Pass>): seq<Event>
    decreases script
  {
    if script == [] then [] else [Polled(PollOf(mode, cfg, script[0]))] + PassesOf(mode, cfg, script[1..])
  }

  lemma LiveUnfolds(mode: Mode, cfg: Config, feed: seq<Change>, start: StartFrom, s: State, script: seq<Pass>)
    requires script != []
    ensures var stops := script[0].stop || script[0].batch.aborted;
      Run(feed, start, s, PassesOf(mode, cfg, Live(script)))
      == Run(feed, start, AfterPoll(feed, start, s, PollOf(mode, cfg, script[0])),
             if stops then [] else PassesOf(mode, cfg, Live(script[1..])))
  {
    var live := Live(script);
    assert live[0] == script[0];
    assert live[1..] == if script[0].stop || script[0].batch.aborted then [] else Live(script[1..]);
    var events := PassesOf(mode, cfg, live);
    assert events[0] == Polled(PollOf(mode, cfg, script[0]));
    assert events[1..] == PassesOf(mode, cfg, live[1..]);
  }

  // ---------- the objects

  class CheckpointStore {
    var tokens: map<string, nat>

    constructor ()
      ensures tokens == map[]
    {
      tokens := map[];
    }

    function Lookup(leaseToken: string): Option<nat>
      reads this
    {
      if leaseToken in tokens then Some(tokens[leaseToken]) else None
    }

    method ReadContinuationToken(leaseToken: string) returns (token: Option<nat>)
      ensures token == Lookup(leaseToken)
    {
      token := Lookup(leaseToken);
    }

    /** The in-memory store resolves every write; a remote one decides how `w` goes. */
    method WriteContinuationToken(leaseToken: string, token: nat, w: Write) returns (done: Completion)
      modifies this
      ensures done == Settles(w)
      ensures tokens == if w.Lands() then old(tokens)[leaseToken := token] else old(tokens)
    {
      if w.Lands() {
        tokens := tokens[leaseToken := token];
      }
      done := Settles(w);
    }
  }

  /** The processor of one running process: `checkpointed` and the iterator live and die with it. */
  class Processor {
    const store: CheckpointStore
    const leaseToken: string
    const feed: seq<Change>
    const start: StartFrom
    var checkpointed: Option<nat>
    var position: nat
    var aborted: bool
    ghost var log: seq<Delivery>
    ghost var epoch: nat

    /** The state machine's view of the processor and its slot in the store. */
    ghost function View(): State
      reads this, store
    {
      State(store.Lookup(leaseToken), checkpointed, position, log, epoch)
    }

    /** A process start: the checkpoint comes from the store, the iterator from the checkpoint. */
    constructor (store: CheckpointStore, leaseToken: string, feed: seq<Change>, start: StartFrom, tail: nat,
                 ghost before: State)
      requires before.durable == store.Lookup(leaseToken)
      ensures this.store == store && this.leaseToken == leaseToken && this.feed == feed && this.start == start
      ensures !aborted && View() == AfterRestart(start, before, tail)
    {
      this.store, this.leaseToken, this.feed, this.start := store, leaseToken, feed, start;
      aborted, log, epoch := false, before.log, |before.log|;
      var token := store.ReadContinuationToken(leaseToken);
      checkpointed := token;
      position := IteratorFrom(start, token, tail);
    }

    /** The persist hook of the page that ends at `token`: the loop's variable first, then the store. */
    method Persist(token: nat, w: Write) returns (done: Completion)
      modifies this`checkpointed, store
      ensures checkpointed == Some(token)
      ensures done == Settles(w)
      ensures store.tokens == if w.Lands() then old(store.tokens)[leaseToken := token] else old(store.tokens)
    {
      checkpointed := Some(token);
      done := store.WriteContinuationToken(leaseToken, token, w);
    }

    /** What making the hook calls `writes` for the page that ends at `token` leaves behind. */
    twostate predicate Persisted(token: nat, writes: seq<Write>)
      reads this, store
    {
      && checkpointed == (if writes == [] then old(checkpointed) else Some(token))
      && store.tokens == (if Landed(writes) then old(store.tokens)[leaseToken := token] else old(store.tokens))
    }

    /** Requests a stop; the loop sees it at its next guard. */
    method Stop()
      modifies this`aborted
      ensures aborted
    {
      aborted := true;
    }

    /** The poll loop, over what the surroundings do in each pass. */
    method RunLoop(worker: Worker, script: seq<Pass>)
      modifies this, store
      ensures View() == if old(aborted) then old(View())
        else Run(feed, start, old(View()), PassesOf(worker.mode, worker.config, Live(script)))
      ensures forall other | other != leaseToken :: store.Lookup(other) == old(store.Lookup(other))
    {
      var i := 0;
      ghost var wanted := Run(feed, start, View(), Remaining(worker, script));
      while !aborted && i < |script|
        invariant 0 <= i <= |script|
        invariant Run(feed, start, View(), Remaining(worker, script[i..])) == wanted
        invariant forall other | other != leaseToken :: store.Lookup(other) == old(store.Lookup(other))
      {
        var pass := script[i];
        ghost var before := View();
        OnePass(worker, pass);
        aborted := aborted || pass.stop || pass.batch.aborted;
        LiveUnfolds(worker.mode, worker.config, feed, start, before, script[i..]);
        assert script[i..][1..] == script[i + 1..];
        i := i + 1;
      }
      assert aborted || script[i..] == [];
    }

    /** What is left of the loop's run. */
    ghost function Remaining(worker: Worker, script: seq<Pass>): seq<Event>
      reads this`aborted
    {
      if aborted then [] else PassesOf(worker.mode, worker.config, Live(script))
    }

    /** One pass: read, dispatch a non-empty page, and rewind when the dispatch rejects. */
    method OnePass(worker: Worker, pass: Pass)
      requires !aborted
      modifies this, store
      ensures View() == AfterPoll(feed, start, old(View()), PollOf(worker.mode, worker.config, pass))
      ensures aborted ==> pass.batch.aborted
      ensures forall other | other != leaseToken :: store.Lookup(other) == old(store.Lookup(other))
    {
      if !pass.response.Page? {
        return;
      }
      var end := PageEnd(Min(pass.tail, |feed|), position, pass.response.count);
      if end == position {
        return;
      }
      ghost var from := position;
      ghost var d := DispatchIn(worker.mode, worker.config, pass.batch);
      aborted := pass.batch.aborted;
      position := end;
      var done := worker.Handle(this, end, pass.batch);
      log := log + [Delivery(from, feed[from..end], d.writes != [], d.returned)];
      if done.Threw? {
        position := IteratorFrom(start, checkpointed, pass.later);
        epoch := |log|;
      }
    }
  }

  /** The checkpointer a handler sees: it remembers a call only once the hook has resolved. */
  class StreamCheckpointer {
    var checkpointed: bool

    constructor ()
      ensures !checkpointed
    {
      checkpointed := false;
    }

    method Checkpoint(processor: Processor, token: nat, w: Write) returns (done: Completion)
      modifies this, processor`checkpointed, processor.store
      ensures processor.Persisted(token, [w])
      ensures done == Settles(w)
      ensures checkpointed == (old(checkpointed) || w.Stored?)
    {
      done := processor.Persist(token, w);
      if done.Returned? {
        checkpointed := true;
      }
    }
  }

  class Worker {
    const mode: Mode
    const config: Config

    constructor (mode: Mode, config: Config)
      ensures this.mode == mode && this.config == config
    {
      this.mode, this.config := mode, config;
    }

    method Handle(processor: Processor, token: nat, b: Batch) returns (done: Completion)
      requires processor.aborted == b.aborted
      modifies processor`checkpointed, processor.store
      ensures processor.Persisted(token, DispatchIn(mode, config, b).writes)
      ensures done.Returned? <==> DispatchIn(mode, config, b).returned
    {
      if mode.Manual? {
        done := OnManualChanges(processor, token, b);
      } else {
        done := OnAllVersions(processor.aborted, b);
        if done.Returned? {
          done := processor.Persist(token, b.first);
        }
      }
    }

    /** The pipeline: the handler makes its hook calls, then ends as the batch says. */
    method HandleStream(processor: Processor, token: nat, b: Batch) returns (handlerCheckpointed: bool, done: Completion)
      modifies processor`checkpointed, processor.store
      ensures processor.Persisted(token, b.handlerWrites)
      ensures handlerCheckpointed <==> Stored in b.handlerWrites
      ensures done == b.outcome
    {
      var checkpointer := new StreamCheckpointer();
      var i := 0;
      while i < |b.handlerWrites|
        invariant 0 <= i <= |b.handlerWrites|
        invariant processor.Persisted(token, b.handlerWrites[..i])
        invariant checkpointer.checkpointed <==> Stored in b.handlerWrites[..i]
        modifies checkpointer, processor`checkpointed, processor.store
      {
        assert b.handlerWrites[..i + 1] == b.handlerWrites[..i] + [b.handlerWrites[i]];
        var _ := checkpointer.Checkpoint(processor, token, b.handlerWrites[i]);
        i := i + 1;
      }
      assert b.handlerWrites[..i] == b.handlerWrites;
      handlerCheckpointed, done := checkpointer.checkpointed, b.outcome;
    }

    method OnManualChanges(processor: Processor, token: nat, b: Batch) returns (done: Completion)
      requires processor.aborted == b.aborted
      modifies processor`checkpointed, processor.store
      ensures processor.Persisted(token, ManualDispatch(config, b).writes)
      ensures done.Returned? <==> ManualDispatch(config, b).returned
    {
      var handlerCheckpointed;
      var retry := b.first;
      handlerCheckpointed, done := HandleStream(processor, token, b);
      if done.Returned? && !handlerCheckpointed && config.autoCheckpointOnSuccess {
        done := processor.Persist(token, b.first);
        retry := b.second;
      }
      if done.Threw? && !(processor.aborted && done.cancelled) && config.Skips() {
        done := processor.Persist(token, retry);
      }
    }

    /** The all-versions handler: it swallows a failure in skip mode and has nothing to checkpoint. */
    method OnAllVersions(aborted: bool, b: Batch) returns (done: Completion)
      ensures done.Threw? <==> b.outcome.Threw? && !PassesOver(config, aborted, b.outcome.cancelled)
    {
      done := b.outcome;
      if done.Threw? && !(aborted && done.cancelled) && config.Skips() {
        done := Returned;
      }
    }
  }
}
