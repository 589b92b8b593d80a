/**
 The poll loop that turns the pull iterator of a change feed into a push processor, as a state machine.

 The feed is an append-only sequence of changes and a continuation token is an index into it. One `Event`
 is one pass of the loop or one restart of the process; everything the surroundings decide (what a read
 returns, how many changes are visible, how a dispatch ends, whether a store write lands) is in the event,
 so a theorem about every sequence of events covers every run.
 */
module ChangeFeed {
  import opened Options
  import opened Checkpoints

  type Change = string

  /** Where a read starts while no token has been persisted. */
  datatype StartFrom = Fixed(at: nat) | Now

  /** What a dispatch does to the loop: the writes its persist hook made, and whether it returned. */
  datatype Dispatch = Dispatch(writes: seq<Write>, returned: bool)

  datatype Response = ReadError | NotModified | Page(count: nat)

  /** One pass of the loop. `tail` is the end of the feed at the read, `later` at a rewind. */
  datatype Poll = Poll(response: Response, tail: nat, later: nat, dispatch: Dispatch)

  datatype Event = Polled(poll: Poll) | Restarted(tail: nat)

  /** A dispatched page: where it started, what it held, and how the dispatch went. */
  datatype Delivery = Delivery(from: nat, items: seq<Change>, hooked: bool, returned: bool) {
    function End(): nat { from + |items| }
    predicate Covers(i: nat) { from <= i < End() }
    predicate Acknowledged() { hooked || returned }
  }

  /**
   The durable token, the loop's two variables, and a history: every delivery so far, and how many of them
   precede the last rewind or restart.
   */
  datatype State = State(
    durable: Option<nat>, checkpointed: Option<nat>, position: nat, log: seq<Delivery>, epoch: nat)

  // ---------- the loop

  function Min(a: nat, b: nat): nat {
    if a < b then a else b
  }

  function IteratorFrom(start: StartFrom, token: Option<nat>, tail: nat): nat {
    match token
    case Some(t) => t
    case None => if start.Fixed? then start.at else tail
  }

  predicate Landed(writes: seq<Write>) {
    exists w | w in writes :: w.Lands()
  }

  /** A read returns a contiguous slice of what is visible from the iterator's position. */
  function PageEnd(visible: nat, position: nat, count: nat): (end: nat)
    ensures position <= end <= position + count
    ensures end == position || end <= visible
  {
    if position < visible then Min(position + count, visible) else position
  }

  function AfterDispatch(start: StartFrom, s: State, page: seq<Change>, d: Dispatch, later: nat): State {
    var end := s.position + |page|;
    var durable := if Landed(d.writes) then Some(end) else s.durable;
    var checkpointed := if d.writes == [] then s.checkpointed else Some(end);
    var log := s.log + [Delivery(s.position, page, d.writes != [], d.returned)];
    if d.returned then
      State(durable, checkpointed, end, log, s.epoch)
    else
      State(durable, checkpointed, IteratorFrom(start, checkpointed, later), log, |log|)
  }

  function AfterPoll(feed: seq<Change>, start: StartFrom, s: State, p: Poll): State {
    match p.response
    case ReadError => s
    case NotModified => s
    case Page(count) =>
      var end := PageEnd(Min(p.tail, |feed|), s.position, count);
      if end == s.position then s else AfterDispatch(start, s, feed[s.position..end], p.dispatch, p.later)
  }

  function AfterRestart(start: StartFrom, s: State, tail: nat): State {
    s.(checkpointed := s.durable, position := IteratorFrom(start, s.durable, tail), epoch := |s.log|)
  }

  function Next(feed: seq<Change>, start: StartFrom, s: State, e: Event): State {
    match e
    case Polled(p) => AfterPoll(feed, start, s, p)
    case Restarted(tail) => AfterRestart(start, s, tail)
  }

  function Run(feed: seq<Change>, start: StartFrom, s: State, events: seq<Event>): State
    decreases events
  {
    if events == [] then s else Run(feed, start, Next(feed, start, s, events[0]), events[1..])
  }

  /** A first start over whatever the store holds. */
  function Start(start: StartFrom, durable: Option<nat>, tail: nat): State {
    State(durable, durable, IteratorFrom(start, durable, tail), [], 0)
  }

  /**
   One pass that reaches the handler, in full: a single delivery of what was read; the loop's token moves to
   its end with any hook call, the store's with any write that landed; and reading goes on at that end, or
   after a rejection at the loop's token, the configured start, or the feed's end of that time.
   */
  lemma PassByCase(feed: seq<Change>, start: StartFrom, s: State, p: Poll)
    requires p.response.Page? && p.response.count > 0 && s.position < p.tail <= |feed|
    ensures var t := AfterPoll(feed, start, s, p);
      var end := if s.position + p.response.count <= p.tail then s.position + p.response.count else p.tail;
      && t.log == s.log + [Delivery(s.position, feed[s.position..end], p.dispatch.writes != [], p.dispatch.returned)]
      && t.checkpointed == (if p.dispatch.writes != [] then Some(end) else s.checkpointed)
      && t.durable == (if exists w | w in p.dispatch.writes :: w != Rejected(false, true) && w != Rejected(false, false)
                       then Some(end) else s.durable)
      && (p.dispatch.returned ==> t.position == end && t.epoch == s.epoch)
      && (!p.dispatch.returned ==> t.epoch == |t.log|)
      && (!p.dispatch.returned && t.checkpointed.Some? ==> t.position == t.checkpointed.value)
      && (!p.dispatch.returned && t.checkpointed.None? ==> t.position == if start == Now then p.later else start.at)
  {
    var writes := p.dispatch.writes;
    assert forall w: Write :: w.Lands() <==> w != Rejected(false, true) && w != Rejected(false, false);
    assert Landed(writes) <==> exists w | w in writes :: w != Rejected(false, true) && w != Rejected(false, false);
  }

  // ---------- what a run keeps

  /** Positions are fixed by the tokens alone: `Now` is never evaluated again. */
  predicate Anchored(start: StartFrom, s: State) {
    start.Fixed? || (s.durable.Some? && s.checkpointed.Some?)
  }

  /** Where reading has to start: at the token when there is one, else where the options say. */
  function Origin(start: StartFrom, token: Option<nat>): nat {
    if token.Some? then token.value else if start.Fixed? then start.at else 0
  }

  /** Where a restart would resume. */
  function DurableAt(start: StartFrom, s: State): nat {
    Origin(start, s.durable)
  }

  /** Where a rewind would resume. */
  function CheckpointedAt(start: StartFrom, s: State): nat {
    Origin(start, s.checkpointed)
  }

  /** Change `i` was in a dispatch that returned normally or invoked its persist hook. */
  ghost predicate AckedIn(log: seq<Delivery>, i: nat) {
    exists k: nat :: k < |log| && log[k].Covers(i) && log[k].Acknowledged()
  }

  /** Change `i` was in a dispatch that returned normally, at or after delivery number `epoch`. */
  ghost predicate ReturnedSince(log: seq<Delivery>, epoch: nat, i: nat) {
    exists k: nat :: epoch <= k < |log| && log[k].Covers(i) && log[k].returned
  }

  /** The deliveries with every replayed change dropped, in order of delivery. */
  function Collapse(base: nat, log: seq<Delivery>): (out: seq<Change>)
    decreases |log|
  {
    if log == [] then []
    else
      var out := Collapse(base, log[..|log| - 1]);
      var d := log[|log| - 1];
      var seen := base + |out|;
      if d.from > seen then out + d.items
      else if d.End() <= seen then out
      else out + d.items[seen - d.from..]
  }

  ghost predicate Ordered(feed: seq<Change>, start: StartFrom, base: nat, s: State) {
    base <= DurableAt(start, s) <= CheckpointedAt(start, s) <= s.position <= |feed|
  }

  /** Each page starts where the last one ended, or at the checkpoint right after a rejection or restart. */
  ghost predicate Contiguous(start: StartFrom, s: State) {
    && s.epoch <= |s.log|
    && (s.epoch == |s.log| ==> s.position == CheckpointedAt(start, s))
    && (s.epoch < |s.log| ==> s.log[|s.log| - 1].End() == s.position)
    && (forall k :: s.epoch <= k < |s.log| ==> s.log[k].returned)
    && (forall k :: s.epoch < k < |s.log| ==> s.log[k].from == s.log[k - 1].End())
  }

  ghost predicate Covered(start: StartFrom, base: nat, s: State) {
    && (forall i: nat | base <= i < s.position :: AckedIn(s.log, i))
    && (forall i: nat | CheckpointedAt(start, s) <= i < s.position :: ReturnedSince(s.log, s.epoch, i))
  }

  ghost predicate GapFree(feed: seq<Change>, base: nat, s: State) {
    var out := Collapse(base, s.log);
    s.position <= base + |out| <= |feed| && out == feed[base..base + |out|]
  }

  /** Every delivery, replays included, is the slice of the feed it claims to be. */
  ghost predicate Genuine(feed: seq<Change>, log: seq<Delivery>) {
    forall k :: 0 <= k < |log| ==> log[k].End() <= |feed| && log[k].items == feed[log[k].from..log[k].End()]
  }

  ghost predicate Sound(feed: seq<Change>, start: StartFrom, base: nat, s: State) {
    && Anchored(start, s)
    && Ordered(feed, start, base, s)
    && Contiguous(start, s)
    && Covered(start, base, s)
    && GapFree(feed, base, s)
    && Genuine(feed, s.log)
  }

  // ---------- safety over every run

  lemma AckedGrows(log: seq<Delivery>, d: Delivery, i: nat)
    requires AckedIn(log, i) || (d.Covers(i) && d.Acknowledged())
    ensures AckedIn(log + [d], i)
  {
    var longer := log + [d];
    if AckedIn(log, i) {
      var k: nat :| k < |log| && log[k].Covers(i) && log[k].Acknowledged();
      assert longer[k] == log[k];
    } else {
      assert longer[|log|] == d;
    }
  }

  lemma ReturnedGrows(log: seq<Delivery>, epoch: nat, d: Delivery, i: nat)
    requires epoch <= |log|
    requires ReturnedSince(log, epoch, i) || (d.Covers(i) && d.returned)
    ensures ReturnedSince(log + [d], epoch, i)
  {
    var longer := log + [d];
    if ReturnedSince(log, epoch, i) {
      var k: nat :| epoch <= k < |log| && log[k].Covers(i) && log[k].returned;
      assert longer[k] == log[k];
    } else {
      assert longer[|log|] == d;
    }
  }

  lemma CollapseGrows(feed: seq<Change>, base: nat, log: seq<Delivery>, d: Delivery)
    requires base + |Collapse(base, log)| <= |feed|
    requires Collapse(base, log) == feed[base..base + |Collapse(base, log)|]
    requires base <= d.from <= base + |Collapse(base, log)|
    requires d.End() <= |feed| && d.items == feed[d.from..d.End()]
    ensures var out := Collapse(base, log + [d]);
      && base + |Collapse(base, log)| <= base + |out| <= |feed|
      && d.End() <= base + |out|
      && out == feed[base..base + |out|]
  {
    assert (log + [d])[..|log|] == log;
    var out := Collapse(base, log);
    var seen := base + |out|;
    if seen < d.End() {
      assert d.items[seen - d.from..] == feed[seen..d.End()];
      assert feed[base..seen] + feed[seen..d.End()] == feed[base..d.End()];
    }
  }

  lemma DispatchKeepsOrdered(feed: seq<Change>, start: StartFrom, base: nat, s: State, end: nat, d: Dispatch, later: nat)
    requires Anchored(start, s) && Ordered(feed, start, base, s)
    requires s.position < end <= |feed|
    ensures var t := AfterDispatch(start, s, feed[s.position..end], d, later);
      && Anchored(start, t) && Ordered(feed, start, base, t)
      && DurableAt(start, s) <= DurableAt(start, t) && CheckpointedAt(start, s) <= CheckpointedAt(start, t)
      && t.position == (if d.returned then end else CheckpointedAt(start, t))
  {
    assert d.writes == [] ==> !Landed(d.writes);
  }

  lemma DispatchKeepsCovered(feed: seq<Change>, start: StartFrom, base: nat, s: State, end: nat, d: Dispatch, later: nat)
    requires Anchored(start, s) && Ordered(feed, start, base, s) && Covered(start, base, s)
    requires s.position < end <= |feed| && s.epoch <= |s.log|
    ensures Covered(start, base, AfterDispatch(start, s, feed[s.position..end], d, later))
  {
    var page := feed[s.position..end];
    var t := AfterDispatch(start, s, page, d, later);
    var delivery := Delivery(s.position, page, d.writes != [], d.returned);
    DispatchKeepsOrdered(feed, start, base, s, end, d, later);
    forall i: nat | base <= i < t.position
      ensures AckedIn(t.log, i)
    {
      if i >= s.position {
        assert delivery.Covers(i) && delivery.Acknowledged();
      }
      AckedGrows(s.log, delivery, i);
    }
    forall i: nat | CheckpointedAt(start, t) <= i < t.position
      ensures ReturnedSince(t.log, t.epoch, i)
    {
      assert i < s.position ==> ReturnedSince(s.log, s.epoch, i);
      ReturnedGrows(s.log, s.epoch, delivery, i);
    }
  }

  lemma DispatchKeepsContiguous(feed: seq<Change>, start: StartFrom, base: nat, s: State, end: nat, d: Dispatch, later: nat)
    requires Anchored(start, s) && Ordered(feed, start, base, s) && Contiguous(start, s)
    requires s.position < end <= |feed|
    ensures Contiguous(start, AfterDispatch(start, s, feed[s.position..end], d, later))
  {
    var page := feed[s.position..end];
    var t := AfterDispatch(start, s, page, d, later);
    DispatchKeepsOrdered(feed, start, base, s, end, d, later);
    assert forall k :: 0 <= k < |s.log| ==> t.log[k] == s.log[k];
  }

  lemma GenuineGrows(feed: seq<Change>, log: seq<Delivery>, d: Delivery)
    requires Genuine(feed, log) && d.End() <= |feed| && d.items == feed[d.from..d.End()]
    ensures Genuine(feed, log + [d])
  {
    assert forall k :: 0 <= k < |log| ==> (log + [d])[k] == log[k];
  }

  lemma DispatchKeepsGapFree(feed: seq<Change>, start: StartFrom, base: nat, s: State, end: nat, d: Dispatch, later: nat)
    requires Anchored(start, s) && Ordered(feed, start, base, s)
    requires GapFree(feed, base, s) && Genuine(feed, s.log)
    requires s.position < end <= |feed|
    ensures var t := AfterDispatch(start, s, feed[s.position..end], d, later);
      GapFree(feed, base, t) && Genuine(feed, t.log)
  {
    DispatchKeepsOrdered(feed, start, base, s, end, d, later);
    var delivery := Delivery(s.position, feed[s.position..end], d.writes != [], d.returned);
    CollapseGrows(feed, base, s.log, delivery);
    GenuineGrows(feed, s.log, delivery);
  }

  lemma DispatchKeepsSound(feed: seq<Change>, start: StartFrom, base: nat, s: State, end: nat, d: Dispatch, later: nat)
    requires Sound(feed, start, base, s)
    requires s.position < end <= |feed|
    ensures var t := AfterDispatch(start, s, feed[s.position..end], d, later);
      Sound(feed, start, base, t) && DurableAt(start, s) <= DurableAt(start, t)
  {
    DispatchKeepsOrdered(feed, start, base, s, end, d, later);
    DispatchKeepsCovered(feed, start, base, s, end, d, later);
    DispatchKeepsContiguous(feed, start, base, s, end, d, later);
    DispatchKeepsGapFree(feed, start, base, s, end, d, later);
  }

  lemma RestartKeepsSound(feed: seq<Change>, start: StartFrom, base: nat, s: State, tail: nat)
    requires Sound(feed, start, base, s)
    ensures Sound(feed, start, base, AfterRestart(start, s, tail))
  {
    var t := AfterRestart(start, s, tail);
    assert t.position == CheckpointedAt(start, t) == DurableAt(start, s);
    assert t.log == s.log;
  }

  lemma NextKeepsSound(feed: seq<Change>, start: StartFrom, base: nat, s: State, e: Event)
    requires Sound(feed, start, base, s)
    ensures Sound(feed, start, base, Next(feed, start, s, e))
    ensures DurableAt(start, s) <= DurableAt(start, Next(feed, start, s, e))
  {
    match e
    case Restarted(tail) => RestartKeepsSound(feed, start, base, s, tail);
    case Polled(p) =>
      if p.response.Page? {
        var end := PageEnd(Min(p.tail, |feed|), s.position, p.response.count);
        if end != s.position {
          DispatchKeepsSound(feed, start, base, s, end, p.dispatch, p.later);
        }
      }
  }

  lemma {:induction false} RunKeepsSound(feed: seq<Change>, start: StartFrom, base: nat, s: State, events: seq<Event>)
    requires Sound(feed, start, base, s)
    ensures Sound(feed, start, base, Run(feed, start, s, events))
    ensures DurableAt(start, s) <= DurableAt(start, Run(feed, start, s, events))
    decreases events
  {
    if events != [] {
      NextKeepsSound(feed, start, base, s, events[0]);
      RunKeepsSound(feed, start, base, Next(feed, start, s, events[0]), events[1..]);
    }
  }

  lemma StartIsSound(feed: seq<Change>, start: StartFrom, durable: Option<nat>, tail: nat)
    requires start.Fixed? || durable.Some?
    requires Origin(start, durable) <= |feed|
    ensures Sound(feed, start, Origin(start, durable), Start(start, durable, tail))
  {
  }

  /**
   Nothing is lost: over any run with crashes, read errors, rejected dispatches and failed writes, the three
   positions stay in order, every change before the iterator (so every change below the durable token) was
   in an acknowledged delivery, and the deliveries without replays are a prefix of the feed.
   */
  lemma NothingIsLost(feed: seq<Change>, start: StartFrom, durable: Option<nat>, tail: nat, events: seq<Event>)
    requires start.Fixed? || durable.Some?
    requires Origin(start, durable) <= |feed|
    ensures var base := Origin(start, durable);
      var s := Run(feed, start, Start(start, durable, tail), events);
      && base <= DurableAt(start, s) <= CheckpointedAt(start, s) <= s.position <= |feed|
      && (forall i: nat | base <= i < s.position :: AckedIn(s.log, i))
      && (forall i: nat | CheckpointedAt(start, s) <= i < s.position :: ReturnedSince(s.log, s.epoch, i))
      && (var out := Collapse(base, s.log);
          s.position <= base + |out| <= |feed| && out == feed[base..base + |out|])
      && Contiguous(start, s) && Genuine(feed, s.log)
  {
    StartIsSound(feed, start, durable, tail);
    RunKeepsSound(feed, start, Origin(start, durable), Start(start, durable, tail), events);
  }

  /** Until something is delivered, every start, rewind and restart is at `origin`; nothing is ever before it. */
  ghost predicate FromOrigin(start: StartFrom, origin: nat, s: State) {
    && (s.durable.None? || s.checkpointed.None? ==> start == Fixed(origin))
    && (s.durable.Some? ==> origin <= s.durable.value)
    && (s.checkpointed.Some? ==> origin <= s.checkpointed.value)
    && origin <= s.position
    && (forall k | 0 <= k < |s.log| :: origin <= s.log[k].from)
    && (s.log == [] ==> s.position == origin && (s.durable.Some? ==> s.durable.value == origin))
    && (s.log != [] ==> s.log[0].from == origin)
  }

  lemma {:induction false} RunStaysFromOrigin(feed: seq<Change>, start: StartFrom, origin: nat, s: State, events: seq<Event>)
    requires FromOrigin(start, origin, s)
    ensures FromOrigin(start, origin, Run(feed, start, s, events))
    decreases events
  {
    if events != [] {
      RunStaysFromOrigin(feed, start, origin, Next(feed, start, s, events[0]), events[1..]);
    }
  }

  /**
   Reading starts where it was told to, over every run: the first page is read at the persisted token, or at
   the configured position without one, and no page is ever read from before it.
   */
  lemma ReadsFromOrigin(
    feed: seq<Change>, start: StartFrom, durable: Option<nat>, tail: nat, events: seq<Event>, origin: nat)
    requires durable == Some(origin) || (durable == None && start == Fixed(origin))
    ensures var s := Run(feed, start, Start(start, durable, tail), events);
      && origin <= s.position
      && (s.log == [] ==> s.position == origin)
      && (s.log != [] ==> s.log[0].from == origin)
      && (forall k | 0 <= k < |s.log| :: origin <= s.log[k].from)
  {
    RunStaysFromOrigin(feed, start, origin, Start(start, durable, tail), events);
  }

  /** Without either, a first start reads from the end of the feed as it then is, and so does a restart. */
  lemma NowReadsFromTheTail(s: State, tail: nat)
    requires s.durable == None
    ensures Start(Now, None, tail).position == tail && AfterRestart(Now, s, tail).position == tail
  {
  }

  /** No run from this configuration moves the iterator past a change nobody acknowledged. */
  ghost predicate NeverSkips(start: StartFrom, durable: Option<nat>) {
    forall feed: seq<Change>, tail: nat, events: seq<Event>, i: nat ::
      var base := IteratorFrom(start, durable, tail);
      var s := Run(feed, start, Start(start, durable, tail), events);
      base <= |feed| && base <= i < s.position ==> AckedIn(s.log, i)
  }

  /**
   The anchoring condition is exact. With no token and the default start position, a rewind evaluates "now"
   again, and the page that was just rejected is behind it.
   */
  lemma NeverSkipsExactlyWhenAnchored(start: StartFrom, durable: Option<nat>)
    ensures NeverSkips(start, durable) <==> start.Fixed? || durable.Some?
  {
    if start.Fixed? || durable.Some? {
      forall feed: seq<Change>, tail: nat, events: seq<Event>, i: nat |
        && IteratorFrom(start, durable, tail) <= |feed|
        && IteratorFrom(start, durable, tail) <= i
        && i < Run(feed, start, Start(start, durable, tail), events).position
        ensures AckedIn(Run(feed, start, Start(start, durable, tail), events).log, i)
      {
        NothingIsLost(feed, start, durable, tail, events);
      }
    } else {
      var feed := ["change"];
      var e := Polled(Poll(Page(1), 1, 1, Dispatch([], false)));
      var s0 := Start(start, durable, 0);
      assert Run(feed, start, s0, [e]) == Next(feed, start, s0, e) by {
        assert [e][1..] == [];
      }
      var s := Run(feed, start, s0, [e]);
      assert s.position == 1 && s.log == [Delivery(0, feed[0..1], false, false)];
      assert !AckedIn(s.log, 0);
      assert IteratorFrom(start, durable, 0) == 0 <= |feed|;
      assert !NeverSkips(start, durable);
    }
  }

  /**
   After a rejected dispatch the loop rewinds to its in-memory checkpoint. That is the durable one exactly
   when the dispatch landed a write, or called no hook while the two agreed: a persist call whose write was
   lost still moves the loop past the page, and only a restart brings it back.
   */
  lemma RewindReachesDurableExactlyWhen(
    feed: seq<Change>, start: StartFrom, base: nat, s: State, end: nat, d: Dispatch, later: nat)
    requires Sound(feed, start, base, s)
    requires s.position < end <= |feed| && !d.returned
    ensures var t := AfterDispatch(start, s, feed[s.position..end], d, later);
      && (t.position == DurableAt(start, t) <==>
          Landed(d.writes) || (d.writes == [] && DurableAt(start, s) == CheckpointedAt(start, s)))
      && (d.writes != [] ==> t.position == end)
      && AfterRestart(start, t, later).position == DurableAt(start, t)
  {
    DispatchKeepsSound(feed, start, base, s, end, d, later);
    if d.writes == [] {
      assert !Landed(d.writes);
    }
  }

  /**
   It does happen: after one rejected dispatch whose only write was lost, the loop is past a change that the
   store does not know of. The hook was called for it, so it counts as acknowledged.
   */
  lemma LostPersistMovesTheLoop(change: Change)
    ensures var e := Polled(Poll(Page(1), 1, 1, Dispatch([Rejected(false, false)], false)));
      var s := Run([change], Fixed(0), Start(Fixed(0), None, 0), [e]);
      s.position == 1 && s.durable == None && DurableAt(Fixed(0), s) == 0
  {
    var e := Polled(Poll(Page(1), 1, 1, Dispatch([Rejected(false, false)], false)));
    var s := Start(Fixed(0), None, 0);
    assert [e][1..] == [];
    assert Run([change], Fixed(0), s, [e]) == AfterDispatch(Fixed(0), s, [change][0..1], e.poll.dispatch, 1);
    assert !Landed(e.poll.dispatch.writes);
  }

  // ---------- progress

  /** An event that may keep the loop from moving on: a failure, an empty read, or a restart. */
  predicate Stumbles(e: Event) {
    e.Restarted? || !e.poll.response.Page? || e.poll.response.count == 0 || !e.poll.dispatch.returned
  }

  function StumbleCount(events: seq<Event>): nat
    decreases events
  {
    if events == [] then 0 else (if Stumbles(events[0]) then 1 else 0) + StumbleCount(events[1..])
  }

  predicate SeesWholeFeed(feed: seq<Change>, e: Event) {
    e.Polled? ==> |feed| <= e.poll.tail
  }

  /** The lexicographic measure (stumbles left, changes left to read), as one number. */
  function Fuel(feed: seq<Change>, s: State, stumbles: nat): nat
    requires s.position <= |feed|
    decreases stumbles
  {
    if stumbles == 0 then |feed| - s.position else |feed| + 1 + Fuel(feed, s, stumbles - 1)
  }

  lemma {:induction false} FuelFallsWithPosition(feed: seq<Change>, s: State, t: State, stumbles: nat)
    requires s.position <= |feed| && t.position <= |feed|
    ensures Fuel(feed, t, stumbles) == Fuel(feed, s, stumbles) + s.position - t.position
    decreases stumbles
  {
    if stumbles > 0 {
      FuelFallsWithPosition(feed, s, t, stumbles - 1);
    }
  }

  lemma NextKeepsOrdered(feed: seq<Change>, start: StartFrom, base: nat, s: State, e: Event)
    requires Anchored(start, s) && Ordered(feed, start, base, s)
    ensures Anchored(start, Next(feed, start, s, e)) && Ordered(feed, start, base, Next(feed, start, s, e))
  {
    if e.Polled? && e.poll.response.Page? {
      var end := PageEnd(Min(e.poll.tail, |feed|), s.position, e.poll.response.count);
      if end != s.position {
        DispatchKeepsOrdered(feed, start, base, s, end, e.poll.dispatch, e.poll.later);
      }
    }
  }

  lemma FuelBurns(feed: seq<Change>, start: StartFrom, base: nat, s: State, e: Event, stumbles: nat)
    requires Anchored(start, s) && Ordered(feed, start, base, s) && SeesWholeFeed(feed, e)
    requires s.position < |feed|
    requires Stumbles(e) ==> stumbles > 0
    ensures Next(feed, start, s, e).position <= |feed|
    ensures Fuel(feed, Next(feed, start, s, e), if Stumbles(e) then stumbles - 1 else stumbles)
         < Fuel(feed, s, stumbles)
  {
    NextKeepsOrdered(feed, start, base, s, e);
    FuelFallsWithPosition(feed, s, Next(feed, start, s, e), if Stumbles(e) then stumbles - 1 else stumbles);
  }

  /**
   With finitely many stumbles the loop reaches the end of a finite feed, though each of them may send it
   all the way back to its checkpoint: f stumbles cost at most f * (length + 1) extra passes.
   */
  lemma {:induction false} LoopReachesTheEnd(
    feed: seq<Change>, start: StartFrom, base: nat, s: State, events: seq<Event>) returns (k: nat)
    requires Anchored(start, s) && Ordered(feed, start, base, s)
    requires forall i | 0 <= i < |events| :: SeesWholeFeed(feed, events[i])
    requires |events| >= Fuel(feed, s, StumbleCount(events))
    ensures k <= |events|
    ensures Run(feed, start, s, events[..k]).position == |feed|
    decreases events
  {
    if s.position == |feed| {
      k := 0;
    } else {
      var e, rest := events[0], events[1..];
      FuelBurns(feed, start, base, s, e, StumbleCount(events));
      NextKeepsOrdered(feed, start, base, s, e);
      var j := LoopReachesTheEnd(feed, start, base, Next(feed, start, s, e), rest);
      k := j + 1;
      assert events[..k][0] == e && events[..k][1..] == rest[..j];
    }
  }

  /** At that point every change from the first read position on has been acknowledged. */
  lemma EverythingIsDelivered(
    feed: seq<Change>, start: StartFrom, durable: Option<nat>, tail: nat, events: seq<Event>) returns (k: nat)
    requires start.Fixed? || durable.Some?
    requires Origin(start, durable) <= |feed|
    requires forall i | 0 <= i < |events| :: SeesWholeFeed(feed, events[i])
    requires Start(start, durable, tail).position <= |feed|
    requires |events| >= Fuel(feed, Start(start, durable, tail), StumbleCount(events))
    ensures k <= |events|
    ensures var s := Run(feed, start, Start(start, durable, tail), events[..k]);
      forall i: nat | Origin(start, durable) <= i < |feed| :: AckedIn(s.log, i)
  {
    var base := Origin(start, durable);
    k := LoopReachesTheEnd(feed, start, base, Start(start, durable, tail), events);
    NothingIsLost(feed, start, durable, tail, events[..k]);
  }

  /** Once there, only a restart can take the loop back. */
  lemma {:induction false} LoopStaysAtTheEnd(feed: seq<Change>, start: StartFrom, s: State, events: seq<Event>)
    requires s.position == |feed|
    requires forall e | e in events :: e.Polled?
    ensures Run(feed, start, s, events) == s
    decreases events
  {
    if events != [] {
      assert events[0] in events && forall r | r in events[1..] :: r in events;
      assert Next(feed, start, s, events[0]) == s;
      LoopStaysAtTheEnd(feed, start, s, events[1..]);
    }
  }
}
