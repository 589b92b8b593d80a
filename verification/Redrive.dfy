/**
 Whole runs of an ordered binding: the event source mapping hands out the next records of a partition,
 reads the answer, and hands out the rest from where the answer says.

 `Step` is the run as it ought to be, by position. The lemmas after it show that the mapping's actual
 arithmetic, a seek to the reported offset or sequence number, is that step for both bindings.
 */
module Redrive {
  import opened Options
  import opened Settlement
  import opened OrderedSettlement

  /** One record's run in one invocation. */
  datatype Try = Try(index: nat, acknowledged: bool)

  datatype Progress = Progress(position: nat, tries: seq<Try>)

  /** What the records of one invocation did here, and whether the rest of its batch brought it down. */
  datatype Invocation = Invocation(outcomes: seq<Outcome>, broughtDown: bool)

  /** The tries of an invocation that starts at `position`: acknowledged ones, then perhaps a failed one. */
  function Tries(p: Policy, position: nat, outcomes: seq<Outcome>): (tries: seq<Try>)
    ensures |tries| <= |outcomes|
  {
    var k := FirstFailure(p, outcomes);
    var ran := if k < |outcomes| then k + 1 else k;
    seq(ran, i requires 0 <= i < ran => Try(position + i, i < k))
  }

  function Step(p: Policy, s: Progress, v: Invocation): Progress {
    Progress(
      if v.broughtDown then s.position else s.position + FirstFailure(p, v.outcomes),
      s.tries + Tries(p, s.position, v.outcomes))
  }

  function Run(p: Policy, s: Progress, vs: seq<Invocation>): Progress
    decreases vs
  {
    if vs == [] then s else Run(p, Step(p, s, vs[0]), vs[1..])
  }

  /** The mapping hands out no more records than are left. */
  predicate WithinLog(p: Policy, length: nat, s: Progress, vs: seq<Invocation>)
    decreases vs
  {
    vs == [] || (s.position + |vs[0].outcomes| <= length && WithinLog(p, length, Step(p, s, vs[0]), vs[1..]))
  }

  const Fresh := Progress(0, [])

  // ---------- safety

  ghost predicate AckedBy(tries: seq<Try>, index: nat) {
    exists k | 0 <= k < |tries| :: tries[k] == Try(index, true)
  }

  /** How many records have been tried at least once. */
  function Reach(tries: seq<Try>): nat
    decreases |tries|
  {
    if tries == [] then 0
    else
      var before := Reach(tries[..|tries| - 1]);
      var t := tries[|tries| - 1];
      if t.index < before then before else t.index + 1
  }

  /** Each try is either of a record tried before, or the first try of the very next record. */
  ghost predicate FirstTriesInOrder(tries: seq<Try>) {
    forall k | 0 <= k < |tries| :: tries[k].index <= Reach(tries[..k])
  }

  ghost predicate Sound(s: Progress) {
    && s.position <= Reach(s.tries)
    && FirstTriesInOrder(s.tries)
    && (forall i: nat | i < s.position :: AckedBy(s.tries, i))
  }

  lemma OneMoreTry(tries: seq<Try>, t: Try)
    requires t.index <= Reach(tries) && FirstTriesInOrder(tries)
    ensures FirstTriesInOrder(tries + [t])
    ensures Reach(tries + [t]) >= Reach(tries) && Reach(tries + [t]) >= t.index + 1
  {
    var all := tries + [t];
    assert all[..|tries|] == tries;
    forall k | 0 <= k < |all|
      ensures all[k].index <= Reach(all[..k])
    {
      if k < |tries| {
        assert all[..k] == tries[..k];
      }
    }
  }

  lemma {:induction false} ReachGrows(tries: seq<Try>, position: nat, more: seq<Try>, all: seq<Try>)
    requires all == tries + more
    requires position <= Reach(tries) && FirstTriesInOrder(tries)
    requires forall i | 0 <= i < |more| :: more[i].index == position + i
    ensures FirstTriesInOrder(all)
    ensures Reach(all) >= Reach(tries) && Reach(all) >= position + |more|
    decreases more
  {
    if more == [] {
      assert all == tries;
    } else {
      OneMoreTry(tries, more[0]);
      var longer, rest := tries + [more[0]], more[1..];
      assert all == longer + rest;
      ReachGrows(longer, position + 1, rest, all);
    }
  }

  lemma StepKeepsSound(p: Policy, s: Progress, v: Invocation)
    requires Sound(s)
    ensures Sound(Step(p, s, v))
    ensures s.position <= Step(p, s, v).position
  {
    var t := Step(p, s, v);
    var more := Tries(p, s.position, v.outcomes);
    ReachGrows(s.tries, s.position, more, t.tries);
    forall i: nat | i < t.position
      ensures AckedBy(t.tries, i)
    {
      if i < s.position {
        assert AckedBy(s.tries, i);
        var k :| 0 <= k < |s.tries| && s.tries[k] == Try(i, true);
        assert t.tries[k] == Try(i, true);
      } else {
        assert t.tries[|s.tries| + (i - s.position)] == Try(i, true);
      }
    }
  }

  /**
   Over any run, the position never moves back and never past a record no invocation acknowledged, and the
   records get their first tries in log order without a gap.
   */
  lemma {:induction false} RunKeepsSound(p: Policy, s: Progress, vs: seq<Invocation>)
    requires Sound(s)
    ensures Sound(Run(p, s, vs))
    ensures s.position <= Run(p, s, vs).position
    decreases vs
  {
    if vs != [] {
      StepKeepsSound(p, s, vs[0]);
      RunKeepsSound(p, Step(p, s, vs[0]), vs[1..]);
    }
  }

  lemma NothingSkipped(p: Policy, vs: seq<Invocation>, i: nat)
    requires i < Run(p, Fresh, vs).position
    ensures AckedBy(Run(p, Fresh, vs).tries, i)
    ensures FirstTriesInOrder(Run(p, Fresh, vs).tries)
  {
    assert Sound(Fresh);
    RunKeepsSound(p, Fresh, vs);
  }

  // ---------- termination

  predicate Fails(p: Policy, v: Invocation) {
    v.broughtDown || FirstFailure(p, v.outcomes) < |v.outcomes|
  }

  function FailureCount(p: Policy, vs: seq<Invocation>): nat
    decreases vs
  {
    if vs == [] then 0 else (if Fails(p, vs[0]) then 1 else 0) + FailureCount(p, vs[1..])
  }

  /** While records are left, an invocation hands out at least one. */
  predicate Fair(p: Policy, length: nat, s: Progress, vs: seq<Invocation>)
    decreases vs
  {
    vs == [] || (
      && (s.position < length ==> vs[0].outcomes != [])
      && Fair(p, length, Step(p, s, vs[0]), vs[1..]))
  }

  /**
   When only finitely many invocations fail, the log is drained: each invocation either uses up a failure or
   moves the position, so there are at most failures + length of them before the end.
   */
  lemma {:induction false} RedriveTerminates(p: Policy, length: nat, s: Progress, vs: seq<Invocation>)
    requires s.position <= length && WithinLog(p, length, s, vs) && Fair(p, length, s, vs)
    requires |vs| >= FailureCount(p, vs) + (length - s.position)
    ensures Run(p, s, vs).position == length
    decreases vs
  {
    if vs != [] {
      var t := Step(p, s, vs[0]);
      if s.position == length {
        assert vs[0].outcomes == [] && t.position == length;
        StaysDrained(p, length, t, vs[1..]);
      } else {
        RedriveTerminates(p, length, t, vs[1..]);
      }
    }
  }

  lemma {:induction false} StaysDrained(p: Policy, length: nat, s: Progress, vs: seq<Invocation>)
    requires s.position == length && WithinLog(p, length, s, vs)
    ensures Run(p, s, vs).position == length
    decreases vs
  {
    if vs != [] {
      StaysDrained(p, length, Step(p, s, vs[0]), vs[1..]);
    }
  }

  // ---------- the same, counted by record

  function FailedTries(tries: seq<Try>): nat
    decreases |tries|
  {
    if tries == [] then 0
    else FailedTries(tries[..|tries| - 1]) + (if tries[|tries| - 1].acknowledged then 0 else 1)
  }

  /** The failed tries of records before `n`. */
  function FailedBefore(tries: seq<Try>, n: nat): nat
    decreases |tries|
  {
    if tries == [] then 0
    else
      var t := tries[|tries| - 1];
      FailedBefore(tries[..|tries| - 1], n) + (if !t.acknowledged && t.index < n then 1 else 0)
  }

  function FailedTriesOf(tries: seq<Try>, i: nat): nat
    decreases |tries|
  {
    if tries == [] then 0
    else FailedTriesOf(tries[..|tries| - 1], i) + (if tries[|tries| - 1] == Try(i, false) then 1 else 0)
  }

  /** Record `i` fails at most `limits[i]` times. */
  ghost predicate FailsAtMost(tries: seq<Try>, limits: seq<nat>) {
    forall i: nat | i < |limits| :: FailedTriesOf(tries, i) <= limits[i]
  }

  function Sum(limits: seq<nat>): nat
    decreases |limits|
  {
    if limits == [] then 0 else Sum(limits[..|limits| - 1]) + limits[|limits| - 1]
  }

  /** Invocations that other partitions of the same event bring down. */
  function BroughtDownByOthers(p: Policy, vs: seq<Invocation>): nat
    decreases vs
  {
    if vs == [] then 0
    else
      (if vs[0].broughtDown && FirstFailure(p, vs[0].outcomes) == |vs[0].outcomes| then 1 else 0)
      + BroughtDownByOthers(p, vs[1..])
  }

  lemma {:induction false} FailedTriesSplit(a: seq<Try>, b: seq<Try>)
    ensures FailedTries(a + b) == FailedTries(a) + FailedTries(b)
    decreases |b|
  {
    if b == [] {
      assert a + b == a;
    } else {
      assert (a + b)[..|a + b| - 1] == a + b[..|b| - 1];
      FailedTriesSplit(a, b[..|b| - 1]);
    }
  }

  lemma {:induction false} NoFailedTries(tries: seq<Try>)
    requires forall i | 0 <= i < |tries| :: tries[i].acknowledged
    ensures FailedTries(tries) == 0
    decreases |tries|
  {
    if tries != [] {
      NoFailedTries(tries[..|tries| - 1]);
    }
  }

  lemma OneFailedTry(p: Policy, position: nat, outcomes: seq<Outcome>)
    ensures FailedTries(Tries(p, position, outcomes)) == if FirstFailure(p, outcomes) < |outcomes| then 1 else 0
  {
    var tries := Tries(p, position, outcomes);
    var k := FirstFailure(p, outcomes);
    if k < |outcomes| {
      NoFailedTries(tries[..k]);
    } else {
      NoFailedTries(tries);
    }
  }

  /** Each invocation that fails has one failed try of its own, or was brought down by others. */
  lemma {:induction false} FailuresAreTries(p: Policy, s: Progress, vs: seq<Invocation>)
    ensures FailedTries(s.tries) + FailureCount(p, vs) == FailedTries(Run(p, s, vs).tries) + BroughtDownByOthers(p, vs)
    decreases vs
  {
    if vs != [] {
      var more := Tries(p, s.position, vs[0].outcomes);
      OneFailedTry(p, s.position, vs[0].outcomes);
      FailedTriesSplit(s.tries, more);
      FailuresAreTries(p, Step(p, s, vs[0]), vs[1..]);
    }
  }

  ghost predicate TriesWithin(tries: seq<Try>, length: nat) {
    forall k | 0 <= k < |tries| :: tries[k].index < length
  }

  lemma {:induction false} RunStaysWithin(p: Policy, length: nat, s: Progress, vs: seq<Invocation>)
    requires TriesWithin(s.tries, length) && WithinLog(p, length, s, vs)
    ensures TriesWithin(Run(p, s, vs).tries, length)
    decreases vs
  {
    if vs != [] {
      RunStaysWithin(p, length, Step(p, s, vs[0]), vs[1..]);
    }
  }

  lemma {:induction false} AllFailedBefore(tries: seq<Try>, length: nat)
    requires TriesWithin(tries, length)
    ensures FailedBefore(tries, length) == FailedTries(tries)
    decreases |tries|
  {
    if tries != [] {
      AllFailedBefore(tries[..|tries| - 1], length);
    }
  }

  lemma {:induction false} OneMoreRecord(tries: seq<Try>, n: nat)
    ensures FailedBefore(tries, n + 1) == FailedBefore(tries, n) + FailedTriesOf(tries, n)
    decreases |tries|
  {
    if tries != [] {
      OneMoreRecord(tries[..|tries| - 1], n);
    }
  }

  lemma {:induction false} NoneBeforeFirst(tries: seq<Try>)
    ensures FailedBefore(tries, 0) == 0
    decreases |tries|
  {
    if tries != [] {
      NoneBeforeFirst(tries[..|tries| - 1]);
    }
  }

  lemma {:induction false} FailedBeforeAtMost(tries: seq<Try>, limits: seq<nat>)
    requires FailsAtMost(tries, limits)
    ensures FailedBefore(tries, |limits|) <= Sum(limits)
    decreases |limits|
  {
    if limits == [] {
      NoneBeforeFirst(tries);
    } else {
      FailedBeforeAtMost(tries, limits[..|limits| - 1]);
      OneMoreRecord(tries, |limits| - 1);
    }
  }

  /**
   When each record fails finitely often, and others bring down finitely many invocations, the log is drained:
   that many failures and one invocation for every record are enough.
   */
  lemma RecordsDrain(p: Policy, limits: seq<nat>, vs: seq<Invocation>)
    requires WithinLog(p, |limits|, Fresh, vs) && Fair(p, |limits|, Fresh, vs)
    requires FailsAtMost(Run(p, Fresh, vs).tries, limits)
    requires |vs| >= Sum(limits) + BroughtDownByOthers(p, vs) + |limits|
    ensures Run(p, Fresh, vs).position == |limits|
  {
    var tries := Run(p, Fresh, vs).tries;
    FailuresAreTries(p, Fresh, vs);
    RunStaysWithin(p, |limits|, Fresh, vs);
    AllFailedBefore(tries, |limits|);
    FailedBeforeAtMost(tries, limits);
    RedriveTerminates(p, |limits|, Fresh, vs);
  }

  // ---------- the mapping's arithmetic is that step: Kafka

  ghost predicate Increasing(log: seq<nat>) {
    forall i, j | 0 <= i < j < |log| :: log[i] < log[j]
  }

  /** The batch holds the next records of the partition's log, in whatever order they arrive. */
  ghost predicate Hands(log: seq<nat>, position: nat, batch: seq<Record>) {
    && position + |batch| <= |log|
    && multiset(Offsets(batch)) == multiset(log[position..position + |batch|])
  }

  /** A seek: the first record at or after the offset. */
  function SeekTo(log: seq<nat>, offset: nat): (i: nat)
    ensures i <= |log|
    ensures forall j | 0 <= j < i :: log[j] < offset
    ensures i < |log| ==> log[i] >= offset
    decreases log
  {
    if log == [] || log[0] >= offset then 0 else 1 + SeekTo(log[1..], offset)
  }

  /** Where the mapping hands out from next, given this partition's answer and whether the invocation threw. */
  function NextPosition(log: seq<nat>, position: nat, batch: seq<Record>, failure: Option<nat>, thrown: bool): nat {
    if thrown then position
    else if failure.Some? then SeekTo(log, failure.value)
    else position + |batch|
  }

  lemma {:induction false} InsertKeepsOffsets(r: Record, sorted: seq<Record>)
    ensures multiset(Offsets(Insert(r, sorted))) == multiset{r.offset} + multiset(Offsets(sorted))
    decreases sorted
  {
    if sorted == [] || r.offset <= sorted[0].offset {
      assert Offsets([r] + sorted) == [r.offset] + Offsets(sorted);
    } else {
      InsertKeepsOffsets(r, sorted[1..]);
      assert Offsets(sorted) == [sorted[0].offset] + Offsets(sorted[1..]);
      assert Offsets(Insert(r, sorted)) == [sorted[0].offset] + Offsets(Insert(r, sorted[1..]));
    }
  }

  lemma {:induction false} SortKeepsOffsets(records: seq<Record>)
    ensures multiset(Offsets(SortByOffset(records))) == multiset(Offsets(records))
    decreases records
  {
    if records != [] {
      SortKeepsOffsets(records[1..]);
      InsertKeepsOffsets(records[0], SortByOffset(records[1..]));
      assert Offsets(records) == [records[0].offset] + Offsets(records[1..]);
    }
  }

  ghost predicate Ascending(a: seq<nat>) {
    forall i, j | 0 <= i < j < |a| :: a[i] <= a[j]
  }

  lemma HeadIsLeast(a: seq<nat>, x: nat)
    requires Ascending(a) && x in multiset(a)
    ensures a != [] && a[0] <= x
  {
    assert x in a;
  }

  lemma TailOf(a: seq<nat>)
    requires a != []
    ensures multiset(a) == multiset{a[0]} + multiset(a[1..])
  {
    assert a == [a[0]] + a[1..];
  }

  lemma HeadsAgree(a: seq<nat>, b: seq<nat>)
    requires multiset(a) == multiset(b) && Ascending(a) && Ascending(b) && a != []
    ensures b != [] && a[0] == b[0] && multiset(a[1..]) == multiset(b[1..])
  {
    assert a[0] in multiset(a);
    HeadIsLeast(b, a[0]);
    assert b[0] in multiset(b);
    HeadIsLeast(a, b[0]);
    TailOf(a);
    TailOf(b);
    assert multiset(a[1..]) == multiset(a) - multiset{a[0]};
    assert multiset(b[1..]) == multiset(b) - multiset{b[0]};
  }

  lemma {:induction false} SortedPermutationIsUnique(a: seq<nat>, b: seq<nat>)
    requires multiset(a) == multiset(b) && Ascending(a) && Ascending(b)
    ensures a == b
    decreases a
  {
    if a == [] {
      assert |b| == |multiset(b)| == |multiset(a)|;
    } else {
      HeadsAgree(a, b);
      SortedPermutationIsUnique(a[1..], b[1..]);
      assert a == [a[0]] + a[1..] && b == [b[0]] + b[1..];
    }
  }

  /** Sorting the batch restores log order, however its records arrived. */
  lemma SortRestoresLogOrder(log: seq<nat>, position: nat, batch: seq<Record>)
    requires Increasing(log) && Hands(log, position, batch)
    ensures |SortByOffset(batch)| == |batch|
    ensures Offsets(SortByOffset(batch)) == log[position..position + |batch|]
  {
    SortIsSortedPermutation(batch);
    SortKeepsOffsets(batch);
    SortedPermutationIsUnique(Offsets(SortByOffset(batch)), log[position..position + |batch|]);
    assert |Offsets(SortByOffset(batch))| == |batch|;
  }

  /** The invocation a batch amounts to for its partition. */
  function InvocationOf(batch: seq<Record>, thrown: bool): Invocation {
    Invocation(Outcomes(SortByOffset(batch)), thrown)
  }

  lemma SeekFinds(log: seq<nat>, i: nat)
    requires Increasing(log) && i < |log|
    ensures SeekTo(log, log[i]) == i
  {
    assert SeekTo(log, log[i]) <= i;
  }

  lemma SortedOffsets(log: seq<nat>, position: nat, batch: seq<Record>, i: nat)
    requires Increasing(log) && Hands(log, position, batch) && i < |batch|
    ensures |SortByOffset(batch)| == |batch|
    ensures SortByOffset(batch)[i].offset == log[position + i]
  {
    SortRestoresLogOrder(log, position, batch);
    assert Offsets(SortByOffset(batch))[i] == log[position..position + |batch|][i];
  }

  /** The offset a partition reports is the log's, at the step's position. */
  lemma ReportedOffset(p: Policy, log: seq<nat>, position: nat, batch: seq<Record>)
    requires Increasing(log) && Hands(log, position, batch)
    ensures |SortByOffset(batch)| == |batch|
    ensures var k := FirstFailure(p, Outcomes(SortByOffset(batch)));
      PartitionFailure(p, batch) == if k < |batch| then Some(log[position + k]) else None
  {
    SortRestoresLogOrder(log, position, batch);
    var k := FirstFailure(p, Outcomes(SortByOffset(batch)));
    if k < |batch| {
      SortedOffsets(log, position, batch, k);
    }
  }

  /** The tries that running these records of the log amounts to. */
  function TriesOf(p: Policy, log: seq<nat>, ran: seq<Record>): (tries: seq<Try>)
    ensures |tries| == |ran|
  {
    seq(|ran|, i requires 0 <= i < |ran| => Try(SeekTo(log, ran[i].offset), !MustRedeliver(p, ran[i].outcome)))
  }

  lemma SeekSorted(log: seq<nat>, position: nat, batch: seq<Record>, i: nat)
    requires Increasing(log) && Hands(log, position, batch) && i < |batch|
    ensures |SortByOffset(batch)| == |batch|
    ensures SeekTo(log, SortByOffset(batch)[i].offset) == position + i
  {
    SortedOffsets(log, position, batch, i);
    SeekFinds(log, position + i);
  }

  lemma RanOutcome(p: Policy, records: seq<Record>, i: nat)
    requires i < |PartitionRan(p, records)|
    ensures i < |SortByOffset(records)| && PartitionRan(p, records)[i] == SortByOffset(records)[i]
    ensures MustRedeliver(p, PartitionRan(p, records)[i].outcome)
       <==> i == FirstFailure(p, Outcomes(SortByOffset(records)))
  {
  }

  lemma RanRecord(p: Policy, log: seq<nat>, position: nat, batch: seq<Record>, i: nat)
    requires Increasing(log) && Hands(log, position, batch) && i < |PartitionRan(p, batch)|
    ensures TriesOf(p, log, PartitionRan(p, batch))[i]
         == Try(position + i, i < FirstFailure(p, Outcomes(SortByOffset(batch))))
  {
    RanOutcome(p, batch, i);
    SortRestoresLogOrder(log, position, batch);
    SeekSorted(log, position, batch, i);
  }

  lemma TriesFrom(p: Policy, position: nat, outcomes: seq<Outcome>, tries: seq<Try>)
    requires var k := FirstFailure(p, outcomes); |tries| == if k < |outcomes| then k + 1 else k
    requires forall i | 0 <= i < |tries| :: tries[i] == Try(position + i, i < FirstFailure(p, outcomes))
    ensures tries == Tries(p, position, outcomes)
  {
  }

  /** The records a partition ran are the step's tries, in that order. */
  lemma RanAreTries(p: Policy, log: seq<nat>, position: nat, batch: seq<Record>)
    requires Increasing(log) && Hands(log, position, batch)
    ensures TriesOf(p, log, PartitionRan(p, batch)) == Tries(p, position, Outcomes(SortByOffset(batch)))
  {
    var tries := TriesOf(p, log, PartitionRan(p, batch));
    forall i | 0 <= i < |tries|
      ensures tries[i] == Try(position + i, i < FirstFailure(p, Outcomes(SortByOffset(batch))))
    {
      RanRecord(p, log, position, batch, i);
    }
    TriesFrom(p, position, Outcomes(SortByOffset(batch)), tries);
  }

  /** One invocation: the position from the answer, the tries from the records that ran. */
  function KafkaStep(p: Policy, log: seq<nat>, s: Progress, batch: seq<Record>, failure: Option<nat>, thrown: bool): Progress {
    Progress(NextPosition(log, s.position, batch, failure, thrown), s.tries + TriesOf(p, log, PartitionRan(p, batch)))
  }

  /** Reporting an offset and seeking to it is exactly the step. */
  lemma KafkaImplementsStep(p: Policy, log: seq<nat>, s: Progress, batch: seq<Record>, thrown: bool)
    requires Increasing(log) && Hands(log, s.position, batch)
    ensures KafkaStep(p, log, s, batch, PartitionFailure(p, batch), thrown) == Step(p, s, InvocationOf(batch, thrown))
  {
    ReportedOffset(p, log, s.position, batch);
    RanAreTries(p, log, s.position, batch);
    var k := FirstFailure(p, Outcomes(SortByOffset(batch)));
    if k < |batch| {
      SeekFinds(log, s.position + k);
    }
  }

  // ---------- whole events, whole runs

  /** Where an event has records of the partition, if it has any. */
  function Find(event: seq<Partition>, key: string): (i: nat)
    ensures i <= |event|
    ensures i < |event| ==> event[i].key == key
    ensures i == |event| ==> forall part | part in event :: part.key != key
    decreases event
  {
    if event == [] || event[0].key == key then 0 else 1 + Find(event[1..], key)
  }

  /** What an answer says to a partition. */
  function FailureOf(failures: seq<ItemFailure>, key: string): (failure: Option<nat>)
    ensures failure.Some? ==> ItemFailure(key, failure.value) in failures
    ensures failure.None? ==> forall f | f in failures :: f.partition != key
    decreases failures
  {
    if failures == [] then None
    else if failures[0].partition == key then Some(failures[0].offset)
    else FailureOf(failures[1..], key)
  }

  function AnswerFor(response: Response, key: string): Option<nat> {
    if response.Thrown? then None else FailureOf(response.failures, key)
  }

  /** One event, seen from one partition: the handler's response decides where the mapping resumes. */
  function EventStep(p: Policy, mode: FailureMode, log: seq<nat>, key: string, s: Progress, event: seq<Partition>): Progress {
    var i := Find(event, key);
    if i == |event| then s
    else
      var response := Respond(p, mode, event);
      KafkaStep(p, log, s, event[i].records, AnswerFor(response, key), response.Thrown?)
  }

  lemma AnswerIsOwnFailure(p: Policy, mode: FailureMode, event: seq<Partition>, i: nat)
    requires DistinctKeys(event) && i < |event| && Respond(p, mode, event).Reported?
    ensures AnswerFor(Respond(p, mode, event), event[i].key) == PartitionFailure(p, event[i].records)
  {
    ResponseForPartition(p, mode, event, event[i]);
    var own := PartitionFailure(p, event[i].records);
    if own.Some? {
      assert ItemFailure(event[i].key, own.value) in Respond(p, mode, event).failures;
    }
  }

  /** The event holds the next records of the partition's log, or none of them. */
  ghost predicate HandsEvent(log: seq<nat>, key: string, s: Progress, event: seq<Partition>) {
    && DistinctKeys(event)
    && var i := Find(event, key); i < |event| ==> Hands(log, s.position, event[i].records)
  }

  lemma EventImplementsStep(p: Policy, mode: FailureMode, log: seq<nat>, key: string, s: Progress, event: seq<Partition>)
    requires Increasing(log) && HandsEvent(log, key, s, event)
    ensures var i := Find(event, key);
      EventStep(p, mode, log, key, s, event) ==
        if i == |event| then s
        else Step(p, s, InvocationOf(event[i].records, Respond(p, mode, event).Thrown?))
  {
    var i := Find(event, key);
    if i < |event| {
      var thrown := Respond(p, mode, event).Thrown?;
      KafkaImplementsStep(p, log, s, event[i].records, thrown);
      if !thrown {
        AnswerIsOwnFailure(p, mode, event, i);
      }
    }
  }

  function KafkaRun(p: Policy, mode: FailureMode, log: seq<nat>, key: string, s: Progress, events: seq<seq<Partition>>): Progress
    decreases events
  {
    if events == [] then s
    else KafkaRun(p, mode, log, key, EventStep(p, mode, log, key, s, events[0]), events[1..])
  }

  /** Every event hands out the records after the position the last answer led to. */
  ghost predicate HandsAll(p: Policy, mode: FailureMode, log: seq<nat>, key: string, s: Progress, events: seq<seq<Partition>>)
    decreases events
  {
    events == [] || (
      && HandsEvent(log, key, s, events[0])
      && HandsAll(p, mode, log, key, EventStep(p, mode, log, key, s, events[0]), events[1..]))
  }

  /** The invocations a run of events amounts to for one partition. */
  function Invocations(p: Policy, mode: FailureMode, key: string, events: seq<seq<Partition>>): seq<Invocation>
    decreases events
  {
    if events == [] then []
    else
      var i := Find(events[0], key);
      (if i == |events[0]| then []
       else [InvocationOf(events[0][i].records, Respond(p, mode, events[0]).Thrown?)])
      + Invocations(p, mode, key, events[1..])
  }

  /** A run of actual events is a run of steps, whatever else the events hold. */
  lemma {:induction false} KafkaRunIsRun(
    p: Policy, mode: FailureMode, log: seq<nat>, key: string, s: Progress, events: seq<seq<Partition>>)
    requires Increasing(log) && HandsAll(p, mode, log, key, s, events)
    ensures KafkaRun(p, mode, log, key, s, events) == Run(p, s, Invocations(p, mode, key, events))
    ensures WithinLog(p, |log|, s, Invocations(p, mode, key, events))
    decreases events
  {
    if events != [] {
      var i := Find(events[0], key);
      EventImplementsStep(p, mode, log, key, s, events[0]);
      KafkaRunIsRun(p, mode, log, key, EventStep(p, mode, log, key, s, events[0]), events[1..]);
      var later := Invocations(p, mode, key, events[1..]);
      if i == |events[0]| {
        assert Invocations(p, mode, key, events) == later;
      } else {
        var v := InvocationOf(events[0][i].records, Respond(p, mode, events[0]).Thrown?);
        assert Invocations(p, mode, key, events) == [v] + later && ([v] + later)[1..] == later;
        SortRestoresLogOrder(log, s.position, events[0][i].records);
      }
    }
  }

  /** Over whole runs of events a partition is never resumed past a record that no run acknowledged. */
  lemma KafkaSkipsNothing(p: Policy, mode: FailureMode, log: seq<nat>, key: string, events: seq<seq<Partition>>, i: nat)
    requires Increasing(log) && HandsAll(p, mode, log, key, Fresh, events)
    requires i < KafkaRun(p, mode, log, key, Fresh, events).position
    ensures AckedBy(KafkaRun(p, mode, log, key, Fresh, events).tries, i)
    ensures FirstTriesInOrder(KafkaRun(p, mode, log, key, Fresh, events).tries)
  {
    KafkaRunIsRun(p, mode, log, key, Fresh, events);
    NothingSkipped(p, Invocations(p, mode, key, events), i);
  }

  lemma {:induction false} PartialModeBringsNothingDown(p: Policy, key: string, events: seq<seq<Partition>>)
    ensures BroughtDownByOthers(p, Invocations(p, PartialBatchFailure, key, events)) == 0
    decreases events
  {
    if events != [] {
      PartialModeBringsNothingDown(p, key, events[1..]);
      var later := Invocations(p, PartialBatchFailure, key, events[1..]);
      var i := Find(events[0], key);
      if i == |events[0]| {
        assert Invocations(p, PartialBatchFailure, key, events) == later;
      } else {
        var v := InvocationOf(events[0][i].records, false);
        assert Invocations(p, PartialBatchFailure, key, events) == [v] + later && ([v] + later)[1..] == later;
      }
    }
  }

  /**
   And it is drained when each of its records fails at most so often, and so many invocations have come that
   failures, and events brought down by other partitions, cannot account for them all.
   */
  lemma KafkaDrains(
    p: Policy, mode: FailureMode, log: seq<nat>, key: string, events: seq<seq<Partition>>, limits: seq<nat>)
    requires Increasing(log) && HandsAll(p, mode, log, key, Fresh, events) && |limits| == |log|
    requires var vs := Invocations(p, mode, key, events);
      Fair(p, |log|, Fresh, vs) && |vs| >= Sum(limits) + BroughtDownByOthers(p, vs) + |log|
    requires FailsAtMost(KafkaRun(p, mode, log, key, Fresh, events).tries, limits)
    ensures KafkaRun(p, mode, log, key, Fresh, events).position == |log|
  {
    KafkaRunIsRun(p, mode, log, key, Fresh, events);
    RecordsDrain(p, limits, Invocations(p, mode, key, events));
  }

  /** One invocation of the handler over an event, seen from one of its partitions. */
  method InvokeOverTopic(
    p: Policy, mode: FailureMode, log: seq<nat>, key: string, s: Progress, event: seq<Partition>, order: seq<nat>)
    returns (next: Progress)
    requires Covers(order, |event|)
    ensures next == EventStep(p, mode, log, key, s, event)
  {
    var i := Find(event, key);
    var response, ran := HandleKafka(p, mode, event, order);
    if i == |event| {
      return s;
    }
    var position := NextPosition(log, s.position, event[i].records, AnswerFor(response, key), response.Thrown?);
    next := Progress(position, s.tries + TriesOf(p, log, ran[i]));
  }

  // ---------- and DynamoDB streams

  /** The shard position of a reported sequence number. */
  function FindIdentifier(log: seq<string>, id: string): (i: nat)
    ensures i <= |log|
    ensures id !in log[..i]
    ensures i < |log| ==> log[i] == id
    decreases log
  {
    if log == [] || log[0] == id then 0
    else
      var i := FindIdentifier(log[1..], id);
      assert log[..1 + i] == [log[0]] + log[1..][..i];
      1 + i
  }

  ghost predicate Distinct(log: seq<string>) {
    forall i, j | 0 <= i < j < |log| :: log[i] != log[j]
  }

  lemma FindsIdentifier(log: seq<string>, i: nat)
    requires Distinct(log) && i < |log|
    ensures FindIdentifier(log, log[i]) == i
  {
    var found := FindIdentifier(log, log[i]);
    assert forall j | 0 <= j < found :: log[j] in log[..found];
  }

  /** The batch holds the next records of the shard, in shard order. */
  ghost predicate HandsInOrder(log: seq<string>, position: nat, batch: seq<StreamRecord>) {
    && position + |batch| <= |log|
    && forall i | 0 <= i < |batch| :: batch[i].sequenceNumber == Some(log[position + i])
  }

  function StreamTriesOf(p: Policy, log: seq<string>, ran: seq<StreamRecord>): (tries: seq<Try>)
    ensures |tries| == |ran|
  {
    seq(|ran|, i requires 0 <= i < |ran| =>
      Try(FindIdentifier(log, Identifier(ran[i])), !MustRedeliver(p, ran[i].outcome)))
  }

  /** One invocation over a shard: the mapping resumes at the reported sequence number. */
  function ShardStep(p: Policy, log: seq<string>, s: Progress, batch: seq<StreamRecord>): Progress {
    var failures := StreamFailures(p, batch);
    Progress(
      if failures == [] then s.position + |batch| else FindIdentifier(log, failures[0]),
      s.tries + StreamTriesOf(p, log, StreamRan(p, batch)))
  }

  lemma RanStreamOutcome(p: Policy, records: seq<StreamRecord>, i: nat)
    requires i < |StreamRan(p, records)|
    ensures i < |records| && StreamRan(p, records)[i] == records[i]
    ensures MustRedeliver(p, records[i].outcome) <==> i == FirstFailure(p, StreamOutcomes(records))
    ensures i <= FirstFailure(p, StreamOutcomes(records))
  {
    assert StreamOutcomes(records)[i] == records[i].outcome;
  }

  lemma RanStreamRecord(p: Policy, log: seq<string>, position: nat, batch: seq<StreamRecord>, i: nat)
    requires Distinct(log) && HandsInOrder(log, position, batch) && i < |StreamRan(p, batch)|
    ensures StreamTriesOf(p, log, StreamRan(p, batch))[i]
         == Try(position + i, i < FirstFailure(p, StreamOutcomes(batch)))
  {
    RanStreamOutcome(p, batch, i);
    FindsIdentifier(log, position + i);
  }

  lemma ShardImplementsStep(p: Policy, log: seq<string>, s: Progress, batch: seq<StreamRecord>)
    requires Distinct(log) && HandsInOrder(log, s.position, batch)
    ensures ShardStep(p, log, s, batch) == Step(p, s, Invocation(StreamOutcomes(batch), false))
  {
    var k := FirstFailure(p, StreamOutcomes(batch));
    var ran := StreamRan(p, batch);
    forall i | 0 <= i < |ran|
      ensures StreamTriesOf(p, log, ran)[i] == Try(s.position + i, i < k)
    {
      RanStreamRecord(p, log, s.position, batch, i);
    }
    TriesFrom(p, s.position, StreamOutcomes(batch), StreamTriesOf(p, log, ran));
    if k < |batch| {
      FindsIdentifier(log, s.position + k);
    }
  }

  function ShardRun(p: Policy, log: seq<string>, s: Progress, batches: seq<seq<StreamRecord>>): Progress
    decreases batches
  {
    if batches == [] then s else ShardRun(p, log, ShardStep(p, log, s, batches[0]), batches[1..])
  }

  ghost predicate HandsShard(p: Policy, log: seq<string>, s: Progress, batches: seq<seq<StreamRecord>>)
    decreases batches
  {
    batches == [] || (
      && HandsInOrder(log, s.position, batches[0])
      && HandsShard(p, log, ShardStep(p, log, s, batches[0]), batches[1..]))
  }

  function ShardInvocations(batches: seq<seq<StreamRecord>>): (vs: seq<Invocation>)
    ensures |vs| == |batches|
    ensures forall i | 0 <= i < |vs| :: vs[i] == Invocation(StreamOutcomes(batches[i]), false)
  {
    seq(|batches|, i requires 0 <= i < |batches| => Invocation(StreamOutcomes(batches[i]), false))
  }

  lemma {:induction false} ShardRunIsRun(p: Policy, log: seq<string>, s: Progress, batches: seq<seq<StreamRecord>>)
    requires Distinct(log) && HandsShard(p, log, s, batches)
    ensures ShardRun(p, log, s, batches) == Run(p, s, ShardInvocations(batches))
    ensures WithinLog(p, |log|, s, ShardInvocations(batches))
    ensures BroughtDownByOthers(p, ShardInvocations(batches)) == 0
    decreases batches
  {
    if batches != [] {
      ShardImplementsStep(p, log, s, batches[0]);
      ShardRunIsRun(p, log, ShardStep(p, log, s, batches[0]), batches[1..]);
      assert ShardInvocations(batches)[1..] == ShardInvocations(batches[1..]);
    }
  }

  /** Over whole runs a shard is never resumed past an unacknowledged record. */
  lemma ShardSkipsNothing(p: Policy, log: seq<string>, batches: seq<seq<StreamRecord>>, i: nat)
    requires Distinct(log) && HandsShard(p, log, Fresh, batches)
    requires i < ShardRun(p, log, Fresh, batches).position
    ensures AckedBy(ShardRun(p, log, Fresh, batches).tries, i)
    ensures FirstTriesInOrder(ShardRun(p, log, Fresh, batches).tries)
  {
    ShardRunIsRun(p, log, Fresh, batches);
    NothingSkipped(p, ShardInvocations(batches), i);
  }

  /** And it is drained when each of its records fails at most so often. */
  lemma ShardDrains(p: Policy, log: seq<string>, batches: seq<seq<StreamRecord>>, limits: seq<nat>)
    requires Distinct(log) && HandsShard(p, log, Fresh, batches) && |limits| == |log|
    requires Fair(p, |log|, Fresh, ShardInvocations(batches)) && |batches| >= Sum(limits) + |log|
    requires FailsAtMost(ShardRun(p, log, Fresh, batches).tries, limits)
    ensures ShardRun(p, log, Fresh, batches).position == |log|
  {
    ShardRunIsRun(p, log, Fresh, batches);
    RecordsDrain(p, limits, ShardInvocations(batches));
  }

  /** One invocation of the handler over a shard. */
  method InvokeOverShard(p: Policy, log: seq<string>, s: Progress, batch: seq<StreamRecord>) returns (next: Progress)
    ensures next == ShardStep(p, log, s, batch)
  {
    var failures, ran := HandleStream(p, batch);
    var position := s.position + |batch|;
    if failures != [] {
      position := FindIdentifier(log, failures[0]);
    }
    next := Progress(position, s.tries + StreamTriesOf(p, log, ran));
  }
}
