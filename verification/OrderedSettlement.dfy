/**
 Bindings that run records in order and stop at the first one that must be redelivered: a Kafka batch, one
 topic-partition at a time, and a DynamoDB stream batch.
 */
module OrderedSettlement {
  import opened Options
  import opened Settlement

  // ---------- the first failure

  /** The position of the first outcome that must be redelivered, or the length when there is none. */
  function FirstFailure(p: Policy, outcomes: seq<Outcome>): (k: nat)
    ensures k <= |outcomes|
    ensures forall j | 0 <= j < k :: !MustRedeliver(p, outcomes[j])
    ensures k < |outcomes| ==> MustRedeliver(p, outcomes[k])
    decreases outcomes
  {
    if outcomes == [] || MustRedeliver(p, outcomes[0]) then 0 else 1 + FirstFailure(p, outcomes[1..])
  }

  /** What is before a failure, and what follows it, has no say in where the first failure is. */
  lemma FirstFailureIsLeast(p: Policy, outcomes: seq<Outcome>, k: nat)
    requires k < |outcomes| && MustRedeliver(p, outcomes[k])
    requires forall j | 0 <= j < k :: !MustRedeliver(p, outcomes[j])
    ensures FirstFailure(p, outcomes) == k
  {
    var f := FirstFailure(p, outcomes);
    assert f <= k;
    assert k <= f;
  }

  /** A Kafka partition acknowledges a record without a result; a DynamoDB shard stops at it, as SQS reports it. */
  function KafkaPolicy(atMostOnce: bool, ignoreUnmatchedTopics: bool): Policy {
    Policy(atMostOnce, ignoreUnmatchedTopics, Acknowledge)
  }

  function ShardPolicy(atMostOnce: bool, ignoreUnmatchedTopics: bool): Policy {
    Policy(atMostOnce, ignoreUnmatchedTopics, Redeliver)
  }

  /** The two ordered bindings stop at the same record unless one without a result comes first. */
  lemma BindingsDifferOnMissingResults(atMostOnce: bool, ignoreUnmatchedTopics: bool, outcomes: seq<Outcome>)
    ensures var kafka := FirstFailure(KafkaPolicy(atMostOnce, ignoreUnmatchedTopics), outcomes);
      var shard := FirstFailure(ShardPolicy(atMostOnce, ignoreUnmatchedTopics), outcomes);
      && shard <= kafka
      && (shard < kafka <==> !atMostOnce && shard < |outcomes| && outcomes[shard] == Finished(None))
  {
  }

  // ---------- Kafka: offset order

  datatype Record = Record(offset: nat, outcome: Outcome)

  function Offsets(records: seq<Record>): (offsets: seq<nat>)
    ensures |offsets| == |records|
    ensures forall i | 0 <= i < |records| :: offsets[i] == records[i].offset
  {
    seq(|records|, i requires 0 <= i < |records| => records[i].offset)
  }

  function Outcomes(records: seq<Record>): (outcomes: seq<Outcome>)
    ensures |outcomes| == |records|
    ensures forall i | 0 <= i < |records| :: outcomes[i] == records[i].outcome
  {
    seq(|records|, i requires 0 <= i < |records| => records[i].outcome)
  }

  ghost predicate Sorted(records: seq<Record>) {
    forall i, j | 0 <= i < j < |records| :: records[i].offset <= records[j].offset
  }

  function Insert(r: Record, sorted: seq<Record>): seq<Record>
    decreases sorted
  {
    if sorted == [] || r.offset <= sorted[0].offset then [r] + sorted
    else [sorted[0]] + Insert(r, sorted[1..])
  }

  /** The stable sort of a copy of the records. */
  function SortByOffset(records: seq<Record>): seq<Record>
    decreases records
  {
    if records == [] then [] else Insert(records[0], SortByOffset(records[1..]))
  }

  lemma {:induction false} InsertAdds(r: Record, sorted: seq<Record>)
    ensures multiset(Insert(r, sorted)) == multiset{r} + multiset(sorted)
    decreases sorted
  {
    if sorted != [] && r.offset > sorted[0].offset {
      InsertAdds(r, sorted[1..]);
      assert sorted == [sorted[0]] + sorted[1..];
    }
  }

  lemma {:induction false} InsertKeepsSorted(r: Record, sorted: seq<Record>)
    requires Sorted(sorted)
    ensures Sorted(Insert(r, sorted))
    ensures forall x | x in Insert(r, sorted) :: x == r || x in sorted
    decreases sorted
  {
    if sorted != [] && r.offset > sorted[0].offset {
      InsertKeepsSorted(r, sorted[1..]);
      var tail := Insert(r, sorted[1..]);
      forall i | 0 <= i < |tail|
        ensures sorted[0].offset <= tail[i].offset
      {
        assert tail[i] in tail;
      }
    }
  }

  lemma {:induction false} SortIsSortedPermutation(records: seq<Record>)
    ensures Sorted(SortByOffset(records))
    ensures multiset(SortByOffset(records)) == multiset(records)
    decreases records
  {
    if records != [] {
      SortIsSortedPermutation(records[1..]);
      InsertKeepsSorted(records[0], SortByOffset(records[1..]));
      InsertAdds(records[0], SortByOffset(records[1..]));
      assert records == [records[0]] + records[1..];
    }
  }

  function WithOffset(records: seq<Record>, offset: nat): seq<Record>
    decreases records
  {
    if records == [] then []
    else (if records[0].offset == offset then [records[0]] else []) + WithOffset(records[1..], offset)
  }

  lemma {:induction false} InsertIsStable(r: Record, sorted: seq<Record>, offset: nat)
    ensures WithOffset(Insert(r, sorted), offset)
         == (if r.offset == offset then [r] else []) + WithOffset(sorted, offset)
    decreases sorted
  {
    var inserted := Insert(r, sorted);
    if sorted == [] || r.offset <= sorted[0].offset {
      assert inserted[1..] == sorted;
    } else {
      InsertIsStable(r, sorted[1..], offset);
      assert inserted[0] == sorted[0] && inserted[1..] == Insert(r, sorted[1..]);
      var rest := WithOffset(sorted[1..], offset);
      if sorted[0].offset == offset {
        assert WithOffset(inserted, offset) == [sorted[0]] + rest;
      } else {
        assert WithOffset(inserted, offset) == WithOffset(inserted[1..], offset);
        assert WithOffset(sorted, offset) == rest;
      }
    }
  }

  /** Records that share an offset keep their order. */
  lemma {:induction false} SortIsStable(records: seq<Record>, offset: nat)
    ensures WithOffset(SortByOffset(records), offset) == WithOffset(records, offset)
    decreases records
  {
    if records != [] {
      SortIsStable(records[1..], offset);
      InsertIsStable(records[0], SortByOffset(records[1..]), offset);
    }
  }

  lemma SortKeepsMembers(records: seq<Record>, r: Record)
    ensures r in SortByOffset(records) <==> r in records
  {
    SortIsSortedPermutation(records);
    assert r in SortByOffset(records) <==> r in multiset(SortByOffset(records));
    assert r in records <==> r in multiset(records);
  }

  /** The offset a partition reports. */
  function PartitionFailure(p: Policy, records: seq<Record>): Option<nat> {
    var sorted := SortByOffset(records);
    var k := FirstFailure(p, Outcomes(sorted));
    if k < |sorted| then Some(sorted[k].offset) else None
  }

  /** The records a partition runs: in offset order, up to and with the first that must be redelivered. */
  function PartitionRan(p: Policy, records: seq<Record>): seq<Record> {
    var sorted := SortByOffset(records);
    var k := FirstFailure(p, Outcomes(sorted));
    if k < |sorted| then sorted[..k + 1] else sorted
  }

  /** What the first record that must be redelivered says about the whole partition. */
  lemma FirstFailedRecord(p: Policy, records: seq<Record>, i: nat)
    requires i < |SortByOffset(records)| && MustRedeliver(p, SortByOffset(records)[i].outcome)
    requires forall j | 0 <= j < i :: !MustRedeliver(p, SortByOffset(records)[j].outcome)
    ensures PartitionFailure(p, records) == Some(SortByOffset(records)[i].offset)
    ensures PartitionRan(p, records) == SortByOffset(records)[..i + 1]
    ensures SortByOffset(records)[i] in records
    ensures forall r | r in records && MustRedeliver(p, r.outcome) :: SortByOffset(records)[i].offset <= r.offset
    ensures forall r | r in records && r.offset < SortByOffset(records)[i].offset :: r in SortByOffset(records)[..i + 1]
    ensures forall r | r in SortByOffset(records)[..i + 1] :: r.offset <= SortByOffset(records)[i].offset
  {
    var sorted := SortByOffset(records);
    SortIsSortedPermutation(records);
    SortKeepsMembers(records, sorted[i]);
    FirstFailureIsLeast(p, Outcomes(sorted), i);
    forall r | r in records
      ensures MustRedeliver(p, r.outcome) ==> sorted[i].offset <= r.offset
      ensures r.offset < sorted[i].offset ==> r in sorted[..i + 1]
    {
      SortKeepsMembers(records, r);
      var k :| 0 <= k < |sorted| && sorted[k] == r;
      assert k <= i ==> sorted[..i + 1][k] == r;
    }
  }

  lemma NoFailedRecord(p: Policy, records: seq<Record>)
    requires forall j | 0 <= j < |SortByOffset(records)| :: !MustRedeliver(p, SortByOffset(records)[j].outcome)
    ensures PartitionFailure(p, records) == None && PartitionRan(p, records) == SortByOffset(records)
    ensures forall r | r in records :: !MustRedeliver(p, r.outcome)
    ensures multiset(SortByOffset(records)) == multiset(records)
  {
    SortIsSortedPermutation(records);
    forall r | r in records
      ensures !MustRedeliver(p, r.outcome)
    {
      SortKeepsMembers(records, r);
    }
  }

  /**
   The records of a partition run one by one in offset order. The reported offset is the least one whose
   outcome must be redelivered; exactly the records up to it have run.
   */
  method ProcessPartition(p: Policy, records: seq<Record>) returns (failure: Option<nat>, ran: seq<Record>)
    ensures failure == PartitionFailure(p, records)
    ensures ran == PartitionRan(p, records) <= SortByOffset(records)
    ensures failure.None? <==> forall r | r in records :: !MustRedeliver(p, r.outcome)
    ensures failure.None? ==> multiset(ran) == multiset(records)
    ensures failure.Some? ==>
      && ran != [] && ran[|ran| - 1].offset == failure.value && MustRedeliver(p, ran[|ran| - 1].outcome)
      && (forall i | 0 <= i < |ran| - 1 :: !MustRedeliver(p, ran[i].outcome))
      && (forall r | r in records && MustRedeliver(p, r.outcome) :: failure.value <= r.offset)
      && (forall r | r in records && r.offset < failure.value :: r in ran)
      && (forall r | r in ran :: r.offset <= failure.value)
  {
    var sorted := SortByOffset(records);
    ran := [];
    for i := 0 to |sorted|
      invariant ran == sorted[..i]
      invariant forall j | 0 <= j < i :: !MustRedeliver(p, sorted[j].outcome)
    {
      var record := sorted[i];
      ran := ran + [record];
      if record.outcome.Threw? {
        if p.atMostOnce {
          continue;
        }
        FirstFailedRecord(p, records, i);
        return Some(record.offset), ran;
      }
      if !p.atMostOnce && IsSettledAsFailure(record.outcome.result, p.ignoreUnmatchedTopics, p.missing) {
        FirstFailedRecord(p, records, i);
        return Some(record.offset), ran;
      }
    }
    failure := None;
    assert sorted[..|sorted|] == sorted;
    NoFailedRecord(p, records);
  }

  // ---------- Kafka: the whole event

  datatype FailureMode = PartialBatchFailure | FailWholeBatch

  datatype Partition = Partition(key: string, records: seq<Record>)

  datatype ItemFailure = ItemFailure(partition: string, offset: nat)

  datatype Response = Thrown(partitions: seq<string>) | Reported(failures: seq<ItemFailure>)

  /** The failures of the partitions that have one, in the order the partitions came. */
  function Failures(p: Policy, partitions: seq<Partition>): seq<ItemFailure>
    decreases partitions
  {
    if partitions == [] then []
    else
      var own := PartitionFailure(p, partitions[0].records);
      (if own.Some? then [ItemFailure(partitions[0].key, own.value)] else []) + Failures(p, partitions[1..])
  }

  function FailedKeys(failures: seq<ItemFailure>): (keys: seq<string>)
    ensures |keys| == |failures| && forall i | 0 <= i < |failures| :: keys[i] == failures[i].partition
  {
    seq(|failures|, i requires 0 <= i < |failures| => failures[i].partition)
  }

  function Respond(p: Policy, mode: FailureMode, partitions: seq<Partition>): Response {
    var failures := Failures(p, partitions);
    if failures != [] && mode.FailWholeBatch? then Thrown(FailedKeys(failures)) else Reported(failures)
  }

  predicate DistinctKeys(partitions: seq<Partition>) {
    forall i, j | 0 <= i < j < |partitions| :: partitions[i].key != partitions[j].key
  }

  lemma {:induction false} FailuresSplit(p: Policy, a: seq<Partition>, b: seq<Partition>)
    ensures Failures(p, a + b) == Failures(p, a) + Failures(p, b)
    decreases a
  {
    if a == [] {
      assert a + b == b;
    } else {
      assert (a + b)[0] == a[0] && (a + b)[1..] == a[1..] + b;
      FailuresSplit(p, a[1..], b);
      var own := PartitionFailure(p, a[0].records);
      var head := if own.Some? then [ItemFailure(a[0].key, own.value)] else [];
      assert head + (Failures(p, a[1..]) + Failures(p, b)) == (head + Failures(p, a[1..])) + Failures(p, b);
    }
  }

  /** A failure is listed for a partition exactly when the partition has one, and with that offset. */
  lemma {:induction false} FailuresExact(p: Policy, partitions: seq<Partition>, f: ItemFailure)
    ensures f in Failures(p, partitions) <==>
      exists part | part in partitions :: part.key == f.partition && PartitionFailure(p, part.records) == Some(f.offset)
    decreases partitions
  {
    if partitions != [] {
      FailuresExact(p, partitions[1..], f);
      assert partitions == [partitions[0]] + partitions[1..];
    }
  }

  /** What the response says to one partition, by its own records alone, unless the whole batch fails. */
  lemma ResponseForPartition(p: Policy, mode: FailureMode, partitions: seq<Partition>, part: Partition)
    requires part in partitions && DistinctKeys(partitions)
    ensures Respond(p, mode, partitions).Thrown? <==>
      mode.FailWholeBatch? && exists q | q in partitions :: PartitionFailure(p, q.records).Some?
    ensures Respond(p, mode, partitions).Reported? ==>
      forall offset: nat :: ItemFailure(part.key, offset) in Respond(p, mode, partitions).failures
        <==> PartitionFailure(p, part.records) == Some(offset)
  {
    var failures := Failures(p, partitions);
    forall offset: nat
      ensures ItemFailure(part.key, offset) in failures <==> PartitionFailure(p, part.records) == Some(offset)
    {
      FailuresExact(p, partitions, ItemFailure(part.key, offset));
    }
    if failures != [] {
      FailuresExact(p, partitions, failures[0]);
      assert failures[0] in failures;
    }
    if exists q | q in partitions :: PartitionFailure(p, q.records).Some? {
      var q :| q in partitions && PartitionFailure(p, q.records).Some?;
      FailuresExact(p, partitions, ItemFailure(q.key, PartitionFailure(p, q.records).value));
    }
  }

  /** The error of whole-batch mode names exactly the partitions that failed. */
  lemma ThrownNamesFailedPartitions(p: Policy, mode: FailureMode, partitions: seq<Partition>, key: string)
    requires Respond(p, mode, partitions).Thrown?
    ensures key in Respond(p, mode, partitions).partitions <==>
      exists part | part in partitions :: part.key == key && PartitionFailure(p, part.records).Some?
  {
    var failures := Failures(p, partitions);
    var keys := FailedKeys(failures);
    if key in keys {
      var i :| 0 <= i < |keys| && keys[i] == key;
      assert failures[i] in failures;
      FailuresExact(p, partitions, failures[i]);
    }
    forall part | part in partitions && part.key == key && PartitionFailure(p, part.records).Some?
      ensures key in keys
    {
      var f := ItemFailure(key, PartitionFailure(p, part.records).value);
      FailuresExact(p, partitions, f);
      var i :| 0 <= i < |failures| && failures[i] == f;
      assert keys[i] == key;
    }
  }

  function ResultOf(p: Policy, part: Partition): Option<ItemFailure> {
    var failure := PartitionFailure(p, part.records);
    if failure.Some? then Some(ItemFailure(part.key, failure.value)) else None
  }

  /** `order` names each of the first `n` indices. */
  predicate Covers(order: seq<nat>, n: nat) {
    && (forall j | 0 <= j < |order| :: order[j] < n)
    && (forall i: nat | i < n :: i in order)
  }

  /**
   Partitions fan out and end in whatever `order` they choose; they share nothing, and their results come
   back in source order.
   */
  method HandleKafka(p: Policy, mode: FailureMode, partitions: seq<Partition>, order: seq<nat>)
    returns (response: Response, ran: seq<seq<Record>>)
    requires Covers(order, |partitions|)
    ensures response == Respond(p, mode, partitions)
    ensures |ran| == |partitions|
    ensures forall i | 0 <= i < |partitions| :: ran[i] == PartitionRan(p, partitions[i].records)
  {
    var perPartition := seq(|partitions|, _ => None);
    ran := seq(|partitions|, _ => []);
    for j := 0 to |order|
      invariant |perPartition| == |ran| == |partitions|
      invariant forall i | 0 <= i < |partitions| && i in order[..j] ::
        perPartition[i] == ResultOf(p, partitions[i]) && ran[i] == PartitionRan(p, partitions[i].records)
    {
      var part := partitions[order[j]];
      var failure, records := ProcessPartition(p, part.records);
      perPartition := perPartition[order[j] := if failure.Some? then Some(ItemFailure(part.key, failure.value)) else None];
      ran := ran[order[j] := records];
      assert order[..j + 1] == order[..j] + [order[j]];
    }
    assert order[..|order|] == order;
    var failures := CollectFailures(p, partitions, perPartition);
    if failures != [] && mode.FailWholeBatch? {
      response := Thrown(FailedKeys(failures));
    } else {
      response := Reported(failures);
    }
  }

  /** The results that are failures, in source order. */
  method CollectFailures(p: Policy, partitions: seq<Partition>, perPartition: seq<Option<ItemFailure>>)
    returns (failures: seq<ItemFailure>)
    requires |perPartition| == |partitions|
    requires forall i | 0 <= i < |partitions| :: perPartition[i] == ResultOf(p, partitions[i])
    ensures failures == Failures(p, partitions)
  {
    failures := [];
    for i := 0 to |partitions|
      invariant failures == Failures(p, partitions[..i])
    {
      assert partitions[..i + 1] == partitions[..i] + [partitions[i]];
      FailuresSplit(p, partitions[..i], [partitions[i]]);
      if perPartition[i].Some? {
        failures := failures + [perPartition[i].value];
      }
    }
    assert partitions[..|partitions|] == partitions;
  }

  // ---------- DynamoDB streams: shard order

  datatype StreamRecord = StreamRecord(sequenceNumber: Option<string>, eventId: Option<string>, outcome: Outcome)

  function Identifier(r: StreamRecord): string {
    match r.sequenceNumber
    case Some(n) => n
    case None => if r.eventId.Some? then r.eventId.value else ""
  }

  function StreamOutcomes(records: seq<StreamRecord>): (outcomes: seq<Outcome>)
    ensures |outcomes| == |records|
    ensures forall i | 0 <= i < |records| :: outcomes[i] == records[i].outcome
  {
    seq(|records|, i requires 0 <= i < |records| => records[i].outcome)
  }

  /** The text Lambda resumes from is the sequence number; the event id only stands in for a missing one. */
  predicate Names(r: StreamRecord, id: string) {
    && (r.sequenceNumber.Some? ==> id == r.sequenceNumber.value)
    && (r.sequenceNumber.None? && r.eventId.Some? ==> id == r.eventId.value)
    && (r.sequenceNumber.None? && r.eventId.None? ==> id == "")
  }

  /** What a shard reports: the first record that must be redelivered, if there is one. */
  function StreamFailures(p: Policy, records: seq<StreamRecord>): seq<string> {
    var k := FirstFailure(p, StreamOutcomes(records));
    if k < |records| then [Identifier(records[k])] else []
  }

  function StreamRan(p: Policy, records: seq<StreamRecord>): seq<StreamRecord> {
    var k := FirstFailure(p, StreamOutcomes(records));
    if k < |records| then records[..k + 1] else records
  }

  /** At most one item is reported: the first record that must be redelivered. Exactly those up to it run. */
  method HandleStream(p: Policy, records: seq<StreamRecord>)
    returns (batchItemFailures: seq<string>, ran: seq<StreamRecord>)
    ensures batchItemFailures == StreamFailures(p, records) && ran == StreamRan(p, records)
    ensures batchItemFailures == [] <==> forall r | r in records :: !MustRedeliver(p, r.outcome)
    ensures |batchItemFailures| <= 1
    ensures batchItemFailures != [] ==>
      && ran != [] && ran <= records
      && Names(ran[|ran| - 1], batchItemFailures[0]) && MustRedeliver(p, ran[|ran| - 1].outcome)
      && forall i | 0 <= i < |ran| - 1 :: !MustRedeliver(p, ran[i].outcome)
  {
    ran := [];
    for i := 0 to |records|
      invariant ran == records[..i]
      invariant forall j | 0 <= j < i :: !MustRedeliver(p, records[j].outcome)
    {
      var record := records[i];
      ran := ran + [record];
      if record.outcome.Threw? {
        if p.atMostOnce {
          continue;
        }
        FirstFailureIsLeast(p, StreamOutcomes(records), i);
        assert record in records;
        return [Identifier(record)], ran;
      }
      if !p.atMostOnce && IsSettledAsFailure(record.outcome.result, p.ignoreUnmatchedTopics, p.missing) {
        FirstFailureIsLeast(p, StreamOutcomes(records), i);
        assert record in records;
        return [Identifier(record)], ran;
      }
    }
    batchItemFailures := [];
    assert records[..|records|] == records;
  }

  lemma {:induction false} SortOfSorted(records: seq<Record>)
    requires Sorted(records)
    ensures SortByOffset(records) == records
    decreases records
  {
    if records != [] {
      SortOfSorted(records[1..]);
      assert records == [records[0]] + records[1..];
    }
  }

  /** The two ordered bindings agree: a partition already in offset order stops where a stream would. */
  lemma KafkaAgreesWithStream(p: Policy, records: seq<Record>)
    requires Sorted(records)
    ensures var k := FirstFailure(p, Outcomes(records));
      PartitionFailure(p, records) == if k < |records| then Some(records[k].offset) else None
  {
    SortOfSorted(records);
  }
}
