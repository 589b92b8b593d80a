/**
 Bindings that run the records of a batch concurrently: SQS, Kinesis and SNS.

 Each record's task takes some number of steps between awaits, then settles: it does nothing, pushes into the
 list all tasks share, or rejects. A schedule says whose step comes next, so a theorem about every schedule
 covers every interleaving.
 */
module FanOut {
  import opened Settlement
  import OrderedSettlement

  datatype Effect = Acked | Reported | Raised

  datatype BindingOptions = BindingOptions(
    catchExceptions: bool, raiseOnFailureStatus: bool, atMostOnce: bool, ignoreUnmatchedTopics: bool)

  // ---------- how one record settles

  /** SQS reports exceptions and failure results alike. */
  function SqsEffect(p: Policy, o: Outcome): Effect {
    match o
    case Threw => if p.atMostOnce then Acked else Reported
    case Finished(result) =>
      if !p.atMostOnce && IsSettledAsFailure(result, p.ignoreUnmatchedTopics, p.missing) then Reported else Acked
  }

  /** Kinesis catches an exception before it looks at the status, so only exceptions can be swallowed. */
  function KinesisEffect(options: BindingOptions, o: Outcome): Effect {
    match o
    case Threw => if !options.catchExceptions && !options.atMostOnce then Raised else Acked
    case Finished(result) =>
      if !options.atMostOnce && options.raiseOnFailureStatus
        && IsSettledAsFailure(result, options.ignoreUnmatchedTopics, Acknowledge)
      then Reported else Acked
  }

  /** SNS escalates a failure status inside the try, so its catch policy covers both. */
  function SnsEffect(options: BindingOptions, o: Outcome): Effect {
    var fails := match o
      case Threw => true
      case Finished(result) =>
        !options.atMostOnce && options.raiseOnFailureStatus
        && IsSettledAsFailure(result, options.ignoreUnmatchedTopics, Redeliver);
    if fails && !options.catchExceptions && !options.atMostOnce then Raised else Acked
  }

  // ---------- interleaved tasks

  /** One record: how its pipeline run ends, and after how many awaits its task settles. */
  datatype Task = Task(id: string, outcome: Outcome, awaits: nat)

  /** Steps left for each task, and the tasks that have pushed or rejected so far, in that order. */
  datatype State = State(left: seq<nat>, reported: seq<nat>, raised: seq<nat>)

  function Initial(tasks: seq<Task>): (s: State)
    ensures |s.left| == |tasks|
    ensures forall i | 0 <= i < |tasks| :: s.left[i] == tasks[i].awaits + 1
  {
    State(seq(|tasks|, i requires 0 <= i < |tasks| => tasks[i].awaits + 1), [], [])
  }

  function Step(effects: seq<Effect>, s: State, i: nat): State
    requires |effects| == |s.left|
  {
    if i >= |s.left| || s.left[i] == 0 then s
    else
      var left := s.left[i := s.left[i] - 1];
      if left[i] > 0 then s.(left := left)
      else match effects[i]
        case Acked => s.(left := left)
        case Reported => s.(left := left, reported := s.reported + [i])
        case Raised => s.(left := left, raised := s.raised + [i])
  }

  function Run(effects: seq<Effect>, s: State, schedule: seq<nat>): (t: State)
    requires |effects| == |s.left|
    ensures |t.left| == |s.left|
    decreases schedule
  {
    if schedule == [] then s else Run(effects, Step(effects, s, schedule[0]), schedule[1..])
  }

  predicate Complete(s: State) {
    forall i | 0 <= i < |s.left| :: s.left[i] == 0
  }

  /** The settled tasks with this effect. */
  function SettledAs(effects: seq<Effect>, s: State, e: Effect): set<nat>
    requires |effects| == |s.left|
  {
    set i: nat | i < |s.left| && s.left[i] == 0 && effects[i] == e
  }

  function All(effects: seq<Effect>, e: Effect): set<nat> {
    set i: nat | i < |effects| && effects[i] == e
  }

  /** The shared lists hold exactly the settled tasks that belong there, each once. */
  ghost predicate Consistent(effects: seq<Effect>, s: State) {
    && |effects| == |s.left|
    && multiset(s.reported) == multiset(SettledAs(effects, s, Reported))
    && multiset(s.raised) == multiset(SettledAs(effects, s, Raised))
  }

  lemma SettledGrows(effects: seq<Effect>, s: State, i: nat, e: Effect)
    requires |effects| == |s.left| && i < |s.left| && s.left[i] > 0
    ensures SettledAs(effects, Step(effects, s, i), e)
         == SettledAs(effects, s, e) + (if s.left[i] == 1 && effects[i] == e then {i} else {})
    ensures i !in SettledAs(effects, s, e)
  {
    var t := Step(effects, s, i);
    assert t.left == s.left[i := s.left[i] - 1];
  }

  lemma OneMore(items: seq<nat>, members: set<nat>, i: nat)
    requires multiset(items) == multiset(members) && i !in members
    ensures multiset(items + [i]) == multiset(members + {i})
  {
    assert multiset(members + {i}) == multiset(members) + multiset{i};
  }

  lemma StepKeepsConsistent(effects: seq<Effect>, s: State, i: nat)
    requires Consistent(effects, s)
    ensures Consistent(effects, Step(effects, s, i))
  {
    if i < |s.left| && s.left[i] > 0 {
      SettledGrows(effects, s, i, Reported);
      SettledGrows(effects, s, i, Raised);
      OneMore(s.reported, SettledAs(effects, s, Reported), i);
      OneMore(s.raised, SettledAs(effects, s, Raised), i);
    }
  }

  lemma {:induction false} RunKeepsConsistent(effects: seq<Effect>, s: State, schedule: seq<nat>)
    requires Consistent(effects, s)
    ensures Consistent(effects, Run(effects, s, schedule))
    decreases schedule
  {
    if schedule != [] {
      StepKeepsConsistent(effects, s, schedule[0]);
      RunKeepsConsistent(effects, Step(effects, s, schedule[0]), schedule[1..]);
    }
  }

  /**
   Under every interleaving that lets the tasks finish, the failure list is a permutation of exactly the
   tasks that report, each listed once, and likewise for the rejections.
   */
  lemma ListsAreScheduleIndependent(effects: seq<Effect>, tasks: seq<Task>, schedule: seq<nat>)
    requires |effects| == |tasks|
    requires Complete(Run(effects, Initial(tasks), schedule))
    ensures var t := Run(effects, Initial(tasks), schedule);
      && multiset(t.reported) == multiset(All(effects, Reported))
      && multiset(t.raised) == multiset(All(effects, Raised))
  {
    var s := Initial(tasks);
    assert SettledAs(effects, s, Reported) == {} && SettledAs(effects, s, Raised) == {};
    RunKeepsConsistent(effects, s, schedule);
    var t := Run(effects, s, schedule);
    assert SettledAs(effects, t, Reported) == All(effects, Reported);
    assert SettledAs(effects, t, Raised) == All(effects, Raised);
  }

  lemma AllGrows(effects: seq<Effect>, e: Effect)
    requires effects != []
    ensures var n := |effects| - 1;
      && All(effects, e) == All(effects[..n], e) + (if effects[n] == e then {n} else {})
      && n !in All(effects[..n], e)
  {
  }

  lemma {:induction false} EffectsPartition(effects: seq<Effect>)
    ensures |All(effects, Acked)| + |All(effects, Reported)| + |All(effects, Raised)| == |effects|
    decreases |effects|
  {
    if effects == [] {
      assert All(effects, Acked) == {} && All(effects, Reported) == {} && All(effects, Raised) == {};
    } else {
      AllGrows(effects, Acked);
      AllGrows(effects, Reported);
      AllGrows(effects, Raised);
      EffectsPartition(effects[..|effects| - 1]);
    }
  }

  /** Conservation: every record of the batch is acknowledged, reported or rejected, and only once. */
  lemma EveryRecordSettlesOnce(effects: seq<Effect>, tasks: seq<Task>, schedule: seq<nat>)
    requires |effects| == |tasks|
    requires Complete(Run(effects, Initial(tasks), schedule))
    ensures var t := Run(effects, Initial(tasks), schedule);
      |t.reported| + |t.raised| + |All(effects, Acked)| == |tasks|
  {
    ListsAreScheduleIndependent(effects, tasks, schedule);
    EffectsPartition(effects);
    var t := Run(effects, Initial(tasks), schedule);
    assert |t.reported| == |multiset(t.reported)| && |t.raised| == |multiset(t.raised)|;
  }

  // ---------- the three bindings

  function SqsEffects(p: Policy, tasks: seq<Task>): (effects: seq<Effect>)
    ensures |effects| == |tasks|
    ensures forall i | 0 <= i < |tasks| :: effects[i] == SqsEffect(p, tasks[i].outcome)
  {
    seq(|tasks|, i requires 0 <= i < |tasks| => SqsEffect(p, tasks[i].outcome))
  }

  function KinesisEffects(options: BindingOptions, tasks: seq<Task>): (effects: seq<Effect>)
    ensures |effects| == |tasks|
    ensures forall i | 0 <= i < |tasks| :: effects[i] == KinesisEffect(options, tasks[i].outcome)
  {
    seq(|tasks|, i requires 0 <= i < |tasks| => KinesisEffect(options, tasks[i].outcome))
  }

  function SnsEffects(options: BindingOptions, tasks: seq<Task>): (effects: seq<Effect>)
    ensures |effects| == |tasks|
    ensures forall i | 0 <= i < |tasks| :: effects[i] == SnsEffect(options, tasks[i].outcome)
  {
    seq(|tasks|, i requires 0 <= i < |tasks| => SnsEffect(options, tasks[i].outcome))
  }

  /** Runs the tasks, pushing as they settle; the lists come out as the interleaving left them. */
  method RunTasks(effects: seq<Effect>, tasks: seq<Task>, schedule: seq<nat>)
    returns (reported: seq<nat>, raised: seq<nat>)
    requires |effects| == |tasks|
    requires Complete(Run(effects, Initial(tasks), schedule))
    ensures reported == Run(effects, Initial(tasks), schedule).reported
    ensures raised == Run(effects, Initial(tasks), schedule).raised
  {
    var left := new nat[|tasks|](i requires 0 <= i < |tasks| => tasks[i].awaits + 1);
    reported, raised := [], [];
    assert left[..] == Initial(tasks).left;
    for n := 0 to |schedule|
      invariant left.Length == |tasks|
      invariant Run(effects, State(left[..], reported, raised), schedule[n..])
             == Run(effects, Initial(tasks), schedule)
    {
      assert schedule[n..][0] == schedule[n] && schedule[n..][1..] == schedule[n + 1..];
      var i := schedule[n];
      ghost var s := State(left[..], reported, raised);
      if i < left.Length && left[i] > 0 {
        left[i] := left[i] - 1;
        if left[i] == 0 {
          match effects[i]
          case Acked =>
          case Reported => reported := reported + [i];
          case Raised => raised := raised + [i];
        }
      }
      assert State(left[..], reported, raised) == Step(effects, s, i);
    }
  }

  datatype SqsResponse = Thrown(ids: seq<string>) | Listed(batchItemFailures: seq<string>)

  function Ids(tasks: seq<Task>, indices: seq<nat>): (ids: seq<string>)
    requires forall j | 0 <= j < |indices| :: indices[j] < |tasks|
    ensures |ids| == |indices|
    ensures forall j | 0 <= j < |indices| :: ids[j] == tasks[indices[j]].id
  {
    seq(|indices|, j requires 0 <= j < |indices| => tasks[indices[j]].id)
  }

  /** The records that must be redelivered. */
  function MustSet(p: Policy, tasks: seq<Task>): set<nat> {
    set i: nat | i < |tasks| && MustRedeliver(p, tasks[i].outcome)
  }

  lemma SqsReportsMustSet(p: Policy, tasks: seq<Task>, schedule: seq<nat>)
    requires Complete(Run(SqsEffects(p, tasks), Initial(tasks), schedule))
    ensures var t := Run(SqsEffects(p, tasks), Initial(tasks), schedule);
      && multiset(t.reported) == multiset(MustSet(p, tasks))
      && (forall i :: i in t.reported <==> i in MustSet(p, tasks))
      && t.raised == []
  {
    var effects := SqsEffects(p, tasks);
    ListsAreScheduleIndependent(effects, tasks, schedule);
    var t := Run(effects, Initial(tasks), schedule);
    assert All(effects, Reported) == MustSet(p, tasks);
    assert All(effects, Raised) == {};
    assert |t.raised| == |multiset(t.raised)| == 0;
    forall i
      ensures i in t.reported <==> i in MustSet(p, tasks)
    {
      assert i in t.reported <==> i in multiset(t.reported);
    }
  }

  /**
   The failure list names exactly the records that must be redelivered, each once; `order` is the order in
   which they were pushed. In whole-batch mode any of them fails the invocation, whatever the schedule.
   */
  method HandleSqs(p: Policy, mode: OrderedSettlement.FailureMode, tasks: seq<Task>, schedule: seq<nat>)
    returns (response: SqsResponse, order: seq<nat>)
    requires Complete(Run(SqsEffects(p, tasks), Initial(tasks), schedule))
    ensures multiset(order) == multiset(MustSet(p, tasks))
    ensures forall j | 0 <= j < |order| :: order[j] < |tasks|
    ensures response == if mode.FailWholeBatch? && MustSet(p, tasks) != {} then Thrown(Ids(tasks, order))
      else Listed(Ids(tasks, order))
  {
    var pushed, _ := RunTasks(SqsEffects(p, tasks), tasks, schedule);
    order := pushed;
    SqsReportsMustSet(p, tasks, schedule);
    forall j | 0 <= j < |order| ensures order[j] < |tasks| { assert order[j] in order; }
    assert order == [] <==> MustSet(p, tasks) == {} by {
      assert |order| == |multiset(order)| == |MustSet(p, tasks)|;
    }
    if order != [] && mode.FailWholeBatch? {
      return Thrown(Ids(tasks, order)), order;
    }
    response := Listed(Ids(tasks, order));
  }

  /** `Promise.all` rejects with the first rejection; the failure list is only read once all tasks are done. */
  datatype Completion = Succeeds | RejectsWith(first: nat) | FailsListing(ids: seq<string>)

  /** A thrown record leaves its Kinesis task as a rejection. */
  predicate Rethrown(options: BindingOptions, o: Outcome) {
    o.Threw? && !options.catchExceptions && !options.atMostOnce
  }

  /** A finished record is listed by Kinesis when its status counts and must be redelivered. */
  predicate ListedByStatus(options: BindingOptions, o: Outcome) {
    && o.Finished? && options.raiseOnFailureStatus
    && MustRedeliver(Policy(options.atMostOnce, options.ignoreUnmatchedTopics, Acknowledge), o)
  }

  /** A record fails its SNS invocation: it threw, or its status counts, and exceptions are not caught. */
  predicate FailsInvocation(options: BindingOptions, o: Outcome) {
    && !options.catchExceptions
    && (o.Threw? || options.raiseOnFailureStatus)
    && MustRedeliver(Policy(options.atMostOnce, options.ignoreUnmatchedTopics, Redeliver), o)
  }

  lemma EffectsByOutcome(options: BindingOptions, o: Outcome)
    ensures KinesisEffect(options, o).Raised? <==> Rethrown(options, o)
    ensures KinesisEffect(options, o).Reported? <==> ListedByStatus(options, o)
    ensures SnsEffect(options, o).Raised? <==> FailsInvocation(options, o)
    ensures !SnsEffect(options, o).Reported?
  {
  }

  /** The list that comes out names the tasks with this effect, each once. */
  lemma NamedOnce(effects: seq<Effect>, items: seq<nat>, e: Effect)
    requires multiset(items) == multiset(All(effects, e))
    ensures forall i: nat :: i in items <==> i < |effects| && effects[i] == e
    ensures forall j, k | 0 <= j < k < |items| :: items[j] != items[k]
  {
    forall i: nat
      ensures i in items <==> i < |effects| && effects[i] == e
    {
      assert i in items <==> i in multiset(items);
    }
    forall j, k | 0 <= j < k < |items|
      ensures items[j] != items[k]
    {
      if items[j] == items[k] {
        TwiceInMultiset(items, j, k);
      }
    }
  }

  lemma TwiceInMultiset(items: seq<nat>, j: nat, k: nat)
    requires j < k < |items| && items[j] == items[k]
    ensures multiset(items)[items[j]] >= 2
  {
    assert items == items[..k] + [items[k]] + items[k + 1..];
    assert items[j] == items[..k][j] && items[j] in multiset(items[..k]);
  }

  /**
   A Kinesis invocation rejects exactly when a record threw and exceptions are neither caught nor acknowledged.
   Otherwise it fails exactly when a finished record must be redelivered by its status, and then it lists
   those records, each once. `order` is the order of the pushes; no schedule changes any of this.
   */
  method HandleKinesis(options: BindingOptions, tasks: seq<Task>, schedule: seq<nat>)
    returns (done: Completion, order: seq<nat>)
    requires Complete(Run(KinesisEffects(options, tasks), Initial(tasks), schedule))
    ensures done.RejectsWith? <==> exists i :: 0 <= i < |tasks| && Rethrown(options, tasks[i].outcome)
    ensures done.RejectsWith? ==> done.first < |tasks| && Rethrown(options, tasks[done.first].outcome)
    ensures done.FailsListing? <==>
      && !done.RejectsWith?
      && exists i :: 0 <= i < |tasks| && ListedByStatus(options, tasks[i].outcome)
    ensures forall j | 0 <= j < |order| :: order[j] < |tasks|
    ensures forall i: nat :: i in order <==> i < |tasks| && ListedByStatus(options, tasks[i].outcome)
    ensures forall j, k | 0 <= j < k < |order| :: order[j] != order[k]
    ensures done.FailsListing? ==> done.ids == Ids(tasks, order)
  {
    var effects := KinesisEffects(options, tasks);
    var failed, raised := RunTasks(effects, tasks, schedule);
    ListsAreScheduleIndependent(effects, tasks, schedule);
    NamedOnce(effects, failed, Reported);
    NamedOnce(effects, raised, Raised);
    forall i | 0 <= i < |tasks|
      ensures effects[i].Raised? <==> Rethrown(options, tasks[i].outcome)
      ensures effects[i].Reported? <==> ListedByStatus(options, tasks[i].outcome)
    {
      EffectsByOutcome(options, tasks[i].outcome);
    }
    forall j | 0 <= j < |failed| ensures failed[j] < |tasks| { assert failed[j] in failed; }
    order := failed;
    if raised != [] {
      assert raised[0] in raised;
      return RejectsWith(raised[0]), failed;
    }
    if failed != [] {
      assert failed[0] in failed;
      return FailsListing(Ids(tasks, failed)), failed;
    }
    done := Succeeds;
  }

  /** An SNS invocation only ever fails by rejection, exactly when one of its records fails it. */
  method HandleSns(options: BindingOptions, tasks: seq<Task>, schedule: seq<nat>) returns (done: Completion)
    requires Complete(Run(SnsEffects(options, tasks), Initial(tasks), schedule))
    ensures done.Succeeds? <==> forall i | 0 <= i < |tasks| :: !FailsInvocation(options, tasks[i].outcome)
    ensures !done.Succeeds? ==>
      done.RejectsWith? && done.first < |tasks| && FailsInvocation(options, tasks[done.first].outcome)
  {
    var effects := SnsEffects(options, tasks);
    var _, raised := RunTasks(effects, tasks, schedule);
    ListsAreScheduleIndependent(effects, tasks, schedule);
    NamedOnce(effects, raised, Raised);
    forall i | 0 <= i < |tasks|
      ensures effects[i].Raised? <==> FailsInvocation(options, tasks[i].outcome)
    {
      EffectsByOutcome(options, tasks[i].outcome);
    }
    if raised != [] {
      assert raised[0] in raised;
      return RejectsWith(raised[0]);
    }
    done := Succeeds;
  }

  /**
   `catchExceptions` means different things: it silences an SNS record altogether, a failure status included,
   while a Kinesis record still fails the invocation by its status.
   */
  lemma CatchSwallowsStatusOnlyForSns(options: BindingOptions, o: Outcome)
    requires options.catchExceptions && !options.atMostOnce
    ensures SnsEffect(options, o).Acked?
    ensures !KinesisEffect(options, o).Acked? <==>
      o.Finished? && options.raiseOnFailureStatus
      && IsSettledAsFailure(o.result, options.ignoreUnmatchedTopics, Acknowledge)
  {
  }

  /** With the default knobs an invocation fails exactly when one of its records must be redelivered. */
  lemma DefaultsFailExactlyOnRedelivery(options: BindingOptions, o: Outcome)
    requires !options.catchExceptions && options.raiseOnFailureStatus
    ensures !KinesisEffect(options, o).Acked? <==>
      MustRedeliver(Policy(options.atMostOnce, options.ignoreUnmatchedTopics, Acknowledge), o)
    ensures !SnsEffect(options, o).Acked? <==>
      MustRedeliver(Policy(options.atMostOnce, options.ignoreUnmatchedTopics, Redeliver), o)
  {
  }

  // ---------- sequential settlement refines fan-out

  function TaskOutcomes(tasks: seq<Task>): (outcomes: seq<Outcome>)
    ensures |outcomes| == |tasks|
    ensures forall i | 0 <= i < |tasks| :: outcomes[i] == tasks[i].outcome
  {
    seq(|tasks|, i requires 0 <= i < |tasks| => tasks[i].outcome)
  }

  /**
   For the same outcomes and settlement parameters, the record an ordered binding stops at is the first, in
   order, of the set SQS reports under any interleaving, and it stops exactly when SQS reports something.
   */
  lemma SequentialRefinesFanOut(p: Policy, tasks: seq<Task>, schedule: seq<nat>)
    requires Complete(Run(SqsEffects(p, tasks), Initial(tasks), schedule))
    ensures var k := OrderedSettlement.FirstFailure(p, TaskOutcomes(tasks));
      var reported := Run(SqsEffects(p, tasks), Initial(tasks), schedule).reported;
      && (k < |tasks| <==> reported != [])
      && (k < |tasks| ==> k in reported)
      && (forall i | i in reported :: k <= i)
  {
    SqsReportsMustSet(p, tasks, schedule);
    var k := OrderedSettlement.FirstFailure(p, TaskOutcomes(tasks));
    var reported := Run(SqsEffects(p, tasks), Initial(tasks), schedule).reported;
    if k < |tasks| {
      assert k in MustSet(p, tasks);
    }
    if reported != [] {
      assert reported[0] in reported;
    }
  }
}
