/**
 The X-Ray decorator: a subsegment around every middleware, kept by an ambient current entity.

 An entity is named by its place in the order of creation. Ending a subsegment closes whatever is current,
 not a remembered handle, so that each middleware closes its own is a matter of balance over nested calls and
 exceptions.
 */
module XRay {
  import opened Options
  import opened Sequences

  /** A segment or subsegment: how often it was closed, and how many errors it was given. */
  datatype Entity = Entity(name: string, parent: Option<nat>, closes: nat, faults: nat)

  /** All entities in order of creation, and the current one. */
  datatype Context = Context(entities: seq<Entity>, current: Option<nat>) {
    predicate Valid() { current.Some? ==> current.value < |entities| }
  }

  /**
   One run of a decorated middleware: the runs its calls of next led to, in order, and whether an exception
   leaves it. A call that threw may have been caught, so any calls may go with either exit.
   */
  datatype Invocation = Invocation(name: string, calls: seq<Invocation>, throws: bool)

  // ---------- the recorder's operations

  function Begin(c: Context, name: string): Context {
    if c.current.None? then c
    else Context(c.entities + [Entity(name, c.current, 0, 0)], Some(|c.entities|))
  }

  function Fault(c: Context): Context
    requires c.Valid()
  {
    if c.current.None? then c
    else
      var i := c.current.value;
      c.(entities := c.entities[i := c.entities[i].(faults := c.entities[i].faults + 1)])
  }

  function End(c: Context): Context
    requires c.Valid()
  {
    if c.current.None? then c
    else
      var i := c.current.value;
      var e := c.entities[i];
      Context(c.entities[i := e.(closes := e.closes + 1)], if e.parent.Some? then e.parent else c.current)
  }

  /** Each operation counts on the current entity alone; without one nothing is traced. */
  lemma OperationsCount(c: Context, name: string)
    requires c.Valid()
    ensures c.current.None? ==> Begin(c, name) == Fault(c) == End(c) == c
    ensures c.current.Some? ==>
      var i := c.current.value;
      && Begin(c, name) == Context(c.entities + [Entity(name, Some(i), 0, 0)], Some(|c.entities|))
      && |Fault(c).entities| == |End(c).entities| == |c.entities|
      && Fault(c).entities[i].faults == c.entities[i].faults + 1 && Fault(c).current == Some(i)
      && End(c).entities[i].closes == c.entities[i].closes + 1
      && (c.entities[i].parent.Some? ==> End(c).current == c.entities[i].parent)
      && (forall j | 0 <= j < |c.entities| && j != i ::
            Fault(c).entities[j] == End(c).entities[j] == c.entities[j])
  {
  }

  // ---------- what a run records

  /** The entities of a run, in order of creation, when the first of them gets number `base`. */
  function Recorded(inv: Invocation, parent: Option<nat>, base: nat): (es: seq<Entity>)
    ensures es != []
    decreases inv, 1
  {
    [Entity(inv.name, parent, 1, if inv.throws then 1 else 0)] + RecordedAll(inv.calls, Some(base), base + 1)
  }

  function RecordedAll(calls: seq<Invocation>, parent: Option<nat>, base: nat): seq<Entity>
    decreases calls, 0
  {
    if calls == [] then []
    else
      var first := Recorded(calls[0], parent, base);
      first + RecordedAll(calls[1..], parent, base + |first|)
  }

  lemma {:induction false} RecordedAppends(calls: seq<Invocation>, last: Invocation, parent: Option<nat>, base: nat)
    ensures var before := RecordedAll(calls, parent, base);
      RecordedAll(calls + [last], parent, base) == before + Recorded(last, parent, base + |before|)
    decreases calls
  {
    var all := calls + [last];
    if calls == [] {
      assert all == [last];
      assert RecordedAll(all[1..], parent, base + |Recorded(last, parent, base)|) == [];
    } else {
      var first := Recorded(calls[0], parent, base);
      assert all[0] == calls[0] && all[1..] == calls[1..] + [last];
      RecordedAppends(calls[1..], last, parent, base + |first|);
    }
  }

  /** The context after a run: its entities are added, and what was current is current again. */
  function Ran(c: Context, inv: Invocation): Context {
    if c.current.None? then c else c.(entities := c.entities + Recorded(inv, c.current, |c.entities|))
  }

  function RanAll(c: Context, calls: seq<Invocation>): Context {
    if c.current.None? then c else c.(entities := c.entities + RecordedAll(calls, c.current, |c.entities|))
  }

  lemma RanAllAppends(c: Context, calls: seq<Invocation>, last: Invocation)
    ensures RanAll(c, calls + [last]) == Ran(RanAll(c, calls), last)
  {
    RecordedAppends(calls, last, c.current, |c.entities|);
    if c.current.Some? {
      var before := RecordedAll(calls, c.current, |c.entities|);
      var more := Recorded(last, c.current, |c.entities| + |before|);
      assert c.entities + (before + more) == (c.entities + before) + more;
    }
  }

  /** The entity a run began is the one its end closes. */
  lemma EndClosesWhatBegan(c: Context, inv: Invocation)
    requires c.Valid() && c.current.Some?
    ensures var inner := RanAll(Begin(c, inv.name), inv.calls);
      && inner.Valid() && Fault(inner).Valid()
      && Ran(c, inv) == End(if inv.throws then Fault(inner) else inner)
  {
    var n := |c.entities|;
    var begun := Begin(c, inv.name);
    var later := RecordedAll(inv.calls, Some(n), n + 1);
    var inner := RanAll(begun, inv.calls);
    assert inner.entities == c.entities + [Entity(inv.name, c.current, 0, 0)] + later;
    var e := Entity(inv.name, c.current, 1, if inv.throws then 1 else 0);
    var ended := End(if inv.throws then Fault(inner) else inner);
    assert ended.entities == c.entities + [e] + later;
    assert c.entities + [e] + later == c.entities + ([e] + later);
  }

  // ---------- the tree the parent links make

  datatype Tree = Tree(name: string, faulted: bool, children: seq<Tree>)

  function Shape(inv: Invocation): Tree
    decreases inv, 1
  {
    Tree(inv.name, inv.throws, Shapes(inv.calls))
  }

  function Shapes(calls: seq<Invocation>): seq<Tree>
    decreases calls, 0
  {
    if calls == [] then [] else [Shape(calls[0])] + Shapes(calls[1..])
  }

  /** The tree under an entity: its children are the later entities that name it as their parent. */
  function Rebuild(es: seq<Entity>, id: nat): Tree
    requires id < |es|
    decreases |es| - id, 1
  {
    Tree(es[id].name, es[id].faults > 0, ChildrenIn(es, id, id + 1, |es|))
  }

  /** The children among entities `lo` to `hi`. */
  function ChildrenIn(es: seq<Entity>, id: nat, lo: nat, hi: nat): seq<Tree>
    requires lo <= hi <= |es|
    decreases |es| - lo, 2
  {
    if lo == hi then []
    else (if es[lo].parent == Some(id) then [Rebuild(es, lo)] else []) + ChildrenIn(es, id, lo + 1, hi)
  }

  lemma {:induction false} ChildrenSplit(es: seq<Entity>, id: nat, lo: nat, mid: nat, hi: nat)
    requires lo <= mid <= hi <= |es|
    ensures ChildrenIn(es, id, lo, hi) == ChildrenIn(es, id, lo, mid) + ChildrenIn(es, id, mid, hi)
    decreases mid - lo
  {
    if lo < mid {
      ChildrenSplit(es, id, lo + 1, mid, hi);
      var own := if es[lo].parent == Some(id) then [Rebuild(es, lo)] else [];
      Regroup(own, ChildrenIn(es, id, lo + 1, mid), ChildrenIn(es, id, mid, hi));
    }
  }

  lemma {:induction false} NoChildren(es: seq<Entity>, id: nat, lo: nat, hi: nat)
    requires lo <= hi <= |es|
    requires forall j | lo <= j < hi :: es[j].parent != Some(id)
    ensures ChildrenIn(es, id, lo, hi) == []
    decreases hi - lo
  {
    if lo < hi {
      NoChildren(es, id, lo + 1, hi);
    }
  }

  /** The entities of some runs hang from their common parent or from each other. */
  lemma {:induction false} ParentsStayInside(calls: seq<Invocation>, parent: Option<nat>, base: nat, k: nat)
    requires k < |RecordedAll(calls, parent, base)|
    ensures var p := RecordedAll(calls, parent, base)[k].parent; p == parent || (p.Some? && p.value >= base)
    decreases calls, 0
  {
    var first := Recorded(calls[0], parent, base);
    if k >= |first| {
      ParentsStayInside(calls[1..], parent, base + |first|, k - |first|);
    } else if k > 0 {
      InnerParents(calls[0], parent, base, k);
    }
  }

  lemma {:induction false} InnerParents(inv: Invocation, parent: Option<nat>, base: nat, k: nat)
    requires 0 < k < |Recorded(inv, parent, base)|
    ensures var p := Recorded(inv, parent, base)[k].parent; p.Some? && p.value >= base
    decreases inv, 1
  {
    ParentsStayInside(inv.calls, Some(base), base + 1, k - 1);
  }

  /** No entity from `from` on hangs from one in `lo` to `hi`. */
  ghost predicate Detached(es: seq<Entity>, from: nat, lo: nat, hi: nat) {
    forall j | from <= j < |es| :: es[j].parent.Some? ==> !(lo <= es[j].parent.value < hi)
  }

  lemma {:induction false} TreeOfRun(es: seq<Entity>, inv: Invocation, parent: Option<nat>, base: nat, hi: nat)
    requires base <= hi <= |es|
    requires es[base..hi] == Recorded(inv, parent, base) && Detached(es, hi, base, hi)
    ensures base < hi && Rebuild(es, base) == Shape(inv)
    decreases inv, 1
  {
    assert |es[base..hi]| == hi - base;
    assert es[base] == es[base..hi][0];
    assert es[base + 1..hi] == es[base..hi][1..] == RecordedAll(inv.calls, Some(base), base + 1);
    TreesOfRuns(es, inv.calls, base, base + 1, hi);
    ChildrenSplit(es, base, base + 1, hi, |es|);
    NoChildren(es, base, hi, |es|);
  }

  /** Of several runs, the entities of the later ones do not hang from those of the first. */
  lemma FirstIsDetached(es: seq<Entity>, calls: seq<Invocation>, p: nat, base: nat, mid: nat, hi: nat)
    requires p < base <= mid <= hi <= |es|
    requires es[mid..hi] == RecordedAll(calls, Some(p), mid)
    requires Detached(es, hi, base, hi)
    ensures Detached(es, mid, base, mid)
  {
    assert |es[mid..hi]| == hi - mid;
    forall j | mid <= j < |es| && es[j].parent.Some?
      ensures !(base <= es[j].parent.value < mid)
    {
      if j < hi {
        assert es[j] == es[mid..hi][j - mid];
        ParentsStayInside(calls, Some(p), mid, j - mid);
      }
    }
  }

  /** Of a run's entities only the first hangs from its parent. */
  lemma RunIsOneChild(es: seq<Entity>, inv: Invocation, p: nat, base: nat, mid: nat)
    requires p < base <= mid <= |es|
    requires es[base..mid] == Recorded(inv, Some(p), base)
    ensures base < mid && ChildrenIn(es, p, base, mid) == [Rebuild(es, base)]
  {
    assert |es[base..mid]| == mid - base;
    assert es[base] == es[base..mid][0];
    forall j | base < j < mid
      ensures es[j].parent != Some(p)
    {
      assert es[j] == es[base..mid][j - base];
      InnerParents(inv, Some(p), base, j - base);
    }
    NoChildren(es, p, base + 1, mid);
  }

  lemma AdjacentSlices(es: seq<Entity>, first: seq<Entity>, rest: seq<Entity>, base: nat, mid: nat, hi: nat)
    requires base <= mid <= hi <= |es| && mid == base + |first|
    requires es[base..hi] == first + rest
    ensures es[base..mid] == first && es[mid..hi] == rest
  {
    assert es[base..mid] == es[base..hi][..|first|];
    assert es[mid..hi] == es[base..hi][|first|..];
  }

  /** When the entities of some runs fill `base` to `hi`, so do those of the first and those of the others. */
  lemma RunsAreAdjacent(es: seq<Entity>, calls: seq<Invocation>, p: nat, base: nat, hi: nat) returns (mid: nat)
    requires calls != [] && p < base <= hi <= |es|
    requires es[base..hi] == RecordedAll(calls, Some(p), base) && Detached(es, hi, base, hi)
    ensures base <= mid <= hi
    ensures es[base..mid] == Recorded(calls[0], Some(p), base) && Detached(es, mid, base, mid)
    ensures es[mid..hi] == RecordedAll(calls[1..], Some(p), mid) && Detached(es, hi, mid, hi)
  {
    var first := Recorded(calls[0], Some(p), base);
    mid := base + |first|;
    assert |es[base..hi]| == hi - base;
    AdjacentSlices(es, first, RecordedAll(calls[1..], Some(p), mid), base, mid, hi);
    FirstIsDetached(es, calls[1..], p, base, mid, hi);
  }

  lemma {:induction false} TreesOfRuns(es: seq<Entity>, calls: seq<Invocation>, p: nat, base: nat, hi: nat)
    requires p < base <= hi <= |es|
    requires es[base..hi] == RecordedAll(calls, Some(p), base) && Detached(es, hi, base, hi)
    ensures ChildrenIn(es, p, base, hi) == Shapes(calls)
    decreases calls, 0
  {
    if calls == [] {
      assert |es[base..hi]| == hi - base;
    } else {
      var mid := RunsAreAdjacent(es, calls, p, base, hi);
      TreeOfRun(es, calls[0], Some(p), base, mid);
      TreesOfRuns(es, calls[1..], p, mid, hi);
      RunIsOneChild(es, calls[0], p, base, mid);
      ChildrenSplit(es, p, base, mid, hi);
    }
  }

  /** Each subsegment of a run is closed exactly once. */
  lemma {:induction false} ClosedExactlyOnce(inv: Invocation, parent: Option<nat>, base: nat, k: nat)
    requires k < |Recorded(inv, parent, base)|
    ensures Recorded(inv, parent, base)[k].closes == 1
    decreases inv, 1
  {
    if k > 0 {
      AllClosedExactlyOnce(inv.calls, Some(base), base + 1, k - 1);
    }
  }

  lemma {:induction false} AllClosedExactlyOnce(calls: seq<Invocation>, parent: Option<nat>, base: nat, k: nat)
    requires k < |RecordedAll(calls, parent, base)|
    ensures RecordedAll(calls, parent, base)[k].closes == 1
    decreases calls, 0
  {
    var first := Recorded(calls[0], parent, base);
    if k < |first| {
      ClosedExactlyOnce(calls[0], parent, base, k);
    } else {
      AllClosedExactlyOnce(calls[1..], parent, base + |first|, k - |first|);
    }
  }

  /**
   What a run leaves in the trace: the tree under its subsegment is its call tree, with a fault exactly where
   an exception left a middleware, and every subsegment of it closed once.
   */
  lemma TraceIsCallTree(before: seq<Entity>, inv: Invocation, parent: Option<nat>)
    ensures var es := before + Recorded(inv, parent, |before|);
      && Rebuild(es, |before|) == Shape(inv)
      && (forall k | |before| <= k < |es| :: es[k].closes == 1)
  {
    var block := Recorded(inv, parent, |before|);
    var es := before + block;
    assert es[|before|..|before| + |block|] == block;
    TreeOfRun(es, inv, parent, |before|, |es|);
    forall k | |before| <= k < |es|
      ensures es[k].closes == 1
    {
      ClosedExactlyOnce(inv, parent, |before|, k - |before|);
    }
  }

  // ---------- calls that overlap

  /** An operation in a context that several calls share: a call begins its subsegment, or ends one. */
  datatype Op = Opens(call: nat, name: string) | Closes(call: nat)

  /** Every entity was begun after its parent. */
  ghost predicate Linked(c: Context) {
    && c.Valid()
    && forall i | 0 <= i < |c.entities| :: c.entities[i].parent.Some? ==> c.entities[i].parent.value < i
  }

  function Perform(c: Context, op: Op): (d: Context)
    requires Linked(c)
    ensures Linked(d)
  {
    if op.Opens? then Begin(c, op.name) else End(c)
  }

  function After(c: Context, word: seq<Op>): Context
    requires Linked(c)
    decreases word
  {
    if word == [] then c else After(Perform(c, word[0]), word[1..])
  }

  /** Each call begins once and then ends at most once; nothing more is known about their order. */
  predicate Legal(word: seq<Op>, open: set<nat>, closed: set<nat>)
    decreases word
  {
    word == [] || (
      match word[0]
      case Opens(x, _) => x !in open && x !in closed && Legal(word[1..], open + {x}, closed)
      case Closes(x) => x in open && Legal(word[1..], open - {x}, closed + {x}))
  }

  /** Every end finds the entity its own call began current. */
  predicate ClosesOwn(c: Context, word: seq<Op>, own: map<nat, nat>)
    requires Linked(c)
    decreases word
  {
    word == [] || (
      var d := Perform(c, word[0]);
      match word[0]
      case Opens(x, _) => ClosesOwn(d, word[1..], own[x := |c.entities|])
      case Closes(x) => x in own && c.current == Some(own[x]) && ClosesOwn(d, word[1..], own))
  }

  predicate LastInFirstOut(word: seq<Op>, stack: seq<nat>)
    decreases word
  {
    word == [] || (
      match word[0]
      case Opens(x, _) => LastInFirstOut(word[1..], stack + [x])
      case Closes(x) =>
        stack != [] && stack[|stack| - 1] == x && LastInFirstOut(word[1..], stack[..|stack| - 1]))
  }

  /** No call begins while another is open. */
  predicate OneAtATime(word: seq<Op>, open: set<nat>)
    decreases word
  {
    word == [] || (
      match word[0]
      case Opens(x, _) => open == {} && OneAtATime(word[1..], {x})
      case Closes(x) => OneAtATime(word[1..], open - {x}))
  }

  /** The way from an entity down to the current one, parent by parent. */
  ghost predicate Chain(c: Context, chain: seq<nat>) {
    && chain != []
    && c.current == Some(chain[|chain| - 1])
    && (forall i | 0 <= i < |chain| :: chain[i] < |c.entities|)
    && (forall i | 0 < i < |chain| :: c.entities[chain[i]].parent == Some(chain[i - 1]))
  }

  lemma {:induction false} ChainAscends(c: Context, chain: seq<nat>, i: nat, j: nat)
    requires Linked(c) && Chain(c, chain) && i < j < |chain|
    ensures chain[i] < chain[j]
    decreases j
  {
    assert c.entities[chain[j]].parent == Some(chain[j - 1]);
    if i < j - 1 {
      ChainAscends(c, chain, i, j - 1);
    }
  }

  lemma BeginLengthensChain(c: Context, chain: seq<nat>, name: string)
    requires Chain(c, chain)
    ensures Chain(Begin(c, name), chain + [|c.entities|])
    ensures Begin(c, name).entities[|c.entities|].parent == Some(chain[|chain| - 1])
  {
  }

  lemma EndShortensChain(c: Context, chain: seq<nat>)
    requires Linked(c) && Chain(c, chain) && |chain| > 1
    ensures Chain(End(c), chain[..|chain| - 1])
  {
  }

  /** The open calls, in the order they began, are the ones along the chain below the root. */
  ghost predicate Tracks(c: Context, own: map<nat, nat>, stack: seq<nat>, chain: seq<nat>, open: set<nat>) {
    && Chain(c, chain) && |chain| == |stack| + 1
    && (forall i | 0 <= i < |stack| :: stack[i] in own && own[stack[i]] == chain[i + 1])
    && (forall x :: x in open <==> x in stack)
  }

  lemma OpenTracks(c: Context, own: map<nat, nat>, stack: seq<nat>, chain: seq<nat>, open: set<nat>, x: nat, name: string)
    requires Linked(c) && Tracks(c, own, stack, chain, open) && x !in open
    ensures Tracks(Begin(c, name), own[x := |c.entities|], stack + [x], chain + [|c.entities|], open + {x})
  {
    BeginLengthensChain(c, chain, name);
    forall i | 0 <= i < |stack|
      ensures stack[i] != x
    {
      assert stack[i] in stack;
    }
  }

  lemma TopOnly(c: Context, own: map<nat, nat>, stack: seq<nat>, chain: seq<nat>, open: set<nat>, x: nat)
    requires Linked(c) && Tracks(c, own, stack, chain, open) && x in open
    ensures stack != []
    ensures x in own && (c.current == Some(own[x]) <==> stack[|stack| - 1] == x)
    ensures x !in stack[..|stack| - 1] <==> stack[|stack| - 1] == x
  {
    var i :| 0 <= i < |stack| && stack[i] == x;
    var last := |stack| - 1;
    if i < last {
      ChainAscends(c, chain, i + 1, last + 1);
      assert stack[..last][i] == x;
    }
    if stack[last] == x && x in stack[..last] {
      var j :| 0 <= j < last && stack[j] == x;
      ChainAscends(c, chain, j + 1, last + 1);
    }
  }

  lemma CloseTracks(c: Context, own: map<nat, nat>, stack: seq<nat>, chain: seq<nat>, open: set<nat>)
    requires Linked(c) && Tracks(c, own, stack, chain, open) && stack != []
    ensures var last := |stack| - 1; Tracks(End(c), own, stack[..last], chain[..last + 1], open - {stack[last]})
  {
    var last := |stack| - 1;
    EndShortensChain(c, chain);
    assert stack == stack[..last] + [stack[last]];
    assert stack[last] in stack;
    TopOnly(c, own, stack, chain, open, stack[last]);
  }

  lemma {:induction false} OwnExactlyWhen(
    c: Context, word: seq<Op>, own: map<nat, nat>, stack: seq<nat>, chain: seq<nat>, open: set<nat>, closed: set<nat>)
    requires Linked(c) && Legal(word, open, closed) && Tracks(c, own, stack, chain, open)
    ensures ClosesOwn(c, word, own) <==> LastInFirstOut(word, stack)
    decreases word
  {
    if word != [] {
      match word[0]
      case Opens(x, name) =>
        OpenTracks(c, own, stack, chain, open, x, name);
        OwnExactlyWhen(Begin(c, name), word[1..], own[x := |c.entities|], stack + [x], chain + [|c.entities|],
          open + {x}, closed);
      case Closes(x) =>
        TopOnly(c, own, stack, chain, open, x);
        if stack[|stack| - 1] == x {
          CloseTracks(c, own, stack, chain, open);
          var last := |stack| - 1;
          OwnExactlyWhen(End(c), word[1..], own, stack[..last], chain[..last + 1], open - {x}, closed + {x});
        }
    }
  }

  lemma {:induction false} AfterKeepsParents(c: Context, word: seq<Op>, i: nat)
    requires Linked(c) && i < |c.entities|
    ensures |c.entities| <= |After(c, word).entities|
    ensures After(c, word).entities[i].parent == c.entities[i].parent
    decreases word
  {
    if word != [] {
      AfterKeepsParents(Perform(c, word[0]), word[1..], i);
    }
  }

  /** Whatever is begun from here on hangs from `root`. */
  ghost predicate HangsFrom(c: Context, word: seq<Op>, root: nat)
    requires Linked(c)
  {
    forall i | |c.entities| <= i < |After(c, word).entities| :: After(c, word).entities[i].parent == Some(root)
  }

  lemma {:induction false} HangsExactlyWhen(c: Context, word: seq<Op>, chain: seq<nat>, open: set<nat>, closed: set<nat>)
    requires Linked(c) && Legal(word, open, closed) && Chain(c, chain) && |chain| == 1 + |open|
    ensures HangsFrom(c, word, chain[0]) <==> OneAtATime(word, open)
    decreases word
  {
    if word != [] {
      match word[0]
      case Opens(x, name) =>
        var d := Begin(c, name);
        BeginLengthensChain(c, chain, name);
        AfterKeepsParents(d, word[1..], |c.entities|);
        assert After(c, word) == After(d, word[1..]);
        if open == {} {
          assert open + {x} == {x} && (chain + [|c.entities|])[0] == chain[0];
          HangsExactlyWhen(d, word[1..], chain + [|c.entities|], {x}, closed);
          assert HangsFrom(c, word, chain[0]) <==> HangsFrom(d, word[1..], chain[0]);
        } else {
          ChainAscends(c, chain, 0, |chain| - 1);
          assert After(c, word).entities[|c.entities|].parent != Some(chain[0]);
        }
      case Closes(x) =>
        var shorter := chain[..|chain| - 1];
        EndShortensChain(c, chain);
        HangsExactlyWhen(End(c), word[1..], shorter, open - {x}, closed + {x});
        assert After(c, word) == After(End(c), word[1..]) && |End(c).entities| == |c.entities|;
        assert HangsFrom(c, word, chain[0]) <==> HangsFrom(End(c), word[1..], shorter[0]);
    }
  }

  /**
   Calls that share a context, in whatever order they begin and end: every end closes its own call's
   subsegment exactly when they end last-in-first-out, and their subsegments hang side by side exactly when
   none begins while another is open.
   */
  lemma OverlapIsSafeExactlyWhen(c: Context, word: seq<Op>)
    requires Linked(c) && c.current.Some? && Legal(word, {}, {})
    ensures ClosesOwn(c, word, map[]) <==> LastInFirstOut(word, [])
    ensures HangsFrom(c, word, c.current.value) <==> OneAtATime(word, {})
  {
    var chain := [c.current.value];
    assert Chain(c, chain);
    OwnExactlyWhen(c, word, map[], [], chain, {}, {});
    HangsExactlyWhen(c, word, chain, {}, {});
  }

  /** Two calls, the second begun inside the first; call `x` is the first to end. */
  function Overlapping(first: string, second: string, x: nat): seq<Op>
    requires x <= 1
  {
    [Opens(0, first), Opens(1, second), Closes(x), Closes(1 - x)]
  }

  lemma WhichEndsFirst(first: string, second: string, x: nat)
    requires x <= 1
    ensures var word := Overlapping(first, second, x);
      && Legal(word, {}, {})
      && (LastInFirstOut(word, []) <==> x == 1)
      && !OneAtATime(word, {})
  {
    var y := 1 - x;
    var begin, end := Opens(1, second), Closes(y);
    var word := Overlapping(first, second, x);
    assert word[1..] == [begin, Closes(x), end] && word[1..][1..] == [Closes(x), end] && [Closes(x), end][1..] == [end];
    assert x != y && {0} + {1} - {x} == {y};
    assert Legal([end], {y}, {x});
    assert Legal([Closes(x), end], {0} + {1}, {});
    assert Legal(word[1..], {0}, {});
    assert {} + {0} == {0};
    assert [0, 1][..1] == [0] && [0][..0] == [] && [] + [0] == [0] && [0] + [1] == [0, 1];
    assert LastInFirstOut([end], [0]) <==> y == 0;
    assert LastInFirstOut([Closes(x), end], [0, 1]) <==> x == 1;
    assert LastInFirstOut(word[1..], [0]) <==> x == 1;
    assert !OneAtATime(word[1..], {0});
  }

  /**
   Two overlapping calls: when the first to begin ends first, it closes the other's subsegment; when it ends
   last each closes its own, but the second still hangs under the first.
   */
  lemma OverlappingCallsAreMisattributed(c: Context, first: string, second: string)
    requires Linked(c) && c.current.Some?
    ensures var begun := Begin(Begin(c, first), second);
      begun.current == Some(|c.entities| + 1) && begun.entities[|c.entities| + 1].parent == Some(|c.entities|)
    ensures !ClosesOwn(c, Overlapping(first, second, 0), map[])
    ensures ClosesOwn(c, Overlapping(first, second, 1), map[])
    ensures !HangsFrom(c, Overlapping(first, second, 1), c.current.value)
  {
    WhichEndsFirst(first, second, 0);
    WhichEndsFirst(first, second, 1);
    var crossed, nested := Overlapping(first, second, 0), Overlapping(first, second, 1);
    OverlapIsSafeExactlyWhen(c, crossed);
    OverlapIsSafeExactlyWhen(c, nested);
  }

  // ---------- the objects

  class Recorder {
    var entities: seq<Entity>
    var current: Option<nat>

    constructor (context: Context)
      ensures View() == context
    {
      entities, current := context.entities, context.current;
    }

    function View(): Context
      reads this
    {
      Context(entities, current)
    }

    method BeginSubsegment(name: string) returns (began: bool)
      modifies this
      ensures View() == Begin(old(View()), name)
      ensures began <==> old(current).Some?
    {
      if current.None? {
        return false;
      }
      entities, current := entities + [Entity(name, current, 0, 0)], Some(|entities|);
      began := true;
    }

    method AddException()
      requires View().Valid()
      modifies this
      ensures View() == Fault(old(View()))
    {
      if current.Some? {
        var e := entities[current.value];
        entities := entities[current.value := e.(faults := e.faults + 1)];
      }
    }

    method EndSubsegment()
      requires View().Valid()
      modifies this
      ensures View() == End(old(View()))
    {
      if current.None? {
        return;
      }
      var e := entities[current.value];
      entities := entities[current.value := e.(closes := e.closes + 1)];
      if e.parent.Some? {
        current := e.parent;
      }
    }
  }

  class Decorator {
    const recorder: Recorder

    constructor (recorder: Recorder)
      ensures this.recorder == recorder
    {
      this.recorder := recorder;
    }

    /** The decorated middleware: begin, run, fault on an exception, end, rethrow. */
    method Handle(inv: Invocation) returns (threw: bool)
      requires recorder.View().Valid()
      modifies recorder
      ensures threw == inv.throws
      ensures recorder.View() == Ran(old(recorder.View()), inv)
      decreases inv, 1
    {
      ghost var before := recorder.View();
      var began := recorder.BeginSubsegment(inv.name);
      if !began {
        threw := RunInner(inv);
        return;
      }
      EndClosesWhatBegan(before, inv);
      threw := RunInner(inv);
      if threw {
        recorder.AddException();
      }
      recorder.EndSubsegment();
    }

    /** The inner middleware: its calls of next, then its exit. */
    method RunInner(inv: Invocation) returns (threw: bool)
      requires recorder.View().Valid()
      modifies recorder
      ensures threw == inv.throws
      ensures recorder.View() == RanAll(old(recorder.View()), inv.calls)
      decreases inv, 0
    {
      ghost var before := recorder.View();
      for i := 0 to |inv.calls|
        invariant recorder.View() == RanAll(before, inv.calls[..i])
      {
        RanAllAppends(before, inv.calls[..i], inv.calls[i]);
        assert inv.calls[..i + 1] == inv.calls[..i] + [inv.calls[i]];
        var _ := Handle(inv.calls[i]);
      }
      assert inv.calls[..|inv.calls|] == inv.calls;
      threw := inv.throws;
    }
  }
}
