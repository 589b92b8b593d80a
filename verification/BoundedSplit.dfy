/**
 Splitting a text on a separator into at most so many parts, the last of which keeps the remainder.
 */
module BoundedSplit {
  import opened Options

  predicate OccursAt(s: string, separator: string, i: nat) {
    i + |separator| <= |s| && s[i..i + |separator|] == separator
  }

  predicate Contains(s: string, separator: string) {
    exists i :: 0 <= i <= |s| && OccursAt(s, separator, i)
  }

  /** The first occurrence at or after `from`. */
  function IndexFrom(s: string, separator: string, from: nat): (i: Option<nat>)
    requires from <= |s|
    ensures i.Some? ==> from <= i.value <= |s| && OccursAt(s, separator, i.value)
    ensures i.Some? ==> forall j | from <= j < i.value :: !OccursAt(s, separator, j)
    ensures i.None? ==> forall j | from <= j <= |s| :: !OccursAt(s, separator, j)
    decreases |s| - from
  {
    if OccursAt(s, separator, from) then Some(from)
    else if from == |s| then None
    else IndexFrom(s, separator, from + 1)
  }

  /** What precedes and what follows the first separator. */
  function Cut(value: string, separator: string): (c: Option<(string, string)>)
    ensures c.Some? ==> c.value.0 + separator + c.value.1 == value
  {
    match IndexFrom(value, separator, 0)
    case None => None
    case Some(i) =>
      assert value == value[..i] + value[i..i + |separator|] + value[i + |separator|..];
      Some((value[..i], value[i + |separator|..]))
  }

  /** At most `limit` parts; everything after the separator before the last part stays in it. */
  function Split(value: string, separator: string, limit: int): (parts: seq<string>)
    ensures 1 <= |parts| && (|parts| <= limit || |parts| == 1)
    decreases limit
  {
    var cut := Cut(value, separator);
    if limit <= 1 || cut.None? then [value]
    else [cut.value.0] + Split(cut.value.1, separator, limit - 1)
  }

  /** The unbounded split: more parts than the text has characters cannot occur. */
  function SplitAll(value: string, separator: string): seq<string> {
    Split(value, separator, |value| + 2)
  }

  function Join(parts: seq<string>, separator: string): string
    requires parts != []
    decreases parts
  {
    if |parts| == 1 then parts[0] else parts[0] + separator + Join(parts[1..], separator)
  }

  /** Joining the parts restores the input: whatever the limit, and even for an empty separator. */
  lemma {:induction false} JoinRestores(value: string, separator: string, limit: int)
    ensures Join(Split(value, separator, limit), separator) == value
    decreases limit
  {
    var cut := Cut(value, separator);
    if limit > 1 && cut.Some? {
      JoinRestores(cut.value.1, separator, limit - 1);
      assert Split(value, separator, limit)[1..] == Split(cut.value.1, separator, limit - 1);
    }
  }

  lemma PrefixDoesNotContain(value: string, separator: string, i: nat)
    requires separator != "" && i <= |value|
    requires forall j | 0 <= j < i :: !OccursAt(value, separator, j)
    ensures !Contains(value[..i], separator)
  {
    forall j: nat | j <= i
      ensures !OccursAt(value[..i], separator, j)
    {
      if j + |separator| <= i {
        assert |separator| > 0 && !OccursAt(value, separator, j);
        assert value[..i][j..j + |separator|] == value[j..j + |separator|];
      }
    }
  }

  /** A cut is at the first separator. */
  lemma CutIsFirst(value: string, separator: string)
    requires separator != ""
    ensures !Contains(if Cut(value, separator).Some? then Cut(value, separator).value.0 else value, separator)
  {
    var first := IndexFrom(value, separator, 0);
    if first.Some? {
      PrefixDoesNotContain(value, separator, first.value);
    }
  }

  /** No part but number `last` contains the separator. */
  ghost predicate CleanExcept(parts: seq<string>, separator: string, last: int) {
    forall k | 0 <= k < |parts| && k != last :: !Contains(parts[k], separator)
  }

  lemma CleanCons(first: string, rest: seq<string>, separator: string, last: int)
    requires !Contains(first, separator) && CleanExcept(rest, separator, last - 1)
    ensures CleanExcept([first] + rest, separator, last)
  {
    var parts := [first] + rest;
    forall k | 0 <= k < |parts| && k != last
      ensures !Contains(parts[k], separator)
    {
      if k > 0 {
        assert parts[k] == rest[k - 1];
      }
    }
  }

  lemma CleanOne(only: string, separator: string, last: int)
    requires last == 0 || !Contains(only, separator)
    ensures CleanExcept([only], separator, last)
  {
  }

  lemma SplitUnfolds(value: string, separator: string, limit: int)
    ensures Split(value, separator, limit) ==
      if limit <= 1 || Cut(value, separator).None? then [value]
      else [Cut(value, separator).value.0] + Split(Cut(value, separator).value.1, separator, limit - 1)
  {
  }

  /** Only a part that is the limit-th may contain the separator. */
  lemma {:induction false} OnlyLimitPartMayContain(value: string, separator: string, limit: int)
    requires separator != "" && limit >= 1
    ensures CleanExcept(Split(value, separator, limit), separator, limit - 1)
    decreases limit
  {
    CutIsFirst(value, separator);
    SplitUnfolds(value, separator, limit);
    var cut := Cut(value, separator);
    if limit <= 1 || cut.None? {
      CleanOne(value, separator, limit - 1);
    } else {
      var (first, others) := cut.value;
      OnlyLimitPartMayContain(others, separator, limit - 1);
      CleanCons(first, Split(others, separator, limit - 1), separator, limit - 1);
    }
  }

  /** The parts so far, and those the rest will give. */
  function Pending(parts: seq<string>, remaining: string, separator: string, limit: int): seq<string> {
    parts + Split(remaining, separator, limit - |parts|)
  }

  lemma PendingStarts(value: string, separator: string, limit: int)
    ensures Pending([], value, separator, limit) == Split(value, separator, limit)
  {
  }

  lemma PendingStep(parts: seq<string>, remaining: string, separator: string, limit: int)
    requires limit - |parts| > 1 && Cut(remaining, separator).Some?
    ensures var (first, rest) := Cut(remaining, separator).value;
      Pending(parts, remaining, separator, limit) == Pending(parts + [first], rest, separator, limit)
  {
    var (first, rest) := Cut(remaining, separator).value;
    var later := Split(rest, separator, limit - |parts| - 1);
    assert parts + ([first] + later) == (parts + [first]) + later;
  }

  lemma PendingEnds(parts: seq<string>, remaining: string, separator: string, limit: int)
    requires limit - |parts| <= 1 || Cut(remaining, separator).None?
    ensures Pending(parts, remaining, separator, limit) == parts + [remaining]
  {
  }

  method SplitWithLimit(value: string, separator: string, limit: int) returns (parts: seq<string>)
    ensures parts == Split(value, separator, limit)
  {
    parts := [];
    var remaining := value;
    var found := true;
    PendingStarts(value, separator, limit);
    while |parts| < limit - 1 && found
      invariant !found ==> Cut(remaining, separator).None?
      invariant Pending(parts, remaining, separator, limit) == Split(value, separator, limit)
      decreases limit - |parts|, found
    {
      var cut := Cut(remaining, separator);
      if cut.None? {
        found := false;
      } else {
        PendingStep(parts, remaining, separator, limit);
        parts := parts + [cut.value.0];
        remaining := cut.value.1;
      }
    }
    PendingEnds(parts, remaining, separator, limit);
    parts := parts + [remaining];
  }

  // ---------- one-character separators

  lemma FirstOfChar(a: string, c: char, b: string)
    requires c !in a
    ensures IndexFrom(a + [c] + b, [c], 0) == Some(|a|)
  {
    var s := a + [c] + b;
    assert s[|a|] == c && s[|a|..|a| + 1] == [c];
    assert OccursAt(s, [c], |a|);
    forall j: nat | j < |a|
      ensures !OccursAt(s, [c], j)
    {
      assert s[j] == a[j];
      assert s[j..j + 1][0] == s[j];
    }
  }

  lemma NoneOfChar(a: string, c: char)
    requires c !in a
    ensures IndexFrom(a, [c], 0) == None
  {
    forall j: nat | j <= |a|
      ensures !OccursAt(a, [c], j)
    {
      if j < |a| {
        assert a[j..j + 1][0] == a[j];
      }
    }
  }

  lemma SplitAtFirst(a: string, c: char, b: string, limit: int)
    requires c !in a && limit > 1
    ensures Split(a + [c] + b, [c], limit) == [a] + Split(b, [c], limit - 1)
  {
    FirstOfChar(a, c, b);
    var s := a + [c] + b;
    assert s[..|a|] == a && s[|a| + 1..] == b;
    assert Cut(s, [c]) == Some((a, b));
  }

  lemma SplitOfOne(a: string, c: char, limit: int)
    requires c !in a
    ensures Split(a, [c], limit) == [a]
  {
    NoneOfChar(a, c);
  }

  /** The parts are the only way to cut the text at a character without a cut left over. */
  lemma {:induction false} SplitIsUnique(value: string, c: char, limit: int, parts: seq<string>)
    requires 1 <= |parts| <= limit && Join(parts, [c]) == value
    requires forall k | 0 <= k < |parts| && k != limit - 1 :: c !in parts[k]
    ensures parts == Split(value, [c], limit)
    decreases parts
  {
    if |parts| == 1 {
      if limit > 1 {
        SplitOfOne(value, c, limit);
      }
    } else {
      var rest := Join(parts[1..], [c]);
      SplitIsUnique(rest, c, limit - 1, parts[1..]);
      SplitAtFirst(parts[0], c, rest, limit);
    }
  }

  lemma {:induction false} JoinIsLong(parts: seq<string>, separator: string)
    requires parts != [] && separator != ""
    ensures |Join(parts, separator)| >= |parts| - 1
    decreases parts
  {
    if |parts| > 1 {
      JoinIsLong(parts[1..], separator);
    }
  }

  lemma CharOccurs(part: string, c: char)
    requires !Contains(part, [c])
    ensures c !in part
  {
    if c in part {
      var j :| 0 <= j < |part| && part[j] == c;
      assert part[j..j + 1] == [c];
      assert OccursAt(part, [c], j);
    }
  }

  /** The unbounded split leaves no separator in any part. */
  lemma SplitAllIsClean(value: string, c: char)
    ensures var parts := SplitAll(value, [c]);
      && (forall k | 0 <= k < |parts| :: c !in parts[k])
      && |parts| <= |value| + 1
      && Join(parts, [c]) == value
  {
    var parts := SplitAll(value, [c]);
    JoinRestores(value, [c], |value| + 2);
    JoinIsLong(parts, [c]);
    OnlyLimitPartMayContain(value, [c], |value| + 2);
    forall k | 0 <= k < |parts|
      ensures c !in parts[k]
    {
      CharOccurs(parts[k], c);
    }
  }
}
