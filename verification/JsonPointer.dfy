/**
 Validation errors: the JSON Pointer an error addresses, built by an ordered two-pass escape, and the list of
 errors with repeats dropped. Decoding follows sections 3 and 4 of RFC 6901.
 */
module JsonPointer {
  import opened Options
  import opened BoundedSplit

  // ---------- escaping a member name

  function ReplaceChar(s: string, c: char, with: string): string
    decreases s
  {
    if s == [] then [] else (if s[0] == c then with else [s[0]]) + ReplaceChar(s[1..], c, with)
  }

  /** First every tilde, then every slash. */
  function Escape(member: string): string {
    ReplaceChar(ReplaceChar(member, '~', "~0"), '/', "~1")
  }

  /** Replaces the pair `a b`, left to right. */
  function ReplacePair(s: string, a: char, b: char, with: char): string
    decreases |s|
  {
    if |s| < 2 then s
    else if s[0] == a && s[1] == b then [with] + ReplacePair(s[2..], a, b, with)
    else [s[0]] + ReplacePair(s[1..], a, b, with)
  }

  /** The decoding order of section 4 of RFC 6901: first `~1`, then `~0`. */
  function Unescape(token: string): string {
    ReplacePair(ReplacePair(token, '~', '1', '/'), '~', '0', '~')
  }

  function EscapeChar(c: char): string {
    if c == '~' then "~0" else if c == '/' then "~1" else [c]
  }

  function SinglePass(s: string): string
    decreases s
  {
    if s == [] then [] else EscapeChar(s[0]) + SinglePass(s[1..])
  }

  /** What the first decoding step leaves of an escaped name. */
  function TildesOnly(s: string): string
    decreases s
  {
    if s == [] then [] else (if s[0] == '~' then "~0" else [s[0]]) + TildesOnly(s[1..])
  }

  lemma {:induction false} ReplaceSplits(a: string, b: string, c: char, with: string)
    ensures ReplaceChar(a + b, c, with) == ReplaceChar(a, c, with) + ReplaceChar(b, c, with)
    decreases a
  {
    if a == [] {
      assert a + b == b;
    } else {
      ReplaceSplits(a[1..], b, c, with);
      assert (a + b)[0] == a[0] && (a + b)[1..] == a[1..] + b;
      var head := if a[0] == c then with else [a[0]];
      var x, y := ReplaceChar(a[1..], c, with), ReplaceChar(b, c, with);
      assert head + (x + y) == (head + x) + y;
    }
  }

  lemma EscapedChar(c: char)
    ensures ReplaceChar(if c == '~' then "~0" else [c], '/', "~1") == EscapeChar(c)
  {
    if c == '~' {
      assert "~0"[1..] == "0" && "0"[1..] == "";
      assert ReplaceChar("0", '/', "~1") == "0";
    }
  }

  /** The two passes do not see each other's output: they are one map over the characters. */
  lemma {:induction false} EscapeIsSinglePass(s: string)
    ensures Escape(s) == SinglePass(s)
    decreases s
  {
    if s != [] {
      var head := if s[0] == '~' then "~0" else [s[0]];
      ReplaceSplits(head, ReplaceChar(s[1..], '~', "~0"), '/', "~1");
      EscapedChar(s[0]);
      EscapeIsSinglePass(s[1..]);
    }
  }

  lemma PairStep(c: char, rest: string, a: char, b: char, with: char)
    requires c != a
    ensures ReplacePair([c] + rest, a, b, with) == [c] + ReplacePair(rest, a, b, with)
  {
    var s := [c] + rest;
    assert s[1..] == rest;
    if rest == [] {
      assert s == [c] + [];
    }
  }

  lemma PairMatch(rest: string, a: char, b: char, with: char)
    ensures ReplacePair([a, b] + rest, a, b, with) == [with] + ReplacePair(rest, a, b, with)
  {
    assert ([a, b] + rest)[2..] == rest;
  }

  lemma PairMiss(c: char, rest: string, a: char, b: char, with: char)
    requires c != b && c != a
    ensures ReplacePair([a, c] + rest, a, b, with) == [a, c] + ReplacePair(rest, a, b, with)
  {
    assert ([a, c] + rest)[1..] == [c] + rest;
    PairStep(c, rest, a, b, with);
  }

  lemma {:induction false} FirstDecoding(s: string)
    ensures ReplacePair(SinglePass(s), '~', '1', '/') == TildesOnly(s)
    decreases s
  {
    if s != [] {
      var rest := SinglePass(s[1..]);
      FirstDecoding(s[1..]);
      if s[0] == '~' {
        assert SinglePass(s) == ['~', '0'] + rest;
        PairMiss('0', rest, '~', '1', '/');
      } else if s[0] == '/' {
        assert SinglePass(s) == ['~', '1'] + rest;
        PairMatch(rest, '~', '1', '/');
      } else {
        PairStep(s[0], rest, '~', '1', '/');
      }
    }
  }

  lemma {:induction false} SecondDecoding(s: string)
    ensures ReplacePair(TildesOnly(s), '~', '0', '~') == s
    decreases s
  {
    if s != [] {
      var rest := TildesOnly(s[1..]);
      SecondDecoding(s[1..]);
      if s[0] == '~' {
        assert TildesOnly(s) == ['~', '0'] + rest;
        PairMatch(rest, '~', '0', '~');
      } else {
        PairStep(s[0], rest, '~', '0', '~');
      }
    }
  }

  /** Section 3 of RFC 6901: no slash, and each tilde starts `~0` or `~1`. */
  predicate ValidToken(t: string)
    decreases |t|
  {
    if t == [] then true
    else if t[0] == '~' then |t| >= 2 && (t[1] == '0' || t[1] == '1') && ValidToken(t[2..])
    else t[0] != '/' && ValidToken(t[1..])
  }

  lemma {:induction false} SinglePassIsValid(s: string)
    ensures ValidToken(SinglePass(s))
    ensures '/' !in SinglePass(s)
    decreases s
  {
    if s != [] {
      SinglePassIsValid(s[1..]);
      var rest := SinglePass(s[1..]);
      var all := SinglePass(s);
      if s[0] == '~' || s[0] == '/' {
        assert all[2..] == rest;
      } else {
        assert all[1..] == rest;
      }
    }
  }

  /** Decoding undoes the escape, for every member name; the escaped name is a valid token without a slash. */
  lemma UnescapeUndoesEscape(member: string)
    ensures Unescape(Escape(member)) == member
    ensures ValidToken(Escape(member)) && '/' !in Escape(member)
  {
    EscapeIsSinglePass(member);
    FirstDecoding(member);
    SecondDecoding(member);
    SinglePassIsValid(member);
  }

  lemma EscapeIsInjective(a: string, b: string)
    ensures Escape(a) == Escape(b) <==> a == b
  {
    UnescapeUndoesEscape(a);
    UnescapeUndoesEscape(b);
  }

  /** The two escapes, and why decoding takes `~1` first. */
  lemma SpecialCharacters()
    ensures Escape("~") == "~0" && Escape("/") == "~1" && Unescape("~01") == "~1"
  {
    EscapeIsSinglePass("~");
    EscapeIsSinglePass("/");
    assert "~"[1..] == "" && "/"[1..] == "";
    assert SinglePass("~") == "~0" && SinglePass("/") == "~1";
    var name := "~1";
    assert name[1..] == "1" && "1"[1..] == "";
    assert SinglePass("1") == "1";
    assert SinglePass(name) == "~01";
    EscapeIsSinglePass(name);
    UnescapeUndoesEscape(name);
  }

  /** The member name a valid token stands for, read in one pass. */
  function Decode(t: string): string
    requires ValidToken(t)
    decreases |t|
  {
    if t == [] then []
    else if t[0] == '~' then [if t[1] == '0' then '~' else '/'] + Decode(t[2..])
    else [t[0]] + Decode(t[1..])
  }

  lemma {:induction false} EscapeUndoesDecode(t: string)
    requires ValidToken(t)
    ensures SinglePass(Decode(t)) == t
    decreases |t|
  {
    if t != [] {
      var d := Decode(t);
      if t[0] == '~' {
        EscapeUndoesDecode(t[2..]);
        assert d[1..] == Decode(t[2..]);
        assert t == [t[0], t[1]] + t[2..];
      } else {
        EscapeUndoesDecode(t[1..]);
        assert d[1..] == Decode(t[1..]);
      }
    }
  }

  /** Every valid token is the escape of what it decodes to: tokens and member names match one to one. */
  lemma EscapeUndoesUnescape(t: string)
    requires ValidToken(t)
    ensures Escape(Unescape(t)) == t
  {
    EscapeUndoesDecode(t);
    EscapeIsSinglePass(Decode(t));
    UnescapeUndoesEscape(Decode(t));
  }

  // ---------- the pointer an error addresses

  datatype ValidationError = ValidationError(
    instancePath: string,
    missingProperty: Option<string>, additionalProperty: Option<string>, unevaluatedProperty: Option<string>,
    keyword: Option<string>, message: Option<string>)

  datatype BenzeneError = BenzeneError(message: string, field: Option<string>, code: Option<string>)

  function MemberOf(e: ValidationError): Option<string> {
    if e.missingProperty.Some? then e.missingProperty
    else if e.additionalProperty.Some? then e.additionalProperty
    else e.unevaluatedProperty
  }

  function PointerOf(e: ValidationError): string {
    match MemberOf(e)
    case None => e.instancePath
    case Some(member) => e.instancePath + "/" + Escape(member)
  }

  function FieldOf(e: ValidationError): Option<string> {
    if PointerOf(e) == "" then None else Some(PointerOf(e))
  }

  function UnescapeAll(tokens: seq<string>): (members: seq<string>)
    ensures |members| == |tokens|
    ensures forall i | 0 <= i < |tokens| :: members[i] == Unescape(tokens[i])
  {
    seq(|tokens|, i requires 0 <= i < |tokens| => Unescape(tokens[i]))
  }

  /** The member names a pointer goes through; the empty pointer addresses the whole document. */
  function Members(pointer: string): seq<string> {
    UnescapeAll(SplitAll(pointer, "/")[1..])
  }

  lemma {:induction false} JoinAppends(parts: seq<string>, last: string, separator: string)
    requires parts != []
    ensures Join(parts + [last], separator) == Join(parts, separator) + separator + last
    decreases parts
  {
    var all := parts + [last];
    assert all[0] == parts[0];
    if |parts| == 1 {
      assert all[1..] == [last];
    } else {
      assert all[1..] == parts[1..] + [last];
      JoinAppends(parts[1..], last, separator);
    }
  }

  lemma SplitAppends(path: string, token: string)
    requires '/' !in token
    ensures SplitAll(path + "/" + token, "/") == SplitAll(path, "/") + [token]
  {
    var parts := SplitAll(path, "/");
    SplitAllIsClean(path, '/');
    JoinAppends(parts, token, "/");
    SplitIsUnique(path + "/" + token, '/', |path + "/" + token| + 2, parts + [token]);
  }

  /**
   The field a client gets decodes to the path of the failing value, with the member the keyword names as its
   last step. An error without a field is exactly one about the whole request.
   */
  lemma FieldAddressesMember(e: ValidationError)
    ensures MemberOf(e).Some? ==>
      FieldOf(e).Some? && Members(FieldOf(e).value) == Members(e.instancePath) + [MemberOf(e).value]
    ensures MemberOf(e).None? && FieldOf(e).Some? ==> FieldOf(e).value == e.instancePath
    ensures FieldOf(e).None? <==> e.instancePath == "" && MemberOf(e).None?
    ensures e.missingProperty.Some? ==> MemberOf(e) == e.missingProperty
    ensures e.missingProperty.None? && e.additionalProperty.Some? ==> MemberOf(e) == e.additionalProperty
    ensures e.missingProperty.None? && e.additionalProperty.None? ==> MemberOf(e) == e.unevaluatedProperty
  {
    if MemberOf(e).Some? {
      var token := Escape(MemberOf(e).value);
      UnescapeUndoesEscape(MemberOf(e).value);
      SplitAppends(e.instancePath, token);
      assert PointerOf(e) == e.instancePath + "/" + token && |PointerOf(e)| > 0;
      assert SplitAll(PointerOf(e), "/")[1..] == SplitAll(e.instancePath, "/")[1..] + [token];
    }
  }

  // ---------- the list of errors

  const Fallback := "Request does not match the schema"

  function FormatError(e: ValidationError): BenzeneError {
    BenzeneError(
      if e.message.Some? then e.message.value else "is invalid",
      FieldOf(e),
      if e.keyword.None? || e.keyword.value == "" then None else e.keyword)
  }

  /** What stands in for a missing message, and when there is no code. */
  lemma FormatsByCase(e: ValidationError)
    ensures FormatError(e).message == if e.message.None? then "is invalid" else e.message.value
    ensures FormatError(e).code == if e.keyword == Some("") then None else e.keyword
    ensures FormatError(e).field == FieldOf(e)
  {
  }

  function TextOr(o: Option<string>): string {
    if o.Some? then o.value else ""
  }

  /** The joined key repeats are recognised by. */
  function Key(e: BenzeneError): string {
    TextOr(e.field) + " " + TextOr(e.code) + " " + e.message
  }

  function Formatted(errors: seq<ValidationError>): (list: seq<BenzeneError>)
    ensures |list| == |errors|
    ensures forall i | 0 <= i < |errors| :: list[i] == FormatError(errors[i])
  {
    seq(|errors|, i requires 0 <= i < |errors| => FormatError(errors[i]))
  }

  /** The key at `i` occurs before it. */
  predicate Repeats(list: seq<BenzeneError>, i: nat)
    requires i < |list|
  {
    exists j :: 0 <= j < i && Key(list[j]) == Key(list[i])
  }

  /** The positions kept, in order: those whose key has not occurred before. */
  function Kept(list: seq<BenzeneError>, n: nat): seq<nat>
    requires n <= |list|
    decreases n
  {
    if n == 0 then [] else Kept(list, n - 1) + (if Repeats(list, n - 1) then [] else [n - 1])
  }

  lemma {:induction false} KeptIsOrdered(list: seq<BenzeneError>, n: nat)
    requires n <= |list|
    ensures forall k | 0 <= k < |Kept(list, n)| :: Kept(list, n)[k] < n
    ensures forall j, k | 0 <= j < k < |Kept(list, n)| :: Kept(list, n)[j] < Kept(list, n)[k]
    decreases n
  {
    if n > 0 {
      KeptIsOrdered(list, n - 1);
    }
  }

  lemma {:induction false} KeptIsExact(list: seq<BenzeneError>, n: nat, i: nat)
    requires n <= |list| && i < n
    ensures i in Kept(list, n) <==> !Repeats(list, i)
    decreases n
  {
    var before := Kept(list, n - 1);
    if i < n - 1 {
      KeptIsExact(list, n - 1, i);
      assert i in Kept(list, n) <==> i in before;
    } else {
      KeptIsOrdered(list, n - 1);
      assert i !in before;
    }
  }

  function KeysBefore(list: seq<BenzeneError>, n: nat): set<string>
    requires n <= |list|
    decreases n
  {
    if n == 0 then {} else KeysBefore(list, n - 1) + {Key(list[n - 1])}
  }

  lemma {:induction false} KeptStartsWithFirst(list: seq<BenzeneError>, n: nat)
    requires 0 < n <= |list|
    ensures Kept(list, n) != [] && Kept(list, n)[0] == 0
    decreases n
  {
    if n > 1 {
      KeptStartsWithFirst(list, n - 1);
    }
  }

  lemma {:induction false} KeysBeforeIsExact(list: seq<BenzeneError>, n: nat, key: string)
    requires n <= |list|
    ensures key in KeysBefore(list, n) <==> exists j :: 0 <= j < n && Key(list[j]) == key
    decreases n
  {
    if n > 0 {
      KeysBeforeIsExact(list, n - 1, key);
    }
  }

  lemma SeenExactlyWhenRepeats(list: seq<BenzeneError>, i: nat)
    requires i < |list|
    ensures Key(list[i]) in KeysBefore(list, i) <==> Repeats(list, i)
  {
    KeysBeforeIsExact(list, i, Key(list[i]));
  }

  /** The entries kept of the first `n`. */
  function DistinctUpTo(list: seq<BenzeneError>, n: nat): seq<BenzeneError>
    requires n <= |list|
    decreases n
  {
    if n == 0 then [] else DistinctUpTo(list, n - 1) + (if Repeats(list, n - 1) then [] else [list[n - 1]])
  }

  function Distinct(list: seq<BenzeneError>): seq<BenzeneError> {
    DistinctUpTo(list, |list|)
  }

  lemma {:induction false} DistinctComesFromKept(list: seq<BenzeneError>, n: nat)
    requires n <= |list|
    ensures |DistinctUpTo(list, n)| == |Kept(list, n)|
    ensures forall k | 0 <= k < |Kept(list, n)| ::
      Kept(list, n)[k] < |list| && DistinctUpTo(list, n)[k] == list[Kept(list, n)[k]]
    decreases n
  {
    if n > 0 {
      DistinctComesFromKept(list, n - 1);
    }
  }

  /**
   No key occurs twice, every key of the input occurs, each entry is the first with its key, and entries stay
   in input order; something is left whenever there was something.
   */
  lemma DistinctKeepsFirstOccurrences(list: seq<BenzeneError>)
    ensures var kept := Kept(list, |list|);
      && |Distinct(list)| == |kept|
      && (forall k | 0 <= k < |kept| :: kept[k] < |list| && Distinct(list)[k] == list[kept[k]])
      && (forall j, k | 0 <= j < k < |kept| :: kept[j] < kept[k])
      && (forall i: nat | i < |list| :: i in kept <==> !Repeats(list, i))
    ensures list != [] ==> Distinct(list) != [] && Distinct(list)[0] == list[0]
  {
    KeptIsOrdered(list, |list|);
    DistinctComesFromKept(list, |list|);
    forall i: nat | i < |list|
      ensures i in Kept(list, |list|) <==> !Repeats(list, i)
    {
      KeptIsExact(list, |list|, i);
    }
    if list != [] {
      KeptStartsWithFirst(list, |list|);
    }
  }

  lemma DistinctHasNoRepeats(list: seq<BenzeneError>, j: nat, k: nat)
    requires j < k < |Distinct(list)|
    ensures Key(Distinct(list)[j]) != Key(Distinct(list)[k])
  {
    DistinctKeepsFirstOccurrences(list);
    var kept := Kept(list, |list|);
    assert kept[k] in kept;
    assert kept[j] < kept[k];
  }

  method FormatValidationErrors(errors: Option<seq<ValidationError>>) returns (formatted: seq<BenzeneError>)
    ensures formatted == if errors.None? || errors.value == [] then [BenzeneError(Fallback, None, None)]
      else Distinct(Formatted(errors.value))
    ensures formatted != []
    ensures errors.None? || errors.value == [] ==>
      formatted == [BenzeneError("Request does not match the schema", None, None)]
  {
    if errors.None? || errors.value == [] {
      return [BenzeneError(Fallback, None, None)];
    }
    formatted := Deduplicate(Formatted(errors.value));
    DistinctKeepsFirstOccurrences(Formatted(errors.value));
    if formatted == [] {
      formatted := [BenzeneError(Fallback, None, None)];
    }
  }

  /** The loop over the errors, with the set of keys seen so far. */
  method Deduplicate(list: seq<BenzeneError>) returns (formatted: seq<BenzeneError>)
    ensures formatted == Distinct(list)
  {
    var seen: set<string> := {};
    formatted := [];
    for i := 0 to |list|
      invariant formatted == DistinctUpTo(list, i)
      invariant seen == KeysBefore(list, i)
    {
      var key := Key(list[i]);
      SeenExactlyWhenRepeats(list, i);
      if key !in seen {
        seen := seen + {key};
        formatted := formatted + [list[i]];
      }
    }
  }

  // ---------- how faithful the key is

  /** The part of the key before the message. */
  function KeyHead(field: Option<string>, code: Option<string>): string {
    TextOr(field) + " " + TextOr(code) + " "
  }

  /** The key of an error with neither starts with two spaces. */
  lemma KeyOfBareError(m: string)
    ensures Key(BenzeneError(m, None, None)) == "  " + m
  {
  }

  predicate SameKey(f1: Option<string>, c1: Option<string>, m1: string, f2: Option<string>, c2: Option<string>, m2: string) {
    Key(BenzeneError(m1, f1, c1)) == Key(BenzeneError(m2, f2, c2))
  }

  lemma SameKeyByHead(f1: Option<string>, c1: Option<string>, m1: string, f2: Option<string>, c2: Option<string>, m2: string)
    ensures SameKey(f1, c1, m1, f2, c2, m2) <==> KeyHead(f1, c1) + m1 == KeyHead(f2, c2) + m2
  {
    KeyByHead(f1, c1, m1);
    KeyByHead(f2, c2, m2);
  }

  lemma KeyByHead(f: Option<string>, c: Option<string>, m: string)
    ensures Key(BenzeneError(m, f, c)) == KeyHead(f, c) + m
  {
  }

  /**
   Two field and code pairs can share a key, for some messages, exactly when the head of one is a prefix of
   the head of the other. A pointer may contain spaces, so two different errors can be taken for one.
   */
  lemma KeysCollideExactlyWhen(f1: Option<string>, c1: Option<string>, f2: Option<string>, c2: Option<string>)
    ensures (exists m1, m2 :: SameKey(f1, c1, m1, f2, c2, m2))
      <==> KeyHead(f1, c1) <= KeyHead(f2, c2) || KeyHead(f2, c2) <= KeyHead(f1, c1)
  {
    var h1, h2 := KeyHead(f1, c1), KeyHead(f2, c2);
    if exists m1, m2 :: SameKey(f1, c1, m1, f2, c2, m2) {
      var m1, m2 :| SameKey(f1, c1, m1, f2, c2, m2);
      SameKeyByHead(f1, c1, m1, f2, c2, m2);
      PrefixesOfOneText(h1, m1, h2, m2);
    } else if h1 <= h2 {
      CompletesPrefix(h1, h2);
      SameKeyByHead(f1, c1, h2[|h1|..], f2, c2, "");
    } else if h2 <= h1 {
      CompletesPrefix(h2, h1);
      SameKeyByHead(f1, c1, "", f2, c2, h1[|h2|..]);
    }
  }

  lemma SameKeyIsDropped(a: BenzeneError, b: BenzeneError)
    requires Key(a) == Key(b)
    ensures Distinct([a, b]) == [a]
  {
    var list := [a, b];
    assert Key(list[0]) == Key(list[1]) && Repeats(list, 1) && !Repeats(list, 0);
    assert DistinctUpTo(list, 0) == [];
    assert DistinctUpTo(list, 1) == [a];
    assert DistinctUpTo(list, 2) == [a] + [];
  }

  function Failed(path: string, keyword: string, message: string): ValidationError {
    ValidationError(path, None, None, None, Some(keyword), Some(message))
  }

  lemma KeyOfFailed(path: string, keyword: string, message: string)
    requires path != "" && keyword != ""
    ensures Key(FormatError(Failed(path, keyword, message))) == path + (" " + keyword + " ") + message
  {
    assert FormatError(Failed(path, keyword, message)) == BenzeneError(message, Some(path), Some(keyword));
    assert path + " " + keyword + " " == path + (" " + keyword + " ");
  }

  /**
   An error whose message goes on with the keyword, and one at the path that the start of that message makes:
   both fail the same keyword, and they share a key.
   */
  lemma PathsAndMessagesMix(path: string, keyword: string, start: string, rest: string)
    requires path != "" && keyword != ""
    ensures var glue := " " + keyword + " ";
      Key(FormatError(Failed(path, keyword, start + glue + rest)))
      == Key(FormatError(Failed(path + glue + start, keyword, rest)))
  {
    var glue := " " + keyword + " ";
    KeyOfFailed(path, keyword, start + glue + rest);
    KeyOfFailed(path + glue + start, keyword, rest);
    GlueRegroups(path, glue, start, rest);
  }

  lemma GlueRegroups(path: string, glue: string, start: string, rest: string)
    ensures path + glue + (start + glue + rest) == path + glue + start + glue + rest
  {
  }

  /** Two members that fail their patterns: the list keeps only one of the two errors. */
  lemma DistinctErrorsCanCollapse() returns (a: ValidationError, b: ValidationError)
    ensures a.keyword == b.keyword == Some("pattern") && a.instancePath != b.instancePath
    ensures FormatError(a) != FormatError(b)
    ensures Distinct(Formatted([a, b])) == [FormatError(a)]
  {
    var path, keyword := "/a", "pattern";
    var start, rest := "must match pattern \"b", "must match pattern \"c\"";
    var glue := " " + keyword + " ";
    a := Failed(path, keyword, start + glue + rest);
    b := Failed(path + glue + start, keyword, rest);
    PathsAndMessagesMix(path, keyword, start, rest);
    assert |path| < |b.instancePath|;
    assert Formatted([a, b]) == [FormatError(a), FormatError(b)];
    SameKeyIsDropped(FormatError(a), FormatError(b));
  }

  lemma CompletesPrefix(a: string, b: string)
    requires a <= b
    ensures a + b[|a|..] == b == b + ""
  {
  }

  lemma PrefixesOfOneText(h1: string, m1: string, h2: string, m2: string)
    requires h1 + m1 == h2 + m2
    ensures h1 <= h2 || h2 <= h1
  {
    var text := h1 + m1;
    assert text[..|h1|] == h1 && text[..|h2|] == h2;
    if |h1| <= |h2| {
      assert h1 == h2[..|h1|];
    } else {
      assert h2 == h1[..|h2|];
    }
  }

  /** For pointers and codes without spaces the key determines the error. */
  lemma SpacelessKeysAreFaithful(a: BenzeneError, b: BenzeneError)
    requires a.field != Some("") && a.code != Some("") && b.field != Some("") && b.code != Some("")
    requires ' ' !in TextOr(a.field) && ' ' !in TextOr(a.code) && ' ' !in TextOr(b.field) && ' ' !in TextOr(b.code)
    ensures Key(a) == Key(b) <==> a == b
  {
    KeySplits(a);
    KeySplits(b);
  }

  lemma KeySplits(e: BenzeneError)
    requires ' ' !in TextOr(e.field) && ' ' !in TextOr(e.code)
    ensures Split(Key(e), " ", 3) == [TextOr(e.field), TextOr(e.code), e.message]
  {
    var parts := [TextOr(e.field), TextOr(e.code), e.message];
    assert parts[1..] == [TextOr(e.code), e.message] && parts[1..][1..] == [e.message];
    assert Join(parts[1..], " ") == TextOr(e.code) + " " + e.message;
    assert TextOr(e.field) + " " + (TextOr(e.code) + " " + e.message) == Key(e);
    SplitIsUnique(Key(e), ' ', 3, parts);
  }
}
