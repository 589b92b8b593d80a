/**
 DynamoDB AttributeValues and the plain values handlers see. The stream adapter unmarshals an image; the test
 helper marshals a message into one. A record is a sequence of entries with distinct names, in insertion
 order, and assigning to a name replaces its entry or appends one.
 */
module AttributeValues {
  import opened Options
  import opened Sequences

  datatype Entry<V> = Entry(name: string, value: V)

  /** `Numeral` keeps the text of a number that is not a decimal integer. */
  datatype Json =
    | Undefined
    | Null
    | Text(text: string)
    | Number(n: int)
    | Numeral(literal: string)
    | Boolean(b: bool)
    | List(items: seq<Json>)
    | Object(fields: seq<Entry<Json>>)

  /** An exclusive union over the descriptor keys; `Unknown` is a descriptor this code does not know. */
  datatype AttributeValue =
    | S(s: string)
    | B(base64: string)
    | N(numeral: string)
    | BOOL(b: bool)
    | NULL
    | M(attributes: seq<Entry<AttributeValue>>)
    | L(elements: seq<AttributeValue>)
    | SS(strings: seq<string>)
    | BS(binaries: seq<string>)
    | NS(numerals: seq<string>)
    | Unknown(raw: Json)
    | NoDescriptor

  // ---------- decimal integers

  function Digit(d: nat): char
    requires d < 10
  {
    "0123456789"[d]
  }

  function DigitValue(c: char): Option<nat> {
    if '0' <= c <= '9' then Some(c as int - '0' as int) else None
  }

  function PrintNat(n: nat): (s: string)
    ensures s != []
    decreases n
  {
    if n < 10 then [Digit(n)] else PrintNat(n / 10) + [Digit(n % 10)]
  }

  function ParseNat(s: string): Option<nat>
    decreases |s|
  {
    if s == [] then None
    else
      var last := DigitValue(s[|s| - 1]);
      var init := s[..|s| - 1];
      if last.None? then None
      else if init == [] then last
      else match ParseNat(init)
        case None => None
        case Some(v) => Some(10 * v + last.value)
  }

  function PrintInt(n: int): string {
    if n < 0 then "-" + PrintNat(-n) else PrintNat(n)
  }

  function ParseNumber(s: string): Json {
    if s != [] && s[0] == '-' then
      match ParseNat(s[1..])
      case Some(v) => var magnitude: int := v; Number(-magnitude)
      case None => Numeral(s)
    else
      match ParseNat(s)
      case Some(v) => Number(v)
      case None => Numeral(s)
  }

  lemma {:induction false} NatRoundTrip(n: nat)
    ensures ParseNat(PrintNat(n)) == Some(n)
    ensures PrintNat(n)[0] != '-'
    decreases n
  {
    var s := PrintNat(n);
    if n < 10 {
      assert s[..|s| - 1] == [];
    } else {
      NatRoundTrip(n / 10);
      assert s[..|s| - 1] == PrintNat(n / 10);
    }
  }

  /** The printed form is the plain one: a sign only below zero, and no zero in front of another digit. */
  lemma {:induction false} PrintNatIsPlain(n: nat)
    ensures forall i | 0 <= i < |PrintNat(n)| :: '0' <= PrintNat(n)[i] <= '9'
    ensures PrintNat(n)[0] == '0' <==> n == 0
    ensures n == 0 ==> |PrintNat(n)| == 1
    decreases n
  {
    if n >= 10 {
      PrintNatIsPlain(n / 10);
    }
  }

  /** And it is decimal: a digit stands for its own value, and the rest before it for tens. */
  lemma PrintNatIsDecimal(n: nat)
    ensures n < 10 ==> PrintNat(n) == [('0' as int + n) as char]
    ensures n >= 10 ==> PrintNat(n) == PrintNat(n / 10) + PrintNat(n % 10)
  {
    assert forall d: nat | d < 10 :: Digit(d) == ('0' as int + d) as char;
  }

  lemma PrintIntIsPlain(n: int)
    ensures n >= 0 ==> PrintInt(n) == PrintNat(n) && '-' !in PrintInt(n)
    ensures n < 0 ==> PrintInt(n) == "-" + PrintNat(-n)
    ensures PrintInt(0) == "0"
  {
    PrintNatIsPlain(if n < 0 then -n else n);
  }

  /** Printing an integer and parsing it back gives the integer. */
  lemma IntRoundTrip(n: int)
    ensures ParseNumber(PrintInt(n)) == Number(n)
  {
    var magnitude: nat := if n < 0 then -n else n;
    var digits := PrintNat(magnitude);
    NatRoundTrip(magnitude);
    if n < 0 {
      assert PrintInt(n) == "-" + digits;
      assert ("-" + digits)[0] == '-' && ("-" + digits)[1..] == digits;
    }
  }

  // ---------- marshalling and unmarshalling, as functions

  function Marshal(v: Json): AttributeValue
    decreases v, 1
  {
    match v
    case Undefined => S("undefined")
    case Null => NULL
    case Text(text) => S(text)
    case Number(n) => N(PrintInt(n))
    case Numeral(literal) => N(literal)
    case Boolean(b) => BOOL(b)
    case List(items) => L(MarshalItems(items))
    case Object(fields) => M(MarshalFields(fields))
  }

  function MarshalItems(items: seq<Json>): seq<AttributeValue>
    decreases items, 0
  {
    if items == [] then [] else [Marshal(items[0])] + MarshalItems(items[1..])
  }

  function MarshalFields(fields: seq<Entry<Json>>): seq<Entry<AttributeValue>>
    decreases fields, 0
  {
    if fields == [] then []
    else
      (if fields[0].value.Undefined? then [] else [Entry(fields[0].name, Marshal(fields[0].value))])
      + MarshalFields(fields[1..])
  }

  function Texts(strings: seq<string>): (items: seq<Json>)
    ensures |items| == |strings|
    ensures forall i | 0 <= i < |strings| :: items[i] == Text(strings[i])
  {
    seq(|strings|, i requires 0 <= i < |strings| => Text(strings[i]))
  }

  function Numbers(numerals: seq<string>): (items: seq<Json>)
    ensures |items| == |numerals|
    ensures forall i | 0 <= i < |numerals| :: items[i] == ParseNumber(numerals[i])
  {
    seq(|numerals|, i requires 0 <= i < |numerals| => ParseNumber(numerals[i]))
  }

  function Unmarshal(a: AttributeValue): Json
    decreases a, 1
  {
    match a
    case S(s) => Text(s)
    case B(base64) => Text(base64)
    case N(numeral) => ParseNumber(numeral)
    case BOOL(b) => Boolean(b)
    case NULL => Null
    case M(attributes) => Object(UnmarshalMap(attributes))
    case L(elements) => List(UnmarshalItems(elements))
    case SS(strings) => List(Texts(strings))
    case BS(binaries) => List(Texts(binaries))
    case NS(numerals) => List(Numbers(numerals))
    case Unknown(raw) => raw
    case NoDescriptor => Null
  }

  function UnmarshalItems(elements: seq<AttributeValue>): seq<Json>
    decreases elements, 0
  {
    if elements == [] then [] else [Unmarshal(elements[0])] + UnmarshalItems(elements[1..])
  }

  function UnmarshalMap(attributes: seq<Entry<AttributeValue>>): seq<Entry<Json>>
    decreases attributes, 0
  {
    if attributes == [] then []
    else [Entry(attributes[0].name, Unmarshal(attributes[0].value))] + UnmarshalMap(attributes[1..])
  }

  // ---------- the round trip

  /** What a message means on the wire: keys without a value are dropped, at every depth. */
  function Normalize(v: Json): Json
    decreases v, 1
  {
    match v
    case Undefined => Text("undefined")
    case List(items) => List(NormalizeItems(items))
    case Object(fields) => Object(NormalizeFields(fields))
    case _ => v
  }

  function NormalizeItems(items: seq<Json>): (r: seq<Json>)
    ensures |r| == |items|
    decreases items, 0
  {
    if items == [] then [] else [Normalize(items[0])] + NormalizeItems(items[1..])
  }

  function NormalizeFields(fields: seq<Entry<Json>>): (r: seq<Entry<Json>>)
    ensures |r| <= |fields|
    decreases fields, 0
  {
    if fields == [] then []
    else
      (if fields[0].value.Undefined? then [] else [Entry(fields[0].name, Normalize(fields[0].value))])
      + NormalizeFields(fields[1..])
  }

  /** No numeral in the value is really a decimal integer. */
  predicate Canonical(v: Json)
    decreases v, 1
  {
    match v
    case Numeral(literal) => ParseNumber(literal) == v
    case List(items) => CanonicalItems(items)
    case Object(fields) => CanonicalFields(fields)
    case _ => true
  }

  predicate CanonicalItems(items: seq<Json>)
    decreases items, 0
  {
    items == [] || (Canonical(items[0]) && CanonicalItems(items[1..]))
  }

  predicate CanonicalFields(fields: seq<Entry<Json>>)
    decreases fields, 0
  {
    fields == [] || (Canonical(fields[0].value) && CanonicalFields(fields[1..]))
  }

  /** No value, at any depth, is missing. */
  predicate Defined(v: Json)
    decreases v, 1
  {
    match v
    case Undefined => false
    case List(items) => DefinedItems(items)
    case Object(fields) => DefinedFields(fields)
    case _ => true
  }

  predicate DefinedItems(items: seq<Json>)
    decreases items, 0
  {
    items == [] || (Defined(items[0]) && DefinedItems(items[1..]))
  }

  predicate DefinedFields(fields: seq<Entry<Json>>)
    decreases fields, 0
  {
    fields == [] || (Defined(fields[0].value) && DefinedFields(fields[1..]))
  }

  /** Unmarshalling a marshalled value gives its normal form, however deep it nests. */
  lemma {:induction false} RoundTrip(v: Json)
    requires Canonical(v)
    ensures Unmarshal(Marshal(v)) == Normalize(v)
    decreases v, 1
  {
    match v
    case Number(n) => IntRoundTrip(n);
    case List(items) => RoundTripItems(items);
    case Object(fields) => RoundTripFields(fields);
    case _ =>
  }

  lemma {:induction false} RoundTripItems(items: seq<Json>)
    requires CanonicalItems(items)
    ensures UnmarshalItems(MarshalItems(items)) == NormalizeItems(items)
    decreases items, 0
  {
    if items != [] {
      RoundTrip(items[0]);
      RoundTripItems(items[1..]);
      assert MarshalItems(items)[1..] == MarshalItems(items[1..]);
    }
  }

  lemma {:induction false} RoundTripFields(fields: seq<Entry<Json>>)
    requires CanonicalFields(fields)
    ensures UnmarshalMap(MarshalFields(fields)) == NormalizeFields(fields)
    decreases fields, 0
  {
    if fields != [] {
      RoundTripFields(fields[1..]);
      if !fields[0].value.Undefined? {
        RoundTrip(fields[0].value);
        assert MarshalFields(fields)[0] == Entry(fields[0].name, Marshal(fields[0].value));
        assert MarshalFields(fields)[1..] == MarshalFields(fields[1..]);
      } else {
        assert MarshalFields(fields) == MarshalFields(fields[1..]);
        assert NormalizeFields(fields) == NormalizeFields(fields[1..]);
      }
    }
  }

  lemma {:induction false} NormalExactlyWhenDefined(v: Json)
    ensures Normalize(v) == v <==> Defined(v)
    decreases v, 1
  {
    match v
    case List(items) => NormalItems(items);
    case Object(fields) => NormalFields(fields);
    case _ =>
  }

  lemma {:induction false} NormalItems(items: seq<Json>)
    ensures NormalizeItems(items) == items <==> DefinedItems(items)
    decreases items, 0
  {
    if items != [] {
      NormalExactlyWhenDefined(items[0]);
      NormalItems(items[1..]);
      assert items == [items[0]] + items[1..];
      assert NormalizeItems(items)[1..] == NormalizeItems(items[1..]);
    }
  }

  lemma {:induction false} NormalFields(fields: seq<Entry<Json>>)
    ensures NormalizeFields(fields) == fields <==> DefinedFields(fields)
    decreases fields, 0
  {
    if fields != [] {
      NormalExactlyWhenDefined(fields[0].value);
      NormalFields(fields[1..]);
      assert fields == [fields[0]] + fields[1..];
      if !fields[0].value.Undefined? {
        assert NormalizeFields(fields)[0] == Entry(fields[0].name, Normalize(fields[0].value));
        assert NormalizeFields(fields)[1..] == NormalizeFields(fields[1..]);
      }
    }
  }

  /** The round trip gives the value itself back exactly when nothing in it is undefined. */
  lemma ExactRoundTripExactlyWhen(v: Json)
    requires Canonical(v)
    ensures Unmarshal(Marshal(v)) == v <==> Defined(v)
  {
    RoundTrip(v);
    NormalExactlyWhenDefined(v);
  }

  // ---------- what each descriptor means

  /** Marshalling writes one descriptor per kind of value, and text never as binary. */
  lemma KindsAreKept(v: Json)
    ensures Marshal(v).NULL? <==> v.Null?
    ensures Marshal(v).S? <==> v.Text? || v.Undefined?
    ensures Marshal(v).N? <==> v.Number? || v.Numeral?
    ensures Marshal(v).BOOL? <==> v.Boolean?
    ensures Marshal(v).L? <==> v.List?
    ensures Marshal(v).M? <==> v.Object?
  {
  }

  function Each(strings: seq<string>, wrap: string -> AttributeValue): (elements: seq<AttributeValue>)
    ensures |elements| == |strings|
    ensures forall i | 0 <= i < |strings| :: elements[i] == wrap(strings[i])
  {
    seq(|strings|, i requires 0 <= i < |strings| => wrap(strings[i]))
  }

  lemma {:induction false} ItemsAreElements(elements: seq<AttributeValue>, i: nat)
    requires i < |elements|
    ensures |UnmarshalItems(elements)| == |elements|
    ensures UnmarshalItems(elements)[i] == Unmarshal(elements[i])
    decreases elements
  {
    if |elements| > 1 {
      ItemsAreElements(elements[1..], if i == 0 then 0 else i - 1);
    }
  }

  lemma ListOf(elements: seq<AttributeValue>, items: seq<Json>)
    requires |items| == |elements| && forall i | 0 <= i < |items| :: items[i] == Unmarshal(elements[i])
    ensures Unmarshal(L(elements)) == List(items)
  {
    forall i | 0 <= i < |items|
      ensures |UnmarshalItems(elements)| == |elements| && UnmarshalItems(elements)[i] == items[i]
    {
      ItemsAreElements(elements, i);
    }
    assert UnmarshalItems(elements) == items;
  }

  /** A set reads as the list of its elements would. */
  lemma SetsReadAsLists(strings: seq<string>)
    ensures Unmarshal(SS(strings)) == Unmarshal(L(Each(strings, s => S(s))))
    ensures Unmarshal(BS(strings)) == Unmarshal(L(Each(strings, s => B(s))))
    ensures Unmarshal(NS(strings)) == Unmarshal(L(Each(strings, s => N(s))))
  {
    ListOf(Each(strings, s => S(s)), Texts(strings));
    ListOf(Each(strings, s => B(s)), Texts(strings));
    ListOf(Each(strings, s => N(s)), Numbers(strings));
  }

  /** The printed form of some integers, as a number set carries them. */
  function Printed(ns: seq<int>): (numerals: seq<string>)
    ensures |numerals| == |ns|
    ensures forall i | 0 <= i < |ns| :: numerals[i] == PrintInt(ns[i])
  {
    seq(|ns|, i requires 0 <= i < |ns| => PrintInt(ns[i]))
  }

  /** A number set gives its integers, in order and without loss. */
  lemma NumberSetGivesIntegers(ns: seq<int>)
    ensures var v := Unmarshal(NS(Printed(ns)));
      v.List? && |v.items| == |ns| && forall i | 0 <= i < |ns| :: v.items[i] == Number(ns[i])
  {
    forall i | 0 <= i < |ns|
      ensures ParseNumber(Printed(ns)[i]) == Number(ns[i])
    {
      IntRoundTrip(ns[i]);
    }
  }

  /** Binary reads as its text, an unknown descriptor as whatever it holds, and none at all as null. */
  lemma OtherDescriptors(t: string, raw: Json, b: bool)
    ensures Unmarshal(B(t)) == Unmarshal(S(t)) == Text(t)
    ensures Unmarshal(Unknown(raw)) == raw
    ensures Unmarshal(NoDescriptor) == Unmarshal(NULL) == Null
    ensures Unmarshal(BOOL(b)) == Boolean(b)
  {
  }

  // ---------- the other way round

  /** Raw values under unknown descriptors are plain JSON. */
  predicate Plain(a: AttributeValue)
    decreases a, 1
  {
    match a
    case Unknown(raw) => Defined(raw) && Canonical(raw)
    case L(elements) => PlainItems(elements)
    case M(attributes) => PlainMap(attributes)
    case _ => true
  }

  predicate PlainItems(elements: seq<AttributeValue>)
    decreases elements, 0
  {
    elements == [] || (Plain(elements[0]) && PlainItems(elements[1..]))
  }

  predicate PlainMap(attributes: seq<Entry<AttributeValue>>)
    decreases attributes, 0
  {
    attributes == [] || (Plain(attributes[0].value) && PlainMap(attributes[1..]))
  }

  lemma {:induction false} FlatListsAreDefined(items: seq<Json>)
    requires forall i | 0 <= i < |items| :: Defined(items[i]) && Canonical(items[i])
    ensures DefinedItems(items) && CanonicalItems(items)
    decreases items
  {
    if items != [] {
      FlatListsAreDefined(items[1..]);
    }
  }

  predicate Digits(s: string) {
    s != "" && forall i | 0 <= i < |s| :: '0' <= s[i] <= '9'
  }

  lemma {:induction false} ParsesExactlyDigits(s: string)
    ensures ParseNat(s).Some? <==> Digits(s)
    decreases |s|
  {
    if s != "" {
      var init := s[..|s| - 1];
      ParsesExactlyDigits(init);
      assert s == init + [s[|s| - 1]];
    }
  }

  /** A decimal integer reads as a number, and any other numeral keeps its text. */
  lemma NumeralsExactly(s: string)
    ensures ParseNumber(s).Number? <==> Digits(s) || (s != "" && s[0] == '-' && Digits(s[1..]))
    ensures !ParseNumber(s).Number? ==> ParseNumber(s) == Numeral(s)
  {
    ParsesExactlyDigits(s);
    if s != "" {
      ParsesExactlyDigits(s[1..]);
    }
  }

  lemma ParsedNumbersAreCanonical(s: string)
    ensures Defined(ParseNumber(s)) && Canonical(ParseNumber(s))
  {
  }

  lemma {:induction false} UnmarshalledIsDefined(a: AttributeValue)
    requires Plain(a)
    ensures Defined(Unmarshal(a)) && Canonical(Unmarshal(a))
    decreases a, 1
  {
    match a
    case N(numeral) => ParsedNumbersAreCanonical(numeral);
    case L(elements) => UnmarshalledItems(elements);
    case M(attributes) => UnmarshalledMap(attributes);
    case SS(strings) => FlatListsAreDefined(Texts(strings));
    case BS(binaries) => FlatListsAreDefined(Texts(binaries));
    case NS(numerals) =>
      forall i | 0 <= i < |numerals|
        ensures Defined(Numbers(numerals)[i]) && Canonical(Numbers(numerals)[i])
      {
        ParsedNumbersAreCanonical(numerals[i]);
      }
      FlatListsAreDefined(Numbers(numerals));
    case _ =>
  }

  lemma {:induction false} UnmarshalledItems(elements: seq<AttributeValue>)
    requires PlainItems(elements)
    ensures DefinedItems(UnmarshalItems(elements)) && CanonicalItems(UnmarshalItems(elements))
    decreases elements, 0
  {
    if elements != [] {
      UnmarshalledIsDefined(elements[0]);
      UnmarshalledItems(elements[1..]);
      assert UnmarshalItems(elements)[1..] == UnmarshalItems(elements[1..]);
    }
  }

  lemma {:induction false} UnmarshalledMap(attributes: seq<Entry<AttributeValue>>)
    requires PlainMap(attributes)
    ensures DefinedFields(UnmarshalMap(attributes)) && CanonicalFields(UnmarshalMap(attributes))
    decreases attributes, 0
  {
    if attributes != [] {
      UnmarshalledIsDefined(attributes[0].value);
      UnmarshalledMap(attributes[1..]);
      assert UnmarshalMap(attributes)[1..] == UnmarshalMap(attributes[1..]);
    }
  }

  /**
   Whatever an image holds, sets and unknown descriptors included, a handler that is sent back what it saw
   sees it again.
   */
  lemma RemarshallingIsStable(a: AttributeValue)
    requires Plain(a)
    ensures Unmarshal(Marshal(Unmarshal(a))) == Unmarshal(a)
  {
    UnmarshalledIsDefined(a);
    ExactRoundTripExactlyWhen(Unmarshal(a));
  }

  // ---------- the code: records filled by assignment

  predicate DistinctNames<V>(entries: seq<Entry<V>>) {
    forall i, j | 0 <= i < j < |entries| :: entries[i].name != entries[j].name
  }

  /** Assignment to a record: replaces the value of an entry with this name, or appends one. */
  function Put<V>(entries: seq<Entry<V>>, name: string, value: V): seq<Entry<V>>
    decreases entries
  {
    if entries == [] then [Entry(name, value)]
    else if entries[0].name == name then [Entry(name, value)] + entries[1..]
    else [entries[0]] + Put(entries[1..], name, value)
  }

  lemma {:induction false} PutAppends<V>(entries: seq<Entry<V>>, name: string, value: V)
    requires forall i | 0 <= i < |entries| :: entries[i].name != name
    ensures Put(entries, name, value) == entries + [Entry(name, value)]
    decreases entries
  {
    if entries != [] {
      PutAppends(entries[1..], name, value);
    }
  }

  /** Assigning to a name that is there replaces its value in place and nothing else. */
  lemma {:induction false} PutReplaces<V>(entries: seq<Entry<V>>, name: string, value: V, i: nat)
    requires DistinctNames(entries) && i < |entries| && entries[i].name == name
    ensures Put(entries, name, value) == entries[i := Entry(name, value)]
    decreases entries
  {
    if i > 0 {
      PutReplaces(entries[1..], name, value, i - 1);
    }
  }

  /** The value is an actual object graph: no record repeats a name. */
  predicate Records(v: Json)
    decreases v, 1
  {
    match v
    case List(items) => RecordItems(items)
    case Object(fields) => DistinctNames(fields) && RecordFields(fields)
    case _ => true
  }

  predicate RecordItems(items: seq<Json>)
    decreases items, 0
  {
    forall i | 0 <= i < |items| :: Records(items[i])
  }

  predicate RecordFields(fields: seq<Entry<Json>>)
    decreases fields, 0
  {
    forall i | 0 <= i < |fields| :: Records(fields[i].value)
  }

  lemma {:induction false} MarshalFieldsSplits(a: seq<Entry<Json>>, b: seq<Entry<Json>>)
    ensures MarshalFields(a + b) == MarshalFields(a) + MarshalFields(b)
    decreases a
  {
    if a == [] {
      assert a + b == b;
    } else {
      MarshalFieldsSplits(a[1..], b);
      assert (a + b)[0] == a[0] && (a + b)[1..] == a[1..] + b;
      var head := if a[0].value.Undefined? then [] else [Entry(a[0].name, Marshal(a[0].value))];
      Regroup(head, MarshalFields(a[1..]), MarshalFields(b));
    }
  }

  lemma {:induction false} MarshalItemsSplits(a: seq<Json>, b: seq<Json>)
    ensures MarshalItems(a + b) == MarshalItems(a) + MarshalItems(b)
    decreases a
  {
    if a == [] {
      assert a + b == b;
    } else {
      MarshalItemsSplits(a[1..], b);
      assert (a + b)[0] == a[0] && (a + b)[1..] == a[1..] + b;
      Regroup([Marshal(a[0])], MarshalItems(a[1..]), MarshalItems(b));
    }
  }

  lemma {:induction false} MarshalFieldsKeepsNames(fields: seq<Entry<Json>>, name: string)
    requires forall i | 0 <= i < |fields| :: fields[i].name != name
    ensures forall i | 0 <= i < |MarshalFields(fields)| :: MarshalFields(fields)[i].name != name
    decreases fields
  {
    if fields != [] {
      MarshalFieldsKeepsNames(fields[1..], name);
    }
  }

  method MarshalMap(source: seq<Entry<Json>>) returns (attributes: seq<Entry<AttributeValue>>)
    requires DistinctNames(source) && RecordFields(source)
    ensures attributes == MarshalFields(source)
    decreases source, 0
  {
    attributes := [];
    for i := 0 to |source|
      invariant attributes == MarshalFields(source[..i])
    {
      MarshalFieldsSplits(source[..i], [source[i]]);
      assert source[..i + 1] == source[..i] + [source[i]];
      if !source[i].value.Undefined? {
        var value := MarshalValue(source[i].value);
        MarshalFieldsKeepsNames(source[..i], source[i].name);
        PutAppends(attributes, source[i].name, value);
        attributes := Put(attributes, source[i].name, value);
      }
    }
    assert source[..|source|] == source;
  }

  method MarshalValue(value: Json) returns (a: AttributeValue)
    requires Records(value)
    ensures a == Marshal(value)
    decreases value, 1
  {
    match value
    case Undefined => a := S("undefined");
    case Null => a := NULL;
    case Text(text) => a := S(text);
    case Number(n) => a := N(PrintInt(n));
    case Numeral(literal) => a := N(literal);
    case Boolean(b) => a := BOOL(b);
    case List(items) =>
      var elements := [];
      for i := 0 to |items|
        invariant elements == MarshalItems(items[..i])
      {
        var element := MarshalValue(items[i]);
        MarshalItemsSplits(items[..i], [items[i]]);
        assert items[..i + 1] == items[..i] + [items[i]];
        elements := elements + [element];
      }
      assert items[..|items|] == items;
      a := L(elements);
    case Object(fields) =>
      var attributes := MarshalMap(fields);
      a := M(attributes);
  }

  predicate Image(a: AttributeValue)
    decreases a, 1
  {
    match a
    case L(elements) => ImageItems(elements)
    case M(attributes) => DistinctNames(attributes) && ImageMap(attributes)
    case _ => true
  }

  predicate ImageItems(elements: seq<AttributeValue>)
    decreases elements, 0
  {
    forall i | 0 <= i < |elements| :: Image(elements[i])
  }

  predicate ImageMap(attributes: seq<Entry<AttributeValue>>)
    decreases attributes, 0
  {
    forall i | 0 <= i < |attributes| :: Image(attributes[i].value)
  }

  lemma {:induction false} UnmarshalMapSplits(a: seq<Entry<AttributeValue>>, b: seq<Entry<AttributeValue>>)
    ensures UnmarshalMap(a + b) == UnmarshalMap(a) + UnmarshalMap(b)
    decreases a
  {
    if a == [] {
      assert a + b == b;
    } else {
      UnmarshalMapSplits(a[1..], b);
      assert (a + b)[0] == a[0] && (a + b)[1..] == a[1..] + b;
      Regroup([Entry(a[0].name, Unmarshal(a[0].value))], UnmarshalMap(a[1..]), UnmarshalMap(b));
    }
  }

  lemma {:induction false} UnmarshalItemsSplits(a: seq<AttributeValue>, b: seq<AttributeValue>)
    ensures UnmarshalItems(a + b) == UnmarshalItems(a) + UnmarshalItems(b)
    decreases a
  {
    if a == [] {
      assert a + b == b;
    } else {
      UnmarshalItemsSplits(a[1..], b);
      assert (a + b)[0] == a[0] && (a + b)[1..] == a[1..] + b;
      Regroup([Unmarshal(a[0])], UnmarshalItems(a[1..]), UnmarshalItems(b));
    }
  }

  lemma {:induction false} UnmarshalMapKeepsNames(attributes: seq<Entry<AttributeValue>>, i: nat)
    requires i < |attributes|
    ensures |UnmarshalMap(attributes)| == |attributes|
    ensures UnmarshalMap(attributes)[i].name == attributes[i].name
    decreases attributes
  {
    if |attributes| > 1 {
      UnmarshalMapKeepsNames(attributes[1..], if i == 0 then 0 else i - 1);
    }
  }

  method ToObject(attributes: seq<Entry<AttributeValue>>) returns (result: seq<Entry<Json>>)
    requires DistinctNames(attributes) && ImageMap(attributes)
    ensures result == UnmarshalMap(attributes)
    decreases attributes, 0
  {
    result := [];
    for i := 0 to |attributes|
      invariant result == UnmarshalMap(attributes[..i])
    {
      var value := ConvertValue(attributes[i].value);
      UnmarshalMapSplits(attributes[..i], [attributes[i]]);
      assert attributes[..i + 1] == attributes[..i] + [attributes[i]];
      forall j | 0 <= j < |result|
        ensures result[j].name != attributes[i].name
      {
        assert i > 0;
        UnmarshalMapKeepsNames(attributes[..i], 0);
        UnmarshalMapKeepsNames(attributes[..i], j);
      }
      PutAppends(result, attributes[i].name, value);
      result := Put(result, attributes[i].name, value);
    }
    assert attributes[..|attributes|] == attributes;
  }

  method ConvertValue(a: AttributeValue) returns (value: Json)
    requires Image(a)
    ensures value == Unmarshal(a)
    decreases a, 1
  {
    match a
    case S(s) => value := Text(s);
    case B(base64) => value := Text(base64);
    case N(numeral) => value := ParseNumber(numeral);
    case BOOL(b) => value := Boolean(b);
    case NULL => value := Null;
    case M(attributes) =>
      var fields := ToObject(attributes);
      value := Object(fields);
    case L(elements) =>
      var items := [];
      for i := 0 to |elements|
        invariant items == UnmarshalItems(elements[..i])
      {
        var item := ConvertValue(elements[i]);
        UnmarshalItemsSplits(elements[..i], [elements[i]]);
        assert elements[..i + 1] == elements[..i] + [elements[i]];
        items := items + [item];
      }
      assert elements[..|elements|] == elements;
      value := List(items);
    case SS(strings) => value := List(Texts(strings));
    case BS(binaries) => value := List(Texts(binaries));
    case NS(numerals) => value := List(Numbers(numerals));
    case Unknown(raw) => value := raw;
    case NoDescriptor => value := Null;
  }
}
