/**
 How a stream record's topic and body are read, and how the test helper builds a record that reads back: the
 table name inside a stream ARN, topics of the form `table:event`, and the image a body comes from.
 */
module StreamTopics {
  import opened Options
  import opened AttributeValues
  import opened BoundedSplit

  // ---------- reading a record

  datatype StreamData = StreamData(
    newImage: Option<seq<Entry<AttributeValue>>>,
    oldImage: Option<seq<Entry<AttributeValue>>>,
    keys: Option<seq<Entry<AttributeValue>>>)

  datatype Record = Record(eventName: string, eventSourceArn: Option<string>, dynamodb: Option<StreamData>)

  function GetTableName(eventSourceArn: Option<string>): Option<string> {
    if eventSourceArn.None? || eventSourceArn.value == "" then None
    else
      var arnParts := Split(eventSourceArn.value, ":", 6);
      if |arnParts| < 6 then None
      else
        var resourceParts := SplitAll(arnParts[5], "/");
        if |resourceParts| < 2 || resourceParts[0] != "table" then None else Some(resourceParts[1])
  }

  function GetTopic(r: Record): string {
    match GetTableName(r.eventSourceArn)
    case Some(table) => table + ":" + r.eventName
    case None => r.eventName
  }

  /** The plain body: the new image, else the old one, else the keys. */
  function GetBody(r: Record): Option<Json> {
    if r.dynamodb.None? then None
    else
      var data := r.dynamodb.value;
      var image := if data.newImage.Some? then data.newImage
                   else if data.oldImage.Some? then data.oldImage else data.keys;
      if image.Some? then Some(Object(UnmarshalMap(image.value))) else None
  }

  // ---------- building a record

  const ArnFields := ["arn", "aws", "dynamodb", "eu-west-1", "123456789012"]
  const StreamLabel := "stream/2026-01-01T00:00:00.000"

  function StreamResource(table: string): string {
    "table" + "/" + (table + "/" + StreamLabel)
  }

  function TableArn(table: string): string {
    Join(ArnFields + [StreamResource(table)], ":")
  }

  function TableAndEvent(topic: string): (string, string) {
    var parts := SplitAll(if topic == "" then "benzene-test" else topic, ":");
    (parts[0], if |parts| > 1 then parts[1] else "INSERT")
  }

  /** The stream event a message builder with this topic and message gives. */
  function AsDynamoDb(topic: string, message: Option<seq<Entry<Json>>>, numberOfRecords: nat): (records: seq<Record>)
    ensures |records| == numberOfRecords
    ensures forall r | r in records ::
      var (table, event) := TableAndEvent(topic);
      && r.eventName == event && r.eventSourceArn == Some(TableArn(table)) && r.dynamodb.Some?
      && (event == "REMOVE" <==> r.dynamodb.value.newImage.None?)
      && (event == "REMOVE" <==> r.dynamodb.value.oldImage.Some?)
      && r.dynamodb.value.keys.None?
  {
    var (table, event) := TableAndEvent(topic);
    var image := MarshalFields(if message.Some? then message.value else []);
    var data := if event == "REMOVE" then StreamData(None, Some(image), None) else StreamData(Some(image), None, None);
    seq(numberOfRecords, _ => Record(event, Some(TableArn(table)), Some(data)))
  }

  // ---------- the round trip

  /** The ARN's first five fields hold no further colon, so the sixth keeps the stream's own. */
  lemma ArnSplits(resource: string)
    ensures Split(Join(ArnFields + [resource], ":"), ":", 6) == ArnFields + [resource]
  {
    SplitIsUnique(Join(ArnFields + [resource], ":"), ':', 6, ArnFields + [resource]);
  }

  /** What comes before the first slash. */
  function Head(table: string): string {
    SplitAll(table, "/")[0]
  }

  lemma HeadIsPrefix(table: string)
    ensures Head(table) <= table && '/' !in Head(table)
    ensures '/' !in table ==> Head(table) == table
    ensures Head(table) == table || (|Head(table)| < |table| && table[|Head(table)|] == '/')
  {
    var first := IndexFrom(table, "/", 0);
    if first.Some? {
      var i := first.value;
      assert Head(table) == table[..i];
      assert table[i..i + 1] == "/" && table[i..i + 1][0] == table[i];
      forall j | 0 <= j < i
        ensures table[j] != '/'
      {
        assert !OccursAt(table, "/", j);
        assert table[j..j + 1] == [table[j]];
      }
    } else {
      forall j | 0 <= j < |table|
        ensures table[j] != '/'
      {
        assert !OccursAt(table, "/", j);
        assert table[j..j + 1] == [table[j]];
      }
    }
  }

  lemma SecondPart(a: string, c: char, b: string, rest: string, limit: int)
    requires c !in a && c !in b && limit > 2
    ensures Split(a + [c] + (b + [c] + rest), [c], limit) == [a, b] + Split(rest, [c], limit - 2)
  {
    SplitAtFirst(a, c, b + [c] + rest, limit);
    SplitAtFirst(b, c, rest, limit - 1);
  }

  lemma CutAtHead(table: string, time: string) returns (rest: string)
    ensures table + "/" + time == Head(table) + "/" + rest
  {
    HeadIsPrefix(table);
    var h := Head(table);
    if h == table {
      rest := time;
    } else {
      rest := table[|h| + 1..] + "/" + time;
      assert table == h + "/" + table[|h| + 1..];
      assert table + "/" + time == h + "/" + table[|h| + 1..] + "/" + time;
    }
  }

  lemma SecondOf(table: string, time: string, limit: int)
    requires limit > 2
    ensures var parts := Split("table" + "/" + (table + "/" + time), "/", limit);
      |parts| >= 2 && parts[0] == "table" && parts[1] == Head(table)
  {
    HeadIsPrefix(table);
    var rest := CutAtHead(table, time);
    SecondPart("table", '/', Head(table), rest, limit);
  }

  lemma ResourceSplits(table: string)
    ensures var parts := SplitAll(StreamResource(table), "/");
      |parts| >= 2 && parts[0] == "table" && parts[1] == Head(table)
  {
    SecondOf(table, StreamLabel, |StreamResource(table)| + 2);
  }

  /** The table name comes back whatever it is, except that a slash ends it. */
  lemma TableNameRoundTrip(table: string)
    ensures GetTableName(Some(TableArn(table))) == Some(Head(table))
  {
    var resource := StreamResource(table);
    ArnSplits(resource);
    ResourceSplits(table);
    JoinRestores(TableArn(table), ":", 6);
    assert (ArnFields + [resource])[5] == resource;
    assert |Split("", ":", 6)| == 1;
  }

  /** The resource is `table/name`, and may go on after another slash. */
  predicate IsTable(resource: string, table: string, more: string) {
    && '/' !in table && (more == "" || more[0] == '/')
    && resource == "table" + "/" + (table + more)
  }

  /** The ARN is five fields without a colon, and a resource that may hold some. */
  predicate HasFields(arn: string, fields: seq<string>) {
    |fields| == 6 && (forall i | 0 <= i < 5 :: ':' !in fields[i]) && Join(fields, ":") == arn
  }

  lemma SixFields(arn: string)
    requires |Split(arn, ":", 6)| >= 6
    ensures HasFields(arn, Split(arn, ":", 6))
  {
    var parts := Split(arn, ":", 6);
    JoinRestores(arn, ":", 6);
    OnlyLimitPartMayContain(arn, ":", 6);
    forall i | 0 <= i < 5
      ensures ':' !in parts[i]
    {
      CharOccurs(parts[i], ':');
    }
  }

  lemma ResourceGoesOn(resource: string, table: string) returns (more: string)
    requires var parts := SplitAll(resource, "/"); |parts| >= 2 && parts[0] == "table" && parts[1] == table
    ensures IsTable(resource, table, more)
  {
    var parts := SplitAll(resource, "/");
    SplitAllIsClean(resource, '/');
    if |parts| == 2 {
      more := "";
      assert parts[1..] == [table] && table + "" == table;
    } else {
      var rest := Join(parts[2..], "/");
      more := "/" + rest;
      assert parts[1..][1..] == parts[2..];
      assert Join(parts[1..], "/") == table + "/" + rest == table + more;
    }
  }

  lemma ResourceIsRead(kind: string, table: string, more: string, limit: int)
    requires limit > 2 && '/' !in kind && '/' !in table && (more == "" || more[0] == '/')
    ensures var parts := Split(kind + "/" + (table + more), "/", limit);
      |parts| >= 2 && parts[0] == kind && parts[1] == table
  {
    if more == "" {
      assert table + more == table;
      SplitAtFirst(kind, '/', table, limit);
      SplitOfOne(table, '/', limit - 1);
    } else {
      var rest := more[1..];
      assert table + more == table + "/" + rest;
      SecondPart(kind, '/', table, rest, limit);
    }
  }

  lemma FieldsAreRead(arn: string, fields: seq<string>)
    requires HasFields(arn, fields)
    ensures arn != "" && Split(arn, ":", 6) == fields
  {
    SplitIsUnique(arn, ':', 6, fields);
    JoinIsLong(fields, ":");
  }

  lemma NamedTableIsRead(arn: string, table: string, fields: seq<string>, more: string)
    requires HasFields(arn, fields) && IsTable(fields[5], table, more)
    ensures GetTableName(Some(arn)) == Some(table)
  {
    FieldsAreRead(arn, fields);
    TableIsRead(fields[5], table, more);
  }

  lemma TableIsRead(resource: string, table: string, more: string)
    requires IsTable(resource, table, more)
    ensures var parts := SplitAll(resource, "/"); |parts| >= 2 && parts[0] == "table" && parts[1] == table
  {
    ResourceIsRead("table", table, more, |resource| + 2);
  }

  /** A table is read from exactly the ARNs that have the documented shape, and it is the one they name. */
  lemma TableNameExactlyWhen(arn: string, table: string)
    ensures GetTableName(Some(arn)) == Some(table) <==>
      exists fields, more :: HasFields(arn, fields) && IsTable(fields[5], table, more)
    ensures GetTableName(None) == None
  {
    if GetTableName(Some(arn)) == Some(table) {
      SixFields(arn);
      var more := ResourceGoesOn(Split(arn, ":", 6)[5], table);
    }
    forall fields, more | HasFields(arn, fields) && IsTable(fields[5], table, more)
      ensures GetTableName(Some(arn)) == Some(table)
    {
      NamedTableIsRead(arn, table, fields, more);
    }
  }

  lemma TopicOf(topic: string, message: Option<seq<Entry<Json>>>, n: nat, i: nat)
    requires i < n
    ensures var (table, event) := TableAndEvent(topic);
      GetTopic(AsDynamoDb(topic, message, n)[i]) == Head(table) + ":" + event
  {
    TableNameRoundTrip(TableAndEvent(topic).0);
  }

  /** What a topic that leaves out its parts stands for. */
  lemma TopicDefaults(table: string)
    ensures TableAndEvent("") == ("benzene-test", "INSERT")
    ensures ':' !in table && table != "" ==> TableAndEvent(table) == (table, "INSERT")
  {
    SplitOfOne("benzene-test", ':', |"benzene-test"| + 2);
    if ':' !in table {
      SplitOfOne(table, ':', |table| + 2);
    }
  }

  /**
   A topic survives the trip exactly when it has the documented form: one colon, and no slash in the table
   name before it. A bare table name comes back with the default event; further colons are cut off.
   */
  lemma TopicRoundTripExactlyWhen(topic: string, message: Option<seq<Entry<Json>>>, n: nat, i: nat)
    requires i < n
    ensures GetTopic(AsDynamoDb(topic, message, n)[i]) == topic <==>
      |SplitAll(topic, ":")| == 2 && '/' !in SplitAll(topic, ":")[0]
  {
    var (table, event) := TableAndEvent(topic);
    TopicOf(topic, message, n, i);
    HeadIsPrefix(table);
    SplitAllIsClean(topic, ':');
    SplitAllIsClean("benzene-test", ':');
    var parts := SplitAll(topic, ":");
    if Head(table) + ":" + event == topic {
      assert ':' !in Head(table) && ':' !in event;
      assert Join([Head(table), event], ":") == topic;
      SplitIsUnique(topic, ':', |topic| + 2, [Head(table), event]);
    }
    if |parts| == 2 && '/' !in parts[0] {
      assert |topic| >= 1;
      assert parts[1..] == [parts[1]];
    }
  }

  /** The new image is the body when there is one; the old one only stands in for it, and the keys for both. */
  lemma BodyPrefersNewImage(r: Record, image: seq<Entry<AttributeValue>>)
    ensures r.dynamodb.None? ==> GetBody(r) == None
    ensures r.dynamodb.Some? ==>
      var data := r.dynamodb.value;
      && (data.newImage == Some(image) ==> GetBody(r) == Some(Unmarshal(M(image))))
      && (data.newImage.None? && data.oldImage == Some(image) ==> GetBody(r) == Some(Unmarshal(M(image))))
      && (data.newImage.None? && data.oldImage.None? && data.keys == Some(image) ==>
            GetBody(r) == Some(Unmarshal(M(image))))
      && (data == StreamData(None, None, None) ==> GetBody(r) == None)
  {
  }

  /** A record whose stream names no table has its event alone as its topic. */
  lemma TopicWithoutTable(r: Record)
    requires GetTableName(r.eventSourceArn).None?
    ensures GetTopic(r) == r.eventName
  {
  }

  /** The body a handler sees is the message with its undefined keys dropped, whatever the event. */
  lemma BodyRoundTrip(topic: string, message: Option<seq<Entry<Json>>>, n: nat, i: nat)
    requires i < n
    requires message.Some? ==> CanonicalFields(message.value)
    ensures GetBody(AsDynamoDb(topic, message, n)[i])
         == Some(Object(NormalizeFields(if message.Some? then message.value else [])))
  {
    if message.Some? {
      RoundTripFields(message.value);
    }
  }
}
