/**
 * app/.../TraceToTransformCsvConverter.kt: a visitor that gathers one entry per artifact
 * transform, keyed by the transform's unique identity. Identifying a transform inserts its
 * entry or counts one more invocation; executing it records the execution time once.
 * The entries are written as CSV rows in the order they were first identified.
 */
module TransformCsv {
  import opened Values
  import opened Strings
  import opened OperationRecord
  import Sorting
  import Csv
  import Unpacking

  /**
   * The data class `TransformInfo`; its two `var` fields are updated in place in the
   * source, here by replacing the entry of the table.
   */
  datatype TransformInfo = TransformInfo(
    identity: string,
    transformType: string,
    componentId: string,
    fromAttributes: string,
    toAttribute: string,
    invocationCount: int,
    executionTimeMillis: int)

  /** The primary constructor with its defaults: one invocation, no execution time yet (-1). */
  function NewTransformInfo(identity: string, transformType: string, componentId: string,
                            fromAttributes: string, toAttribute: string): (info: TransformInfo)
    ensures info.invocationCount == 1 && info.executionTimeMillis == -1
    ensures info.identity == identity && info.transformType == transformType && info.componentId == componentId
    ensures info.fromAttributes == fromAttributes && info.toAttribute == toAttribute
  {
    TransformInfo(identity, transformType, componentId, fromAttributes, toAttribute, 1, -1)
  }

  const ImmutableTransformerExecution :=
    "org.gradle.api.internal.artifacts.transform.DefaultTransformerInvocationFactory$ImmutableTransformerExecution"
  const MutableTransformerExecution :=
    "org.gradle.api.internal.artifacts.transform.DefaultTransformerInvocationFactory$MutableTransformerExecution"

  /** `executeTransformWorkTypes` */
  const ExecuteTransformWorkTypes: set<string> := {ImmutableTransformerExecution, MutableTransformerExecution}

  const IdentifyDetailsClass :=
    "org.gradle.api.internal.artifacts.transform.DefaultTransformerInvocationFactory$AbstractTransformerExecution$DefaultIdentifyTransformBuildOperationDetails"
  const ExecuteStepDetailsClass := "org.gradle.internal.execution.steps.ExecuteStep$1$1"

  /** `visit`'s first test: a transform being identified. */
  predicate IsIdentification(record: BuildOperationRecord) {
    record.displayName == "Identifying work" && record.detailsClassName == Some(IdentifyDetailsClass)
  }

  /** `visit`'s second test: a step executing some work. */
  predicate IsExecution(record: BuildOperationRecord) {
    StartsWith(record.displayName, "Executing ") && record.detailsClassName == Some(ExecuteStepDetailsClass)
  }

  /** No record passes both tests, so the order of the tests does not matter. */
  lemma ClassificationExclusive(record: BuildOperationRecord)
    ensures !(IsIdentification(record) && IsExecution(record))
  {
    if IsIdentification(record) {
      assert record.displayName[..10][0] == 'I';
    }
  }

  // ---------------------------------------------------------------------------
  // attributesToString

  /** One element of the raw attribute list: its `name` and `value`, either possibly null. */
  datatype Attribute = Attribute(name: Option<string>, value: Option<string>)

  /** An element `attributesToString` can read: a map whose `name` and `value` are strings or null. */
  predicate IsAttribute(v: Value) {
    v.Object? && CastNullableString(v.entries, "name").Ok? && CastNullableString(v.entries, "value").Ok?
  }

  function AttributeOf(v: Value): Attribute
    requires IsAttribute(v)
  {
    Attribute(CastNullableString(v.entries, "name").value, CastNullableString(v.entries, "value").value)
  }

  /** Reads `it["name"]` and `it["value"]` of every element; an element must be a map. */
  function DecodeAttributes(raw: seq<Value>): (r: Result<seq<Attribute>>)
    ensures r.Ok? <==> forall i :: 0 <= i < |raw| ==> IsAttribute(raw[i])
    ensures r.Ok? ==> |r.value| == |raw| && forall i :: 0 <= i < |raw| ==> r.value[i] == AttributeOf(raw[i])
    decreases |raw|
  {
    if raw == [] then Ok([])
    else match raw[0]
      case Object(entries) =>
        var name :- CastNullableString(entries, "name");
        var value :- CastNullableString(entries, "value");
        var rest :- DecodeAttributes(raw[1..]);
        assert forall i :: 1 <= i < |raw| ==> raw[i] == raw[1..][i - 1];
        Ok([Attribute(name, value)] + rest)
      case _ => Err("not a Map: attribute")
  }

  function AttributeName(a: Attribute): Option<string> {
    a.name
  }

  /** A nullable string in a string template: "null" for null. */
  function ShowNullable(s: Option<string>): string {
    if s.Some? then s.value else "null"
  }

  /** `"${it["name"]}=${it["value"]}"` for each attribute, joined by ",", between braces. */
  function RenderAttributes(attributes: seq<Attribute>): string {
    "{" + Join(",", seq(|attributes|, i requires 0 <= i < |attributes| =>
      KeyValue(ShowNullable(attributes[i].name), ShowNullable(attributes[i].value)))) + "}"
  }

  /** `attributesToString`: sorted by name (a null name first), then rendered. */
  function AttributesToString(raw: seq<Value>): Result<string> {
    var attributes :- DecodeAttributes(raw);
    Ok(RenderAttributes(Sorting.SortBy(attributes, AttributeName, NullsFirstLe)))
  }

  /** The attributes are rendered in name order, and each of them exactly once. */
  lemma AttributesSortedByName(attributes: seq<Attribute>)
    ensures var sorted := Sorting.SortBy(attributes, AttributeName, NullsFirstLe);
      && Sorting.SortedBy(sorted, AttributeName, NullsFirstLe)
      && multiset(sorted) == multiset(attributes)
  {
    NullsFirstLeIsTotalPreorder();
    Sorting.SortByCorrect(attributes, AttributeName, NullsFirstLe);
  }

  /** An empty list renders as "{}". */
  lemma EmptyAttributes()
    ensures AttributesToString([]) == Ok("{}")
  {
    var none: seq<Attribute> := [];
    assert DecodeAttributes([]) == Ok(none);
    assert Sorting.SortBy(none, AttributeName, NullsFirstLe) == none;
    assert RenderAttributes(none) == "{}";
  }

  /** The attributes as a map, when no name or value is null. */
  function AsStringMap(attributes: seq<Attribute>): StringMap
    requires forall i :: 0 <= i < |attributes| ==> attributes[i].name.Some? && attributes[i].value.Some?
  {
    seq(|attributes|, i requires 0 <= i < |attributes| => (attributes[i].name.value, attributes[i].value.value))
  }

  /**
   * With no null, a rendering reads back as the attributes in the order rendered, when
   * names hold neither ',' nor '=' and values hold no ','.
   */
  lemma RenderAttributesRoundTrip(attributes: seq<Attribute>)
    requires forall i :: 0 <= i < |attributes| ==> attributes[i].name.Some? && attributes[i].value.Some?
    requires forall i :: 0 <= i < |attributes| ==>
      ',' !in attributes[i].name.value && '=' !in attributes[i].name.value && ',' !in attributes[i].value.value
    ensures Unpacking.ParseAttributesMap(RenderAttributes(attributes)) == AsStringMap(attributes)
  {
    var m := AsStringMap(attributes);
    assert RenderAttributes(attributes) == Unpacking.AttributesMapToString(m) by {
      assert KeyValues(m) == seq(|attributes|, i requires 0 <= i < |attributes| =>
        KeyValue(ShowNullable(attributes[i].name), ShowNullable(attributes[i].value)));
    }
    Unpacking.AttributesMapRoundTrip(m);
  }

  // ---------------------------------------------------------------------------
  // Decoding the two kinds of record

  /** What `onIdentifyTransform` reads from a record. */
  datatype Identification = Identification(
    uniqueId: string,
    transformType: string,
    componentId: string,
    fromAttributes: string,
    toAttributes: string)

  function DecodeIdentification(record: BuildOperationRecord): Result<Identification> {
    var result :- NotNull(record.result, "result");
    var identity :- CastMap(result, "identity");
    var uniqueId :- CastString(identity, "uniqueId");
    var details :- NotNull(record.details, "details");
    var transformType :- CastString(details, "workType");
    var componentId :- CastString(details, "componentId");
    var rawFrom :- CastList(details, "fromAttributes");
    var fromAttributes :- AttributesToString(rawFrom);
    var rawTo :- CastList(details, "toAttributes");
    var toAttributes :- AttributesToString(rawTo);
    Ok(Identification(uniqueId, transformType, componentId, fromAttributes, toAttributes))
  }

  /** What `onExecuteTransform` reads from a record: nothing for other work types. */
  datatype Execution = OtherWork | Execution(uniqueId: string, executionTimeMillis: int)

  function DecodeExecution(record: BuildOperationRecord): Result<Execution> {
    var details :- NotNull(record.details, "details");
    var workType :- CastString(details, "workType");
    if workType !in ExecuteTransformWorkTypes then Ok(OtherWork)
    else
      var identity :- CastMap(details, "identity");
      var uniqueId :- CastString(identity, "uniqueId");
      Ok(Execution(uniqueId, record.endTime - record.startTime))
  }

  /** An execution of any other work type is passed over before its identity is read. */
  lemma OtherWorkSkipped(record: BuildOperationRecord)
    requires record.details.Some? && CastString(record.details.value, "workType").Ok?
    requires CastString(record.details.value, "workType").value !in ExecuteTransformWorkTypes
    ensures DecodeExecution(record) == Ok(OtherWork)
  {
  }

  // ---------------------------------------------------------------------------
  // The table

  /**
   * `transformByIdentity`, a `LinkedHashMap`: the entries by identity, and the identities
   * in the order they were inserted, which is the order its `values` are iterated in.
   */
  datatype Table = Table(byIdentity: map<string, TransformInfo>, identities: seq<string>)

  ghost predicate TableValid(t: Table) {
    && (forall i, j :: 0 <= i < j < |t.identities| ==> t.identities[i] != t.identities[j])
    && (forall id :: id in t.byIdentity <==> id in t.identities)
    && (forall id :: id in t.byIdentity ==> t.byIdentity[id].identity == id)
  }

  /** `onIdentifyTransform`'s update: count one more invocation, or insert a new entry. */
  function Identify(t: Table, ident: Identification): Table {
    var id := ident.uniqueId;
    if id in t.byIdentity then
      var prevInfo := t.byIdentity[id];
      Table(t.byIdentity[id := prevInfo.(invocationCount := prevInfo.invocationCount + 1)], t.identities)
    else
      var info := NewTransformInfo(id, ident.transformType, ident.componentId, ident.fromAttributes, ident.toAttributes);
      Table(t.byIdentity[id := info], t.identities + [id])
  }

  /** `onExecuteTransform`'s update: the execution time of a known identity, if it has none yet. */
  function Execute(t: Table, e: Execution): Table {
    match e
    case OtherWork => t
    case Execution(id, executionTimeMillis) =>
      if id !in t.byIdentity then t
      else if t.byIdentity[id].executionTimeMillis == -1 then
        Table(t.byIdentity[id := t.byIdentity[id].(executionTimeMillis := executionTimeMillis)], t.identities)
      else t
  }

  /** `visit(record)`'s effect on the table; `Err` when decoding a recognised record fails. */
  function VisitTable(t: Table, record: BuildOperationRecord): Result<Table> {
    if IsIdentification(record) then
      var ident :- DecodeIdentification(record);
      Ok(Identify(t, ident))
    else if IsExecution(record) then
      var e :- DecodeExecution(record);
      Ok(Execute(t, e))
    else Ok(t)
  }

  /**
   * The first identification of an identity inserts an entry with one invocation and no
   * execution time, after every existing entry; a repeated one only counts one more
   * invocation, keeping what was first recorded. No other entry changes.
   */
  lemma IdentifyEffect(t: Table, ident: Identification)
    ensures var t' := Identify(t, ident); var id := ident.uniqueId;
      && t'.byIdentity.Keys == t.byIdentity.Keys + {id}
      && (forall k :: k in t.byIdentity && k != id ==> t'.byIdentity[k] == t.byIdentity[k])
      && (id !in t.byIdentity ==>
            t'.byIdentity[id] == NewTransformInfo(id, ident.transformType, ident.componentId, ident.fromAttributes, ident.toAttributes)
            && t'.identities == t.identities + [id])
      && (id in t.byIdentity ==>
            t'.byIdentity[id] == t.byIdentity[id].(invocationCount := t.byIdentity[id].invocationCount + 1)
            && t'.identities == t.identities)
  {
  }

  /**
   * An execution changes at most the execution time of its own, known, entry, and only
   * while that entry has none; the keys and their order never change.
   */
  lemma ExecuteEffect(t: Table, e: Execution)
    ensures var t' := Execute(t, e);
      && t'.byIdentity.Keys == t.byIdentity.Keys && t'.identities == t.identities
      && (e.OtherWork? ==> t' == t)
      && (e.Execution? && e.uniqueId !in t.byIdentity ==> t' == t)
      && (e.Execution? && e.uniqueId in t.byIdentity && t.byIdentity[e.uniqueId].executionTimeMillis == -1 ==>
            t'.byIdentity[e.uniqueId] == t.byIdentity[e.uniqueId].(executionTimeMillis := e.executionTimeMillis))
      && (e.Execution? && e.uniqueId in t.byIdentity && t.byIdentity[e.uniqueId].executionTimeMillis != -1 ==> t' == t)
      && (forall k :: k in t.byIdentity && (e.OtherWork? || k != e.uniqueId) ==> t'.byIdentity[k] == t.byIdentity[k])
  {
  }

  /** Every visit keeps the table well formed: identities distinct, exactly the keys, each entry under its own identity. */
  lemma VisitKeepsValid(t: Table, record: BuildOperationRecord)
    requires TableValid(t)
    ensures VisitTable(t, record).Ok? ==> TableValid(VisitTable(t, record).value)
  {
    if IsIdentification(record) && DecodeIdentification(record).Ok? {
      var ident := DecodeIdentification(record).value;
      var t' := Identify(t, ident);
      if ident.uniqueId !in t.byIdentity {
        forall i, j | 0 <= i < j < |t'.identities| ensures t'.identities[i] != t'.identities[j] {
          if j == |t.identities| {
            assert t'.identities[i] in t.identities;
          }
        }
      }
    }
  }

  /** The uniqueIds of the identification records among `records`. */
  function IdentifiedIds(records: seq<BuildOperationRecord>): set<string>
    decreases |records|
  {
    if records == [] then {}
    else
      var rest := IdentifiedIds(records[1..]);
      if IsIdentification(records[0]) && DecodeIdentification(records[0]).Ok?
      then {DecodeIdentification(records[0]).value.uniqueId} + rest
      else rest
  }

  /** The visits of `records` in order, stopping at the first failure as the exception would. */
  function Run(t: Table, records: seq<BuildOperationRecord>): Result<Table>
    decreases |records|
  {
    if records == [] then Ok(t)
    else
      var t' :- VisitTable(t, records[0]);
      Run(t', records[1..])
  }

  /** Entries are never removed, and the keys gathered are exactly the identified uniqueIds. */
  lemma {:induction false} RunKeys(t: Table, records: seq<BuildOperationRecord>)
    ensures Run(t, records).Ok? ==> Run(t, records).value.byIdentity.Keys == t.byIdentity.Keys + IdentifiedIds(records)
    decreases |records|
  {
    if records != [] && VisitTable(t, records[0]).Ok? {
      var t' := VisitTable(t, records[0]).value;
      RunKeys(t', records[1..]);
      ClassificationExclusive(records[0]);
      if IsIdentification(records[0]) {
        IdentifyEffect(t, DecodeIdentification(records[0]).value);
      } else if IsExecution(records[0]) {
        ExecuteEffect(t, DecodeExecution(records[0]).value);
      }
    }
  }

  // ---------------------------------------------------------------------------
  // The output

  const Header := "identity,type,componentId,fromAttributes,toAttributes,invocationCount,executionTimeMillis"

  /**
   * One line of `convert`'s output: the two attribute renderings between quotes, the other
   * fields as they are.
   */
  function Row(info: TransformInfo): string {
    info.identity + "," + info.transformType + "," + info.componentId
      + ",\"" + info.fromAttributes + "\",\"" + info.toAttribute + "\","
      + IntToString(info.invocationCount) + "," + IntToString(info.executionTimeMillis)
  }

  /** The fields of a row, as a CSV reader returns them. */
  function RowFields(info: TransformInfo): seq<string> {
    [info.identity, info.transformType, info.componentId, info.fromAttributes, info.toAttribute,
     IntToString(info.invocationCount), IntToString(info.executionTimeMillis)]
  }

  /**
   * A row reads back as its seven fields when the unquoted text fields hold neither ',' nor
   * '"' and the quoted ones hold no '"': nothing in a field is escaped.
   */
  lemma RowRoundTrip(info: TransformInfo)
    requires ',' !in info.identity && '"' !in info.identity
    requires ',' !in info.transformType && '"' !in info.transformType
    requires ',' !in info.componentId && '"' !in info.componentId
    requires '"' !in info.fromAttributes && '"' !in info.toAttribute
    ensures Csv.ParseRow(Row(info)) == RowFields(info)
  {
    var r4 := QuotedTail(info);
    QuotedTailRoundTrip(info);
    var r3 := info.componentId + ("," + r4);
    Csv.ParseFieldBare(info.componentId, "," + r4);
    Csv.ParseRowNext(r3, info.componentId, r4);
    var r2 := info.transformType + ("," + r3);
    Csv.ParseFieldBare(info.transformType, "," + r3);
    Csv.ParseRowNext(r2, info.transformType, r3);
    var r1 := info.identity + ("," + r2);
    Csv.ParseFieldBare(info.identity, "," + r2);
    Csv.ParseRowNext(r1, info.identity, r2);
    RowShape(info);
  }

  lemma RowShape(info: TransformInfo)
    ensures Row(info) == info.identity + ("," + (info.transformType + ("," + (info.componentId + ("," + QuotedTail(info))))))
  {
    var count := IntToString(info.invocationCount);
    var time := IntToString(info.executionTimeMillis);
    var head := info.identity + "," + info.transformType + "," + info.componentId;
    AppendEight(head, ",\"", info.fromAttributes, "\",\"", info.toAttribute, "\",", count, ",", time);
    TailShape(info.fromAttributes, info.toAttribute, count, time);
    ConcatAssoc(info.identity + "," + info.transformType + ",", info.componentId, "," + QuotedTail(info));
    ConcatAssoc(info.identity + "," + info.transformType, ",", info.componentId + ("," + QuotedTail(info)));
    ConcatAssoc(info.identity + ",", info.transformType, "," + (info.componentId + ("," + QuotedTail(info))));
    ConcatAssoc(info.identity, ",", info.transformType + ("," + (info.componentId + ("," + QuotedTail(info)))));
  }

  lemma TailShape(from: string, to: string, count: string, time: string)
    ensures ",\"" + from + "\",\"" + to + "\"," + count + "," + time
      == "," + ("\"" + from + "\"" + ("," + ("\"" + to + "\"" + ("," + (count + ("," + time))))))
  {
  }

  lemma AppendEight(s: string, a: string, b: string, c: string, d: string, e: string, f: string, g: string, h: string)
    ensures s + a + b + c + d + e + f + g + h == s + (a + b + c + d + e + f + g + h)
  {
    ConcatAssoc(s, a + b + c + d + e + f + g, h);
    ConcatAssoc(s, a + b + c + d + e + f, g);
    ConcatAssoc(s, a + b + c + d + e, f);
    ConcatAssoc(s, a + b + c + d, e);
    ConcatAssoc(s, a + b + c, d);
    ConcatAssoc(s, a + b, c);
    ConcatAssoc(s, a, b);
  }

  /** The last four fields of a row: the two quoted renderings and the two numbers. */
  function QuotedTail(info: TransformInfo): string {
    "\"" + info.fromAttributes + "\"" + ("," + ("\"" + info.toAttribute + "\"" + ("," +
      (IntToString(info.invocationCount) + ("," + IntToString(info.executionTimeMillis))))))
  }

  lemma QuotedTailRoundTrip(info: TransformInfo)
    requires '"' !in info.fromAttributes && '"' !in info.toAttribute
    ensures Csv.ParseRow(QuotedTail(info)) == RowFields(info)[3..]
  {
    var count := IntToString(info.invocationCount);
    var time := IntToString(info.executionTimeMillis);
    IntToStringHasNo(info.invocationCount, ',');
    IntToStringHasNo(info.invocationCount, '"');
    IntToStringHasNo(info.executionTimeMillis, ',');
    IntToStringHasNo(info.executionTimeMillis, '"');
    Csv.ParseFieldBare(time, "");
    assert time + "" == time;
    Csv.ParseRowLast(time, time);
    var r6 := count + ("," + time);
    Csv.ParseFieldBare(count, "," + time);
    Csv.ParseRowNext(r6, count, time);
    var r5 := "\"" + info.toAttribute + "\"" + ("," + r6);
    Csv.ParseFieldQuotedPlain(info.toAttribute, "," + r6);
    Csv.ParseRowNext(r5, info.toAttribute, r6);
    var r4 := "\"" + info.fromAttributes + "\"" + ("," + r5);
    Csv.ParseFieldQuotedPlain(info.fromAttributes, "," + r5);
    Csv.ParseRowNext(r4, info.fromAttributes, r5);
  }

  /** The rows of the entries in insertion order. */
  function Rows(t: Table): (rows: seq<string>)
    requires forall id :: id in t.identities ==> id in t.byIdentity
    ensures |rows| == |t.identities|
  {
    seq(|t.identities|, i requires 0 <= i < |t.identities| => Row(t.byIdentity[t.identities[i]]))
  }

  /** What `convert` writes: the header, then one row per entry, each after a line break. */
  function OutputText(t: Table): string
    requires forall id :: id in t.identities ==> id in t.byIdentity
  {
    Join("\n", [Header] + Rows(t))
  }

  lemma OutputStep(t: Table, i: int)
    requires forall id :: id in t.identities ==> id in t.byIdentity
    requires 0 <= i < |t.identities|
    ensures Join("\n", [Header] + Rows(t)[..i + 1]) == Join("\n", [Header] + Rows(t)[..i]) + "\n" + Row(t.byIdentity[t.identities[i]])
  {
    var rows := Rows(t);
    JoinSnoc("\n", [Header] + rows[..i], rows[i]);
    assert rows[..i + 1] == rows[..i] + [rows[i]];
    ConcatAssoc([Header], rows[..i], [rows[i]]);
  }

  /** One row per identity: as many rows as entries in the table. */
  lemma OneRowPerIdentity(t: Table)
    requires TableValid(t)
    ensures |Rows(t)| == |t.byIdentity.Keys|
  {
    DistinctCardinality(t.identities);
    assert t.byIdentity.Keys == set id | id in t.identities;
  }

  lemma {:induction false} DistinctCardinality(s: seq<string>)
    requires forall i, j :: 0 <= i < j < |s| ==> s[i] != s[j]
    ensures |set x | x in s| == |s|
    decreases |s|
  {
    if s != [] {
      var init := s[..|s| - 1];
      DistinctCardinality(init);
      assert (set x | x in s) == (set x | x in init) + {s[|s| - 1]};
      forall k | 0 <= k < |init| ensures init[k] != s[|s| - 1] {
        assert init[k] == s[k];
      }
    }
  }

  // ---------------------------------------------------------------------------
  // The converter

  /** The callback `visit` returns, `{}`: it does nothing when the operation finishes. */
  datatype PostVisit = NoOp

  class TraceToTransformCsvConverter {
    var transformByIdentity: map<string, TransformInfo>
    /** The keys of `transformByIdentity` in insertion order. */
    var identities: seq<string>

    ghost predicate Valid()
      reads this
    {
      TableValid(Table(transformByIdentity, identities))
    }

    constructor()
      ensures Valid() && transformByIdentity == map[] && identities == []
    {
      transformByIdentity := map[];
      identities := [];
    }

    /** `visit(record)`: an identification or an execution updates the table; any other record is ignored. */
    method Visit(record: BuildOperationRecord) returns (r: Result<PostVisit>)
      requires Valid()
      modifies this
      ensures Valid()
      ensures var expected := VisitTable(old(Table(transformByIdentity, identities)), record);
        && (r.Ok? <==> expected.Ok?)
        && (r.Ok? ==> Table(transformByIdentity, identities) == expected.value)
      ensures r.Err? ==> transformByIdentity == old(transformByIdentity) && identities == old(identities)
    {
      VisitKeepsValid(Table(transformByIdentity, identities), record);
      if IsIdentification(record) {
        var done := OnIdentifyTransform(record);
        if done.Err? {
          return Err(done.reason);
        }
      } else if IsExecution(record) {
        var done := OnExecuteTransform(record);
        if done.Err? {
          return Err(done.reason);
        }
      }
      return Ok(NoOp);
    }

    method OnIdentifyTransform(record: BuildOperationRecord) returns (r: Result<Identification>)
      modifies this
      ensures r.Ok? <==> DecodeIdentification(record).Ok?
      ensures r.Ok? ==> r.value == DecodeIdentification(record).value
      ensures r.Ok? ==> Table(transformByIdentity, identities) == Identify(old(Table(transformByIdentity, identities)), r.value)
      ensures r.Err? ==> transformByIdentity == old(transformByIdentity) && identities == old(identities)
    {
      var ident := DecodeIdentification(record);
      if ident.Err? {
        return Err(ident.reason);
      }
      Identified(ident.value);
      return Ok(ident.value);
    }

    /** The table update for one decoded identification. */
    method Identified(ident: Identification)
      modifies this
      ensures Table(transformByIdentity, identities) == Identify(old(Table(transformByIdentity, identities)), ident)
    {
      var transformIdentity := ident.uniqueId;
      if transformIdentity in transformByIdentity {
        var prevInfo := transformByIdentity[transformIdentity];
        transformByIdentity := transformByIdentity[transformIdentity := prevInfo.(invocationCount := prevInfo.invocationCount + 1)];
      } else {
        transformByIdentity := transformByIdentity[transformIdentity := NewTransformInfo(
          transformIdentity, ident.transformType, ident.componentId,
          ident.fromAttributes, ident.toAttributes)];
        identities := identities + [transformIdentity];
      }
    }

    method OnExecuteTransform(record: BuildOperationRecord) returns (r: Result<Execution>)
      modifies this
      ensures r.Ok? <==> DecodeExecution(record).Ok?
      ensures r.Ok? ==> r.value == DecodeExecution(record).value
      ensures r.Ok? ==> Table(transformByIdentity, identities) == Execute(old(Table(transformByIdentity, identities)), r.value)
      ensures r.Err? ==> transformByIdentity == old(transformByIdentity) && identities == old(identities)
    {
      var e := DecodeExecution(record);
      if e.Err? {
        return Err(e.reason);
      }
      if e.value.OtherWork? {
        return Ok(e.value);
      }
      var identity := e.value.uniqueId;
      if identity !in transformByIdentity {
        return Ok(e.value);
      }
      var transformInfo := transformByIdentity[identity];
      if transformInfo.executionTimeMillis == -1 {
        transformByIdentity := transformByIdentity[identity := transformInfo.(executionTimeMillis := e.value.executionTimeMillis)];
      }
      return Ok(e.value);
    }

    /** `convert`'s writing loop: the header, then a line break and a row per entry, in insertion order. */
    method Output() returns (text: string)
      requires Valid()
      ensures text == OutputText(Table(transformByIdentity, identities))
    {
      var t := Table(transformByIdentity, identities);
      text := Header;
      var i := 0;
      while i < |identities|
        invariant 0 <= i <= |identities|
        invariant text == Join("\n", [Header] + Rows(t)[..i])
      {
        OutputStep(t, i);
        text := text + "\n" + Row(transformByIdentity[identities[i]]);
        i := i + 1;
      }
      assert Rows(t)[..i] == Rows(t);
    }
  }
}
