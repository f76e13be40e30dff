/**
 * app/.../unpacking.kt: the earliest revision of the transformation identity, whose
 * component is kept as the string the trace holds, and the braced rendering of an
 * attribute map.
 */
module Unpacking {
  import opened Values
  import opened Strings
  import opened OperationRecord
  import Operations
  import BuildopsDetails

  /** `BuildOperationRecord.isExecuteScheduledTransformationStepBuildOperation()` */
  predicate IsExecuteScheduledTransformationStepBuildOperation(record: BuildOperationRecord) {
    record.detailsClassName == Some(BuildopsDetails.ExecuteScheduledTransformationStepDetailsClass)
  }

  /** The predicate holds exactly for the step-details class name, as its later counterpart does. */
  lemma IsStepAgrees(record: BuildOperationRecord)
    ensures IsExecuteScheduledTransformationStepBuildOperation(record) <==>
      record.detailsClassName.Some? && record.detailsClassName.value == BuildopsDetails.ExecuteScheduledTransformationStepDetailsClass
    ensures IsExecuteScheduledTransformationStepBuildOperation(record) <==> BuildopsDetails.IsExecuteScheduledTransformationStep(record)
  {
  }

  datatype TransformationIdentity = TransformationIdentity(
    buildPath: string,
    projectPath: string,
    componentId: string,
    sourceAttributes: StringMap,
    transformType: string,
    fromAttributes: StringMap,
    toAttributes: StringMap,
    transformationNodeId: int)

  /**
   * `TransformationIdentity.fromTraceDetails`: the identity fields in order, the component
   * taken over as the string it is, attribute maps sorted by key with every entry kept.
   */
  function FromTraceDetails(record: BuildOperationRecord): (r: Result<TransformationIdentity>)
    ensures r.Ok? ==> Operations.IdentityData(record).Ok?
    ensures r.Ok? ==> CastString(Operations.IdentityData(record).value, "componentId") == Ok(r.value.componentId)
    ensures r.Ok? ==> Operations.SortedCopy(Operations.IdentityData(record).value, "sourceAttributes", r.value.sourceAttributes)
    ensures r.Ok? ==> Operations.SortedCopy(Operations.IdentityData(record).value, "fromAttributes", r.value.fromAttributes)
    ensures r.Ok? ==> Operations.SortedCopy(Operations.IdentityData(record).value, "toAttributes", r.value.toAttributes)
  {
    var identityData :- Operations.IdentityData(record);
    var buildPath :- CastString(identityData, "buildPath");
    var projectPath :- CastString(identityData, "projectPath");
    var componentId :- CastString(identityData, "componentId");
    var sourceAttributes :- Operations.SortedAttributes(identityData, "sourceAttributes");
    var transformType :- CastString(identityData, "transformType");
    var fromAttributes :- Operations.SortedAttributes(identityData, "fromAttributes");
    var toAttributes :- Operations.SortedAttributes(identityData, "toAttributes");
    var transformationNodeId :- CastLong(identityData, "transformationNodeId");
    Ok(TransformationIdentity(buildPath, projectPath, componentId, sourceAttributes, transformType,
      fromAttributes, toAttributes, transformationNodeId))
  }

  // ---------------------------------------------------------------------------
  // Rendering an attribute map

  /** `attributesMapToString()`: `{k=v,k2=v2}` in iteration order. */
  function AttributesMapToString(m: StringMap): string {
    "{" + Join(",", KeyValues(m)) + "}"
  }

  /** Reads a braced rendering back: the entries between the braces, cut at ',' and then at the first '='. */
  function ParseAttributesMap(s: string): StringMap {
    var inner := if |s| >= 2 && s[0] == '{' && s[|s| - 1] == '}' then s[1..|s| - 1] else s;
    var parts := Split(inner, ',');
    if parts == [""] then [] else ParseKeyValues(parts)
  }

  /** An empty map renders as "{}". */
  lemma EmptyAttributesMap()
    ensures AttributesMapToString([]) == "{}"
  {
  }

  /**
   * Nothing is lost in the rendering when keys hold neither ',' nor '=' and values hold
   * no ',': the map is read back entry by entry, in order.
   */
  lemma AttributesMapRoundTrip(m: StringMap)
    requires forall i :: 0 <= i < |m| ==> ',' !in m[i].0 && '=' !in m[i].0 && ',' !in m[i].1
    ensures ParseAttributesMap(AttributesMapToString(m)) == m
  {
    var parts := KeyValues(m);
    var s := AttributesMapToString(m);
    assert s[1..|s| - 1] == Join(",", parts);
    if m == [] {
      assert Split("", ',') == [""];
    } else {
      forall i | 0 <= i < |parts| ensures ',' !in parts[i] {
        assert parts[i] == m[i].0 + "=" + m[i].1;
      }
      SplitJoin(parts, ',');
      assert Split(Join(",", parts), ',') == parts;
      assert parts != [""] by {
        assert '=' in parts[0];
      }
      ParseKeyValuesRoundTrip(m);
    }
  }
}
