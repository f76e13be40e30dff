/**
 * app/.../buildops/operations.kt: the later revision of the decoded build-operation
 * details, read from a `BuildOperationStart`. A transformation identity now names its
 * target variant (component, attributes, capabilities) and an optional dependencies
 * configuration. A failed cast or a missing identifier is an `Err`.
 */
module BuildopsOperations {
  import opened Values
  import opened Strings
  import OperationLog
  import Operations
  import OperationRecord

  // ---------------------------------------------------------------------------
  // Task details

  datatype ExecuteTaskBuildOperationDetails = ExecuteTaskBuildOperationDetails(
    buildPath: string,
    taskPath: string,
    taskId: int,
    taskClass: string)

  /** `ExecuteTaskBuildOperationDetails.fromStart`: the four fields read from the details, in order. */
  function ExecuteTaskFromStart(start: OperationLog.BuildOperationStart): Result<ExecuteTaskBuildOperationDetails> {
    var details :- NotNull(start.details, "details");
    var buildPath :- CastString(details, "buildPath");
    var taskPath :- CastString(details, "taskPath");
    var taskId :- CastLong(details, "taskId");
    var taskClass :- CastString(details, "taskClass");
    Ok(ExecuteTaskBuildOperationDetails(buildPath, taskPath, taskId, taskClass))
  }

  /** The same details in the earlier revision's class. */
  function AsOperationsDetails(d: ExecuteTaskBuildOperationDetails): Operations.ExecuteTaskBuildOperationDetails {
    Operations.ExecuteTaskBuildOperationDetails(d.buildPath, d.taskPath, d.taskId, d.taskClass)
  }

  /** Reading a start's details agrees with the earlier `fromRecord` on a record holding the same details. */
  lemma ExecuteTaskFromStartAgrees(start: OperationLog.BuildOperationStart, record: OperationRecord.BuildOperationRecord)
    requires record.details == start.details
    ensures ExecuteTaskFromStart(start).Ok? <==> Operations.ExecuteTaskFromRecord(record).Ok?
    ensures ExecuteTaskFromStart(start).Ok? ==>
      AsOperationsDetails(ExecuteTaskFromStart(start).value) == Operations.ExecuteTaskFromRecord(record).value
  {
  }

  /** Decoding the details a task execution is recorded with gives the details back. */
  lemma ExecuteTaskFromStartRoundTrip(start: OperationLog.BuildOperationStart, d: ExecuteTaskBuildOperationDetails)
    requires start.details == Some(Operations.TaskDetailsFields(AsOperationsDetails(d)))
    ensures ExecuteTaskFromStart(start) == Ok(d)
  {
    Operations.TaskDetailsCasts(AsOperationsDetails(d));
  }

  // ---------------------------------------------------------------------------
  // Component identifier

  /** The sealed class `ComponentIdentifier` of this package (`module` is a Dafny keyword, hence `moduleName`). */
  datatype ComponentIdentifier =
    | Project(buildPath: string, projectPath: string)
    | Module(group: string, moduleName: string, version: string)
    | Unknown(displayName: string, className: string)

  /** The three `toString` overrides. */
  function ComponentToString(c: ComponentIdentifier): string {
    match c
    case Project(buildPath, projectPath) => if buildPath == ":" then projectPath else buildPath + projectPath
    case Module(group, moduleName, version) => group + ":" + moduleName + ":" + version
    case Unknown(displayName, className) => displayName + " (" + className + ")"
  }

  /** The same identifier in the earlier revision's class. */
  function AsOperationsComponent(c: ComponentIdentifier): Operations.ComponentIdentifier {
    match c
    case Project(buildPath, projectPath) => Operations.Project(buildPath, projectPath)
    case Module(group, moduleName, version) => Operations.Module(group, moduleName, version)
    case Unknown(displayName, className) => Operations.Unknown(displayName, className)
  }

  /** Both revisions render an identifier alike. */
  lemma ComponentToStringAgrees(c: ComponentIdentifier)
    ensures ComponentToString(c) == Operations.ComponentToString(AsOperationsComponent(c))
  {
  }

  /**
   * `ComponentIdentifier.fromMap(fields)`: a project when both paths are present, else a
   * module when its three coordinates are, else an unknown component when its two names
   * are, else an error. Every key is read, as a `String?`, before the choice is made.
   */
  function FromMap(fields: Fields): Result<ComponentIdentifier> {
    var buildPath :- CastNullableString(fields, "buildPath");
    var projectPath :- CastNullableString(fields, "projectPath");
    var group :- CastNullableString(fields, "group");
    var moduleName :- CastNullableString(fields, "module");
    var version :- CastNullableString(fields, "version");
    var displayName :- CastNullableString(fields, "displayName");
    var className :- CastNullableString(fields, "className");
    if buildPath.Some? && projectPath.Some? then Ok(Project(buildPath.value, projectPath.value))
    else if group.Some? && moduleName.Some? && version.Some? then Ok(Module(group.value, moduleName.value, version.value))
    else if displayName.Some? && className.Some? then Ok(Unknown(displayName.value, className.value))
    else Err("Unknown component identifier")
  }

  /** `fromMap` decodes exactly as the earlier `unpackComponentIdentifier` does. */
  lemma FromMapAgrees(fields: Fields)
    ensures FromMap(fields).Ok? <==> Operations.UnpackComponentIdentifier(fields).Ok?
    ensures FromMap(fields).Ok? ==>
      AsOperationsComponent(FromMap(fields).value) == Operations.UnpackComponentIdentifier(fields).value
  {
  }

  /** The precedence Project > Module > Unknown > error, stated on the fields present. */
  lemma FromMapPrecedence(fields: Fields)
    ensures !Operations.ComponentKeysReadable(fields) ==> FromMap(fields).Err?
    ensures Operations.ComponentKeysReadable(fields) ==>
      var r := FromMap(fields);
      var isProject := Operations.Present(fields, "buildPath") && Operations.Present(fields, "projectPath");
      var isModule := Operations.Present(fields, "group") && Operations.Present(fields, "module")
        && Operations.Present(fields, "version");
      var isUnknown := Operations.Present(fields, "displayName") && Operations.Present(fields, "className");
      && (isProject ==>
            r == Ok(Project(Operations.PresentValue(fields, "buildPath"), Operations.PresentValue(fields, "projectPath"))))
      && (!isProject && isModule ==>
            r == Ok(Module(Operations.PresentValue(fields, "group"), Operations.PresentValue(fields, "module"),
              Operations.PresentValue(fields, "version"))))
      && (!isProject && !isModule && isUnknown ==>
            r == Ok(Unknown(Operations.PresentValue(fields, "displayName"), Operations.PresentValue(fields, "className"))))
      && (r.Err? <==> !isProject && !isModule && !isUnknown)
  {
    FromMapAgrees(fields);
    Operations.UnpackPrecedence(fields);
  }

  // ---------------------------------------------------------------------------
  // Component variant

  datatype Capability = Capability(group: string, name: string, version: Option<string>)

  /** `Capability.toString`: `group:name:version`, or `group:name` without a version. */
  function CapabilityToString(c: Capability): string {
    if c.version.Some? then c.group + ":" + c.name + ":" + c.version.value else c.group + ":" + c.name
  }

  /** A capability splits back at ':' into its coordinates, three of them exactly when it has a version. */
  lemma CapabilityRendering(c: Capability)
    requires ':' !in c.group && ':' !in c.name
    requires c.version.Some? ==> ':' !in c.version.value
    ensures c.version.Some? ==> Split(CapabilityToString(c), ':') == [c.group, c.name, c.version.value]
    ensures c.version.None? ==> Split(CapabilityToString(c), ':') == [c.group, c.name]
    ensures |Split(CapabilityToString(c), ':')| == 3 <==> c.version.Some?
  {
    if c.version.Some? {
      assert CapabilityToString(c) == Join([':'], [c.group, c.name, c.version.value]);
      SplitJoin([c.group, c.name, c.version.value], ':');
    } else {
      assert CapabilityToString(c) == Join([':'], [c.group, c.name]);
      SplitJoin([c.group, c.name], ':');
    }
  }

  /** One element of `capabilities.map { Capability(it["group"] as String, it["name"] as String, it["version"]) }`. */
  function CapabilityFromMap(m: Fields): Result<Capability> {
    var group :- CastString(m, "group");
    var name :- CastString(m, "name");
    var version :- CastNullableString(m, "version");
    Ok(Capability(group, name, version))
  }

  /** `capabilities.map { ... }`: every element must be a map; the first failure is the result. */
  function CapabilitiesFromList(items: seq<Value>): (r: Result<seq<Capability>>)
    ensures r.Ok? <==> forall i :: 0 <= i < |items| ==> items[i].Object? && CapabilityFromMap(items[i].entries).Ok?
    ensures r.Ok? ==> |r.value| == |items|
    ensures r.Ok? ==> forall i :: 0 <= i < |items| ==> CapabilityFromMap(items[i].entries) == Ok(r.value[i])
    decreases |items|
  {
    if items == [] then Ok([])
    else match items[0]
      case Object(entries) =>
        var c :- CapabilityFromMap(entries);
        var rest :- CapabilitiesFromList(items[1..]);
        assert forall i :: 1 <= i < |items| ==> items[i] == items[1..][i - 1];
        Ok([c] + rest)
      case _ => Err("not a Map: capability")
  }

  /** The map a capability is recorded as; a missing version is a null. */
  function CapabilityFields(c: Capability): Fields {
    [Entry("group", Str(c.group)), Entry("name", Str(c.name)),
     Entry("version", if c.version.Some? then Str(c.version.value) else Null)]
  }

  lemma CapabilityRoundTrip(c: Capability)
    ensures CapabilityFromMap(CapabilityFields(c)) == Ok(c)
  {
    var m := CapabilityFields(c);
    GetAt(m, 0);
    GetAt(m, 1);
    GetAt(m, 2);
  }

  /** Decoding recorded capabilities gives them back, in the same number and order. */
  lemma {:induction false} CapabilitiesRoundTrip(cs: seq<Capability>)
    ensures CapabilitiesFromList(seq(|cs|, i requires 0 <= i < |cs| => Object(CapabilityFields(cs[i])))) == Ok(cs)
    decreases |cs|
  {
    var items := seq(|cs|, i requires 0 <= i < |cs| => Object(CapabilityFields(cs[i])));
    if cs != [] {
      CapabilityRoundTrip(cs[0]);
      CapabilitiesRoundTrip(cs[1..]);
      assert items[1..] == seq(|cs[1..]|, i requires 0 <= i < |cs[1..]| => Object(CapabilityFields(cs[1..][i])));
      assert cs == [cs[0]] + cs[1..];
    }
  }

  datatype ComponentVariantIdentifier = ComponentVariantIdentifier(
    componentId: ComponentIdentifier,
    attributes: StringMap,
    capabilities: seq<Capability>)

  /** `ComponentVariantIdentifier.fromMap`: the component, the attributes as they are, the capabilities in order. */
  function ComponentVariantFromMap(data: Fields): (r: Result<ComponentVariantIdentifier>)
    ensures r.Ok? ==> CastMap(data, "componentId").Ok? && FromMap(CastMap(data, "componentId").value) == Ok(r.value.componentId)
    ensures r.Ok? ==> CastStringMap(data, "attributes") == Ok(r.value.attributes)
    ensures r.Ok? ==>
      var items := CastList(data, "capabilities");
      && items.Ok? && |r.value.capabilities| == |items.value|
      && forall i :: 0 <= i < |items.value| ==>
           items.value[i].Object? && CapabilityFromMap(items.value[i].entries) == Ok(r.value.capabilities[i])
  {
    var componentFields :- CastMap(data, "componentId");
    var attributes :- CastStringMap(data, "attributes");
    var items :- CastList(data, "capabilities");
    var componentId :- FromMap(componentFields);
    var capabilities :- CapabilitiesFromList(items);
    Ok(ComponentVariantIdentifier(componentId, attributes, capabilities))
  }

  // ---------------------------------------------------------------------------
  // Transformation identity

  datatype ConfigurationIdentity = ConfigurationIdentity(buildPath: string, projectPath: string, name: string)

  function ConfigurationFromMap(m: Fields): Result<ConfigurationIdentity> {
    var buildPath :- CastString(m, "buildPath");
    var projectPath :- CastString(m, "projectPath");
    var name :- CastString(m, "name");
    Ok(ConfigurationIdentity(buildPath, projectPath, name))
  }

  /** `data[key]` is missing or null. */
  predicate AbsentOrNull(data: Fields, key: string) {
    Get(data, key).None? || Get(data, key) == Some(Null)
  }

  /** `(data["dependenciesConfigurationIdentity"] as Map<String, *>?)?.let { ConfigurationIdentity(...) }` */
  function DependenciesFromMap(data: Fields): (r: Result<Option<ConfigurationIdentity>>)
    ensures r == Ok(None) <==> AbsentOrNull(data, "dependenciesConfigurationIdentity")
    ensures (r.Ok? && r.value.Some?) <==>
      match Get(data, "dependenciesConfigurationIdentity")
      case Some(Object(fs)) => ConfigurationFromMap(fs).Ok?
      case _ => false
    ensures r.Ok? && r.value.Some? ==>
      ConfigurationFromMap(Get(data, "dependenciesConfigurationIdentity").value.entries) == Ok(r.value.value)
  {
    var it :- CastNullableMap(data, "dependenciesConfigurationIdentity");
    match it
    case None => Ok(None)
    case Some(fs) =>
      var c :- ConfigurationFromMap(fs);
      Ok(Some(c))
  }

  datatype TransformationIdentity = TransformationIdentity(
    buildPath: string,
    projectPath: string,
    targetVariant: ComponentVariantIdentifier,
    artifactName: string,
    dependenciesConfigurationIdentity: Option<ConfigurationIdentity>,
    transformationNodeId: int)

  /** `TransformationIdentity.fromMap`: the identity fields in the order they are written. */
  function TransformationFromMap(data: Fields): (r: Result<TransformationIdentity>)
    ensures r.Ok? ==>
      (r.value.dependenciesConfigurationIdentity.None? <==> AbsentOrNull(data, "dependenciesConfigurationIdentity"))
    ensures r.Ok? ==> CastString(data, "buildPath") == Ok(r.value.buildPath) && CastString(data, "projectPath") == Ok(r.value.projectPath)
    ensures r.Ok? ==> CastString(data, "artifactName") == Ok(r.value.artifactName)
  {
    var buildPath :- CastString(data, "buildPath");
    var projectPath :- CastString(data, "projectPath");
    var variantData :- CastMap(data, "targetVariant");
    var targetVariant :- ComponentVariantFromMap(variantData);
    var artifactName :- CastString(data, "artifactName");
    var dependencies :- DependenciesFromMap(data);
    var transformationNodeId :- CastLong(data, "transformationNodeId");
    Ok(TransformationIdentity(buildPath, projectPath, targetVariant, artifactName, dependencies, transformationNodeId))
  }

  // ---------------------------------------------------------------------------
  // Scheduled transformation step

  datatype ExecuteScheduledTransformationStepBuildOperationDetails = ExecuteScheduledTransformationStepBuildOperationDetails(
    transformationIdentity: TransformationIdentity,
    sourceAttributes: StringMap,
    transformType: string,
    fromAttributes: StringMap,
    toAttributes: StringMap)

  /** `ExecuteScheduledTransformationStepBuildOperationDetails.fromRecord`: attribute maps sorted by key, entries kept. */
  function StepDetailsFromStart(start: OperationLog.BuildOperationStart): (r: Result<ExecuteScheduledTransformationStepBuildOperationDetails>)
    ensures r.Ok? ==> start.details.Some?
    ensures r.Ok? ==> Operations.SortedCopy(start.details.value, "sourceAttributes", r.value.sourceAttributes)
    ensures r.Ok? ==> Operations.SortedCopy(start.details.value, "fromAttributes", r.value.fromAttributes)
    ensures r.Ok? ==> Operations.SortedCopy(start.details.value, "toAttributes", r.value.toAttributes)
  {
    var details :- NotNull(start.details, "details");
    var identityData :- CastMap(details, "transformationIdentity");
    var transformationIdentity :- TransformationFromMap(identityData);
    var sourceAttributes :- Operations.SortedAttributes(details, "sourceAttributes");
    var transformType :- CastString(details, "transformType");
    var fromAttributes :- Operations.SortedAttributes(details, "fromAttributes");
    var toAttributes :- Operations.SortedAttributes(details, "toAttributes");
    Ok(ExecuteScheduledTransformationStepBuildOperationDetails(
      transformationIdentity, sourceAttributes, transformType, fromAttributes, toAttributes))
  }
}
