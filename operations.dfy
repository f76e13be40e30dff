/**
 * app/.../operations.kt: the decoded details of the two kinds of build operation the
 * timeline shows, read from a `BuildOperationRecord`: a task execution and a scheduled
 * transformation step, with its component identifier and its sorted attribute maps.
 * A failed cast or a missing identifier is an `Err`.
 */
module Operations {
  import opened Values
  import opened Strings
  import opened OperationRecord

  /** The sealed class `ComponentIdentifier` (`module` is a Dafny keyword, hence `moduleName`). */
  datatype ComponentIdentifier =
    | Project(buildPath: string, projectPath: string)
    | Module(group: string, moduleName: string, version: string)
    | Unknown(displayName: string, className: string)

  /** The three `toString` overrides. */
  function ComponentToString(c: ComponentIdentifier): string {
    match c
    case Project(buildPath, projectPath) => if buildPath == ":" then projectPath else buildPath + projectPath
    case Module(group, moduleName, version) => group + ":" + moduleName + ":" + version
    case Unknown(displayName, className) => displayName + " (" + className + ")"
  }

  /** A project of the root build renders as its path alone; so does a project with an empty build path. */
  lemma ProjectRendering(buildPath: string, projectPath: string)
    ensures ComponentToString(Project(buildPath, projectPath)) == projectPath <==> buildPath == ":" || buildPath == ""
    ensures buildPath != ":" ==> ComponentToString(Project(buildPath, projectPath)) == buildPath + projectPath
  {
    if buildPath != ":" && ComponentToString(Project(buildPath, projectPath)) == projectPath {
      assert |buildPath + projectPath| == |projectPath|;
    }
  }

  /** A module coordinate splits back into its three parts when none of them holds ':'. */
  lemma ModuleRendering(group: string, moduleName: string, version: string)
    requires ':' !in group && ':' !in moduleName && ':' !in version
    ensures Split(ComponentToString(Module(group, moduleName, version)), ':') == [group, moduleName, version]
  {
    assert ComponentToString(Module(group, moduleName, version)) == Join([':'], [group, moduleName, version]);
    SplitJoin([group, moduleName, version], ':');
  }

  /** An unknown identifier splits at its '(' into the display name and the class name, when neither holds '('. */
  lemma UnknownRendering(displayName: string, className: string)
    requires '(' !in displayName && '(' !in className
    ensures Split(ComponentToString(Unknown(displayName, className)), '(') == [displayName + " ", className + ")"]
  {
    var head := displayName + " ";
    var tail := className + ")";
    assert '(' !in head && '(' !in tail;
    assert ComponentToString(Unknown(displayName, className)) == head + ['('] + tail;
    SplitCons(head, tail, '(');
    assert IndexOf(tail, '(') == |tail|;
  }

  /**
   * `unpackComponentIdentifier(fields)`: a project when both paths are present, else a
   * module when its three coordinates are, else an unknown component when its two names
   * are, else an error. Every key is read, as a `String?`, before the choice is made.
   */
  function UnpackComponentIdentifier(fields: Fields): Result<ComponentIdentifier> {
    var buildPath :- CastNullableString(fields, "buildPath");
    var projectPath :- CastNullableString(fields, "projectPath");
    var group :- CastNullableString(fields, "group");
    var moduleName :- CastNullableString(fields, "module");
    var version :- CastNullableString(fields, "version");
    var displayName :- CastNullableString(fields, "displayName");
    var className :- CastNullableString(fields, "className");
    if buildPath.Some? && projectPath.Some? then Ok(Project(buildPath.value, projectPath.value))
    else if group.Some? && moduleName.Some? && version.Some? then Ok(Module(group.value, moduleName.value, version.value))
    else if displayName.Some? && className.Some? then Ok(Unknown(displayName.value, className.value))
    else Err("Unknown component identifier")
  }

  /** `fields[key]` holds a string. */
  predicate Present(fields: Fields, key: string) {
    CastNullableString(fields, key).Ok? && CastNullableString(fields, key).value.Some?
  }

  /** The string `fields[key]` holds. */
  function PresentValue(fields: Fields, key: string): string
    requires Present(fields, key)
  {
    CastNullableString(fields, key).value.value
  }

  /** Every key `unpackComponentIdentifier` reads is absent, null or a string. */
  predicate ComponentKeysReadable(fields: Fields) {
    && CastNullableString(fields, "buildPath").Ok?
    && CastNullableString(fields, "projectPath").Ok?
    && CastNullableString(fields, "group").Ok?
    && CastNullableString(fields, "module").Ok?
    && CastNullableString(fields, "version").Ok?
    && CastNullableString(fields, "displayName").Ok?
    && CastNullableString(fields, "className").Ok?
  }

  /** The precedence Project > Module > Unknown > error, stated on the fields present. */
  lemma UnpackPrecedence(fields: Fields)
    ensures !ComponentKeysReadable(fields) ==> UnpackComponentIdentifier(fields).Err?
    ensures ComponentKeysReadable(fields) ==>
      var r := UnpackComponentIdentifier(fields);
      var isProject := Present(fields, "buildPath") && Present(fields, "projectPath");
      var isModule := Present(fields, "group") && Present(fields, "module") && Present(fields, "version");
      var isUnknown := Present(fields, "displayName") && Present(fields, "className");
      && (isProject ==> r == Ok(Project(PresentValue(fields, "buildPath"), PresentValue(fields, "projectPath"))))
      && (!isProject && isModule ==>
            r == Ok(Module(PresentValue(fields, "group"), PresentValue(fields, "module"), PresentValue(fields, "version"))))
      && (!isProject && !isModule && isUnknown ==>
            r == Ok(Unknown(PresentValue(fields, "displayName"), PresentValue(fields, "className"))))
      && (r.Err? <==> !isProject && !isModule && !isUnknown)
  {
    if ComponentKeysReadable(fields) {
      var buildPath := CastNullableString(fields, "buildPath").value;
      var projectPath := CastNullableString(fields, "projectPath").value;
      var group := CastNullableString(fields, "group").value;
      var moduleName := CastNullableString(fields, "module").value;
      var version := CastNullableString(fields, "version").value;
      var displayName := CastNullableString(fields, "displayName").value;
      var className := CastNullableString(fields, "className").value;
      assert UnpackComponentIdentifier(fields) ==
        if buildPath.Some? && projectPath.Some? then Ok(Project(buildPath.value, projectPath.value))
        else if group.Some? && moduleName.Some? && version.Some? then Ok(Module(group.value, moduleName.value, version.value))
        else if displayName.Some? && className.Some? then Ok(Unknown(displayName.value, className.value))
        else Err("Unknown component identifier");
    }
  }

  /** The fields a component identifier is written with. */
  function ComponentFields(c: ComponentIdentifier): Fields {
    match c
    case Project(buildPath, projectPath) => [Entry("buildPath", Str(buildPath)), Entry("projectPath", Str(projectPath))]
    case Module(group, moduleName, version) =>
      [Entry("group", Str(group)), Entry("module", Str(moduleName)), Entry("version", Str(version))]
    case Unknown(displayName, className) => [Entry("displayName", Str(displayName)), Entry("className", Str(className))]
  }

  /** Reading back the fields of an identifier gives the identifier. */
  lemma UnpackComponentFields(c: ComponentIdentifier)
    ensures UnpackComponentIdentifier(ComponentFields(c)) == Ok(c)
  {
    match c
    case Project(buildPath, projectPath) => UnpackProjectFields(buildPath, projectPath);
    case Module(group, moduleName, version) => UnpackModuleFields(group, moduleName, version);
    case Unknown(displayName, className) => UnpackUnknownFields(displayName, className);
  }

  lemma UnpackProjectFields(buildPath: string, projectPath: string)
    ensures UnpackComponentIdentifier(ComponentFields(Project(buildPath, projectPath))) == Ok(Project(buildPath, projectPath))
  {
    var fields := ComponentFields(Project(buildPath, projectPath));
    GetAt(fields, 0);
    GetAt(fields, 1);
    assert CastNullableString(fields, "buildPath") == Ok(Some(buildPath));
    assert CastNullableString(fields, "projectPath") == Ok(Some(projectPath));
    assert ComponentKeysReadable(fields);
  }

  lemma UnpackModuleFields(group: string, moduleName: string, version: string)
    ensures UnpackComponentIdentifier(ComponentFields(Module(group, moduleName, version))) == Ok(Module(group, moduleName, version))
  {
    var fields := ComponentFields(Module(group, moduleName, version));
    GetAt(fields, 0);
    GetAt(fields, 1);
    GetAt(fields, 2);
    assert CastNullableString(fields, "buildPath") == Ok(None);
    assert CastNullableString(fields, "projectPath") == Ok(None);
    assert CastNullableString(fields, "group") == Ok(Some(group));
    assert CastNullableString(fields, "module") == Ok(Some(moduleName));
    assert CastNullableString(fields, "version") == Ok(Some(version));
    assert ComponentKeysReadable(fields);
  }

  lemma UnpackUnknownFields(displayName: string, className: string)
    ensures UnpackComponentIdentifier(ComponentFields(Unknown(displayName, className))) == Ok(Unknown(displayName, className))
  {
    var fields := ComponentFields(Unknown(displayName, className));
    GetAt(fields, 0);
    GetAt(fields, 1);
    assert CastNullableString(fields, "buildPath") == Ok(None);
    assert CastNullableString(fields, "projectPath") == Ok(None);
    assert CastNullableString(fields, "group") == Ok(None);
    assert CastNullableString(fields, "module") == Ok(None);
    assert CastNullableString(fields, "version") == Ok(None);
    assert CastNullableString(fields, "displayName") == Ok(Some(displayName));
    assert CastNullableString(fields, "className") == Ok(Some(className));
    assert ComponentKeysReadable(fields);
  }

  // ---------------------------------------------------------------------------
  // Task details

  datatype ExecuteTaskBuildOperationDetails = ExecuteTaskBuildOperationDetails(
    buildPath: string,
    taskPath: string,
    taskId: int,
    taskClass: string)

  /** `ExecuteTaskBuildOperationDetails.fromRecord`: the four fields read from the details, in order. */
  function ExecuteTaskFromRecord(record: BuildOperationRecord): Result<ExecuteTaskBuildOperationDetails> {
    var details :- NotNull(record.details, "details");
    var buildPath :- CastString(details, "buildPath");
    var taskPath :- CastString(details, "taskPath");
    var taskId :- CastLong(details, "taskId");
    var taskClass :- CastString(details, "taskClass");
    Ok(ExecuteTaskBuildOperationDetails(buildPath, taskPath, taskId, taskClass))
  }

  /** The details are taken over unchanged, and decoding fails exactly when one of them is missing or mistyped. */
  lemma ExecuteTaskFromRecordCopies(record: BuildOperationRecord)
    ensures var r := ExecuteTaskFromRecord(record);
      r.Ok? <==>
        record.details.Some?
        && CastString(record.details.value, "buildPath").Ok? && CastString(record.details.value, "taskPath").Ok?
        && CastLong(record.details.value, "taskId").Ok? && CastString(record.details.value, "taskClass").Ok?
    ensures var r := ExecuteTaskFromRecord(record);
      r.Ok? ==>
        && Get(record.details.value, "buildPath") == Some(Str(r.value.buildPath))
        && Get(record.details.value, "taskPath") == Some(Str(r.value.taskPath))
        && Get(record.details.value, "taskId") == Some(Num(r.value.taskId))
        && Get(record.details.value, "taskClass") == Some(Str(r.value.taskClass))
  {
  }

  /** The details a task execution is recorded with. */
  function TaskDetailsFields(d: ExecuteTaskBuildOperationDetails): Fields {
    [Entry("buildPath", Str(d.buildPath)), Entry("taskPath", Str(d.taskPath)),
     Entry("taskId", Num(d.taskId)), Entry("taskClass", Str(d.taskClass))]
  }

  /** Decoding the recorded details gives the details back. */
  lemma ExecuteTaskRoundTrip(record: BuildOperationRecord, d: ExecuteTaskBuildOperationDetails)
    requires record.details == Some(TaskDetailsFields(d))
    ensures ExecuteTaskFromRecord(record) == Ok(d)
  {
    TaskDetailsCasts(d);
  }

  lemma TaskDetailsCasts(d: ExecuteTaskBuildOperationDetails)
    ensures var fields := TaskDetailsFields(d);
      && CastString(fields, "buildPath") == Ok(d.buildPath)
      && CastString(fields, "taskPath") == Ok(d.taskPath)
      && CastLong(fields, "taskId") == Ok(d.taskId)
      && CastString(fields, "taskClass") == Ok(d.taskClass)
  {
    TaskDetailsPathCasts(d);
    TaskDetailsTaskCasts(d);
  }

  lemma TaskDetailsPathCasts(d: ExecuteTaskBuildOperationDetails)
    ensures CastString(TaskDetailsFields(d), "buildPath") == Ok(d.buildPath)
    ensures CastString(TaskDetailsFields(d), "taskPath") == Ok(d.taskPath)
  {
    var fields := TaskDetailsFields(d);
    GetAt(fields, 0);
    GetAt(fields, 1);
  }

  lemma TaskDetailsTaskCasts(d: ExecuteTaskBuildOperationDetails)
    ensures CastLong(TaskDetailsFields(d), "taskId") == Ok(d.taskId)
    ensures CastString(TaskDetailsFields(d), "taskClass") == Ok(d.taskClass)
  {
    var fields := TaskDetailsFields(d);
    GetAt(fields, 2);
    GetAt(fields, 3);
  }

  // ---------------------------------------------------------------------------
  // Transformation identity

  datatype TransformationIdentity = TransformationIdentity(
    buildPath: string,
    projectPath: string,
    componentId: ComponentIdentifier,
    sourceAttributes: StringMap,
    transformType: string,
    fromAttributes: StringMap,
    toAttributes: StringMap,
    transformationNodeId: int)

  /** `(record.details as Map<String, *>)["transformationIdentity"] as Map<String, *>` */
  function IdentityData(record: BuildOperationRecord): Result<Fields> {
    var details :- NotNull(record.details, "details");
    CastMap(details, "transformationIdentity")
  }

  /** `attributes` is the map `m[key]` ordered by key, every entry kept. */
  ghost predicate SortedCopy(m: Fields, key: string, attributes: StringMap) {
    && CastStringMap(m, key).Ok?
    && KeysSorted(attributes)
    && multiset(attributes) == multiset(CastStringMap(m, key).value)
  }

  /** `m[key] as Map<String, String>`, then `toSortedMap()`. */
  function SortedAttributes(m: Fields, key: string): (r: Result<StringMap>)
    ensures r.Ok? <==> CastStringMap(m, key).Ok?
    ensures r.Ok? ==> SortedCopy(m, key, r.value)
  {
    var attributes :- CastStringMap(m, key);
    ToSortedMapCorrect(attributes);
    Ok(ToSortedMap(attributes))
  }

  /** `TransformationIdentity.fromRecord`: the identity fields in order, attribute maps sorted by key. */
  function TransformationFromRecord(record: BuildOperationRecord): (r: Result<TransformationIdentity>)
    ensures r.Ok? ==> IdentityData(record).Ok?
    ensures r.Ok? ==> SortedCopy(IdentityData(record).value, "sourceAttributes", r.value.sourceAttributes)
    ensures r.Ok? ==> SortedCopy(IdentityData(record).value, "fromAttributes", r.value.fromAttributes)
    ensures r.Ok? ==> SortedCopy(IdentityData(record).value, "toAttributes", r.value.toAttributes)
  {
    var identityData :- IdentityData(record);
    var buildPath :- CastString(identityData, "buildPath");
    var projectPath :- CastString(identityData, "projectPath");
    var componentFields :- CastMap(identityData, "componentId");
    var componentId :- UnpackComponentIdentifier(componentFields);
    var sourceAttributes :- SortedAttributes(identityData, "sourceAttributes");
    var transformType :- CastString(identityData, "transformType");
    var fromAttributes :- SortedAttributes(identityData, "fromAttributes");
    var toAttributes :- SortedAttributes(identityData, "toAttributes");
    var transformationNodeId :- CastLong(identityData, "transformationNodeId");
    Ok(TransformationIdentity(buildPath, projectPath, componentId, sourceAttributes, transformType,
      fromAttributes, toAttributes, transformationNodeId))
  }
}
