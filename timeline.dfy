/**
 * app/.../TraceToTimelineConverter.kt: a visitor that keeps one node per task execution
 * and per scheduled transformation step, in visit order, and writes them as CSV rows
 * under a header. A transformation's description is its component followed by the
 * attributes the transformation changes.
 */
module Timeline {
  import opened Values
  import opened Strings
  import opened OperationRecord
  import Operations
  import BuildopsDetails
  import Csv

  datatype NodeType = TASK | TRANSFORM

  /** The enum's `toString`: its constant's name. */
  function NodeTypeToString(t: NodeType): string {
    match t
    case TASK => "TASK"
    case TRANSFORM => "TRANSFORM"
  }

  datatype Node = Node(
    description: string,
    nodeType: NodeType,
    inTypeId: int,
    workType: string,
    buildPath: string,
    projectPath: string,
    startTime: int,
    duration: int)

  /** The callback `visit` returns, `{}`: it does nothing when the operation finishes. */
  datatype PostVisit = NoOp

  // ---------------------------------------------------------------------------
  // The nodes

  /** The node `onExecuteTask` adds for a task's details. */
  function TaskNode(record: BuildOperationRecord, d: Operations.ExecuteTaskBuildOperationDetails): Node {
    Node(d.taskPath, TASK, d.taskId, d.taskClass, d.buildPath, SubstringBeforeLast(d.taskPath, ':'),
      record.startTime, record.endTime - record.startTime)
  }

  /** The piece `compressAttributes` writes for one entry of `toAttributes`. */
  function Piece(fromAttributes: StringMap, name: string, toValue: string): string {
    var fromValue := GetString(fromAttributes, name);
    if fromValue == Some(toValue) then ""
    else if fromValue.None? then " " + name + "(" + toValue + ")"
    else " " + name + "(" + fromValue.value + "->" + toValue + ")"
  }

  /** The pieces of the entries of `toAttributes`, in its order. */
  function Compressed(fromAttributes: StringMap, toAttributes: StringMap): string
    decreases |toAttributes|
  {
    if toAttributes == [] then ""
    else
      var last := toAttributes[|toAttributes| - 1];
      Compressed(fromAttributes, toAttributes[..|toAttributes| - 1]) + Piece(fromAttributes, last.0, last.1)
  }

  /** `createTransformationDescription`: the component, then the changed attributes. */
  function TransformationDescription(identity: Operations.TransformationIdentity): string {
    Operations.ComponentToString(identity.componentId) + Compressed(identity.fromAttributes, identity.toAttributes)
  }

  /** The node `onExecuteTransform` adds for a transformation identity. */
  function TransformNode(record: BuildOperationRecord, identity: Operations.TransformationIdentity): Node {
    Node(TransformationDescription(identity), TRANSFORM, identity.transformationNodeId, identity.transformType,
      identity.buildPath, identity.projectPath, record.startTime, record.endTime - record.startTime)
  }

  /** The nodes `visit` adds for a record: a task, else a transformation step, else none. */
  function VisitNodes(record: BuildOperationRecord): Result<seq<Node>> {
    if BuildopsDetails.IsExecuteTask(record) then
      var d :- Operations.ExecuteTaskFromRecord(record);
      Ok([TaskNode(record, d)])
    else if BuildopsDetails.IsExecuteScheduledTransformationStep(record) then
      var identity :- Operations.TransformationFromRecord(record);
      Ok([TransformNode(record, identity)])
    else Ok([])
  }

  // ---------------------------------------------------------------------------
  // Properties of the nodes

  /**
   * A visit adds one node exactly for a task execution or a transformation step, of the
   * matching type, and none for any other record; it fails only when decoding a
   * recognised record's details fails.
   */
  lemma VisitNodesCases(record: BuildOperationRecord)
    ensures var r := VisitNodes(record);
      r.Ok? ==> (|r.value| == 1 <==>
        BuildopsDetails.IsExecuteTask(record) || BuildopsDetails.IsExecuteScheduledTransformationStep(record))
    ensures var r := VisitNodes(record);
      r.Ok? && !BuildopsDetails.IsExecuteTask(record) && !BuildopsDetails.IsExecuteScheduledTransformationStep(record) ==>
        r.value == []
    ensures var r := VisitNodes(record);
      r.Ok? && BuildopsDetails.IsExecuteTask(record) ==> r.value[0].nodeType == TASK
    ensures var r := VisitNodes(record);
      r.Ok? && BuildopsDetails.IsExecuteScheduledTransformationStep(record) ==> r.value[0].nodeType == TRANSFORM
    ensures VisitNodes(record).Err? ==>
      BuildopsDetails.IsExecuteTask(record) || BuildopsDetails.IsExecuteScheduledTransformationStep(record)
  {
    BuildopsDetails.DetailsKinds(record);
  }

  /** Every node starts when its record starts and lasts until it ends. */
  lemma VisitNodesTiming(record: BuildOperationRecord)
    ensures var r := VisitNodes(record);
      r.Ok? ==> forall n | n in r.value :: n.startTime == record.startTime && n.startTime + n.duration == record.endTime
  {
  }

  /**
   * A task node is described by its task path, and its project path is the task path up
   * to its last ':' (all of it when it has none).
   */
  lemma TaskNodeFields(record: BuildOperationRecord, d: Operations.ExecuteTaskBuildOperationDetails)
    ensures TaskNode(record, d).description == d.taskPath
    ensures ':' !in d.taskPath ==> TaskNode(record, d).projectPath == d.taskPath
    ensures ':' in d.taskPath ==>
      exists taskName :: d.taskPath == TaskNode(record, d).projectPath + ":" + taskName && ':' !in taskName
  {
  }

  lemma TaskProjectPathExample()
    ensures SubstringBeforeLast(":app:compile", ':') == ":app"
  {
    var s := ":app:compile";
    var k := LastIndexOf(s, ':');
    assert s[4] == ':';
    assert forall j :: 5 <= j < |s| ==> s[j] != ':';
    assert k >= 4 by {
      assert forall j :: k < j < |s| ==> s[j] == s[k + 1..][j - k - 1];
    }
  }

  /** `compressAttributes` is empty exactly when every attribute keeps the value it had. */
  lemma {:induction false} CompressedEmptyIff(fromAttributes: StringMap, toAttributes: StringMap)
    ensures Compressed(fromAttributes, toAttributes) == "" <==>
      forall i :: 0 <= i < |toAttributes| ==> GetString(fromAttributes, toAttributes[i].0) == Some(toAttributes[i].1)
    decreases |toAttributes|
  {
    if toAttributes != [] {
      var init := toAttributes[..|toAttributes| - 1];
      CompressedEmptyIff(fromAttributes, init);
      assert forall i :: 0 <= i < |init| ==> init[i] == toAttributes[i];
    }
  }

  /** Identical attribute maps compress to "". */
  lemma IdenticalAttributesCompressEmpty(m: StringMap)
    requires forall i, j :: 0 <= i < j < |m| ==> m[i].0 != m[j].0
    ensures Compressed(m, m) == ""
  {
    forall i | 0 <= i < |m| ensures GetString(m, m[i].0) == Some(m[i].1) {
      GetStringAt(m, i);
    }
    CompressedEmptyIff(m, m);
  }

  /** `fromAttributes` is only consulted at the keys of `toAttributes`. */
  lemma {:induction false} CompressedLookupsOnly(from1: StringMap, from2: StringMap, toAttributes: StringMap)
    requires forall i :: 0 <= i < |toAttributes| ==> GetString(from1, toAttributes[i].0) == GetString(from2, toAttributes[i].0)
    ensures Compressed(from1, toAttributes) == Compressed(from2, toAttributes)
    decreases |toAttributes|
  {
    if toAttributes != [] {
      var init := toAttributes[..|toAttributes| - 1];
      assert forall i :: 0 <= i < |init| ==> init[i] == toAttributes[i];
      CompressedLookupsOnly(from1, from2, init);
    }
  }

  /** An attribute only `fromAttributes` has never shows in the description. */
  lemma FromOnlyAttributeIgnored(fromAttributes: StringMap, toAttributes: StringMap, name: string, value: string)
    requires forall i :: 0 <= i < |toAttributes| ==> toAttributes[i].0 != name
    ensures Compressed(fromAttributes + [(name, value)], toAttributes) == Compressed(fromAttributes, toAttributes)
  {
    forall i | 0 <= i < |toAttributes|
      ensures GetString(fromAttributes + [(name, value)], toAttributes[i].0) == GetString(fromAttributes, toAttributes[i].0)
    {
      GetStringSnoc(fromAttributes, name, value, toAttributes[i].0);
    }
    CompressedLookupsOnly(fromAttributes + [(name, value)], fromAttributes, toAttributes);
  }

  // ---------------------------------------------------------------------------
  // The output

  const HeaderNames: seq<string> :=
    ["description", "type", "inTypeId", "workType", "buildPath", "projectPath", "startTime", "duration"]

  const Header: string := Join(",", HeaderNames)

  /** The header holds the eight column names, in order. */
  lemma HeaderColumns()
    ensures Split(Header, ',') == HeaderNames
    ensures '\n' !in Header
  {
    var names := HeaderNames;
    assert forall i :: 0 <= i < |names| ==> ',' !in names[i] && '\n' !in names[i];
    SplitJoin(names, ',');
    JoinChars(",", names, '\n');
  }

  /** The eight fields of a node's row, in the order of the header. */
  function NodeFields(node: Node): seq<string> {
    [node.description, NodeTypeToString(node.nodeType), IntToString(node.inTypeId), node.workType,
     node.buildPath, node.projectPath, IntToString(node.startTime), IntToString(node.duration)]
  }

  /** `composeRow(node)` */
  function ComposeRow(node: Node): string {
    Csv.ComposeCsvRow(NodeFields(node))
  }

  /** A row reads back as the node's fields, its numbers as the node's numbers. */
  lemma ComposeRowRoundTrip(node: Node)
    ensures Csv.ParseRow(ComposeRow(node)) == NodeFields(node)
    ensures var f := Csv.ParseRow(ComposeRow(node));
      && f[0] == node.description && f[3] == node.workType && f[4] == node.buildPath && f[5] == node.projectPath
      && ParseInt(f[2]) == node.inTypeId && ParseInt(f[6]) == node.startTime && ParseInt(f[7]) == node.duration
  {
    Csv.ParseComposeRoundTrip(NodeFields(node));
    IntToStringRoundTrip(node.inTypeId);
    IntToStringRoundTrip(node.startTime);
    IntToStringRoundTrip(node.duration);
  }

  function Rows(nodes: seq<Node>): (rows: seq<string>)
    ensures |rows| == |nodes|
  {
    seq(|nodes|, i requires 0 <= i < |nodes| => ComposeRow(nodes[i]))
  }

  /** What `convert` writes: the header, then one row per node, each after a line break. */
  function OutputText(nodes: seq<Node>): string {
    Join("\n", [Header] + Rows(nodes))
  }

  /** When no text field of a node holds a line break, the output's lines are the header and the rows, one per node. */
  lemma OutputLines(nodes: seq<Node>)
    requires forall n | n in nodes ::
      '\n' !in n.description && '\n' !in n.workType && '\n' !in n.buildPath && '\n' !in n.projectPath
    ensures Split(OutputText(nodes), '\n') == [Header] + Rows(nodes)
    ensures |Split(OutputText(nodes), '\n')| == |nodes| + 1
  {
    LinesHaveNoLineBreak(nodes);
    SplitJoin([Header] + Rows(nodes), '\n');
  }

  lemma LinesHaveNoLineBreak(nodes: seq<Node>)
    requires forall n | n in nodes ::
      '\n' !in n.description && '\n' !in n.workType && '\n' !in n.buildPath && '\n' !in n.projectPath
    ensures forall i :: 0 <= i < |nodes| + 1 ==> '\n' !in ([Header] + Rows(nodes))[i]
  {
    HeaderColumns();
    forall i | 0 <= i < |nodes| ensures '\n' !in Rows(nodes)[i] {
      RowHasNoLineBreak(nodes[i]);
    }
  }

  lemma RowHasNoLineBreak(n: Node)
    requires '\n' !in n.description && '\n' !in n.workType && '\n' !in n.buildPath && '\n' !in n.projectPath
    ensures '\n' !in ComposeRow(n)
  {
    IntToStringHasNo(n.inTypeId, '\n');
    IntToStringHasNo(n.startTime, '\n');
    IntToStringHasNo(n.duration, '\n');
    Csv.RowHasNo(NodeFields(n), '\n');
  }

  // ---------------------------------------------------------------------------
  // The converter

  class TraceToTimelineConverter {
    var nodes: seq<Node>

    constructor()
      ensures nodes == []
    {
      nodes := [];
    }

    /**
     * `visit(record)`: adds the record's node, if it is a task execution or a
     * transformation step; a failure while decoding leaves the nodes as they were.
     */
    method Visit(record: BuildOperationRecord) returns (r: Result<PostVisit>)
      modifies this
      ensures r.Ok? <==> VisitNodes(record).Ok?
      ensures r.Ok? ==> nodes == old(nodes) + VisitNodes(record).value
      ensures r.Err? ==> nodes == old(nodes)
    {
      if BuildopsDetails.IsExecuteTask(record) {
        var added := OnExecuteTask(record);
        if added.Err? {
          return Err(added.reason);
        }
      } else if BuildopsDetails.IsExecuteScheduledTransformationStep(record) {
        var added := OnExecuteTransform(record);
        if added.Err? {
          return Err(added.reason);
        }
      }
      return Ok(NoOp);
    }

    method OnExecuteTask(record: BuildOperationRecord) returns (r: Result<Node>)
      modifies this
      ensures r.Ok? <==> Operations.ExecuteTaskFromRecord(record).Ok?
      ensures r.Ok? ==> r.value == TaskNode(record, Operations.ExecuteTaskFromRecord(record).value)
      ensures r.Ok? ==> nodes == old(nodes) + [r.value]
      ensures r.Err? ==> nodes == old(nodes)
    {
      var executeTaskDetails := Operations.ExecuteTaskFromRecord(record);
      if executeTaskDetails.Err? {
        return Err(executeTaskDetails.reason);
      }
      var d := executeTaskDetails.value;
      var node := Node(d.taskPath, TASK, d.taskId, d.taskClass, d.buildPath, SubstringBeforeLast(d.taskPath, ':'),
        record.startTime, record.endTime - record.startTime);
      nodes := nodes + [node];
      return Ok(node);
    }

    method OnExecuteTransform(record: BuildOperationRecord) returns (r: Result<Node>)
      modifies this
      ensures r.Ok? <==> Operations.TransformationFromRecord(record).Ok?
      ensures r.Ok? ==> r.value == TransformNode(record, Operations.TransformationFromRecord(record).value)
      ensures r.Ok? ==> nodes == old(nodes) + [r.value]
      ensures r.Err? ==> nodes == old(nodes)
    {
      var decoded := Operations.TransformationFromRecord(record);
      if decoded.Err? {
        return Err(decoded.reason);
      }
      var identity := decoded.value;
      var compressed := CompressAttributes(identity.fromAttributes, identity.toAttributes);
      var description := Operations.ComponentToString(identity.componentId) + compressed;
      var node := Node(description, TRANSFORM, identity.transformationNodeId, identity.transformType,
        identity.buildPath, identity.projectPath, record.startTime, record.endTime - record.startTime);
      nodes := nodes + [node];
      return Ok(node);
    }

    /** `convert`'s writing loop: the header, then a line break and a row per node. */
    method Output() returns (text: string)
      ensures text == OutputText(nodes)
    {
      text := Header;
      var i := 0;
      while i < |nodes|
        invariant 0 <= i <= |nodes|
        invariant text == Join("\n", [Header] + Rows(nodes[..i]))
      {
        OutputStep(nodes, i);
        text := text + "\n" + ComposeRow(nodes[i]);
        i := i + 1;
      }
      assert nodes[..i] == nodes;
    }
  }

  /**
   * `compressAttributes`: for each entry of `toAttributes` in order, nothing when
   * `fromAttributes` maps its name to the same value, ` name(to)` when it has no value
   * for the name, ` name(from->to)` otherwise.
   */
  method CompressAttributes(fromAttributes: StringMap, toAttributes: StringMap) returns (s: string)
    ensures s == Compressed(fromAttributes, toAttributes)
  {
    s := "";
    var i := 0;
    while i < |toAttributes|
      invariant 0 <= i <= |toAttributes|
      invariant s == Compressed(fromAttributes, toAttributes[..i])
    {
      var (name, toValue) := toAttributes[i];
      var fromValue := GetString(fromAttributes, name);
      ghost var before := s;
      AppendedPiece(before, fromAttributes, name, toValue);
      CompressedStep(fromAttributes, toAttributes, i);
      if fromValue != Some(toValue) {
        s := s + " " + name + "(";
        if fromValue.None? {
          s := s + toValue;
        } else {
          s := s + fromValue.value + "->" + toValue;
        }
        s := s + ")";
      }
      i := i + 1;
    }
    assert toAttributes[..i] == toAttributes;
  }

  lemma CompressedStep(fromAttributes: StringMap, toAttributes: StringMap, i: int)
    requires 0 <= i < |toAttributes|
    ensures Compressed(fromAttributes, toAttributes[..i + 1]) ==
      Compressed(fromAttributes, toAttributes[..i]) + Piece(fromAttributes, toAttributes[i].0, toAttributes[i].1)
  {
    assert toAttributes[..i + 1][..i] == toAttributes[..i];
  }

  /** The appends of `compressAttributes`' loop body add exactly the entry's piece. */
  lemma AppendedPiece(before: string, fromAttributes: StringMap, name: string, toValue: string)
    ensures GetString(fromAttributes, name) == Some(toValue) ==>
      before == before + Piece(fromAttributes, name, toValue)
    ensures GetString(fromAttributes, name).None? ==>
      before + " " + name + "(" + toValue + ")" == before + Piece(fromAttributes, name, toValue)
    ensures GetString(fromAttributes, name).Some? && GetString(fromAttributes, name) != Some(toValue) ==>
      before + " " + name + "(" + GetString(fromAttributes, name).value + "->" + toValue + ")"
        == before + Piece(fromAttributes, name, toValue)
  {
    var fromValue := GetString(fromAttributes, name);
    if fromValue == Some(toValue) {
      assert before + "" == before;
    } else if fromValue.None? {
      AppendedFive(before, " ", name, "(", toValue, ")");
    } else {
      AppendedFive(before, " ", name, "(", fromValue.value, "->" + toValue + ")");
      assert fromValue.value + "->" + toValue + ")" == fromValue.value + ("->" + toValue + ")");
      assert " " + name + "(" + fromValue.value + "->" + toValue + ")" == " " + name + "(" + fromValue.value + ("->" + toValue + ")");
      assert before + " " + name + "(" + fromValue.value + "->" + toValue + ")" == before + " " + name + "(" + fromValue.value + ("->" + toValue + ")");
    }
  }

  lemma AppendedFive(s: string, a: string, b: string, c: string, d: string, e: string)
    ensures s + a + b + c + d + e == s + (a + b + c + d + e)
  {
    ConcatAssoc(s, a + b + c + d, e);
    ConcatAssoc(s, a + b + c, d);
    ConcatAssoc(s, a + b, c);
    ConcatAssoc(s, a, b);
  }

  lemma RowsSnoc(nodes: seq<Node>, i: int)
    requires 0 <= i < |nodes|
    ensures Rows(nodes[..i + 1]) == Rows(nodes[..i]) + [ComposeRow(nodes[i])]
  {
  }

  lemma OutputStep(nodes: seq<Node>, i: int)
    requires 0 <= i < |nodes|
    ensures Join("\n", [Header] + Rows(nodes[..i + 1])) == Join("\n", [Header] + Rows(nodes[..i])) + "\n" + ComposeRow(nodes[i])
  {
    RowsSnoc(nodes, i);
    ConcatAssoc([Header], Rows(nodes[..i]), [ComposeRow(nodes[i])]);
    JoinSnoc("\n", [Header] + Rows(nodes[..i]), ComposeRow(nodes[i]));
  }
}
