/**
 * app/.../BuildOperationRecord.kt: one build operation of a nested trace, with its
 * progress entries and its children. The constructor keeps `details` and `result` as
 * copies, null staying null.
 *
 * Loading a class by name (`detailsType`, `resultType`) is represented by the name
 * itself, and `Class.isAssignableFrom` by a relation on names handed in by the caller.
 */
module OperationRecord {
  import opened Values
  import opened Strings

  datatype Progress = Progress(time: int, details: Option<Fields>, detailsClassName: Option<string>)

  /** `children: List<BuildOperationRecord>?`; `NoChildren` is null. */
  datatype Children = NoChildren | Children(records: seq<BuildOperationRecord>)

  datatype BuildOperationRecord = BuildOperationRecord(
    id: int,
    parentId: int,
    displayName: string,
    startTime: int,
    endTime: int,
    workerLeaseNumber: Option<int>,
    details: Option<Fields>,
    detailsClassName: Option<string>,
    result: Option<Fields>,
    resultClassName: Option<string>,
    failure: string,
    progress: Option<seq<Progress>>,
    children: Children)

  /** `Class.isAssignableFrom`, on class names: `assignable(c, d)` when `d` is `c` or a subtype of it. */
  type Assignable = (string, string) -> bool

  /** `if (m == null) null else LinkedHashMap(m)`: a copy with the same entries in the same order. */
  function CopyMap(m: Option<Fields>): (r: Option<Fields>)
    ensures r.None? <==> m.None?
    ensures r.Some? ==> |r.value| == |m.value| && forall i :: 0 <= i < |r.value| ==> r.value[i] == m.value[i]
  {
    match m
    case None => None
    case Some(fs) => Some(seq(|fs|, i requires 0 <= i < |fs| => fs[i]))
  }

  /** The primary constructor with its `init` block. */
  function NewRecord(
    id: int, parentId: int, displayName: string, startTime: int, endTime: int,
    workerLeaseNumber: Option<int>, details: Option<Fields>, detailsClassName: Option<string>,
    result: Option<Fields>, resultClassName: Option<string>, failure: string,
    progress: Option<seq<Progress>>, children: Children): (r: BuildOperationRecord)
    ensures r.details.None? <==> details.None?
    ensures r.details.Some? ==> r.details.value == details.value
    ensures r.result.None? <==> result.None?
    ensures r.result.Some? ==> r.result.value == result.value
    ensures r.id == id && r.parentId == parentId && r.displayName == displayName
    ensures r.startTime == startTime && r.endTime == endTime && r.failure == failure
    ensures r.detailsClassName == detailsClassName && r.resultClassName == resultClassName
    ensures r.progress == progress && r.children == children && r.workerLeaseNumber == workerLeaseNumber
  {
    BuildOperationRecord(id, parentId, displayName, startTime, endTime, workerLeaseNumber,
      CopyMap(details), detailsClassName, CopyMap(result), resultClassName, failure, progress, children)
  }

  /** `Progress(time, details, detailsClassName)` with its `init` block. */
  function NewProgress(time: int, details: Option<Fields>, detailsClassName: Option<string>): (p: Progress)
    ensures p.details.None? <==> details.None?
    ensures p.details.Some? ==> p.details.value == details.value
    ensures p.time == time && p.detailsClassName == detailsClassName
  {
    Progress(time, CopyMap(details), detailsClassName)
  }

  /** `detailsType`: no class when there is no class name. */
  function DetailsType(r: BuildOperationRecord): (t: Option<string>)
    ensures t.None? <==> r.detailsClassName.None?
  {
    r.detailsClassName
  }

  /** `resultType`: no class when there is no class name. */
  function ResultType(r: BuildOperationRecord): (t: Option<string>)
    ensures t.None? <==> r.resultClassName.None?
  {
    r.resultClassName
  }

  /** `hasDetailsOfType(clazz)`: there is a details class and `clazz` is assignable from it. */
  predicate HasDetailsOfType(r: BuildOperationRecord, clazz: string, assignable: Assignable) {
    match DetailsType(r)
    case None => false
    case Some(t) => assignable(clazz, t)
  }

  /** `Progress.detailsType` */
  function ProgressDetailsType(p: Progress): (t: Option<string>)
    ensures t.None? <==> p.detailsClassName.None?
  {
    p.detailsClassName
  }

  /** `Progress.hasDetailsOfType(clazz)` */
  predicate ProgressHasDetailsOfType(p: Progress, clazz: string, assignable: Assignable) {
    match ProgressDetailsType(p)
    case None => false
    case Some(t) => assignable(clazz, t)
  }

  /** A record or progress entry without a details class has details of no type, and one has details of every type assignable from its own. */
  lemma HasDetailsOfTypeCases(r: BuildOperationRecord, p: Progress, clazz: string, assignable: Assignable)
    ensures r.detailsClassName.None? ==> !HasDetailsOfType(r, clazz, assignable)
    ensures r.detailsClassName.Some? ==> (HasDetailsOfType(r, clazz, assignable) <==> assignable(clazz, r.detailsClassName.value))
    ensures p.detailsClassName.None? ==> !ProgressHasDetailsOfType(p, clazz, assignable)
    ensures p.detailsClassName.Some? ==> (ProgressHasDetailsOfType(p, clazz, assignable) <==> assignable(clazz, p.detailsClassName.value))
  {
  }

  /** `toString()`: `BuildOperationRecord{id->displayName}`. */
  function ToString(r: BuildOperationRecord): string {
    "BuildOperationRecord{" + IntToString(r.id) + "->" + r.displayName + "}"
  }

  /** `Progress.toString()` */
  function ProgressToString(p: Progress): string {
    var className := match p.detailsClassName case None => "null" case Some(c) => c;
    "Progress{details=" + ShowNullableMap(p.details) + ", detailsClassName='" + className + "'}"
  }

  /** The rendering tells records with different ids or names apart. */
  /** `toString` cut after its fixed prefix: the id and a `-`, then `>`, then the display name and a `}`. */
  lemma ToStringShape(r: BuildOperationRecord)
    ensures ToString(r) == "BuildOperationRecord{" + ((IntToString(r.id) + "-") + ['>'] + (r.displayName + "}"))
  {
    var prefix, a, b := "BuildOperationRecord{", IntToString(r.id) + "-", r.displayName + "}";
    assert "->" == "-" + ['>'];
    ConcatAssoc(IntToString(r.id), "-", ['>']);
    ConcatAssoc(prefix, IntToString(r.id), "->");
    ConcatAssoc(prefix + IntToString(r.id) + "->", r.displayName, "}");
    ConcatAssoc(prefix, a + ['>'], b);
    ConcatAssoc(prefix, a, ['>']);
  }

  lemma ToStringInjective(r1: BuildOperationRecord, r2: BuildOperationRecord)
    requires ToString(r1) == ToString(r2)
    ensures r1.id == r2.id && r1.displayName == r2.displayName
  {
    var prefix := "BuildOperationRecord{";
    var a1, a2 := IntToString(r1.id) + "-", IntToString(r2.id) + "-";
    var b1, b2 := r1.displayName + "}", r2.displayName + "}";
    ToStringShape(r1);
    ToStringShape(r2);
    assert a1 + ['>'] + b1 == ToString(r1)[|prefix|..];
    assert a2 + ['>'] + b2 == ToString(r2)[|prefix|..];
    IntToStringHasNo(r1.id, '>');
    IntToStringHasNo(r2.id, '>');
    SplitAtFirst(a1, b1, a2, b2, '>');
    assert IntToString(r1.id) == a1[..|a1| - 1];
    assert IntToString(r2.id) == a2[..|a2| - 1];
    IntToStringInjective(r1.id, r2.id);
    assert r1.displayName == b1[..|b1| - 1];
    assert r2.displayName == b2[..|b2| - 1];
  }
}
