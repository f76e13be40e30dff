/**
 * app/.../buildops/details.kt: which kind of build operation a record is, told by the
 * exact class name of its details.
 */
module BuildopsDetails {
  import opened Values
  import opened OperationRecord

  const ExecuteTaskDetailsClass := "org.gradle.api.internal.tasks.execution.ExecuteTaskBuildOperationDetails"
  const ExecuteScheduledTransformationStepDetailsClass :=
    "org.gradle.api.internal.artifacts.transform.ExecuteScheduledTransformationStepBuildOperationDetails"

  /** `BuildOperationRecord.isExecuteTask()` */
  predicate IsExecuteTask(record: BuildOperationRecord) {
    record.detailsClassName == Some(ExecuteTaskDetailsClass)
  }

  /** `BuildOperationRecord.isExecuteScheduledTransformationStep()` */
  predicate IsExecuteScheduledTransformationStep(record: BuildOperationRecord) {
    record.detailsClassName == Some(ExecuteScheduledTransformationStepDetailsClass)
  }

  /**
   * Each predicate holds exactly for its class name; a record without a details class is
   * neither kind, and no record is both.
   */
  lemma DetailsKinds(record: BuildOperationRecord)
    ensures IsExecuteTask(record) <==> record.detailsClassName.Some? && record.detailsClassName.value == ExecuteTaskDetailsClass
    ensures IsExecuteScheduledTransformationStep(record) <==>
      record.detailsClassName.Some? && record.detailsClassName.value == ExecuteScheduledTransformationStepDetailsClass
    ensures record.detailsClassName.None? ==> !IsExecuteTask(record) && !IsExecuteScheduledTransformationStep(record)
    ensures !(IsExecuteTask(record) && IsExecuteScheduledTransformationStep(record))
  {
  }
}
