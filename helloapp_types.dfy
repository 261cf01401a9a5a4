/**
 * The HelloApp custom resource: a desired part (Spec) that the reconciler only
 * reads, and an observed part (Status) that only the reconciler writes.
 */
module HelloAppTypes {
  import opened Wrappers
  import opened Meta

  const MessageMinLength := 1
  const MessageMaxLength := 255
  const ReplicasMinimum: Int32 := 1
  const ReplicasMaximum: Int32 := 10
  const ReplicasDefault: Int32 := 1

  datatype HelloAppSpec = HelloAppSpec(message: string, replicas: Int32)

  datatype HelloAppStatus = HelloAppStatus(conditions: seq<Condition>, availableReplicas: Int32)

  datatype HelloApp = HelloApp(meta: ObjectMeta, spec: HelloAppSpec, status: HelloAppStatus)

  /** The validation markers on the spec fields. */
  predicate ValidSpec(spec: HelloAppSpec) {
    MessageMinLength <= |spec.message| <= MessageMaxLength
    && ReplicasMinimum <= spec.replicas <= ReplicasMaximum
  }

  /**
   * What admission makes of a submitted spec: an omitted replica count takes its
   * default, then the bounds are checked; a spec outside them is rejected.
   */
  function AdmitSpec(message: string, replicas: Option<Int32>): (r: Option<HelloAppSpec>)
    ensures r.Some? <==> MessageMinLength <= |message| <= MessageMaxLength
                         && (replicas.Some? ==> ReplicasMinimum <= replicas.value <= ReplicasMaximum)
    ensures r.Some? ==> ValidSpec(r.value) && r.value.message == message
    ensures r.Some? ==> r.value.replicas == if replicas.Some? then replicas.value else ReplicasDefault
  {
    var spec := HelloAppSpec(message, match replicas case Some(n) => n case None => ReplicasDefault);
    if ValidSpec(spec) then Some(spec) else None
  }

  /** Every condition list in the status obeys its merge key. */
  predicate ValidStatus(status: HelloAppStatus) {
    UniqueTypes(status.conditions)
  }
}
