/**
 * The object metadata and the status-condition list the operator works with
 * (metav1.ObjectMeta, metav1.Condition), and the two library helpers the
 * reconciler calls on a condition list: FindStatusCondition and
 * SetStatusCondition. A condition list is keyed by its `condType` field.
 */
module Meta {
  import opened Wrappers

  newtype Int32 = x: int | -0x8000_0000 <= x < 0x8000_0000
  newtype Int64 = x: int | -0x8000_0000_0000_0000 <= x < 0x8000_0000_0000_0000

  /** A point in time; 0 stands for Go's zero time.Time. */
  type Time = nat
  const ZeroTime: Time := 0

  /** A namespace-qualified object name. */
  datatype Key = Key(namespace: string, name: string)

  /** A back-link from a dependent object to the object that controls it. */
  datatype OwnerReference = OwnerReference(
    apiVersion: string,
    kind: string,
    name: string,
    uid: string,
    controller: bool,
    blockOwnerDeletion: bool)

  datatype ObjectMeta = ObjectMeta(
    name: string,
    namespace: string,
    uid: string,
    generation: Int64,
    ownerReferences: seq<OwnerReference>)

  function KeyOf(meta: ObjectMeta): Key {
    Key(meta.namespace, meta.name)
  }

  datatype ConditionStatus = ConditionTrue | ConditionFalse | ConditionUnknown

  datatype Condition = Condition(
    condType: string,
    status: ConditionStatus,
    observedGeneration: Int64,
    lastTransitionTime: Time,
    reason: string,
    message: string)

  /** The merge key of a condition list: no two entries share a type. */
  predicate UniqueTypes(conds: seq<Condition>) {
    forall i, j :: 0 <= i < j < |conds| ==> conds[i].condType != conds[j].condType
  }

  /** Entry `e` holds every field the caller of SetStatusCondition supplied in `c`. */
  predicate Carries(e: Condition, c: Condition) {
    e.condType == c.condType && e.status == c.status && e.observedGeneration == c.observedGeneration
    && e.reason == c.reason && e.message == c.message
  }

  /** The index of the first entry of type `t`, if there is one. */
  function FindStatusCondition(conds: seq<Condition>, t: string): (r: Option<nat>)
    ensures r.Some? ==> r.value < |conds| && conds[r.value].condType == t
    ensures r.Some? ==> forall j :: 0 <= j < r.value ==> conds[j].condType != t
    ensures r.None? ==> forall j :: 0 <= j < |conds| ==> conds[j].condType != t
  {
    if |conds| == 0 then None
    else if conds[0].condType == t then Some(0)
    else
      match FindStatusCondition(conds[1..], t)
      case None => None
      case Some(i) => Some(i + 1)
  }

  /** An entry of type `t` preceded by none is the one FindStatusCondition reports. */
  lemma FindFirst(conds: seq<Condition>, t: string, i: nat)
    requires i < |conds| && conds[i].condType == t
    requires forall j :: 0 <= j < i ==> conds[j].condType != t
    ensures FindStatusCondition(conds, t) == Some(i)
  {
  }

  /** The time a condition gets when it is added or its status flips: its own, or `now` when unset. */
  function Stamp(c: Condition, now: Time): Time {
    if c.lastTransitionTime == ZeroTime then now else c.lastTransitionTime
  }

  /**
   * Adds `c` to the list, or merges it into the first entry of its type. A merge
   * refreshes the transition time only when the status flips; reason, message and
   * observed generation are always taken from `c`. The flag reports whether
   * any field changed.
   */
  function SetStatusCondition(conds: seq<Condition>, c: Condition, now: Time): (r: (seq<Condition>, bool))
    ensures |r.0| == |conds| + (if FindStatusCondition(conds, c.condType).None? then 1 else 0)
    ensures forall j :: 0 <= j < |conds| && conds[j].condType != c.condType ==> r.0[j] == conds[j]
    ensures FindStatusCondition(r.0, c.condType).Some?
    ensures Carries(r.0[FindStatusCondition(r.0, c.condType).value], c)
    ensures UniqueTypes(conds) ==> UniqueTypes(r.0)
  {
    match FindStatusCondition(conds, c.condType)
    case None =>
      var added := c.(lastTransitionTime := Stamp(c, now));
      FindFirst(conds + [added], c.condType, |conds|);
      (conds + [added], true)
    case Some(i) =>
      var e := conds[i];
      var flipped := if e.status != c.status then e.(status := c.status, lastTransitionTime := Stamp(c, now)) else e;
      var merged := flipped.(reason := c.reason, message := c.message, observedGeneration := c.observedGeneration);
      var changed := e.status != c.status || e.reason != c.reason || e.message != c.message
                     || e.observedGeneration != c.observedGeneration;
      FindFirst(conds[i := merged], c.condType, i);
      (conds[i := merged], changed)
  }

  /** The reported flag is exactly "the list is different afterwards". */
  lemma SetStatusConditionChanged(conds: seq<Condition>, c: Condition, now: Time)
    ensures SetStatusCondition(conds, c, now).1 <==> SetStatusCondition(conds, c, now).0 != conds
  {
    var r := SetStatusCondition(conds, c, now).0;
    match FindStatusCondition(conds, c.condType)
    case None =>
      assert |r| != |conds|;
    case Some(i) =>
      if r == conds {
        assert r[i] == conds[i];
      }
  }

  /**
   * The transition time of the entry for `c.condType` moves only when that
   * type is new or its status flips; otherwise it keeps its old value.
   */
  lemma SetStatusConditionTransitionTime(conds: seq<Condition>, c: Condition, now: Time)
    ensures var r := SetStatusCondition(conds, c, now).0;
      var k := FindStatusCondition(r, c.condType).value;
      match FindStatusCondition(conds, c.condType)
      case None => r[k].lastTransitionTime == Stamp(c, now)
      case Some(i) =>
        k == i &&
        r[k].lastTransitionTime
          == if conds[i].status == c.status then conds[i].lastTransitionTime else Stamp(c, now)
  {
    var r := SetStatusCondition(conds, c, now).0;
    match FindStatusCondition(conds, c.condType)
    case None =>
      FindFirst(r, c.condType, |conds|);
    case Some(i) =>
      FindFirst(r, c.condType, i);
  }

  /**
   * Setting the same condition twice is the same as setting it once, whatever
   * the clock says the second time, and the second call reports no change.
   */
  lemma SetStatusConditionIdempotent(conds: seq<Condition>, c: Condition, now: Time, later: Time)
    ensures var once := SetStatusCondition(conds, c, now).0;
      SetStatusCondition(once, c, later) == (once, false)
  {
    var once := SetStatusCondition(conds, c, now).0;
    var k := FindStatusCondition(once, c.condType).value;
    var twice := SetStatusCondition(once, c, later).0;
    assert twice[k] == once[k];
    assert twice == once;
  }
}
