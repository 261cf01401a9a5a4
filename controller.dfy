/**
 * The HelloApp reconciler: the Deployment it builds for a HelloApp, the
 * two-field diff it applies to an existing Deployment, and one reconcile pass,
 * both as a function over the store (ReconcilePass) and as the imperative
 * method that issues the store calls in order (HelloAppReconciler.Reconcile).
 */
module Controller {
  import opened Wrappers
  import opened Meta
  import opened HelloAppTypes
  import opened Deployments
  import opened Client

  const TypeAvailableHelloApp := "Available"
  const ReasonReconciling := "Reconciling"
  const ManagedBy := "hello-operator"
  const ContainerName := "hello-app"
  const ContainerImage := "nginxinc/nginx-unprivileged:alpine"
  const ContainerPortNumber: Int32 := 8080
  const MessageEnvName := "HELLO_MESSAGE"

  /**
   * The type registry that the owner link is resolved against: either it
   * knows the HelloApp kind, or stamping the link fails with a reason.
   */
  datatype Scheme = Registered(apiVersion: string, kind: string) | Unregistered(reason: string)

  /** What a pass tells its caller: whether to requeue at once, and the error if any. */
  datatype Outcome = Outcome(requeue: bool, err: Option<Error>)

  const Done := Outcome(false, None)
  const RequeueNow := Outcome(true, None)

  function Abort(e: Error): Outcome {
    Outcome(false, Some(e))
  }

  // ---------------------------------------------------------------------------
  // Building the desired Deployment

  /** `d` carries a controller back-link to `app`. */
  predicate ControlledBy(d: Deployment, app: HelloApp) {
    exists ref :: ref in d.meta.ownerReferences
                  && ref.controller && ref.name == app.meta.name && ref.uid == app.meta.uid
  }

  /** The labels shared by the selector and the pod template. */
  function LabelsFor(app: HelloApp): Labels {
    map["app" := app.meta.name, "managed-by" := ManagedBy]
  }

  /** The fixed hardened execution profile of the container. */
  function RestrictedSecurityContext(): SecurityContext {
    SecurityContext(Some(false), Some(true), ["ALL"], Some("RuntimeDefault"))
  }

  /**
   * Appends a controller owner link to `owner`, when the scheme knows its kind;
   * the references already present are kept, and nothing else changes.
   */
  function SetControllerReference(owner: HelloApp, d: Deployment, scheme: Scheme): (r: Result<Deployment, Error>)
    ensures r.Err? <==> scheme.Unregistered?
    ensures r.Err? ==> r.error == Failure(scheme.reason)
    ensures r.Ok? ==> ControlledBy(r.value, owner)
    ensures r.Ok? ==> r.value.spec == d.spec && r.value.status == d.status
                      && r.value.meta.(ownerReferences := d.meta.ownerReferences) == d.meta
    ensures r.Ok? ==> d.meta.ownerReferences <= r.value.meta.ownerReferences
                      && |r.value.meta.ownerReferences| == |d.meta.ownerReferences| + 1
    ensures r.Ok? ==> r.value.meta.ownerReferences[|d.meta.ownerReferences|]
                      == OwnerReference(scheme.apiVersion, scheme.kind, owner.meta.name, owner.meta.uid, true, true)
  {
    match scheme
    case Unregistered(reason) => Err(Failure(reason))
    case Registered(apiVersion, kind) =>
      var ref := OwnerReference(apiVersion, kind, owner.meta.name, owner.meta.uid, true, true);
      assert ref in d.meta.ownerReferences + [ref];
      Ok(d.(meta := d.meta.(ownerReferences := d.meta.ownerReferences + [ref])))
  }

  /** The Deployment a HelloApp asks for, or the error of stamping its owner link. */
  function DeploymentForHelloApp(app: HelloApp, scheme: Scheme): (r: Result<Deployment, Error>)
    ensures r.Err? <==> scheme.Unregistered?
    ensures r.Err? ==> r.error == Failure(scheme.reason)
    ensures r.Ok? ==> KeyOf(r.value.meta) == KeyOf(app.meta) && ControlledBy(r.value, app)
    ensures r.Ok? ==> r.value.spec.replicas == Some(app.spec.replicas)
    ensures r.Ok? ==> |r.value.spec.template.containers| == 1
    ensures r.Ok? ==> FirstEnv(r.value) == Some([EnvVar(MessageEnvName, app.spec.message, None)])
    ensures r.Ok? ==> r.value.spec.selector == Some(r.value.spec.template.labels)
    ensures r.Ok? ==> var labels := r.value.spec.template.labels;
                      labels.Keys == {"app", "managed-by"}
                      && labels["app"] == app.meta.name && labels["managed-by"] == ManagedBy
  {
    var labels := LabelsFor(app);
    var container := Container(
      ContainerName,
      ContainerImage,
      [EnvVar(MessageEnvName, app.spec.message, None)],
      [ContainerPort(ContainerPortNumber, "TCP")],
      Some(RestrictedSecurityContext()));
    var dep := Deployment(
      ObjectMeta(app.meta.name, app.meta.namespace, "", 0, []),
      DeploymentSpec(Some(app.spec.replicas), Some(labels), PodTemplateSpec(labels, [container])),
      DeploymentStatus(0));
    SetControllerReference(app, dep, scheme)
  }

  // ---------------------------------------------------------------------------
  // Diffing an existing Deployment against the desired one

  /** The desired replica count is set and the found one is unset or different. */
  predicate ReplicasDiverge(found: Deployment, desired: Deployment) {
    desired.spec.replicas.Some? && found.spec.replicas != desired.spec.replicas
  }

  /** Both sides have a first container and their environments differ. */
  predicate EnvDiverges(found: Deployment, desired: Deployment) {
    FirstEnv(found).Some? && FirstEnv(desired).Some? && FirstEnv(found) != FirstEnv(desired)
  }

  /**
   * Copies the desired replica count and first-container environment onto the
   * found Deployment where they diverge; the flag says whether anything did.
   * Nothing else of the found Deployment changes.
   */
  function PatchDeployment(found: Deployment, desired: Deployment): (r: (Deployment, bool))
    ensures r.1 <==> ReplicasDiverge(found, desired) || EnvDiverges(found, desired)
    ensures r.1 <==> r.0 != found
    ensures r.0.meta == found.meta && r.0.status == found.status
    ensures r.0.spec.selector == found.spec.selector
    ensures r.0.spec.template.labels == found.spec.template.labels
    ensures r.0.spec.replicas == if desired.spec.replicas.Some? then desired.spec.replicas else found.spec.replicas
    ensures |r.0.spec.template.containers| == |found.spec.template.containers|
    ensures forall i :: 0 < i < |found.spec.template.containers| ==>
              r.0.spec.template.containers[i] == found.spec.template.containers[i]
    ensures |found.spec.template.containers| > 0 ==>
              r.0.spec.template.containers[0]
                == found.spec.template.containers[0].(env := if FirstEnv(desired).Some? then FirstEnv(desired).value
                                                             else found.spec.template.containers[0].env)
  {
    var (replicas, replicasChanged) :=
      if found.spec.replicas.None? && desired.spec.replicas.Some? then (desired.spec.replicas, true)
      else if found.spec.replicas.Some? && desired.spec.replicas.Some?
              && found.spec.replicas.value != desired.spec.replicas.value then (desired.spec.replicas, true)
      else (found.spec.replicas, false);
    var containers := found.spec.template.containers;
    var (containers', envChanged) :=
      if |containers| > 0 && |desired.spec.template.containers| > 0
         && containers[0].env != desired.spec.template.containers[0].env
      then (containers[0 := containers[0].(env := desired.spec.template.containers[0].env)], true)
      else (containers, false);
    var patched := found.(spec := found.spec.(replicas := replicas,
                                              template := found.spec.template.(containers := containers')));
    assert envChanged ==> patched.spec.template.containers[0] != containers[0];
    (patched, replicasChanged || envChanged)
  }

  // ---------------------------------------------------------------------------
  // The Available condition at each stage of a pass

  function InitialCondition(app: HelloApp): Condition {
    Condition(TypeAvailableHelloApp, ConditionUnknown, app.meta.generation, ZeroTime,
              ReasonReconciling, "Starting reconciliation")
  }

  function FailedCondition(app: HelloApp, e: Error): Condition {
    Condition(TypeAvailableHelloApp, ConditionFalse, app.meta.generation, ZeroTime,
              ReasonReconciling, "Failed to create Deployment: " + ErrorText(e))
  }

  function AvailableCondition(app: HelloApp): Condition {
    Condition(TypeAvailableHelloApp, ConditionTrue, app.meta.generation, ZeroTime,
              ReasonReconciling, "Deployment for HelloApp (" + app.meta.name + ") created successfully")
  }

  /** `app` with `c` set in its condition list. */
  function WithCondition(app: HelloApp, c: Condition, now: Time): HelloApp {
    app.(status := app.status.(conditions := SetStatusCondition(app.status.conditions, c, now).0))
  }

  // ---------------------------------------------------------------------------
  // One reconcile pass, as a function of the store

  /** Fetch the HelloApp; on first sight mark it Unknown, write status and fetch it again. */
  function ReconcilePass(s: Store, req: Key, scheme: Scheme, now: Time): (Outcome, Store) {
    var (got, s1) := s.GetHelloApp(req);
    if got.Err? then
      if got.error.NotFound? then (Done, s1) else (Abort(got.error), s1)
    else
      var app := got.value;
      if |app.status.conditions| == 0 then
        var (written, s2) := s1.UpdateStatus(WithCondition(app, InitialCondition(app), now));
        if written.Some? then (Abort(written.value), s2)
        else
          var (again, s3) := s2.GetHelloApp(req);
          if again.Err? then (Abort(again.error), s3)
          else ReconcileFetched(s3, again.value, scheme, now)
      else ReconcileFetched(s1, app, scheme, now)
  }

  /** Build the desired Deployment, look up the existing one and create it if missing. */
  function ReconcileFetched(s: Store, app: HelloApp, scheme: Scheme, now: Time): (Outcome, Store) {
    var built := DeploymentForHelloApp(app, scheme);
    if built.Err? then
      var (written, s1) := s.UpdateStatus(WithCondition(app, FailedCondition(app, built.error), now));
      if written.Some? then (Abort(written.value), s1) else (Abort(built.error), s1)
    else
      var (lookup, s1) := s.GetDeployment(KeyOf(app.meta));
      if lookup.Err? && lookup.error.NotFound? then
        var (created, s2) := s1.Create(built.value);
        if created.Some? then (Abort(created.value), s2) else (RequeueNow, s2)
      else if lookup.Err? then (Abort(lookup.error), s1)
      else ReconcileFound(s1, app, built.value, lookup.value, now)
  }

  /** Patch a diverging Deployment and requeue, or report the app Available. */
  function ReconcileFound(s: Store, app: HelloApp, desired: Deployment, found: Deployment, now: Time): (Outcome, Store) {
    var (patched, needsUpdate) := PatchDeployment(found, desired);
    if needsUpdate then
      var (updated, s1) := s.Update(patched);
      if updated.Some? then (Abort(updated.value), s1) else (RequeueNow, s1)
    else
      var available := WithCondition(app, AvailableCondition(app), now);
      var reported := available.(status := available.status.(availableReplicas := found.status.availableReplicas));
      var (written, s1) := s.UpdateStatus(reported);
      if written.Some? then (Abort(written.value), s1) else (Done, s1)
  }

  // ---------------------------------------------------------------------------
  // The reconciler as the controller runtime drives it

  class HelloAppReconciler {
    const client: Cluster
    const scheme: Scheme

    constructor (client: Cluster, scheme: Scheme)
      ensures this.client == client && this.scheme == scheme
    {
      this.client := client;
      this.scheme := scheme;
    }

    /** One pass for the HelloApp named `req`; `now` is the clock reading for condition updates. */
    method Reconcile(req: Key, now: Time) returns (result: Outcome)
      modifies client
      ensures (result, client.State()) == ReconcilePass(old(client.State()), req, scheme, now)
    {
      var got := client.GetHelloApp(req);
      if got.Err? {
        if got.error.NotFound? {
          return Done;
        }
        return Abort(got.error);
      }
      var helloApp := got.value;

      if |helloApp.status.conditions| == 0 {
        helloApp := WithCondition(helloApp, InitialCondition(helloApp), now);
        var err := client.UpdateStatus(helloApp);
        if err.Some? {
          return Abort(err.value);
        }
        got := client.GetHelloApp(req);
        if got.Err? {
          return Abort(got.error);
        }
        helloApp := got.value;
      }

      var built := DeploymentForHelloApp(helloApp, scheme);
      if built.Err? {
        helloApp := WithCondition(helloApp, FailedCondition(helloApp, built.error), now);
        var err := client.UpdateStatus(helloApp);
        if err.Some? {
          return Abort(err.value);
        }
        return Abort(built.error);
      }
      var dep := built.value;

      var lookup := client.GetDeployment(KeyOf(helloApp.meta));
      if lookup.Err? && lookup.error.NotFound? {
        var err := client.Create(dep);
        if err.Some? {
          return Abort(err.value);
        }
        return RequeueNow;
      } else if lookup.Err? {
        return Abort(lookup.error);
      }
      var found := lookup.value;
      ghost var observed := found;

      var needsUpdate := false;
      if found.spec.replicas.None? && dep.spec.replicas.Some? {
        found := found.(spec := found.spec.(replicas := dep.spec.replicas));
        needsUpdate := true;
      } else if found.spec.replicas.Some? && dep.spec.replicas.Some? {
        if found.spec.replicas.value != dep.spec.replicas.value {
          found := found.(spec := found.spec.(replicas := dep.spec.replicas));
          needsUpdate := true;
        }
      }

      var containers := found.spec.template.containers;
      if |containers| > 0 && |dep.spec.template.containers| > 0 {
        if containers[0].env != dep.spec.template.containers[0].env {
          containers := containers[0 := containers[0].(env := dep.spec.template.containers[0].env)];
          found := found.(spec := found.spec.(template := found.spec.template.(containers := containers)));
          needsUpdate := true;
        }
      }
      assert (found, needsUpdate) == PatchDeployment(observed, dep);

      if needsUpdate {
        var err := client.Update(found);
        if err.Some? {
          return Abort(err.value);
        }
        return RequeueNow;
      }

      helloApp := WithCondition(helloApp, AvailableCondition(helloApp), now);
      helloApp := helloApp.(status := helloApp.status.(availableReplicas := found.status.availableReplicas));
      var err := client.UpdateStatus(helloApp);
      if err.Some? {
        return Abort(err.value);
      }
      return Done;
    }
  }
}
