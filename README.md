# HelloApp operator reconciler — a Dafny model

The hello-operator runs a level-triggered reconcile loop for one custom resource, the
HelloApp. A HelloApp's spec holds a greeting `message` and a `replicas` count. On every
pass the reconciler does the following:

- fetches the HelloApp;
- on first sight, marks its `Available` condition `Unknown`, writes the status and fetches the HelloApp again;
- builds the Deployment the HelloApp asks for, with a controller owner link back to the HelloApp;
- looks up the existing Deployment of the same name;
- creates the Deployment when it is missing, or patches two of its fields (replica count, and the environment of the first container) when they diverge;
- otherwise reports the HelloApp `Available`, with the Deployment's available replica count.

The pass returns a requeue flag and an error to the controller runtime.

This project models that pass and proves what each branch does to the object store.

Layout:

- `wrappers.dfy` (`Wrappers`): `Option` and `Result`.
- `meta.dfy` (`Meta`): object metadata, owner references, status conditions, and the two
  condition-list helpers the reconciler relies on (`FindStatusCondition` and
  `SetStatusCondition`). Both follow the Kubernetes API machinery's behaviour.
- `helloapp_types.dfy` (`HelloAppTypes`): the HelloApp resource, its validation bounds and
  its replica default.
- `deployments.dfy` (`Deployments`): the fields of an apps/v1 Deployment that the operator
  builds, reads and patches.
- `client.dfy` (`Client`): the object store. It has two parts:
  - a `Store` value, with one function per API call;
  - the mutable `Cluster` class, whose methods behave exactly like those functions.

  The store keeps a log of every write request it receives. It also takes a script of
  injected failures: each call consumes one entry, and an entry `Some(msg)` makes that
  call fail with `msg`.
- `controller.dfy` (`Controller`): contains the following:
  - the Deployment builder;
  - the two-field diff;
  - `ReconcilePass`, one pass as a function of the store;
  - `HelloAppReconciler.Reconcile`, the imperative pass. It issues the store calls in the
    source's order and is proved to end in exactly the outcome and store that
    `ReconcilePass` gives.
- `controller_properties.dfy` (`ControllerProperties`): proves, about `ReconcilePass`:
  - what each branch writes and returns;
  - the invariants every pass keeps, whichever store calls fail;
  - that a fault-free cluster settles within two passes;
  - that a settled HelloApp stays put.

The owner-link call is an oracle (`Scheme`): either it knows the HelloApp kind and stamps
a controller reference, or it fails with a reason. The clock is a `now` parameter of each
pass.

The steady-state pass writes the status every time, even when nothing changed
(helloapp_controller.go:163). `SteadyPassRepeats` proves that a repeated steady pass leaves
the store contents as they were but still issues exactly one status write.

## Model

| member | source | states |
|---|---|---|
| `Meta.FindStatusCondition` | hello-operator/api/v1alpha1/helloapp_types.go:39-41 | the lookup by merge key `type` finds the first entry of that type, or reports that there is none |
| `Meta.SetStatusCondition` | hello-operator/internal/controller/helloapp_controller.go:154-160 | a new type is appended, and an existing entry is merged in place; entries of other types stay unchanged and in place; the entry for the type then carries the given status, reason, message and observed generation; the list grows by at most one, and a list keyed by type stays keyed by type |
| `Meta.SetStatusConditionChanged` | hello-operator/internal/controller/helloapp_controller.go:154-160 | the helper's "changed" flag is true exactly when the list differs afterwards |
| `Meta.SetStatusConditionTransitionTime` | hello-operator/internal/controller/helloapp_controller.go:92-98 | the transition time is stamped when the type is new or its status flips, and kept otherwise |
| `Meta.SetStatusConditionIdempotent` | hello-operator/internal/controller/helloapp_controller.go:154-160 | setting the same condition again, at any later time, changes nothing and reports no change |
| `HelloAppTypes.AdmitSpec` | hello-operator/api/v1alpha1/helloapp_types.go:24-35 | a spec is admitted iff its message has 1 to 255 characters and its replica count, if given, lies in 1..10; an omitted count becomes 1 |
| `Controller.SetControllerReference` | hello-operator/internal/controller/helloapp_controller.go:228-231 | stamping fails exactly when the scheme does not know the owner's kind, with its reason; on success exactly one controller reference to the HelloApp (its name and uid, `controller` and `blockOwnerDeletion` set) is added after the references already present, and the rest of the metadata, the spec and the status are unchanged |
| `Controller.DeploymentForHelloApp` | hello-operator/internal/controller/helloapp_controller.go:175-234 | the build fails only through the owner link, with its error and no Deployment; on success the Deployment has the following shape: the HelloApp's name and namespace; `Replicas = Spec.Replicas`; exactly one container, whose env is exactly `[HELLO_MESSAGE = Spec.Message]`; selector and template share the labels `{app: name, managed-by: hello-operator}`; controlled by the HelloApp |
| `Controller.PatchDeployment` | hello-operator/internal/controller/helloapp_controller.go:121-142 | an update is needed iff the desired replica count is set and the found one is unset or different, or both first containers exist and their env lists differ; equivalently, iff the patched object differs from the found one; only `Replicas` and the first container's `Env` can change |
| `Controller.HelloAppReconciler.constructor` | hello-operator/internal/controller/helloapp_controller.go:43-46 | the reconciler holds the store client and the scheme it is given |
| `Controller.HelloAppReconciler.Reconcile` | hello-operator/internal/controller/helloapp_controller.go:54-169 | the imperative pass returns exactly the outcome, and leaves exactly the store (contents, write log, remaining faults), that `ReconcilePass` gives for the old store |
| `Client.Cluster.GetHelloApp` | hello-operator/internal/controller/helloapp_controller.go:59 | a read returns the stored HelloApp, NotFound, or the injected failure, and changes no contents |
| `Client.Cluster.UpdateStatus` | hello-operator/internal/controller/helloapp_controller.go:78 | a status write is logged, and on success replaces only the stored HelloApp's status |
| `Client.Cluster.GetDeployment` | hello-operator/internal/controller/helloapp_controller.go:108 | a read returns the stored Deployment, NotFound, or the injected failure |
| `Client.Cluster.Create` | hello-operator/internal/controller/helloapp_controller.go:111 | a create is logged; it stores the object unless the key is taken (AlreadyExists) or a failure is injected |
| `Client.Cluster.Update` | hello-operator/internal/controller/helloapp_controller.go:146 | an update is logged, and on success replaces the stored Deployment but keeps its status sub-resource |
| `ControllerProperties.InitialConditionShape` | hello-operator/internal/controller/helloapp_controller.go:70-77 | first-sight initialisation leaves exactly one condition: `Available`/`Unknown`/"Reconciling"/"Starting reconciliation", with ObservedGeneration = Generation, stamped now; metadata and spec are untouched |
| `ControllerProperties.AvailableMessageMentionsName` | hello-operator/internal/controller/helloapp_controller.go:159 | the steady-state message contains the HelloApp's name |
| `ControllerProperties.AppNotFoundIsNoop` | hello-operator/internal/controller/helloapp_controller.go:59-63 | a missing HelloApp ends the pass with no requeue, no error and an unchanged store |
| `ControllerProperties.AppLookupFailureAborts` | hello-operator/internal/controller/helloapp_controller.go:64-67 | any other fetch error is returned unchanged, with no write |
| `ControllerProperties.InitialStatusWriteFailureAborts` | hello-operator/internal/controller/helloapp_controller.go:78-81 | a failed initial status write aborts with its error; that write is the only one |
| `ControllerProperties.InitialRefetchFailureAborts` | hello-operator/internal/controller/helloapp_controller.go:82-85 | a failed re-fetch aborts with its error, after exactly the one initial status write |
| `ControllerProperties.FetchStage` | hello-operator/internal/controller/helloapp_controller.go:69-86 | on a fault-free store the status is initialised once, before anything is built, and the rest of the pass works on the re-read HelloApp |
| `ControllerProperties.FetchStageScripted` | hello-operator/internal/controller/helloapp_controller.go:59-86 | when the fetch stage's calls are served (one fetch, or fetch, status write and re-fetch on first sight), the rest of the pass runs on the initialised HelloApp with the initial write logged and the rest of the fault script |
| `ControllerProperties.BuildReadsOnlyMetaAndSpec` | hello-operator/internal/controller/helloapp_controller.go:175-226 | the built Deployment depends only on the HelloApp's metadata and spec |
| `ControllerProperties.OwnerLinkFailureReportsUnavailable` | hello-operator/internal/controller/helloapp_controller.go:89-104 | when the owner link fails there is no Create and no Update; the one further write is a status write setting `Available` to `False` with "Failed to create Deployment: <err>"; the pass returns that error |
| `ControllerProperties.OwnerLinkStatusWriteFailureAborts` | hello-operator/internal/controller/helloapp_controller.go:99-101 | when the status write reporting a failed owner link fails too, the pass returns that write's error rather than the owner-link error; the status write is the last write, no Create or Update is issued, and the failed status is not stored |
| `ControllerProperties.AdmittedSpecBuildsBoundedDeployment` | hello-operator/api/v1alpha1/helloapp_types.go:24-35 | an admitted spec yields 1 to 10 replicas and a single env entry of 1 to 255 characters |
| `ControllerProperties.MissingDeploymentIsCreated` | hello-operator/internal/controller/helloapp_controller.go:106-115 | a missing Deployment gets exactly one Create of the built Deployment; the result is `Requeue: true`, with no status write after the Create |
| `ControllerProperties.DeploymentLookupFailureAborts` | hello-operator/internal/controller/helloapp_controller.go:116-119 | any other Deployment lookup error is returned unchanged, on first sight or not; the only write is the initial status write on first sight, with no Create, Update or further status write |
| `ControllerProperties.CreateFailureAborts` | hello-operator/internal/controller/helloapp_controller.go:111-113 | a failed Create is returned unchanged with no requeue; the Create is the last write and no Deployment is stored |
| `ControllerProperties.PatchIsIdempotent` | hello-operator/internal/controller/helloapp_controller.go:121-142 | diffing the patched Deployment against the same desired one finds no divergence |
| `ControllerProperties.DivergingDeploymentIsUpdated` | hello-operator/internal/controller/helloapp_controller.go:144-151 | a divergence gets exactly one Update with the patched Deployment; the result is `Requeue: true`, with no status write |
| `ControllerProperties.UpdateFailureAborts` | hello-operator/internal/controller/helloapp_controller.go:146-148 | a failed Update of a diverging Deployment is returned unchanged with no requeue; the Update is the last write and the stored Deployment is unchanged |
| `ControllerProperties.SteadyStateReportsAvailable` | hello-operator/internal/controller/helloapp_controller.go:153-168 | without divergence the pass sets `Available` to `True` and copies the Deployment's available replicas; it always writes the status once and returns no requeue and no error |
| `ControllerProperties.SteadyStatusWriteFailureAborts` | hello-operator/internal/controller/helloapp_controller.go:163-165 | a failed steady-state status write is returned unchanged with no requeue; the HelloApp's stored status stays as the fetch stage left it |
| `ControllerProperties.PassKeepsInv` | hello-operator/api/v1alpha1/helloapp_types.go:37-61 | whatever fails, a pass keeps every condition list keyed by type (so at most one `Available`), never changes a HelloApp's metadata or spec, leaves every other HelloApp exactly as it was, and touches no Deployment other than the HelloApp's own |
| `ControllerProperties.SteadyPassSettles` | hello-operator/internal/controller/helloapp_controller.go:153-168 | a steady pass leaves the Deployment untouched; afterwards the Deployment has the requested replicas and greeting, and the HelloApp reports `Available` |
| `ControllerProperties.SettlesWithinTwoPasses` | hello-operator/internal/controller/helloapp_controller.go:106-168 | on a fault-free cluster the first pass either settles or requeues, and after a requeue the second pass settles |
| `ControllerProperties.SteadyPassRepeats` | hello-operator/internal/controller/helloapp_controller.go:153-168 | reconciling a settled HelloApp again leaves the store contents as they were, but logs exactly one more status write |
| `ControllerProperties.AvailableTransitionTime` | hello-operator/internal/controller/helloapp_controller.go:153-160 | reporting `Available` moves the transition time to now when the condition was not `True` before (after a failed pass, or on first sight); otherwise it stays where it was |
| `ControllerProperties.CreatedDeploymentsAreOwned` | hello-operator/internal/controller/helloapp_controller.go:228-231 | whatever fails, every Deployment a pass asks to create is controlled by the HelloApp it was built for |

## Left out

- Controller.SetControllerReference: appends the owner link to the Deployment's references rather than merging it into them. Two refusals are not modelled: an object already controlled by another owner, and a cross-namespace owner. Neither can arise for the freshly built Deployment.
- Controller.HelloAppReconciler.Reconcile: every condition update within one pass uses the same clock reading `now`.
- Store semantics: optimistic-concurrency conflicts, resource versions and cancellation are not modelled separately. They are failures injected through the fault script, which the reconciler handles like any other error.
- Deployment fields not modelled: fields the operator neither sets nor reads (strategy, pod-level settings, and so on).
- Pointers: the pointer fields the operator sets or reads are `Option`s (the replica count, the selector, `EnvVar.valueFrom`, `Container.securityContext`, and the security context's `allowPrivilegeEscalation`, `runAsNonRoot` and `seccompProfile`). Pointer identity and aliasing are not modelled, only presence and value.
- Reads see every earlier write: the store serves each `Get` from its current contents. The operator's client normally reads through the manager's informer cache, which can lag behind writes. The re-fetch after the first status write, `SettlesWithinTwoPasses` and `SteadyPassRepeats` all rely on this read-your-writes assumption; a stale read is not modelled.
- Container constants: image, port 8080, and the security profile fields are opaque constants with no logic.
- Convergence of the environment: it is proved only for a Deployment that has at least one container. The diff leaves the env alone when the found Deployment has none. The Kubernetes API rejects such Deployments anyway.
- Admission: the validation markers run in the API server, not in this code. `AdmitSpec` states what admission guarantees, and the reconciler does not check those bounds itself.
- Integer widths: `Int32` and `Int64` bound the values. The operator does no arithmetic on them, so there is no wrap-around to model.
- Not modelled:
  - logging;
  - RBAC markers;
  - `SetupWithManager` and watch setup;
  - `HelloAppList` and scheme registration in `init`;
  - `boolPtr`;
  - print columns;
  - the controller runtime's worker pool, per-key serialisation and requeue back-off.

  They hold no reconcile logic, or they belong to the framework.
