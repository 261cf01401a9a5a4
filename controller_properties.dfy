/**
 * What one reconcile pass does to the store, branch by branch, what it keeps
 * invariant across any number of passes, and how a fault-free cluster settles.
 */
module ControllerProperties {
  import opened Wrappers
  import opened Meta
  import opened HelloAppTypes
  import opened Deployments
  import opened Client
  import opened Controller

  /** The HelloApp as the rest of the pass sees it, after first-sight initialisation. */
  function Initialised(app: HelloApp, now: Time): HelloApp {
    if |app.status.conditions| == 0 then WithCondition(app, InitialCondition(app), now) else app
  }

  /** The status write of first-sight initialisation, if the pass makes one. */
  function InitWrites(app: HelloApp, now: Time): seq<Write> {
    if |app.status.conditions| == 0 then [UpdateHelloAppStatus(Initialised(app, now))] else []
  }

  /** The fault script under which every call of the fetch stage is served: one fetch, or three on first sight. */
  function FetchScript(app: HelloApp): seq<Option<string>> {
    if |app.status.conditions| == 0 then [None, None, None] else [None]
  }

  /** The store with `app`'s status filed under its key. */
  function WithStatus(s: Store, app: HelloApp): Store
    requires KeyOf(app.meta) in s.apps
  {
    s.(apps := s.apps[KeyOf(app.meta) := s.apps[KeyOf(app.meta)].(status := app.status)])
  }

  /** `name` occurs somewhere in `text`. */
  predicate Mentions(text: string, name: string) {
    exists i :: 0 <= i <= |text| - |name| && text[i..][..|name|] == name
  }

  // ---------------------------------------------------------------------------
  // The Available condition

  /** First-sight initialisation yields exactly one condition: Available, Unknown, stamped now. */
  lemma InitialConditionShape(app: HelloApp, now: Time)
    requires |app.status.conditions| == 0
    ensures Initialised(app, now).status.conditions
            == [Condition(TypeAvailableHelloApp, ConditionUnknown, app.meta.generation, now,
                          "Reconciling", "Starting reconciliation")]
    ensures Initialised(app, now).meta == app.meta && Initialised(app, now).spec == app.spec
  {
  }

  /** The steady-state message names the HelloApp. */
  lemma AvailableMessageMentionsName(app: HelloApp)
    ensures Mentions(AvailableCondition(app).message, app.meta.name)
  {
    var prefix := "Deployment for HelloApp (";
    var text := AvailableCondition(app).message;
    assert text[|prefix|..][..|app.meta.name|] == app.meta.name;
  }

  // ---------------------------------------------------------------------------
  // Fetching the HelloApp

  /** A HelloApp that is gone ends the pass quietly: no requeue, no error, no write. */
  lemma AppNotFoundIsNoop(s: Store, req: Key, scheme: Scheme, now: Time)
    requires req !in s.apps
    requires s.faults == []
    ensures ReconcilePass(s, req, scheme, now) == (Done, s)
  {
  }

  /** Any other failure to fetch the HelloApp is returned as is, with no write. */
  lemma AppLookupFailureAborts(s: Store, req: Key, scheme: Scheme, now: Time, msg: string)
    requires s.faults == [Some(msg)]
    ensures ReconcilePass(s, req, scheme, now) == (Abort(Failure(msg)), s.(faults := []))
  {
    assert s.faults[1..] == [];
  }

  // ---------------------------------------------------------------------------
  // First sight

  /** A failed initial status write aborts the pass with that error; nothing else is written. */
  lemma InitialStatusWriteFailureAborts(s: Store, req: Key, scheme: Scheme, now: Time, msg: string)
    requires req in s.apps && |s.apps[req].status.conditions| == 0
    requires s.faults == [None, Some(msg)]
    ensures ReconcilePass(s, req, scheme, now)
            == (Abort(Failure(msg)),
                s.(log := s.log + InitWrites(s.apps[req], now), faults := []))
  {
    assert s.faults[1..] == [Some(msg)];
    assert s.faults[1..][1..] == [];
  }

  /** A failed re-fetch after the initial status write aborts the pass with that error. */
  lemma InitialRefetchFailureAborts(s: Store, req: Key, scheme: Scheme, now: Time, msg: string)
    requires s.KeysConsistent()
    requires req in s.apps && |s.apps[req].status.conditions| == 0
    requires s.faults == [None, None, Some(msg)]
    ensures var app := s.apps[req];
            ReconcilePass(s, req, scheme, now)
            == (Abort(Failure(msg)),
                WithStatus(s, Initialised(app, now)).(log := s.log + InitWrites(app, now), faults := []))
  {
    var app := s.apps[req];
    var app1 := WithCondition(app, InitialCondition(app), now);
    assert s.faults[1..] == [None, Some(msg)];
    assert s.faults[1..][1..] == [Some(msg)];
    assert s.faults[1..][1..][1..] == [];
    var s2 := s.GetHelloApp(req).1.UpdateStatus(app1).1;
    assert s2 == WithStatus(s, app1).(log := s.log + InitWrites(app, now), faults := [Some(msg)]);
  }

  /**
   * On a fault-free store the fetch stage hands the rest of the pass the
   * stored HelloApp, initialised on first sight, and the store holding the
   * status it wrote.
   */
  lemma FetchStage(s: Store, req: Key, scheme: Scheme, now: Time)
    requires s.KeysConsistent()
    requires req in s.apps
    requires s.faults == []
    ensures var app := Initialised(s.apps[req], now);
            KeyOf(app.meta) == req && app.meta == s.apps[req].meta && app.spec == s.apps[req].spec
            && ReconcilePass(s, req, scheme, now)
               == ReconcileFetched(WithStatus(s, app).(log := s.log + InitWrites(s.apps[req], now)), app, scheme, now)
  {
    var app := s.apps[req];
    if |app.status.conditions| == 0 {
      var app1 := WithCondition(app, InitialCondition(app), now);
      var s2 := s.UpdateStatus(app1).1;
      assert s2 == WithStatus(s, app1).(log := s.log + InitWrites(app, now));
      assert s2.apps[req] == app1;
    } else {
      assert WithStatus(s, app) == s;
      assert s.log + InitWrites(app, now) == s.log;
    }
  }

  /**
   * When every call of the fetch stage is served, the rest of the pass runs on
   * the initialised HelloApp with the rest of the fault script.
   */
  lemma FetchStageScripted(s: Store, req: Key, scheme: Scheme, now: Time, rest: seq<Option<string>>)
    requires s.KeysConsistent()
    requires req in s.apps
    requires s.faults == FetchScript(s.apps[req]) + rest
    ensures var app := Initialised(s.apps[req], now);
            KeyOf(app.meta) == req && app.meta == s.apps[req].meta && app.spec == s.apps[req].spec
            && ReconcilePass(s, req, scheme, now)
               == ReconcileFetched(WithStatus(s, app).(log := s.log + InitWrites(s.apps[req], now), faults := rest),
                                   app, scheme, now)
  {
    var app := s.apps[req];
    if |app.status.conditions| == 0 {
      assert s.faults[1..] == [None, None] + rest;
      assert s.faults[1..][1..] == [None] + rest;
      assert s.faults[1..][1..][1..] == rest;
      var app1 := WithCondition(app, InitialCondition(app), now);
      var s2 := s.GetHelloApp(req).1.UpdateStatus(app1).1;
      assert s2 == WithStatus(s, app1).(log := s.log + InitWrites(app, now), faults := [None] + rest);
      assert s2.apps[req] == app1;
    } else {
      assert s.faults[1..] == rest;
      assert WithStatus(s, app) == s;
      assert s.log + InitWrites(app, now) == s.log;
    }
  }

  // ---------------------------------------------------------------------------
  // Building the Deployment

  /** The built Deployment depends on the HelloApp's metadata and spec only, never on its status. */
  lemma BuildReadsOnlyMetaAndSpec(a: HelloApp, b: HelloApp, scheme: Scheme)
    requires a.meta == b.meta && a.spec == b.spec
    ensures DeploymentForHelloApp(a, scheme) == DeploymentForHelloApp(b, scheme)
  {
  }

  /**
   * When the owner link cannot be stamped, nothing is created or updated: the
   * only writes are status writes, the last one marks the HelloApp Available
   * False with the failure in its message, and the pass ends with that error.
   */
  lemma OwnerLinkFailureReportsUnavailable(s: Store, req: Key, reason: string, now: Time)
    requires s.KeysConsistent()
    requires req in s.apps
    requires s.faults == []
    ensures var app := Initialised(s.apps[req], now);
            var failed := WithCondition(app, FailedCondition(app, Failure(reason)), now);
            ReconcilePass(s, req, Unregistered(reason), now)
            == (Abort(Failure(reason)),
                WithStatus(s, failed).(log := s.log + InitWrites(s.apps[req], now) + [UpdateHelloAppStatus(failed)]))
    ensures FailedCondition(s.apps[req], Failure(reason)).status == ConditionFalse
    ensures FailedCondition(s.apps[req], Failure(reason)).message == "Failed to create Deployment: " + reason
  {
    var scheme := Unregistered(reason);
    FetchStage(s, req, scheme, now);
    var app := Initialised(s.apps[req], now);
    var s1 := WithStatus(s, app).(log := s.log + InitWrites(s.apps[req], now));
    var failed := WithCondition(app, FailedCondition(app, Failure(reason)), now);
    assert s1.UpdateStatus(failed).1
           == WithStatus(s, failed).(log := s.log + InitWrites(s.apps[req], now) + [UpdateHelloAppStatus(failed)]);
  }

  /**
   * When the status write that reports a failed owner link fails too, the pass
   * returns the error of that write, not the owner-link error, and creates or
   * updates nothing.
   */
  lemma OwnerLinkStatusWriteFailureAborts(s: Store, req: Key, reason: string, now: Time, msg: string)
    requires s.KeysConsistent()
    requires req in s.apps
    requires s.faults == FetchScript(s.apps[req]) + [Some(msg)]
    ensures var app := Initialised(s.apps[req], now);
            var failed := WithCondition(app, FailedCondition(app, Failure(reason)), now);
            ReconcilePass(s, req, Unregistered(reason), now)
            == (Abort(Failure(msg)),
                WithStatus(s, app).(log := s.log + InitWrites(s.apps[req], now) + [UpdateHelloAppStatus(failed)],
                                    faults := []))
  {
    FetchStageScripted(s, req, Unregistered(reason), now, [Some(msg)]);
    assert [Some(msg)][1..] == [];
  }

  /** A spec that passed admission yields a Deployment of 1 to 10 replicas greeting with 1 to 255 characters. */
  lemma AdmittedSpecBuildsBoundedDeployment(app: HelloApp, scheme: Scheme)
    requires ValidSpec(app.spec)
    requires scheme.Registered?
    ensures var d := DeploymentForHelloApp(app, scheme).value;
            d.spec.replicas.Some? && 1 <= d.spec.replicas.value <= 10
            && FirstEnv(d).Some? && |FirstEnv(d).value| == 1
            && 1 <= |FirstEnv(d).value[0].value| <= 255
  {
  }

  // ---------------------------------------------------------------------------
  // Looking up the Deployment

  /** A missing Deployment is created exactly as built; the pass requeues and writes no further status. */
  lemma MissingDeploymentIsCreated(s: Store, req: Key, scheme: Scheme, now: Time)
    requires s.KeysConsistent()
    requires req in s.apps && req !in s.deployments
    requires scheme.Registered?
    requires s.faults == []
    ensures var app := Initialised(s.apps[req], now);
            var dep := DeploymentForHelloApp(app, scheme).value;
            ReconcilePass(s, req, scheme, now)
            == (RequeueNow,
                WithStatus(s, app).(deployments := s.deployments[req := dep],
                                    log := s.log + InitWrites(s.apps[req], now) + [CreateDeployment(dep)]))
  {
    FetchStage(s, req, scheme, now);
    var app := Initialised(s.apps[req], now);
    var s1 := WithStatus(s, app).(log := s.log + InitWrites(s.apps[req], now));
    var dep := DeploymentForHelloApp(app, scheme).value;
    assert s1.GetDeployment(req) == (Err(NotFound), s1);
    assert s1.Create(dep).1
           == WithStatus(s, app).(deployments := s.deployments[req := dep],
                                  log := s.log + InitWrites(s.apps[req], now) + [CreateDeployment(dep)]);
  }

  /**
   * A failed Deployment lookup other than NotFound is returned as is; the only
   * write is the initial status write on first sight.
   */
  lemma DeploymentLookupFailureAborts(s: Store, req: Key, scheme: Scheme, now: Time, msg: string)
    requires s.KeysConsistent()
    requires req in s.apps
    requires scheme.Registered?
    requires s.faults == FetchScript(s.apps[req]) + [Some(msg)]
    ensures var app := Initialised(s.apps[req], now);
            ReconcilePass(s, req, scheme, now)
            == (Abort(Failure(msg)),
                WithStatus(s, app).(log := s.log + InitWrites(s.apps[req], now), faults := []))
  {
    FetchStageScripted(s, req, scheme, now, [Some(msg)]);
    assert [Some(msg)][1..] == [];
  }

  /** A failed Create is returned as is; the Create is the last write and nothing is stored. */
  lemma CreateFailureAborts(s: Store, req: Key, scheme: Scheme, now: Time, msg: string)
    requires s.KeysConsistent()
    requires req in s.apps && req !in s.deployments
    requires scheme.Registered?
    requires s.faults == FetchScript(s.apps[req]) + [None, Some(msg)]
    ensures var app := Initialised(s.apps[req], now);
            var dep := DeploymentForHelloApp(app, scheme).value;
            ReconcilePass(s, req, scheme, now)
            == (Abort(Failure(msg)),
                WithStatus(s, app).(log := s.log + InitWrites(s.apps[req], now) + [CreateDeployment(dep)],
                                    faults := []))
  {
    FetchStageScripted(s, req, scheme, now, [None, Some(msg)]);
    assert [None, Some(msg)][1..] == [Some(msg)];
    assert [Some(msg)][1..] == [];
  }

  // ---------------------------------------------------------------------------
  // Diffing the found Deployment

  /** Patching converges in one step: the patched Deployment no longer diverges from the desired one. */
  lemma PatchIsIdempotent(found: Deployment, desired: Deployment)
    ensures var patched := PatchDeployment(found, desired).0;
            PatchDeployment(patched, desired) == (patched, false)
  {
  }

  /** A diverging Deployment gets exactly one update with the patched object; no status is written. */
  lemma DivergingDeploymentIsUpdated(s: Store, req: Key, scheme: Scheme, now: Time)
    requires s.KeysConsistent()
    requires req in s.apps && req in s.deployments
    requires scheme.Registered?
    requires s.faults == []
    requires var desired := DeploymentForHelloApp(s.apps[req], scheme).value;
             ReplicasDiverge(s.deployments[req], desired) || EnvDiverges(s.deployments[req], desired)
    ensures var app := Initialised(s.apps[req], now);
            var patched := PatchDeployment(s.deployments[req], DeploymentForHelloApp(app, scheme).value).0;
            ReconcilePass(s, req, scheme, now)
            == (RequeueNow,
                WithStatus(s, app).(deployments := s.deployments[req := patched],
                                    log := s.log + InitWrites(s.apps[req], now) + [UpdateDeployment(patched)]))
  {
    FetchStage(s, req, scheme, now);
    var app := Initialised(s.apps[req], now);
    var s1 := WithStatus(s, app).(log := s.log + InitWrites(s.apps[req], now));
    var desired := DeploymentForHelloApp(app, scheme).value;
    BuildReadsOnlyMetaAndSpec(app, s.apps[req], scheme);
    var found := s.deployments[req];
    var patched := PatchDeployment(found, desired).0;
    assert s1.GetDeployment(req) == (Ok(found), s1);
    assert KeyOf(patched.meta) == req;
    assert s1.Update(patched).1
           == WithStatus(s, app).(deployments := s.deployments[req := patched],
                                  log := s.log + InitWrites(s.apps[req], now) + [UpdateDeployment(patched)]);
  }

  /** A failed Update of a diverging Deployment is returned as is; the stored Deployment stays as it was. */
  lemma UpdateFailureAborts(s: Store, req: Key, scheme: Scheme, now: Time, msg: string)
    requires s.KeysConsistent()
    requires req in s.apps && req in s.deployments
    requires scheme.Registered?
    requires s.faults == FetchScript(s.apps[req]) + [None, Some(msg)]
    requires var desired := DeploymentForHelloApp(s.apps[req], scheme).value;
             ReplicasDiverge(s.deployments[req], desired) || EnvDiverges(s.deployments[req], desired)
    ensures var app := Initialised(s.apps[req], now);
            var patched := PatchDeployment(s.deployments[req], DeploymentForHelloApp(app, scheme).value).0;
            ReconcilePass(s, req, scheme, now)
            == (Abort(Failure(msg)),
                WithStatus(s, app).(log := s.log + InitWrites(s.apps[req], now) + [UpdateDeployment(patched)],
                                    faults := []))
  {
    FetchStageScripted(s, req, scheme, now, [None, Some(msg)]);
    var app := Initialised(s.apps[req], now);
    BuildReadsOnlyMetaAndSpec(app, s.apps[req], scheme);
    assert [None, Some(msg)][1..] == [Some(msg)];
    assert [Some(msg)][1..] == [];
  }

  /**
   * In the steady state the HelloApp is reported Available True with the
   * Deployment's available replicas; the status is written even when it is
   * unchanged, and the pass neither requeues nor fails.
   */
  lemma SteadyStateReportsAvailable(s: Store, req: Key, scheme: Scheme, now: Time)
    requires s.KeysConsistent()
    requires req in s.apps && req in s.deployments
    requires scheme.Registered?
    requires s.faults == []
    requires var desired := DeploymentForHelloApp(s.apps[req], scheme).value;
             !ReplicasDiverge(s.deployments[req], desired) && !EnvDiverges(s.deployments[req], desired)
    ensures var app := Initialised(s.apps[req], now);
            var reported := WithCondition(app, AvailableCondition(app), now)
                              .(status := WithCondition(app, AvailableCondition(app), now).status
                                  .(availableReplicas := s.deployments[req].status.availableReplicas));
            ReconcilePass(s, req, scheme, now)
            == (Done, WithStatus(s, reported).(log := s.log + InitWrites(s.apps[req], now) + [UpdateHelloAppStatus(reported)]))
  {
    FetchStage(s, req, scheme, now);
    var app := Initialised(s.apps[req], now);
    var s1 := WithStatus(s, app).(log := s.log + InitWrites(s.apps[req], now));
    var desired := DeploymentForHelloApp(app, scheme).value;
    BuildReadsOnlyMetaAndSpec(app, s.apps[req], scheme);
    var found := s.deployments[req];
    assert s1.GetDeployment(req) == (Ok(found), s1);
    var available := WithCondition(app, AvailableCondition(app), now);
    var reported := available.(status := available.status.(availableReplicas := found.status.availableReplicas));
    assert s1.UpdateStatus(reported).1
           == WithStatus(s, reported).(log := s.log + InitWrites(s.apps[req], now) + [UpdateHelloAppStatus(reported)]);
  }

  /** A failed steady-state status write is returned as is; the HelloApp's stored status stays as the fetch stage left it. */
  lemma SteadyStatusWriteFailureAborts(s: Store, req: Key, scheme: Scheme, now: Time, msg: string)
    requires s.KeysConsistent()
    requires req in s.apps && req in s.deployments
    requires scheme.Registered?
    requires s.faults == FetchScript(s.apps[req]) + [None, Some(msg)]
    requires var desired := DeploymentForHelloApp(s.apps[req], scheme).value;
             !ReplicasDiverge(s.deployments[req], desired) && !EnvDiverges(s.deployments[req], desired)
    ensures var app := Initialised(s.apps[req], now);
            var reported := WithCondition(app, AvailableCondition(app), now)
                              .(status := WithCondition(app, AvailableCondition(app), now).status
                                  .(availableReplicas := s.deployments[req].status.availableReplicas));
            ReconcilePass(s, req, scheme, now)
            == (Abort(Failure(msg)),
                WithStatus(s, app).(log := s.log + InitWrites(s.apps[req], now) + [UpdateHelloAppStatus(reported)],
                                    faults := []))
  {
    FetchStageScripted(s, req, scheme, now, [None, Some(msg)]);
    var app := Initialised(s.apps[req], now);
    BuildReadsOnlyMetaAndSpec(app, s.apps[req], scheme);
    assert [None, Some(msg)][1..] == [Some(msg)];
    assert [Some(msg)][1..] == [];
  }

  // ---------------------------------------------------------------------------
  // Invariants of every pass, whatever fails

  /** The store invariants: objects filed under their own keys, condition lists keyed by type. */
  predicate Inv(s: Store) {
    s.KeysConsistent() && s.StatusesValid()
  }

  /**
   * How a pass may change the store: the set of HelloApps and their metadata and
   * specs stay as they are (only statuses move), no HelloApp and no Deployment
   * other than the ones at `k` changes, and the log only grows.
   */
  ghost predicate Evolves(s: Store, s': Store, k: Key) {
    s'.apps.Keys == s.apps.Keys
    && (forall j :: j in s.apps ==> s'.apps[j].meta == s.apps[j].meta && s'.apps[j].spec == s.apps[j].spec)
    && (forall j :: j != k && j in s.apps ==> s'.apps[j] == s.apps[j])
    && (forall j :: j != k ==> (j in s.deployments <==> j in s'.deployments))
    && (forall j :: j != k && j in s.deployments ==> s'.deployments[j] == s.deployments[j])
    && s.log <= s'.log
  }

  lemma EvolvesTransitive(s: Store, s': Store, s'': Store, k: Key)
    requires Evolves(s, s', k) && Evolves(s', s'', k)
    ensures Evolves(s, s'', k)
  {
  }

  /** A status write of a well-keyed condition list keeps the invariants. */
  lemma UpdateStatusKeepsInv(s: Store, app: HelloApp, k: Key)
    requires Inv(s) && ValidStatus(app.status) && KeyOf(app.meta) == k
    ensures Inv(s.UpdateStatus(app).1) && Evolves(s, s.UpdateStatus(app).1, k)
  {
  }

  /** Taking a fault off the script changes nothing else. */
  lemma NextFaultKeepsInv(s: Store, k: Key)
    requires Inv(s)
    ensures Inv(s.NextFault().1) && Evolves(s, s.NextFault().1, k)
    ensures s.NextFault().1.apps == s.apps && s.NextFault().1.deployments == s.deployments
  {
  }

  /** Creating the Deployment at `k` keeps the invariants. */
  lemma CreateKeepsInv(s: Store, d: Deployment, k: Key)
    requires Inv(s) && KeyOf(d.meta) == k
    ensures Inv(s.Create(d).1) && Evolves(s, s.Create(d).1, k)
  {
    var s' := s.Create(d).1;
    assert s'.apps == s.apps && s.log <= s'.log;
    assert s'.deployments == s.deployments || s'.deployments == s.deployments[k := d];
  }

  /** Updating the Deployment at `k` keeps the invariants. */
  lemma UpdateKeepsInv(s: Store, d: Deployment, k: Key)
    requires Inv(s) && KeyOf(d.meta) == k
    ensures Inv(s.Update(d).1) && Evolves(s, s.Update(d).1, k)
  {
    var s' := s.Update(d).1;
    assert s'.apps == s.apps && s.log <= s'.log;
    assert s'.deployments == s.deployments
           || (k in s.deployments && s'.deployments == s.deployments[k := d.(status := s.deployments[k].status)]);
  }

  /** The stages after the fetch keep the invariants and touch only the HelloApp's own Deployment. */
  lemma FetchedKeepsInv(s: Store, app: HelloApp, scheme: Scheme, now: Time)
    requires Inv(s) && ValidStatus(app.status)
    ensures var s' := ReconcileFetched(s, app, scheme, now).1;
            Inv(s') && Evolves(s, s', KeyOf(app.meta))
  {
    var k := KeyOf(app.meta);
    var built := DeploymentForHelloApp(app, scheme);
    if built.Err? {
      UpdateStatusKeepsInv(s, WithCondition(app, FailedCondition(app, built.error), now), k);
    } else {
      var (lookup, s1) := s.GetDeployment(k);
      NextFaultKeepsInv(s, k);
      assert s1 == s.NextFault().1;
      var s' := ReconcileFetched(s, app, scheme, now).1;
      if lookup.Err? && lookup.error.NotFound? {
        CreateKeepsInv(s1, built.value, k);
        assert s' == s1.Create(built.value).1;
        EvolvesTransitive(s, s1, s', k);
      } else if lookup.Ok? {
        var (patched, needsUpdate) := PatchDeployment(lookup.value, built.value);
        assert KeyOf(patched.meta) == k;
        if needsUpdate {
          UpdateKeepsInv(s1, patched, k);
          assert s' == s1.Update(patched).1;
        } else {
          var available := WithCondition(app, AvailableCondition(app), now);
          var reported := available.(status := available.status.(availableReplicas := lookup.value.status.availableReplicas));
          UpdateStatusKeepsInv(s1, reported, k);
          assert s' == s1.UpdateStatus(reported).1;
        }
        EvolvesTransitive(s, s1, s', k);
      }
    }
  }

  /**
   * Every pass, whatever store call fails, keeps each condition list keyed by
   * type (so a HelloApp never holds two Available conditions), never changes a
   * HelloApp's metadata or spec, and changes no Deployment but the one named
   * like the HelloApp.
   */
  lemma PassKeepsInv(s: Store, req: Key, scheme: Scheme, now: Time)
    requires Inv(s)
    ensures var s' := ReconcilePass(s, req, scheme, now).1;
            Inv(s') && Evolves(s, s', req)
  {
    var s' := ReconcilePass(s, req, scheme, now).1;
    var (got, s1) := s.GetHelloApp(req);
    NextFaultKeepsInv(s, req);
    assert s1 == s.NextFault().1;
    if got.Err? {
      assert s' == s1;
    } else {
      var app := got.value;
      assert app == s.apps[req];
      if |app.status.conditions| == 0 {
        var app1 := WithCondition(app, InitialCondition(app), now);
        var (written, s2) := s1.UpdateStatus(app1);
        UpdateStatusKeepsInv(s1, app1, req);
        EvolvesTransitive(s, s1, s2, req);
        if written.Some? {
          assert s' == s2;
        } else {
          var (again, s3) := s2.GetHelloApp(req);
          NextFaultKeepsInv(s2, req);
          assert s3 == s2.NextFault().1;
          EvolvesTransitive(s, s2, s3, req);
          if again.Err? {
            assert s' == s3;
          } else {
            assert again.value == s2.apps[req];
            FetchedKeepsInv(s3, again.value, scheme, now);
            assert s' == ReconcileFetched(s3, again.value, scheme, now).1;
            EvolvesTransitive(s, s3, s', req);
          }
        }
      } else {
        FetchedKeepsInv(s1, app, scheme, now);
        assert s' == ReconcileFetched(s1, app, scheme, now).1;
        EvolvesTransitive(s, s1, s', req);
      }
    }
  }

  // ---------------------------------------------------------------------------
  // Settling on a fault-free cluster

  /** The HelloApp's Available condition says True. */
  predicate ReportsAvailable(app: HelloApp) {
    var i := FindStatusCondition(app.status.conditions, TypeAvailableHelloApp);
    i.Some? && app.status.conditions[i.value].status == ConditionTrue
  }

  /**
   * The cluster has settled for `req`: its Deployment runs the requested number
   * of replicas, its first container (if any) carries exactly the greeting,
   * and the HelloApp reports itself Available.
   */
  predicate Settled(s: Store, req: Key) {
    req in s.apps && req in s.deployments
    && s.deployments[req].spec.replicas == Some(s.apps[req].spec.replicas)
    && (FirstEnv(s.deployments[req]).Some? ==>
          FirstEnv(s.deployments[req]) == Some([EnvVar(MessageEnvName, s.apps[req].spec.message, None)]))
    && ReportsAvailable(s.apps[req])
  }

  /** A steady-state pass on a fault-free store leaves the cluster settled and the store fault-free. */
  lemma SteadyPassSettles(s: Store, req: Key, scheme: Scheme, now: Time)
    requires Inv(s)
    requires req in s.apps && req in s.deployments
    requires scheme.Registered?
    requires s.faults == []
    requires var desired := DeploymentForHelloApp(s.apps[req], scheme).value;
             !ReplicasDiverge(s.deployments[req], desired) && !EnvDiverges(s.deployments[req], desired)
    ensures ReconcilePass(s, req, scheme, now).0 == Done
    ensures Settled(ReconcilePass(s, req, scheme, now).1, req)
    ensures ReconcilePass(s, req, scheme, now).1.deployments == s.deployments
  {
    SteadyStateReportsAvailable(s, req, scheme, now);
    var app := Initialised(s.apps[req], now);
    var available := WithCondition(app, AvailableCondition(app), now);
    var s1 := ReconcilePass(s, req, scheme, now).1;
    assert s1.apps[req].status.conditions == available.status.conditions;
    assert ReportsAvailable(s1.apps[req]);
  }

  /**
   * On a fault-free cluster a HelloApp settles within two passes: the first
   * either finds everything in place, or creates or patches the Deployment and
   * requeues, and the pass after that finds everything in place.
   */
  lemma SettlesWithinTwoPasses(s: Store, req: Key, scheme: Scheme, now: Time, later: Time)
    requires Inv(s)
    requires req in s.apps
    requires scheme.Registered?
    requires s.faults == []
    ensures var (first, s1) := ReconcilePass(s, req, scheme, now);
            (first == Done && Settled(s1, req))
            || (first == RequeueNow
                && var (second, s2) := ReconcilePass(s1, req, scheme, later);
                   second == Done && Settled(s2, req))
  {
    var s1 := ReconcilePass(s, req, scheme, now).1;
    PassKeepsInv(s, req, scheme, now);
    var app := Initialised(s.apps[req], now);
    var desired := DeploymentForHelloApp(app, scheme).value;
    BuildReadsOnlyMetaAndSpec(app, s.apps[req], scheme);
    if req !in s.deployments {
      MissingDeploymentIsCreated(s, req, scheme, now);
      assert s1.faults == [] && s1.deployments[req] == desired;
      BuildReadsOnlyMetaAndSpec(s1.apps[req], s.apps[req], scheme);
      SteadyPassSettles(s1, req, scheme, later);
    } else if ReplicasDiverge(s.deployments[req], desired) || EnvDiverges(s.deployments[req], desired) {
      DivergingDeploymentIsUpdated(s, req, scheme, now);
      var patched := PatchDeployment(s.deployments[req], desired).0;
      PatchIsIdempotent(s.deployments[req], desired);
      assert s1.faults == [] && s1.deployments[req] == patched;
      BuildReadsOnlyMetaAndSpec(s1.apps[req], s.apps[req], scheme);
      SteadyPassSettles(s1, req, scheme, later);
    } else {
      SteadyPassSettles(s, req, scheme, now);
    }
  }

  /**
   * Reconciling a settled HelloApp again changes nothing in the store, at any
   * later time, but the pass still writes the (unchanged) status once: the
   * reconciler never skips that write.
   */
  lemma SteadyPassRepeats(s: Store, req: Key, scheme: Scheme, now: Time, later: Time)
    requires Inv(s)
    requires req in s.apps
    requires scheme.Registered?
    requires s.faults == []
    requires ReconcilePass(s, req, scheme, now).0 == Done
    ensures var s1 := ReconcilePass(s, req, scheme, now).1;
            req in s1.apps
            && ReconcilePass(s1, req, scheme, later)
               == (Done, s1.(log := s1.log + [UpdateHelloAppStatus(s1.apps[req])]))
  {
    var s1 := ReconcilePass(s, req, scheme, now).1;
    PassKeepsInv(s, req, scheme, now);
    var app := Initialised(s.apps[req], now);
    var desired := DeploymentForHelloApp(app, scheme).value;
    BuildReadsOnlyMetaAndSpec(app, s.apps[req], scheme);
    if req !in s.deployments {
      MissingDeploymentIsCreated(s, req, scheme, now);
      assert false;
    } else if ReplicasDiverge(s.deployments[req], desired) || EnvDiverges(s.deployments[req], desired) {
      DivergingDeploymentIsUpdated(s, req, scheme, now);
      assert false;
    }
    SteadyStateReportsAvailable(s, req, scheme, now);
    var found := s.deployments[req];
    var available := WithCondition(app, AvailableCondition(app), now);
    var reported := available.(status := available.status.(availableReplicas := found.status.availableReplicas));
    assert s1.apps[req] == reported && s1.deployments == s.deployments && s1.faults == [];
    BuildReadsOnlyMetaAndSpec(reported, s.apps[req], scheme);
    SteadyStateReportsAvailable(s1, req, scheme, later);
    SetStatusConditionIdempotent(app.status.conditions, AvailableCondition(app), now, later);
    assert AvailableCondition(reported) == AvailableCondition(app);
    assert Initialised(reported, later) == reported;
    assert WithStatus(s1, reported) == s1;
  }

  /**
   * When a steady pass reports the HelloApp Available, the condition's
   * transition time moves to `now` if it was not True before (after a failed
   * pass, or on first sight), and stays where it was if it already was True.
   */
  lemma AvailableTransitionTime(s: Store, req: Key, scheme: Scheme, now: Time)
    requires s.KeysConsistent()
    requires req in s.apps && req in s.deployments
    requires scheme.Registered?
    requires s.faults == []
    requires var desired := DeploymentForHelloApp(s.apps[req], scheme).value;
             !ReplicasDiverge(s.deployments[req], desired) && !EnvDiverges(s.deployments[req], desired)
    ensures var conds := s.apps[req].status.conditions;
            var s1 := ReconcilePass(s, req, scheme, now).1;
            req in s1.apps &&
            var conds' := s1.apps[req].status.conditions;
            FindStatusCondition(conds', TypeAvailableHelloApp).Some? &&
            var k := FindStatusCondition(conds', TypeAvailableHelloApp).value;
            conds'[k].lastTransitionTime
              == match FindStatusCondition(conds, TypeAvailableHelloApp)
                 case Some(i) => if conds[i].status == ConditionTrue then conds[i].lastTransitionTime else now
                 case None => now
  {
    SteadyStateReportsAvailable(s, req, scheme, now);
    var app := Initialised(s.apps[req], now);
    SetStatusConditionTransitionTime(app.status.conditions, AvailableCondition(app), now);
    if |s.apps[req].status.conditions| == 0 {
      InitialConditionShape(s.apps[req], now);
      assert FindStatusCondition(app.status.conditions, TypeAvailableHelloApp) == Some(0);
    }
  }

  // ---------------------------------------------------------------------------
  // Ownership

  /** A write that creates a Deployment creates one controlled by `app`. */
  predicate OwnedIfCreate(w: Write, app: HelloApp) {
    w.CreateDeployment? ==> ControlledBy(w.deployment, app)
  }

  /** Every Deployment the fetched stages ask to create carries a controller link to the HelloApp. */
  lemma FetchedCreatesOwned(s: Store, app: HelloApp, scheme: Scheme, now: Time)
    ensures var s' := ReconcileFetched(s, app, scheme, now).1;
            s'.log == s.log || (exists w :: s'.log == s.log + [w] && OwnedIfCreate(w, app))
  {
    var s' := ReconcileFetched(s, app, scheme, now).1;
    var k := KeyOf(app.meta);
    var built := DeploymentForHelloApp(app, scheme);
    if built.Err? {
      var failed := WithCondition(app, FailedCondition(app, built.error), now);
      assert s' == s.UpdateStatus(failed).1;
      assert s'.log == s.log + [UpdateHelloAppStatus(failed)];
    } else {
      var (lookup, s1) := s.GetDeployment(k);
      assert s1.log == s.log;
      if lookup.Err? && lookup.error.NotFound? {
        assert s' == s1.Create(built.value).1;
        assert s'.log == s.log + [CreateDeployment(built.value)];
      } else if lookup.Err? {
        assert s' == s1;
      } else {
        var (patched, needsUpdate) := PatchDeployment(lookup.value, built.value);
        if needsUpdate {
          assert s' == s1.Update(patched).1;
          assert s'.log == s.log + [UpdateDeployment(patched)];
        } else {
          var available := WithCondition(app, AvailableCondition(app), now);
          var reported := available.(status := available.status.(availableReplicas := lookup.value.status.availableReplicas));
          assert s' == s1.UpdateStatus(reported).1;
          assert s'.log == s.log + [UpdateHelloAppStatus(reported)];
        }
      }
    }
  }

  /**
   * Whatever fails, every Deployment a pass asks the store to create carries
   * a controller link back to the HelloApp it was built for, so that the
   * garbage collector deletes it with its owner.
   */
  lemma CreatedDeploymentsAreOwned(s: Store, req: Key, scheme: Scheme, now: Time)
    requires s.KeysConsistent()
    ensures var s' := ReconcilePass(s, req, scheme, now).1;
            s.log <= s'.log
            && forall i :: |s.log| <= i < |s'.log| ==> req in s.apps && OwnedIfCreate(s'.log[i], s.apps[req])
  {
    var s' := ReconcilePass(s, req, scheme, now).1;
    var (got, s1) := s.GetHelloApp(req);
    if got.Err? {
      assert s' == s1;
    } else {
      var app := got.value;
      if |app.status.conditions| == 0 {
        var app1 := WithCondition(app, InitialCondition(app), now);
        var (written, s2) := s1.UpdateStatus(app1);
        assert s2.log == s.log + [UpdateHelloAppStatus(app1)];
        if written.Some? {
          assert s' == s2;
        } else {
          var (again, s3) := s2.GetHelloApp(req);
          if again.Err? {
            assert s' == s3;
          } else {
            assert again.value.meta == app.meta;
            FetchedCreatesOwned(s3, again.value, scheme, now);
            assert s' == ReconcileFetched(s3, again.value, scheme, now).1;
          }
        }
      } else {
        FetchedCreatesOwned(s1, app, scheme, now);
        assert s' == ReconcileFetched(s1, app, scheme, now).1;
      }
    }
  }
}
