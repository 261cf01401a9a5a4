/**
 * The object store the reconciler talks to: HelloApps and Deployments by key,
 * a log of every write request it receives, and a script of injected failures.
 * Each call takes the next entry off the script; an entry `Some(msg)` makes
 * that call fail with `Failure(msg)` and leaves the contents alone, and an
 * empty script means every call is served.
 */
module Client {
  import opened Wrappers
  import opened Meta
  import opened HelloAppTypes
  import opened Deployments

  /** NotFound and AlreadyExists are the API's typed errors; anything else is a Failure. */
  datatype Error = NotFound | AlreadyExists | Failure(text: string)

  /** How an error prints. */
  function ErrorText(e: Error): string {
    match e
    case NotFound => "not found"
    case AlreadyExists => "already exists"
    case Failure(text) => text
  }

  /** A write request as the store receives it. */
  datatype Write =
    | CreateDeployment(deployment: Deployment)
    | UpdateDeployment(deployment: Deployment)
    | UpdateHelloAppStatus(helloApp: HelloApp)

  datatype Store = Store(
    apps: map<Key, HelloApp>,
    deployments: map<Key, Deployment>,
    log: seq<Write>,
    faults: seq<Option<string>>)
  {
    /** Every object is filed under its own namespace and name. */
    predicate KeysConsistent() {
      (forall k :: k in apps ==> KeyOf(apps[k].meta) == k)
      && (forall k :: k in deployments ==> KeyOf(deployments[k].meta) == k)
    }

    /** Every stored HelloApp's conditions obey their merge key. */
    predicate StatusesValid() {
      forall k :: k in apps ==> ValidStatus(apps[k].status)
    }

    function NextFault(): (Option<string>, Store) {
      if |faults| == 0 then (None, this) else (faults[0], this.(faults := faults[1..]))
    }

    function GetHelloApp(k: Key): (Result<HelloApp, Error>, Store) {
      var (fault, s) := NextFault();
      if fault.Some? then (Err(Failure(fault.value)), s)
      else if k in apps then (Ok(apps[k]), s)
      else (Err(NotFound), s)
    }

    function GetDeployment(k: Key): (Result<Deployment, Error>, Store) {
      var (fault, s) := NextFault();
      if fault.Some? then (Err(Failure(fault.value)), s)
      else if k in deployments then (Ok(deployments[k]), s)
      else (Err(NotFound), s)
    }

    function Create(d: Deployment): (Option<Error>, Store) {
      var (fault, s) := this.(log := log + [CreateDeployment(d)]).NextFault();
      var k := KeyOf(d.meta);
      if fault.Some? then (Some(Failure(fault.value)), s)
      else if k in deployments then (Some(AlreadyExists), s)
      else (None, s.(deployments := deployments[k := d]))
    }

    /** Replaces a stored Deployment; its status sub-resource is not written. */
    function Update(d: Deployment): (Option<Error>, Store) {
      var (fault, s) := this.(log := log + [UpdateDeployment(d)]).NextFault();
      var k := KeyOf(d.meta);
      if fault.Some? then (Some(Failure(fault.value)), s)
      else if k !in deployments then (Some(NotFound), s)
      else (None, s.(deployments := deployments[k := d.(status := deployments[k].status)]))
    }

    /** Writes only the status sub-resource of a stored HelloApp. */
    function UpdateStatus(app: HelloApp): (Option<Error>, Store) {
      var (fault, s) := this.(log := log + [UpdateHelloAppStatus(app)]).NextFault();
      var k := KeyOf(app.meta);
      if fault.Some? then (Some(Failure(fault.value)), s)
      else if k !in apps then (Some(NotFound), s)
      else (None, s.(apps := apps[k := apps[k].(status := app.status)]))
    }
  }

  /** The store as a mutable object; each method behaves as the Store function of the same name. */
  class Cluster {
    var apps: map<Key, HelloApp>
    var deployments: map<Key, Deployment>
    var log: seq<Write>
    var faults: seq<Option<string>>

    function State(): Store
      reads this
    {
      Store(apps, deployments, log, faults)
    }

    constructor (s: Store)
      ensures State() == s
    {
      apps, deployments, log, faults := s.apps, s.deployments, s.log, s.faults;
    }

    method NextFault() returns (fault: Option<string>)
      modifies this
      ensures (fault, State()) == old(State()).NextFault()
    {
      fault := None;
      if |faults| > 0 {
        fault := faults[0];
        faults := faults[1..];
      }
    }

    method GetHelloApp(k: Key) returns (r: Result<HelloApp, Error>)
      modifies this
      ensures (r, State()) == old(State()).GetHelloApp(k)
    {
      var fault := NextFault();
      if fault.Some? {
        r := Err(Failure(fault.value));
      } else if k in apps {
        r := Ok(apps[k]);
      } else {
        r := Err(NotFound);
      }
    }

    method GetDeployment(k: Key) returns (r: Result<Deployment, Error>)
      modifies this
      ensures (r, State()) == old(State()).GetDeployment(k)
    {
      var fault := NextFault();
      if fault.Some? {
        r := Err(Failure(fault.value));
      } else if k in deployments {
        r := Ok(deployments[k]);
      } else {
        r := Err(NotFound);
      }
    }

    method Create(d: Deployment) returns (err: Option<Error>)
      modifies this
      ensures (err, State()) == old(State()).Create(d)
    {
      log := log + [CreateDeployment(d)];
      var fault := NextFault();
      var k := KeyOf(d.meta);
      if fault.Some? {
        err := Some(Failure(fault.value));
      } else if k in deployments {
        err := Some(AlreadyExists);
      } else {
        deployments := deployments[k := d];
        err := None;
      }
    }

    method Update(d: Deployment) returns (err: Option<Error>)
      modifies this
      ensures (err, State()) == old(State()).Update(d)
    {
      log := log + [UpdateDeployment(d)];
      var fault := NextFault();
      var k := KeyOf(d.meta);
      if fault.Some? {
        err := Some(Failure(fault.value));
      } else if k !in deployments {
        err := Some(NotFound);
      } else {
        deployments := deployments[k := d.(status := deployments[k].status)];
        err := None;
      }
    }

    method UpdateStatus(app: HelloApp) returns (err: Option<Error>)
      modifies this
      ensures (err, State()) == old(State()).UpdateStatus(app)
    {
      log := log + [UpdateHelloAppStatus(app)];
      var fault := NextFault();
      var k := KeyOf(app.meta);
      if fault.Some? {
        err := Some(Failure(fault.value));
      } else if k !in apps {
        err := Some(NotFound);
      } else {
        apps := apps[k := apps[k].(status := app.status)];
        err := None;
      }
    }
  }
}
