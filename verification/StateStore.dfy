/**
 * The state recorder: rows and health log, the lifecycle verbs over them, and the three wrappers that
 * drive them around a backend's own create, delete and update (multistack/state).
 */
module StateStore {
  import opened Collections

  datatype Status = Pending | Validating | Provisioning | Provisioned | Degraded | Failed | Deleting

  datatype Health = Unknown | Healthy | DegradedHealth | Unhealthy

  datatype Row = Row(componentType: string, status: Status, kubeconfigPath: Option<string>, error: Option<string>)

  datatype Check = Check(deployment: string, health: Health)

  type Rows = map<string, Row>

  /** Both tables, and every content the deployments table has had so far. */
  datatype Db = Db(rows: Rows, checks: seq<Check>, past: seq<Rows>)

  const EMPTY: Db := Db(map[], [], [])

  /*** DeploymentRepository ***/

  function Write(db: Db, rows: Rows): (r: Db) {
    db.(rows := rows, past := db.past + [rows])
  }

  function Insert(db: Db, name: string, componentType: string): (r: Db) {
    Write(db, db.rows[name := Row(componentType, Pending, None, None)])
  }

  function SetStatus(db: Db, name: string, status: Status, error: Option<string>): (r: Db)
    requires name in db.rows
  {
    Write(db, db.rows[name := db.rows[name].(status := status, error := error)])
  }

  function SetComponentType(db: Db, name: string, componentType: string): (r: Db)
    requires name in db.rows
  {
    Write(db, db.rows[name := db.rows[name].(componentType := componentType)])
  }

  function SetKubeconfigPath(db: Db, name: string, path: Option<string>): (r: Db)
    requires name in db.rows
  {
    Write(db, db.rows[name := db.rows[name].(kubeconfigPath := path)])
  }

  function ChecksWithout(checks: seq<Check>, name: string): (r: seq<Check>)
    ensures forall c :: c in r <==> c in checks && c.deployment != name
  {
    Select(checks, (c: Check) => c.deployment != name)
  }

  /** Deleting a row cascades to its health checks. */
  function DeleteRow(db: Db, name: string): (r: Db) {
    Write(db.(checks := ChecksWithout(db.checks, name)), db.rows - {name})
  }

  function AddCheck(db: Db, name: string, health: Health): (r: Db) {
    db.(checks := db.checks + [Check(name, health)])
  }

  predicate HasHealthy(rows: Rows, componentType: string) {
    exists n :: n in rows && rows[n].componentType == componentType && rows[n].status == Provisioned
  }

  /*** StateManager ***/

  function Start(db: Db, name: string, componentType: string): (r: Db) {
    var db1 :=
      if name !in db.rows then Insert(db, name, componentType)
      else if db.rows[name].componentType != componentType then SetComponentType(db, name, componentType)
      else db;
    SetStatus(db1, name, Provisioning, None)
  }

  function MarkHealthy(db: Db, name: string, kubeconfigPath: Option<string>): (r: Db)
    requires name in db.rows
  {
    var db1 := if kubeconfigPath.Some? then SetKubeconfigPath(db, name, kubeconfigPath) else db;
    SetStatus(AddCheck(db1, name, Healthy), name, Provisioned, None)
  }

  function MarkFailed(db: Db, name: string, error: string): (r: Db)
    requires name in db.rows
  {
    SetStatus(AddCheck(db, name, Unhealthy), name, Failed, Some(error))
  }

  function StatusFor(health: Health): (r: Option<Status>) {
    match health
    case Unknown => None
    case Healthy => Some(Provisioned)
    case DegradedHealth => Some(Degraded)
    case Unhealthy => Some(Failed)
  }

  /** A health probe someone ran; UNKNOWN leaves the status alone. */
  function Probe(db: Db, name: string, health: Health): (r: Db)
    requires name in db.rows
  {
    var db1 := AddCheck(db, name, health);
    if StatusFor(health).Some? then SetStatus(db1, name, StatusFor(health).value, None) else db1
  }

  predicate Resolved(rows: Rows, required: seq<string>) {
    forall i | 0 <= i < |required| :: HasHealthy(rows, required[i])
  }

  /*** the wrappers ***/

  /** What propagates out of a call: a backend's own error, or one of the recorder's. */
  datatype Exn = Domain(kind: nat, text: string) | NotFound | Unresolved

  /** `marked`: the deployments recorded as failed because of this exception so far. */
  datatype Outcome = Ok | Raised(exn: Exn, marked: set<string>)

  /** A wrapped backend method and what its body does. */
  datatype Op =
    | Create(name: string, componentType: string, required: seq<string>, kubeconfigPath: Option<string>, body: Body)
    | Delete(name: string, body: Body)
    | Update(name: string, refused: set<nat>, body: Body)

  /** A body makes wrapped calls, catching some of their exceptions, and then returns or raises. */
  datatype Body =
    | Returns
    | Raises(kind: nat, text: string)
    | Calls(op: Op, caught: bool, rest: Body)

  function TextOf(e: Exn): (r: string) {
    match e
    case Domain(_, text) => text
    case NotFound => "no deployment is recorded under that name"
    case Unresolved => "no healthy deployment provides a required capability"
  }

  /** The exception path of a wrapper that records failures: recording needs the row to be there still. */
  function Fail(db: Db, name: string, o: Outcome): (r: (Db, Outcome))
    requires o.Raised?
  {
    if name !in db.rows then (db, Raised(NotFound, o.marked))
    else (MarkFailed(db, name, TextOf(o.exn)), Raised(o.exn, o.marked + {name}))
  }

  predicate IsRefusal(refused: set<nat>, o: Outcome) {
    o.Raised? && o.exn.Domain? && o.exn.kind in refused
  }

  /** A create whose dependencies are not met is turned down before its body runs. */
  predicate TurnedDown(op: Op, db: Db) {
    op.Create? && !Resolved(db.rows, op.required)
  }

  /** What the wrapper records before the body runs; deletes and updates of an untracked name record nothing. */
  function Opened(op: Op, db: Db): (r: Db) {
    match op
    case Create(name, componentType, _, _, _) => Start(db, name, componentType)
    case Delete(name, _) => if name in db.rows then SetStatus(db, name, Deleting, None) else db
    case Update(name, _, _) => if name in db.rows then SetStatus(db, name, Provisioning, None) else db
  }

  /** What it records once the body has left `db1` with outcome `o`; `was` is the store before the call. */
  function Closed(op: Op, was: Db, db1: Db, o: Outcome): (r: (Db, Outcome)) {
    match op
    case Create(name, _, _, kubeconfigPath, _) =>
      if o.Raised? then Fail(db1, name, o)
      else if name !in db1.rows then (db1, Raised(NotFound, {}))
      else (MarkHealthy(db1, name, kubeconfigPath), Ok)
    case Delete(name, _) =>
      if name !in was.rows then (db1, o)
      else if o.Raised? then Fail(db1, name, o)
      else if name !in db1.rows then (db1, Raised(NotFound, {}))
      else (DeleteRow(db1, name), Ok)
    case Update(name, refused, _) =>
      if name !in was.rows then (db1, o)
      else if o.Raised? && !IsRefusal(refused, o) then Fail(db1, name, o)
      else if name !in db1.rows then (db1, Raised(NotFound, if o.Raised? then o.marked else {}))
      else (SetStatus(db1, name, was.rows[name].status, None), o)
  }

  function RunBody(b: Body, db: Db): (r: (Db, Outcome))
    decreases b
  {
    match b
    case Returns => (db, Ok)
    case Raises(kind, text) => (db, Raised(Domain(kind, text), {}))
    case Calls(op, caught, rest) =>
      var (db1, o) := RunOp(op, db);
      if o.Raised? && !caught then (db1, o) else RunBody(rest, db1)
  }

  function RunOp(op: Op, db: Db): (r: (Db, Outcome))
    decreases op
  {
    if TurnedDown(op, db) then (db, Raised(Unresolved, {}))
    else
      var (db1, o) := RunBody(op.body, Opened(op, db));
      Closed(op, db, db1, o)
  }

  /*** runs ***/

  datatype Action = Do(op: Op) | Observe(name: string, health: Health)

  /** One operation, or one probe between operations; probing an unknown name raises and writes nothing. */
  function Act(a: Action, db: Db): (r: Db) {
    match a
    case Do(op) => RunOp(op, db).0
    case Observe(name, health) => if name in db.rows then Probe(db, name, health) else db
  }

  function Run(actions: seq<Action>, db: Db): (r: Db)
    decreases |actions|
  {
    if actions == [] then db else Run(actions[1..], Act(actions[0], db))
  }
}

/** The recorder as the source writes it: one object whose tables are updated statement by statement. */
module StateRecorder {
  import opened Collections
  import opened StateStore

  class StateManager {
    var rows: Rows
    var checks: seq<Check>
    ghost var past: seq<Rows>

    ghost function Contents(): (db: Db)
      reads this
    {
      Db(rows, checks, past)
    }

    constructor ()
      ensures Contents() == EMPTY
    {
      rows, checks, past := map[], [], [];
    }

    method WriteRow(name: string, row: Row)
      modifies this
      ensures Contents() == Write(old(Contents()), old(rows)[name := row])
    {
      rows := rows[name := row];
      past := past + [rows];
    }

    method SetRowStatus(name: string, status: Status, error: Option<string>) returns (found: bool)
      modifies this
      ensures found == (name in old(rows))
      ensures Contents() == if found then SetStatus(old(Contents()), name, status, error) else old(Contents())
    {
      found := name in rows;
      if found { WriteRow(name, rows[name].(status := status, error := error)); }
    }

    method Remove(name: string) returns (found: bool)
      modifies this
      ensures found == (name in old(rows))
      ensures Contents() == if found then DeleteRow(old(Contents()), name) else old(Contents())
    {
      found := name in rows;
      if found {
        checks := ChecksWithout(checks, name);
        rows := rows - {name};
        past := past + [rows];
      }
    }

    method RecordCheck(name: string, health: Health) returns (found: bool)
      modifies this`checks
      ensures found == (name in rows)
      ensures Contents() == if found then AddCheck(old(Contents()), name, health) else old(Contents())
    {
      found := name in rows;
      if found { checks := checks + [Check(name, health)]; }
    }

    method StartDeployment(name: string, componentType: string)
      modifies this
      ensures Contents() == Start(old(Contents()), name, componentType)
    {
      if name !in rows {
        WriteRow(name, Row(componentType, Pending, None, None));
      } else if rows[name].componentType != componentType {
        WriteRow(name, rows[name].(componentType := componentType));
      }
      var _ := SetRowStatus(name, Provisioning, None);
    }

    method MarkRowHealthy(name: string, kubeconfigPath: Option<string>) returns (found: bool)
      modifies this
      ensures found == (name in old(rows))
      ensures Contents() == if found then MarkHealthy(old(Contents()), name, kubeconfigPath) else old(Contents())
    {
      found := name in rows;
      if !found { return; }
      if kubeconfigPath.Some? { WriteRow(name, rows[name].(kubeconfigPath := kubeconfigPath)); }
      var _ := RecordCheck(name, Healthy);
      var _ := SetRowStatus(name, Provisioned, None);
    }

    method MarkRowFailed(name: string, error: string) returns (found: bool)
      modifies this
      ensures found == (name in old(rows))
      ensures Contents() == if found then MarkFailed(old(Contents()), name, error) else old(Contents())
    {
      found := RecordCheck(name, Unhealthy);
      if found { var _ := SetRowStatus(name, Failed, Some(error)); }
    }

    method RecordProbe(name: string, health: Health) returns (found: bool)
      modifies this
      ensures found == (name in old(rows))
      ensures Contents() == Act(Observe(name, health), old(Contents()))
    {
      found := RecordCheck(name, health);
      if found && StatusFor(health).Some? { var _ := SetRowStatus(name, StatusFor(health).value, None); }
    }

    /** Stops at the first capability without a healthy deployment. */
    method RequireHealthyDependencies(required: seq<string>) returns (ok: bool)
      ensures ok == Resolved(rows, required)
    {
      for i := 0 to |required|
        invariant forall j | 0 <= j < i :: HasHealthy(rows, required[j])
      {
        if !HasHealthy(rows, required[i]) { return false; }
      }
      return true;
    }

    /** Records a failure on the way out of a wrapper. */
    method FailOut(name: string, o: Outcome) returns (r: Outcome)
      requires o.Raised?
      modifies this
      ensures (Contents(), r) == Fail(old(Contents()), name, o)
    {
      var found := MarkRowFailed(name, TextOf(o.exn));
      r := if found then Raised(o.exn, o.marked + {name}) else Raised(NotFound, o.marked);
    }

    method ExecuteBody(b: Body) returns (r: Outcome)
      modifies this
      ensures (Contents(), r) == RunBody(b, old(Contents()))
      decreases b
    {
      match b
      case Returns => r := Ok;
      case Raises(kind, text) => r := Raised(Domain(kind, text), {});
      case Calls(op, caught, rest) =>
        var o := Execute(op);
        if o.Raised? && !caught { return o; }
        r := ExecuteBody(rest);
    }

    method Execute(op: Op) returns (r: Outcome)
      modifies this
      ensures (Contents(), r) == RunOp(op, old(Contents()))
      decreases op, 1
    {
      match op
      case Create(name, componentType, required, kubeconfigPath, body) =>
        r := TrackedCreate(op);
      case Delete(name, body) => r := TrackedDelete(op);
      case Update(name, refused, body) => r := TrackedUpdate(op);
    }

    method TrackedCreate(op: Op) returns (r: Outcome)
      requires op.Create?
      modifies this
      ensures (Contents(), r) == RunOp(op, old(Contents()))
      decreases op, 0
    {
      var resolved := RequireHealthyDependencies(op.required);
      if !resolved { return Raised(Unresolved, {}); }
      StartDeployment(op.name, op.componentType);
      var o := ExecuteBody(op.body);
      if o.Raised? {
        r := FailOut(op.name, o);
        return;
      }
      var found := MarkRowHealthy(op.name, op.kubeconfigPath);
      r := if found then Ok else Raised(NotFound, {});
    }

    method TrackedDelete(op: Op) returns (r: Outcome)
      requires op.Delete?
      modifies this
      ensures (Contents(), r) == RunOp(op, old(Contents()))
      decreases op, 0
    {
      var tracked := SetRowStatus(op.name, Deleting, None);
      r := ExecuteBody(op.body);
      if tracked {
        if r.Raised? {
          r := FailOut(op.name, r);
        } else {
          var found := Remove(op.name);
          r := if found then Ok else Raised(NotFound, {});
        }
      }
    }

    method TrackedUpdate(op: Op) returns (r: Outcome)
      requires op.Update?
      modifies this
      ensures (Contents(), r) == RunOp(op, old(Contents()))
      decreases op, 0
    {
      var existing := op.name in rows;
      var previous := if existing then rows[op.name].status else Pending;
      if existing { var _ := SetRowStatus(op.name, Provisioning, None); }
      r := ExecuteBody(op.body);
      if existing {
        if r.Raised? && !IsRefusal(op.refused, r) {
          r := FailOut(op.name, r);
        } else {
          var found := SetRowStatus(op.name, previous, None);
          if !found { r := Raised(NotFound, if r.Raised? then r.marked else {}); }
        }
      }
    }
  }
}
