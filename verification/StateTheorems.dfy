/** What the recorder's rows and health log say after any tree of wrapped calls and over whole runs. */
module StateTheorems {
  import opened Collections
  import opened StateStore

  /*** frames: rows of a name no call mentions ***/

  predicate Mentions(op: Op, name: string)
    decreases op
  {
    op.name == name || BodyMentions(op.body, name)
  }

  predicate BodyMentions(b: Body, name: string)
    decreases b
  {
    b.Calls? && (Mentions(b.op, name) || BodyMentions(b.rest, name))
  }

  /** Everything recorded about one name. */
  predicate SameAbout(name: string, before: Db, after: Db) {
    && (name in before.rows <==> name in after.rows)
    && (name in before.rows ==> after.rows[name] == before.rows[name])
    && ChecksOf(before.checks, name) == ChecksOf(after.checks, name)
  }

  function ChecksOf(checks: seq<Check>, name: string): (r: seq<Check>) {
    Select(checks, (c: Check) => c.deployment == name)
  }

  lemma CheckAppended(checks: seq<Check>, c: Check, name: string)
    ensures ChecksOf(checks + [c], name)
            == if c.deployment == name then ChecksOf(checks, name) + [c] else ChecksOf(checks, name)
  {
    var keep := (d: Check) => d.deployment == name;
    SelectAppend(checks, [c], keep);
    assert [c][1..] == [];
    assert Select([c], keep) == if keep(c) then [c] else [];
    assert ChecksOf(checks + [c], name) == Select(checks + [c], keep);
    assert ChecksOf(checks, name) == Select(checks, keep);
  }

  lemma {:induction false} ChecksCascade(checks: seq<Check>, gone: string, name: string)
    requires gone != name
    ensures ChecksOf(ChecksWithout(checks, gone), name) == ChecksOf(checks, name)
  {
    if checks != [] {
      var c, rest := checks[0], checks[1..];
      ChecksCascade(rest, gone, name);
      var kept := ChecksWithout(rest, gone);
      assert ChecksWithout(checks, gone) == (if c.deployment != gone then [c] else []) + kept;
      assert ([c] + kept)[1..] == kept;
      assert [] + kept == kept;
    }
  }

  lemma MarkSame(db: Db, name: string, other: string, error: string, path: Option<string>)
    requires name in db.rows && name != other
    ensures SameAbout(other, db, MarkFailed(db, name, error))
    ensures SameAbout(other, db, MarkHealthy(db, name, path))
    ensures SameAbout(other, db, DeleteRow(db, name))
  {
    CheckAppended(db.checks, Check(name, Unhealthy), other);
    CheckAppended(db.checks, Check(name, Healthy), other);
    ChecksCascade(db.checks, name, other);
  }

  /** Closing a wrapper touches no other name. */
  lemma ClosedElsewhere(op: Op, was: Db, db1: Db, o: Outcome, other: string)
    requires op.name != other
    ensures SameAbout(other, db1, Closed(op, was, db1, o).0)
  {
    if op.name in db1.rows {
      MarkSame(db1, op.name, other, if o.Raised? then TextOf(o.exn) else "",
               if op.Create? then op.kubeconfigPath else None);
    }
  }

  /** A wrapped call, and everything it calls, leaves the rows and checks of all other names alone. */
  lemma {:induction false} OthersUntouched(op: Op, db: Db, other: string)
    requires !Mentions(op, other)
    ensures SameAbout(other, db, RunOp(op, db).0)
    decreases op, 1
  {
    if !TurnedDown(op, db) {
      BodyUntouched(op.body, Opened(op, db), other);
      var (db1, o) := RunBody(op.body, Opened(op, db));
      ClosedElsewhere(op, db, db1, o, other);
    }
  }

  lemma {:induction false} BodyUntouched(b: Body, db: Db, other: string)
    requires !BodyMentions(b, other)
    ensures SameAbout(other, db, RunBody(b, db).0)
    decreases b, 0
  {
    if b.Calls? {
      OthersUntouched(b.op, db, other);
      var (db1, o) := RunOp(b.op, db);
      BodyUntouched(b.rest, db1, other);
    }
  }

  /*** the bracket theorem ***/

  /** On this name, the tree only updates: it neither creates nor deletes the row. */
  predicate OnlyUpdates(op: Op, name: string)
    decreases op
  {
    (op.name == name ==> op.Update?) && BodyOnlyUpdates(op.body, name)
  }

  predicate BodyOnlyUpdates(b: Body, name: string)
    decreases b
  {
    b.Calls? ==> OnlyUpdates(b.op, name) && BodyOnlyUpdates(b.rest, name)
  }

  /** The row is still there, and still of the same kind. */
  predicate RowKept(name: string, before: Db, after: Db) {
    && name in before.rows && name in after.rows
    && after.rows[name].componentType == before.rows[name].componentType
    && after.rows[name].kubeconfigPath == before.rows[name].kubeconfigPath
  }

  lemma {:induction false} UpdatesKeepRow(op: Op, db: Db, name: string)
    requires name in db.rows && OnlyUpdates(op, name)
    ensures RowKept(name, db, RunOp(op, db).0)
    decreases op, 1
  {
    if !TurnedDown(op, db) {
      BodyKeepsRow(op.body, Opened(op, db), name);
      var (db1, o) := RunBody(op.body, Opened(op, db));
      ClosedKeepsRow(op, db, db1, o, name);
    }
  }

  lemma ClosedKeepsRow(op: Op, was: Db, db1: Db, o: Outcome, name: string)
    requires name in db1.rows && (op.name == name ==> op.Update?)
    ensures RowKept(name, db1, Closed(op, was, db1, o).0)
  {
  }

  lemma {:induction false} BodyKeepsRow(b: Body, db: Db, name: string)
    requires name in db.rows && BodyOnlyUpdates(b, name)
    ensures RowKept(name, db, RunBody(b, db).0)
    decreases b, 0
  {
    if b.Calls? {
      UpdatesKeepRow(b.op, db, name);
      BodyKeepsRow(b.rest, RunOp(b.op, db).0, name);
    }
  }

  /** What a root wrapper's body came to: the outcome the wrapper itself sees. */
  function BodyOutcome(op: Op, db: Db): (o: Outcome)
    requires op.name in db.rows && !op.Create?
  {
    RunBody(op.body, Opened(op, db)).1
  }

  /**
   * A wrapped update of a tracked name, around any tree of calls that only updates that name: the
   * final status is the one held before when the body succeeds or is refused, and FAILED on any other
   * exception; what the tree did to the status in between leaves no trace.
   */
  lemma UpdateBracket(op: Op, db: Db)
    requires op.Update? && op.name in db.rows && BodyOnlyUpdates(op.body, op.name)
    ensures
      var (db1, o) := RunOp(op, db);
      var seen := BodyOutcome(op, db);
      && RowKept(op.name, db, db1)
      && db1.rows[op.name].status
         == (if seen.Ok? || IsRefusal(op.refused, seen) then db.rows[op.name].status else Failed)
      && (o.Ok? <==> seen.Ok?) && (o.Raised? ==> o.exn == seen.exn)
  {
    BodyKeepsRow(op.body, Opened(op, db), op.name);
  }

  /** Likewise a wrapped delete: success removes the row and its checks, any exception gives FAILED. */
  lemma DeleteBracket(op: Op, db: Db)
    requires op.Delete? && op.name in db.rows && BodyOnlyUpdates(op.body, op.name)
    ensures
      var (db1, o) := RunOp(op, db);
      && (if BodyOutcome(op, db).Ok? then op.name !in db1.rows && forall c | c in db1.checks :: c.deployment != op.name
          else RowKept(op.name, db, db1) && db1.rows[op.name].status == Failed)
      && (o.Ok? <==> BodyOutcome(op, db).Ok?) && (o.Raised? ==> o.exn == BodyOutcome(op, db).exn)
  {
    BodyKeepsRow(op.body, Opened(op, db), op.name);
  }

  /*** every health check belongs to a row ***/

  predicate ChecksOwned(db: Db) {
    forall c | c in db.checks :: c.deployment in db.rows
  }

  lemma {:induction false} OpKeepsOwned(op: Op, db: Db)
    requires ChecksOwned(db)
    ensures ChecksOwned(RunOp(op, db).0)
    decreases op, 1
  {
    if !TurnedDown(op, db) { BodyKeepsOwned(op.body, Opened(op, db)); }
  }

  lemma {:induction false} BodyKeepsOwned(b: Body, db: Db)
    requires ChecksOwned(db)
    ensures ChecksOwned(RunBody(b, db).0)
    decreases b, 0
  {
    if b.Calls? {
      OpKeepsOwned(b.op, db);
      BodyKeepsOwned(b.rest, RunOp(b.op, db).0);
    }
  }

  lemma {:induction false} RunKeepsOwned(actions: seq<Action>, db: Db)
    requires ChecksOwned(db)
    ensures ChecksOwned(Run(actions, db))
    decreases |actions|
  {
    if actions != [] {
      if actions[0].Do? { OpKeepsOwned(actions[0].op, db); }
      RunKeepsOwned(actions[1..], Act(actions[0], db));
    }
  }

  /*** dependencies ***/

  /** What each component type requires. */
  type Requirements = string -> seq<string>

  /** Every create in the tree asks for what its component type requires. */
  predicate Declares(op: Op, req: Requirements)
    decreases op
  {
    (op.Create? ==> op.required == req(op.componentType)) && BodyDeclares(op.body, req)
  }

  predicate BodyDeclares(b: Body, req: Requirements)
    decreases b
  {
    b.Calls? ==> Declares(b.op, req) && BodyDeclares(b.rest, req)
  }

  /** The history ends in the current rows. */
  predicate Recorded(db: Db) {
    if db.past == [] then db.rows == map[] else db.past[|db.past| - 1] == db.rows
  }

  /** Before the k-th table content, some content had a PROVISIONED row of the type. */
  predicate ProvisionedBefore(past: seq<Rows>, k: nat, componentType: string)
    requires k <= |past|
  {
    exists j :: 0 <= j < k && HasHealthy(past[j], componentType)
  }

  predicate JustifiedAt(past: seq<Rows>, req: Requirements, k: nat)
    requires k < |past|
  {
    forall n | n in past[k] :: forall d | d in req(past[k][n].componentType) :: ProvisionedBefore(past, k, d)
  }

  /** Whenever a row of some type has existed, each required type had a PROVISIONED row earlier. */
  predicate Justified(past: seq<Rows>, req: Requirements) {
    forall k | 0 <= k < |past| :: JustifiedAt(past, req, k)
  }

  predicate Grounded(db: Db, req: Requirements) {
    Recorded(db) && Justified(db.past, req)
  }

  /** A row may be written if its type was already there, or its requirements are met right now. */
  predicate MayWrite(db: Db, rows: Rows, req: Requirements) {
    forall n | n in rows ::
      || (n in db.rows && db.rows[n].componentType == rows[n].componentType)
      || (forall d | d in req(rows[n].componentType) :: HasHealthy(db.rows, d))
  }

  lemma WriteGrounded(db: Db, rows: Rows, req: Requirements)
    requires Grounded(db, req) && MayWrite(db, rows, req)
    ensures Grounded(Write(db, rows), req)
  {
    var past := db.past + [rows];
    forall k | 0 <= k < |past| ensures JustifiedAt(past, req, k) {
      forall n, d | n in past[k] && d in req(past[k][n].componentType) ensures ProvisionedBefore(past, k, d) {
        if k < |db.past| {
          assert JustifiedAt(db.past, req, k) && ProvisionedBefore(db.past, k, d);
          var j :| 0 <= j < k && HasHealthy(db.past[j], d);
          assert HasHealthy(past[j], d);
        } else if n in db.rows && db.rows[n].componentType == rows[n].componentType {
          assert JustifiedAt(db.past, req, k - 1) && ProvisionedBefore(db.past, k - 1, d);
          var j :| 0 <= j < k - 1 && HasHealthy(db.past[j], d);
          assert HasHealthy(past[j], d);
        } else {
          assert HasHealthy(db.rows, d);
          assert past[k - 1] == db.rows;
        }
      }
    }
  }

  lemma SetStatusGrounded(db: Db, name: string, status: Status, error: Option<string>, req: Requirements)
    requires Grounded(db, req) && name in db.rows
    ensures Grounded(SetStatus(db, name, status, error), req)
  {
    WriteGrounded(db, db.rows[name := db.rows[name].(status := status, error := error)], req);
  }

  lemma StartGrounded(db: Db, name: string, componentType: string, req: Requirements)
    requires Grounded(db, req) && Resolved(db.rows, req(componentType))
    ensures Grounded(Start(db, name, componentType), req)
  {
    if name !in db.rows {
      WriteGrounded(db, db.rows[name := Row(componentType, Pending, None, None)], req);
      SetStatusGrounded(Insert(db, name, componentType), name, Provisioning, None, req);
    } else if db.rows[name].componentType != componentType {
      WriteGrounded(db, db.rows[name := db.rows[name].(componentType := componentType)], req);
      SetStatusGrounded(SetComponentType(db, name, componentType), name, Provisioning, None, req);
    } else {
      SetStatusGrounded(db, name, Provisioning, None, req);
    }
  }

  lemma CloseGrounded(db: Db, name: string, path: Option<string>, error: string, status: Status, req: Requirements)
    requires Grounded(db, req) && name in db.rows
    ensures Grounded(MarkHealthy(db, name, path), req) && Grounded(MarkFailed(db, name, error), req)
    ensures Grounded(DeleteRow(db, name), req) && Grounded(SetStatus(db, name, status, None), req)
  {
    if path.Some? { WriteGrounded(db, db.rows[name := db.rows[name].(kubeconfigPath := path)], req); }
    var db1 := if path.Some? then SetKubeconfigPath(db, name, path) else db;
    SetStatusGrounded(AddCheck(db1, name, Healthy), name, Provisioned, None, req);
    SetStatusGrounded(AddCheck(db, name, Unhealthy), name, Failed, Some(error), req);
    SetStatusGrounded(db, name, status, None, req);
    WriteGrounded(db.(checks := ChecksWithout(db.checks, name)), db.rows - {name}, req);
  }

  lemma {:induction false} OpGrounded(op: Op, db: Db, req: Requirements)
    requires Grounded(db, req) && Declares(op, req)
    ensures Grounded(RunOp(op, db).0, req)
    decreases op, 1
  {
    if TurnedDown(op, db) { return; }
    if op.Create? {
      StartGrounded(db, op.name, op.componentType, req);
    } else if op.name in db.rows {
      SetStatusGrounded(db, op.name, if op.Delete? then Deleting else Provisioning, None, req);
    }
    BodyGrounded(op.body, Opened(op, db), req);
    var (db1, o) := RunBody(op.body, Opened(op, db));
    if op.name in db1.rows {
      CloseGrounded(db1, op.name, if op.Create? then op.kubeconfigPath else None,
                    if o.Raised? then TextOf(o.exn) else "",
                    if op.name in db.rows then db.rows[op.name].status else Pending, req);
    }
  }

  lemma {:induction false} BodyGrounded(b: Body, db: Db, req: Requirements)
    requires Grounded(db, req) && BodyDeclares(b, req)
    ensures Grounded(RunBody(b, db).0, req)
    decreases b, 0
  {
    if b.Calls? {
      OpGrounded(b.op, db, req);
      BodyGrounded(b.rest, RunOp(b.op, db).0, req);
    }
  }

  predicate RunDeclares(actions: seq<Action>, req: Requirements) {
    forall a | a in actions && a.Do? :: Declares(a.op, req)
  }

  /**
   * In any run from a grounded store, in particular the empty one: at every moment, nested calls
   * included, a row of some type exists only if each type it requires had a PROVISIONED row earlier.
   */
  lemma {:induction false} RunGrounded(actions: seq<Action>, db: Db, req: Requirements)
    requires Grounded(db, req) && RunDeclares(actions, req)
    ensures Grounded(Run(actions, db), req)
    decreases |actions|
  {
    if actions != [] {
      assert actions[0] in actions;
      match actions[0] {
        case Do(op) => OpGrounded(op, db, req);
        case Observe(name, health) =>
          if name in db.rows && StatusFor(health).Some? {
            SetStatusGrounded(AddCheck(db, name, health), name, StatusFor(health).value, None, req);
          }
      }
      assert forall a | a in actions[1..] :: a in actions;
      RunGrounded(actions[1..], Act(actions[0], db), req);
    }
  }

  predicate RequiresWithin(t: string, types: set<string>, req: Requirements) {
    exists d :: d in req(t) && d in types
  }

  /** Types each of which requires another of them: those on, or depending on, a requirement cycle. */
  predicate Circular(types: set<string>, req: Requirements) {
    forall t | t in types :: RequiresWithin(t, types, req)
  }

  /** The earlier PROVISIONED row that justifies a row's requirement. */
  lemma Justification(past: seq<Rows>, req: Requirements, k: nat, n: string, d: string) returns (j: nat, m: string)
    requires k < |past| && JustifiedAt(past, req, k) && n in past[k] && d in req(past[k][n].componentType)
    ensures j < k && m in past[j] && past[j][m].componentType == d && past[j][m].status == Provisioned
  {
    assert ProvisionedBefore(past, k, d);
    j :| 0 <= j < k && HasHealthy(past[j], d);
    m :| m in past[j] && past[j][m].componentType == d && past[j][m].status == Provisioned;
  }

  lemma {:induction false} NoCircularRow(past: seq<Rows>, req: Requirements, types: set<string>, k: nat, n: string)
    requires Justified(past, req) && Circular(types, req)
    requires k < |past| && n in past[k]
    ensures past[k][n].componentType !in types
    decreases k
  {
    var t := past[k][n].componentType;
    if t in types {
      assert RequiresWithin(t, types, req);
      var d :| d in req(t) && d in types;
      var j, m := Justification(past, req, k, n, d);
      NoCircularRow(past, req, types, j, m);
    }
  }

  predicate NoneOfTypes(rows: Rows, types: set<string>) {
    forall n | n in rows :: rows[n].componentType !in types
  }

  /**
   * From the empty store no type on, or depending on, a requirement cycle ever gets a row, and a
   * create of one is turned down without running its body or writing anything.
   */
  lemma CircularNeverStarts(actions: seq<Action>, req: Requirements, types: set<string>, op: Op)
    requires RunDeclares(actions, req) && Circular(types, req)
    requires op.Create? && op.componentType in types && op.required == req(op.componentType)
    ensures forall k | 0 <= k < |Run(actions, EMPTY).past| :: NoneOfTypes(Run(actions, EMPTY).past[k], types)
    ensures RunOp(op, Run(actions, EMPTY)) == (Run(actions, EMPTY), Raised(Unresolved, {}))
  {
    var db := Run(actions, EMPTY);
    RunGrounded(actions, EMPTY, req);
    forall k | 0 <= k < |db.past| ensures NoneOfTypes(db.past[k], types) {
      forall n | n in db.past[k] ensures db.past[k][n].componentType !in types {
        NoCircularRow(db.past, req, types, k, n);
      }
    }
    assert NoneOfTypes(db.rows, types) by {
      if db.past != [] { assert NoneOfTypes(db.past[|db.past| - 1], types); }
    }
    CircularUnresolved(db.rows, req, types, op.componentType);
  }

  lemma CircularUnresolved(rows: Rows, req: Requirements, types: set<string>, t: string)
    requires NoneOfTypes(rows, types) && Circular(types, req) && t in types
    ensures !Resolved(rows, req(t))
  {
    assert RequiresWithin(t, types, req);
    var d :| d in req(t) && d in types;
    var i :| 0 <= i < |req(t)| && req(t)[i] == d;
    assert !HasHealthy(rows, req(t)[i]);
  }

  /*** status and health log agree ***/

  /** The latest health of a name that is not UNKNOWN. */
  function Latest(checks: seq<Check>, name: string): (r: Option<Health>) {
    if checks == [] then None
    else
      var last := checks[|checks| - 1];
      if last.deployment == name && last.health != Unknown then Some(last.health)
      else Latest(checks[..|checks| - 1], name)
  }

  lemma LatestAppended(checks: seq<Check>, c: Check, name: string)
    ensures Latest(checks + [c], name)
            == if c.deployment == name && c.health != Unknown then Some(c.health) else Latest(checks, name)
  {
    assert (checks + [c])[..|checks + [c]| - 1] == checks;
  }

  lemma WithoutAppended(checks: seq<Check>, c: Check, gone: string)
    ensures ChecksWithout(checks + [c], gone)
            == if c.deployment != gone then ChecksWithout(checks, gone) + [c] else ChecksWithout(checks, gone)
  {
    var keep := (d: Check) => d.deployment != gone;
    SelectAppend(checks, [c], keep);
    assert [c][1..] == [];
    assert Select([c], keep) == if keep(c) then [c] else [];
    assert ChecksWithout(checks + [c], gone) == Select(checks + [c], keep);
    assert ChecksWithout(checks, gone) == Select(checks, keep);
  }

  lemma {:induction false} LatestCascade(checks: seq<Check>, gone: string, name: string)
    requires gone != name
    ensures Latest(ChecksWithout(checks, gone), name) == Latest(checks, name)
    decreases |checks|
  {
    if checks != [] {
      var init, last := checks[..|checks| - 1], checks[|checks| - 1];
      LatestCascade(init, gone, name);
      assert checks == init + [last];
      WithoutAppended(init, last, gone);
      LatestAppended(ChecksWithout(init, gone), last, name);
      LatestAppended(init, last, name);
    }
  }

  lemma {:induction false} LatestOfOwn(checks: seq<Check>, name: string)
    ensures Latest(checks, name) == Latest(ChecksOf(checks, name), name)
    decreases |checks|
  {
    if checks != [] {
      var init, last := checks[..|checks| - 1], checks[|checks| - 1];
      assert checks == init + [last];
      LatestOfOwn(init, name);
      LatestAppended(init, last, name);
      CheckAppended(init, last, name);
      LatestAppended(ChecksOf(init, name), last, name);
    }
  }

  /** The row, if there is one, has the status its latest telling health check maps to. */
  predicate Settled(db: Db, name: string) {
    name in db.rows ==>
      var h := Latest(db.checks, name);
      h.Some? && StatusFor(h.value) == Some(db.rows[name].status)
  }

  predicate NeverCreates(op: Op, name: string)
    decreases op
  {
    (op.Create? ==> op.name != name) && BodyNeverCreates(op.body, name)
  }

  predicate BodyNeverCreates(b: Body, name: string)
    decreases b
  {
    b.Calls? ==> NeverCreates(b.op, name) && BodyNeverCreates(b.rest, name)
  }

  /**
   * No failure that has been recorded is swallowed along this execution: none is caught by a body,
   * none is refused by a wrapper of the deployment it was recorded for. And an update does not create
   * its own deployment.
   */
  predicate Candid(op: Op, db: Db)
    decreases op
  {
    TurnedDown(op, db)
    || (&& BodyCandid(op.body, Opened(op, db))
        && (op.Update? && op.name in db.rows ==>
              && BodyNeverCreates(op.body, op.name)
              && var o := RunBody(op.body, Opened(op, db)).1;
                 IsRefusal(op.refused, o) ==> op.name !in o.marked))
  }

  predicate BodyCandid(b: Body, db: Db)
    decreases b
  {
    b.Calls? ==>
      && Candid(b.op, db)
      && var (db1, o) := RunOp(b.op, db);
         && (b.caught && o.Raised? ==> o.marked == {})
         && (o.Ok? || b.caught ==> BodyCandid(b.rest, db1))
  }

  /** Unless a failure of the name is on its way out, its row is gone or its health log unchanged. */
  predicate Quiet(name: string, before: Db, after: Db, o: Outcome) {
    || (o.Raised? && name in o.marked)
    || (name in after.rows ==> name in before.rows && ChecksOf(after.checks, name) == ChecksOf(before.checks, name))
  }

  lemma CloseLatest(db: Db, name: string, error: string, path: Option<string>, other: string)
    requires name in db.rows
    ensures name != other ==> Latest(MarkFailed(db, name, error).checks, other) == Latest(db.checks, other)
    ensures name != other ==> Latest(MarkHealthy(db, name, path).checks, other) == Latest(db.checks, other)
    ensures name != other ==> Latest(DeleteRow(db, name).checks, other) == Latest(db.checks, other)
    ensures Latest(MarkFailed(db, name, error).checks, name) == Some(Unhealthy)
    ensures Latest(MarkHealthy(db, name, path).checks, name) == Some(Healthy)
  {
    LatestAppended(db.checks, Check(name, Unhealthy), other);
    LatestAppended(db.checks, Check(name, Healthy), other);
    LatestAppended(db.checks, Check(name, Unhealthy), name);
    LatestAppended(db.checks, Check(name, Healthy), name);
    if name != other { LatestCascade(db.checks, name, other); }
  }

  lemma ClosedLatest(op: Op, was: Db, db1: Db, o: Outcome, other: string)
    requires op.name != other
    ensures Latest(Closed(op, was, db1, o).0.checks, other) == Latest(db1.checks, other)
  {
    if op.name in db1.rows {
      CloseLatest(db1, op.name, if o.Raised? then TextOf(o.exn) else "",
                  if op.Create? then op.kubeconfigPath else None, other);
    }
  }

  lemma {:induction false} OpQuiet(op: Op, db: Db, name: string)
    requires Candid(op, db) && NeverCreates(op, name)
    ensures Quiet(name, db, RunOp(op, db).0, RunOp(op, db).1)
    decreases op, 1
  {
    if TurnedDown(op, db) { return; }
    BodyQuiet(op.body, Opened(op, db), name);
    var (db1, o) := RunBody(op.body, Opened(op, db));
    if op.name != name { ClosedElsewhere(op, db, db1, o, name); }
  }

  lemma {:induction false} BodyQuiet(b: Body, db: Db, name: string)
    requires BodyCandid(b, db) && BodyNeverCreates(b, name)
    ensures Quiet(name, db, RunBody(b, db).0, RunBody(b, db).1)
    decreases b, 0
  {
    if b.Calls? {
      OpQuiet(b.op, db, name);
      var (db1, o) := RunOp(b.op, db);
      if o.Ok? || b.caught { BodyQuiet(b.rest, db1, name); }
    }
  }

  /** All rows are settled except those of operations still in progress. */
  ghost predicate SettledExcept(db: Db, open: set<string>) {
    forall n | n !in open :: Settled(db, n)
  }

  lemma {:induction false} OpSettles(op: Op, db: Db, open: set<string>)
    requires Candid(op, db) && SettledExcept(db, open)
    ensures SettledExcept(RunOp(op, db).0, open)
    decreases op, 1
  {
    if TurnedDown(op, db) { return; }
    if !op.Create? && op.name !in db.rows {
      BodySettles(op.body, db, open);
    } else {
      BodySettles(op.body, Opened(op, db), open + {op.name});
      if op.Update? { BodyQuiet(op.body, Opened(op, db), op.name); }
      var (db1, o) := RunBody(op.body, Opened(op, db));
      forall n | n !in open ensures Settled(RunOp(op, db).0, n) {
        assert n != op.name ==> Settled(db1, n);
        CloseSettles(op, db, n);
      }
    }
  }

  /** How closing the wrapper leaves one name, given how its body left it. */
  lemma CloseSettles(op: Op, db: Db, n: string)
    requires Candid(op, db) && !TurnedDown(op, db) && (!op.Create? ==> op.name in db.rows)
    requires n != op.name ==> Settled(RunBody(op.body, Opened(op, db)).0, n)
    requires n == op.name && op.Update? ==>
               && Settled(db, n)
               && Quiet(n, Opened(op, db), RunBody(op.body, Opened(op, db)).0, RunBody(op.body, Opened(op, db)).1)
    ensures Settled(RunOp(op, db).0, n)
  {
    var (db1, o) := RunBody(op.body, Opened(op, db));
    if n != op.name {
      ClosedElsewhere(op, db, db1, o, n);
      ClosedLatest(op, db, db1, o, n);
    } else if n in db1.rows {
      LatestOfOwn(db.checks, n);
      LatestOfOwn(db1.checks, n);
      CloseLatest(db1, n, if o.Raised? then TextOf(o.exn) else "", if op.Create? then op.kubeconfigPath else None, n);
    }
  }

  lemma {:induction false} BodySettles(b: Body, db: Db, open: set<string>)
    requires BodyCandid(b, db) && SettledExcept(db, open)
    ensures SettledExcept(RunBody(b, db).0, open)
    decreases b, 0
  {
    if b.Calls? {
      OpSettles(b.op, db, open);
      var (db1, o) := RunOp(b.op, db);
      if o.Ok? || b.caught { BodySettles(b.rest, db1, open); }
    }
  }

  /** No operation of the run swallows a recorded failure. */
  predicate RunCandid(actions: seq<Action>, db: Db)
    decreases |actions|
  {
    actions != [] ==>
      && (actions[0].Do? ==> Candid(actions[0].op, db))
      && RunCandid(actions[1..], Act(actions[0], db))
  }

  /**
   * In sequential runs of wrapped operations with probes between them, none swallowing a recorded
   * failure, every row has the status its latest telling health check maps to, and every health
   * check belongs to an existing row.
   */
  lemma {:induction false} RunSettles(actions: seq<Action>, db: Db)
    requires RunCandid(actions, db) && ChecksOwned(db) && SettledExcept(db, {})
    ensures ChecksOwned(Run(actions, db)) && SettledExcept(Run(actions, db), {})
    decreases |actions|
  {
    if actions != [] {
      match actions[0] {
        case Do(op) =>
          OpKeepsOwned(op, db);
          OpSettles(op, db, {});
        case Observe(name, health) =>
          if name in db.rows { ProbeSettles(db, name, health); }
      }
      RunSettles(actions[1..], Act(actions[0], db));
    }
  }

  lemma ProbeSettles(db: Db, name: string, health: Health)
    requires name in db.rows && ChecksOwned(db) && SettledExcept(db, {})
    ensures ChecksOwned(Probe(db, name, health)) && SettledExcept(Probe(db, name, health), {})
  {
    forall n ensures Settled(Probe(db, name, health), n) {
      assert Settled(db, n);
      LatestAppended(db.checks, Check(name, health), n);
    }
  }

  /** The health log has grown by recorded failures only. */
  predicate GrownByFailures(before: seq<Check>, after: seq<Check>) {
    before <= after && forall i | |before| <= i < |after| :: after[i].health == Unhealthy
  }

  lemma {:induction false} OpAddsFailures(op: Op, db: Db, name: string)
    requires name in db.rows && OnlyUpdates(op, name)
    ensures GrownByFailures(ChecksOf(db.checks, name), ChecksOf(RunOp(op, db).0.checks, name))
    decreases op, 1
  {
    if TurnedDown(op, db) { return; }
    BodyAddsFailures(op.body, Opened(op, db), name);
    var (db1, o) := RunBody(op.body, Opened(op, db));
    if op.name == name {
      BodyKeepsRow(op.body, Opened(op, db), name);
      UpdateLogs(op, db, db1, o);
    } else {
      ClosedElsewhere(op, db, db1, o, name);
    }
  }

  predicate Unrefused(op: Op, o: Outcome) {
    op.Update? && o.Raised? && !IsRefusal(op.refused, o)
  }

  /** Closing an update records a failure of its deployment exactly when its body raised and was not refused. */
  lemma UpdateLogs(op: Op, was: Db, db1: Db, o: Outcome)
    requires op.Update? && op.name in was.rows && op.name in db1.rows
    ensures
      ChecksOf(Closed(op, was, db1, o).0.checks, op.name)
      == ChecksOf(db1.checks, op.name) + (if Unrefused(op, o) then [Check(op.name, Unhealthy)] else [])
  {
    CheckAppended(db1.checks, Check(op.name, Unhealthy), op.name);
  }

  lemma {:induction false} BodyAddsFailures(b: Body, db: Db, name: string)
    requires name in db.rows && BodyOnlyUpdates(b, name)
    ensures GrownByFailures(ChecksOf(db.checks, name), ChecksOf(RunBody(b, db).0.checks, name))
    decreases b, 0
  {
    if b.Calls? {
      OpAddsFailures(b.op, db, name);
      UpdatesKeepRow(b.op, db, name);
      BodyAddsFailures(b.rest, RunOp(b.op, db).0, name);
    }
  }

  lemma LatestAfterFailures(before: Db, after: Db, name: string)
    requires GrownByFailures(ChecksOf(before.checks, name), ChecksOf(after.checks, name))
    ensures Latest(after.checks, name)
            == if ChecksOf(before.checks, name) == ChecksOf(after.checks, name) then Latest(before.checks, name)
               else Some(Unhealthy)
  {
    LatestOfOwn(before.checks, name);
    LatestOfOwn(after.checks, name);
    var own := ChecksOf(after.checks, name);
    if own != ChecksOf(before.checks, name) {
      assert own[|own| - 1] in own && own[|own| - 1].health == Unhealthy;
    }
  }

  /** Somewhere in the tree, an update of the name ends in an exception its wrapper does not refuse. */
  predicate FailsWithin(op: Op, db: Db, name: string)
    decreases op
  {
    && !TurnedDown(op, db)
    && (|| BodyFailsWithin(op.body, Opened(op, db), name)
        || (op.name == name && Unrefused(op, RunBody(op.body, Opened(op, db)).1)))
  }

  predicate BodyFailsWithin(b: Body, db: Db, name: string)
    decreases b
  {
    b.Calls? &&
      var (db1, o) := RunOp(b.op, db);
      FailsWithin(b.op, db, name) || ((o.Ok? || b.caught) && BodyFailsWithin(b.rest, db1, name))
  }

  lemma {:induction false} LoggedExactlyWhenFails(op: Op, db: Db, name: string)
    requires name in db.rows && OnlyUpdates(op, name)
    ensures ChecksOf(RunOp(op, db).0.checks, name) == ChecksOf(db.checks, name) <==> !FailsWithin(op, db, name)
    decreases op, 1
  {
    if TurnedDown(op, db) { return; }
    BodyLoggedExactlyWhenFails(op.body, Opened(op, db), name);
    BodyAddsFailures(op.body, Opened(op, db), name);
    BodyKeepsRow(op.body, Opened(op, db), name);
    var (db1, o) := RunBody(op.body, Opened(op, db));
    if op.name == name {
      UpdateLogs(op, db, db1, o);
    } else {
      ClosedElsewhere(op, db, db1, o, name);
    }
  }

  lemma {:induction false} BodyLoggedExactlyWhenFails(b: Body, db: Db, name: string)
    requires name in db.rows && BodyOnlyUpdates(b, name)
    ensures ChecksOf(RunBody(b, db).0.checks, name) == ChecksOf(db.checks, name) <==> !BodyFailsWithin(b, db, name)
    decreases b, 0
  {
    if b.Calls? {
      var (db1, o) := RunOp(b.op, db);
      LoggedExactlyWhenFails(b.op, db, name);
      OpAddsFailures(b.op, db, name);
      UpdatesKeepRow(b.op, db, name);
      if o.Ok? || b.caught {
        BodyLoggedExactlyWhenFails(b.rest, db1, name);
        BodyAddsFailures(b.rest, db1, name);
      }
    }
  }

  /**
   * For a tree that only updates the deployment: exactly when the wrapped update at its root leaves a
   * settled row settled. It ends in FAILED itself, or the row was FAILED before, or no update of the
   * deployment inside it ends in an exception its own wrapper does not refuse, whoever catches it.
   */
  lemma UpdateSettlesExactlyWhen(op: Op, db: Db)
    requires op.Update? && op.name in db.rows && BodyOnlyUpdates(op.body, op.name) && Settled(db, op.name)
    ensures
      Settled(RunOp(op, db).0, op.name)
      <==> || Unrefused(op, BodyOutcome(op, db))
           || db.rows[op.name].status == Failed
           || !BodyFailsWithin(op.body, Opened(op, db), op.name)
  {
    var (db1, o) := RunBody(op.body, Opened(op, db));
    UpdateBracket(op, db);
    BodyKeepsRow(op.body, Opened(op, db), op.name);
    BodyAddsFailures(op.body, Opened(op, db), op.name);
    BodyLoggedExactlyWhenFails(op.body, Opened(op, db), op.name);
    LatestAfterFailures(db, db1, op.name);
    CloseLatest(db1, op.name, if o.Raised? then TextOf(o.exn) else "", None, op.name);
  }

  /**
   * The condition is needed: a failure recorded by an inner update and refused by an outer one of the
   * same deployment leaves a PROVISIONED row whose latest health check is UNHEALTHY.
   */
  lemma RefusedInnerFailureDisagrees(name: string, kind: nat, text: string)
    ensures
      var row := Row("objectstore", Provisioned, None, None);
      var db := Db(map[name := row], [Check(name, Healthy)], []);
      var op := Update(name, {kind}, Calls(Update(name, {}, Raises(kind, text)), false, Returns));
      && SettledExcept(db, {}) && !Candid(op, db)
      && name in RunOp(op, db).0.rows && RunOp(op, db).0.rows[name] == row
      && Latest(RunOp(op, db).0.checks, name) == Some(Unhealthy)
      && !Settled(RunOp(op, db).0, name)
  {
    var row := Row("objectstore", Provisioned, None, None);
    var db := Db(map[name := row], [Check(name, Healthy)], []);
    var inner := Update(name, {}, Raises(kind, text));
    var op := Update(name, {kind}, Calls(inner, false, Returns));
    var db0 := SetStatus(db, name, Provisioning, None);
    var seen := Raised(Domain(kind, text), {});
    assert RunBody(inner.body, SetStatus(db0, name, Provisioning, None))
        == (SetStatus(db0, name, Provisioning, None), seen);
    var (db1, o) := RunOp(inner, db0);
    assert o == Raised(Domain(kind, text), {name});
    assert RunBody(op.body, db0) == (db1, o);
    LatestAppended([Check(name, Healthy)], Check(name, Unhealthy), name);
    assert [Check(name, Healthy)] == [] + [Check(name, Healthy)];
    LatestAppended([], Check(name, Healthy), name);
    assert SettledExcept(db, {});
  }
}
