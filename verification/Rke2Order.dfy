/** In which order nodes are torn down and upgraded, and what a stuck node does to its record. */
module Rke2Order {
  import opened Collections
  import opened Rke2Spec
  import opened Rke2Reconcile
  import opened Rke2Record
  import opened Rke2Retry

  predicate Tries(e: Event, t: Task, a: Address) {
    e.Attempted? && e.task == t && e.node.address == a
  }

  predicate Succeeds(e: Event, t: Task, n: Node) {
    e.Attempted? && e.task == t && e.node == n && e.ok
  }

  /** Before any attempt of `t` on `last`, the same task has succeeded on `n`. */
  predicate LastAfter(log: seq<Event>, t: Task, last: Address, n: Node) {
    forall i | 0 <= i < |log| && Tries(log[i], t, last) :: exists j :: 0 <= j < i && Succeeds(log[j], t, n)
  }

  lemma {:induction false} TrailLog(p: Phase, order: seq<Node>, wx: Weather, w: World)
    ensures w.log <= Trail(p, order, wx, w).world.log
    ensures Trail(p, order, wx, w).failed == [] ==>
              forall n | n in order :: Attempted(p.stage, p.task, n, true) in Trail(p, order, wx, w).world.log
    decreases |order|
  {
    if order != [] {
      var (w1, ok) := Visit(p, order[0], wx, w);
      TrailLog(p, order[1..], wx, w1);
      assert order == [order[0]] + order[1..];
      assert Attempted(p.stage, p.task, order[0], ok) in w1.log;
    }
  }

  lemma {:induction false} PhasesLog(ps: seq<Phase>, wx: Weather, w: World)
    ensures w.log <= RunPhases(ps, wx, w).world.log
    ensures RunPhases(ps, wx, w).failed == [] ==>
              forall p, n | p in ps && n in p.nodes ::
                  Attempted(p.stage, p.task, n, true) in RunPhases(ps, wx, w).world.log
    decreases |ps|
  {
    if ps != [] {
      OrderMembers(ps[0], wx);
      TrailLog(ps[0], Order(ps[0], wx), wx, w);
      PhasesLog(ps[1..], wx, RunPhase(ps[0], wx, w).world);
      assert ps == [ps[0]] + ps[1..];
    }
  }

  /** A sequential loop over `a + b` is the loop over `a` and then, if nothing failed, over `b`. */
  lemma {:induction false} TrailAppend(p: Phase, a: seq<Node>, b: seq<Node>, wx: Weather, w: World)
    requires !p.parallel
    ensures
      var s := Trail(p, a, wx, w);
      Trail(p, a + b, wx, w) == if s.failed != [] then s else Trail(p, b, wx, s.world)
    decreases |a|
  {
    if a == [] {
      assert a + b == b;
    } else {
      assert (a + b)[1..] == a[1..] + b;
      var (w1, ok) := Visit(p, a[0], wx, w);
      if ok {
        TrailAppend(p, a[1..], b, wx, w1);
        assert [] + Trail(p, a[1..] + b, wx, w1).failed == Trail(p, a[1..] + b, wx, w1).failed;
      }
    }
  }

  lemma {:induction false} PhasesAppend(ps: seq<Phase>, qs: seq<Phase>, wx: Weather, w: World)
    ensures
      var s := RunPhases(ps, wx, w);
      RunPhases(ps + qs, wx, w) == if s.failed != [] then s else RunPhases(qs, wx, s.world)
    decreases |ps|
  {
    if ps == [] {
      assert ps + qs == qs;
    } else {
      assert (ps + qs)[1..] == ps[1..] + qs;
      PhasesAppend(ps[1..], qs, wx, RunPhase(ps[0], wx, w).world);
    }
  }

  /** A plan that ends in a sequential loop over `others + lasts`, up to phases with another task. */
  datatype Plan = Plan(before: seq<Phase>, final: Phase, others: seq<Node>, lasts: seq<Node>, after: seq<Phase>)

  predicate PlanFor(plan: Plan, last: Address) {
    && !plan.final.parallel && plan.final.nodes == plan.others + plan.lasts
    && (forall p, n | p in plan.before && n in p.nodes :: p.task == plan.final.task ==> n.address != last)
    && (forall n | n in plan.others :: n.address != last)
  }

  /** The nodes the plan treats with its final task before it turns to the last ones. */
  ghost predicate Earlier(plan: Plan, n: Node) {
    n in plan.others || exists p :: p in plan.before && p.task == plan.final.task && n in p.nodes
  }

  lemma NoneTried(log: seq<Event>, t: Task, last: Address, n: Node)
    requires forall e | e in log :: !Tries(e, t, last)
    ensures LastAfter(log, t, last, n)
  {
  }

  lemma SplitLog(early: seq<Event>, log: seq<Event>, t: Task, last: Address, n: Node)
    requires early <= log && (forall e | e in early :: !Tries(e, t, last))
    requires exists e :: e in early && Succeeds(e, t, n)
    ensures LastAfter(log, t, last, n)
  {
    forall i | 0 <= i < |log| && Tries(log[i], t, last)
      ensures exists j :: 0 <= j < i && Succeeds(log[j], t, n)
    {
      var e :| e in early && Succeeds(e, t, n);
      var j :| 0 <= j < |early| && early[j] == e;
      assert log[j] == e;
    }
  }

  /** Where a plan stops before its last nodes, or what it has logged by the time it reaches them. */
  lemma PlanPrefix(plan: Plan, last: Address, wx: Weather, w: World) returns (early: World)
    requires PlanFor(plan, last) && (forall e | e in w.log :: !Tries(e, plan.final.task, last))
    ensures forall e | e in early.log :: !Tries(e, plan.final.task, last)
    ensures
      var s := RunPhases(plan.before + [plan.final] + plan.after, wx, w);
      || s.world.log == early.log
      || (early.log <= s.world.log
          && forall n | Earlier(plan, n) :: exists e :: e in early.log && Succeeds(e, plan.final.task, n))
  {
    var p := plan.final;
    PhasesAppend(plan.before + [p], plan.after, wx, w);
    PhasesAppend(plan.before, [p], wx, w);
    var s1 := RunPhases(plan.before, wx, w);
    PhasesAttempts(plan.before, wx, w);
    PhasesLog(plan.before, wx, w);
    early := s1.world;
    if s1.failed == [] {
      TrailAppend(p, plan.others, plan.lasts, wx, s1.world);
      var s2 := Trail(p, plan.others, wx, s1.world);
      TrailAttempts(p, plan.others, wx, s1.world);
      TrailLog(p, plan.others, wx, s1.world);
      early := s2.world;
      SinglePhase(p, wx, s1.world);
      if s2.failed == [] {
        var s3 := Trail(p, plan.lasts, wx, s2.world);
        TrailLog(p, plan.lasts, wx, s2.world);
        PhasesLog(plan.after, wx, s3.world);
        forall n | Earlier(plan, n) ensures exists e :: e in early.log && Succeeds(e, p.task, n) {
          EarlierDone(plan, n, wx, w);
        }
      }
    }
  }

  lemma SinglePhase(p: Phase, wx: Weather, w: World)
    ensures RunPhases([p], wx, w) == RunPhase(p, wx, w)
  {
    assert [p][1..] == [];
    assert RunPhases([], wx, RunPhase(p, wx, w).world) == Step(RunPhase(p, wx, w).world, []);
  }

  lemma EarlierDone(plan: Plan, n: Node, wx: Weather, w: World)
    requires Earlier(plan, n) && !plan.final.parallel
    requires RunPhases(plan.before, wx, w).failed == []
    requires Trail(plan.final, plan.others, wx, RunPhases(plan.before, wx, w).world).failed == []
    ensures exists e ::
              && e in Trail(plan.final, plan.others, wx, RunPhases(plan.before, wx, w).world).world.log
              && Succeeds(e, plan.final.task, n)
  {
    var w1 := RunPhases(plan.before, wx, w).world;
    PhasesLog(plan.before, wx, w);
    TrailLog(plan.final, plan.others, wx, w1);
    var log := Trail(plan.final, plan.others, wx, w1).world.log;
    if n in plan.others {
      assert Attempted(plan.final.stage, plan.final.task, n, true) in log;
    } else {
      var p :| p in plan.before && p.task == plan.final.task && n in p.nodes;
      assert Attempted(p.stage, p.task, n, true) in w1.log;
      assert forall e | e in w1.log :: e in log;
    }
  }

  /** Every node treated earlier by the plan has succeeded before the last one is tried. */
  lemma PlanOrder(plan: Plan, last: Address, wx: Weather, w: World, n: Node)
    requires PlanFor(plan, last) && w.log == [] && Earlier(plan, n)
    ensures LastAfter(RunPhases(plan.before + [plan.final] + plan.after, wx, w).world.log, plan.final.task, last, n)
  {
    var early := PlanPrefix(plan, last, wx, w);
    var log := RunPhases(plan.before + [plan.final] + plan.after, wx, w).world.log;
    if log == early.log {
      NoneTried(log, plan.final.task, last, n);
    } else {
      SplitLog(early.log, log, plan.final.task, last, n);
    }
  }

  /*** delete ***/

  /**
   * Delete tries the first server only after the teardown of every other recorded node has returned
   * normally.
   */
  lemma DeleteFirstServerLast(wx: Weather, site: Site, n: Node)
    requires site.disk.Some? && Sound(site.disk.value)
    requires n in site.disk.value.nodes && n.address != site.disk.value.firstServer
    ensures LastAfter(Delete(wx, site).log, Teardown, site.disk.value.firstServer, n)
  {
    var s := site.disk.value;
    var ps := DeletePhases(s);
    var plan := Plan([ps[0]], ps[1], OtherServers(s.nodes, s.firstServer), At(s.nodes, s.firstServer), []);
    assert plan.before + [plan.final] + plan.after == ps;
    assert Earlier(plan, n) by {
      if n.role == Agent { assert n in ps[0].nodes && ps[0] in plan.before; }
    }
    var w := World(s, site.disk, site.fleet, []);
    PlanOrder(plan, s.firstServer, wx, w, n);
    ThenErased(RunPhases(ps, wx, w).world.log, s.firstServer, n);
  }

  lemma ThenErased(log: seq<Event>, first: Address, n: Node)
    requires LastAfter(log, Teardown, first, n)
    ensures LastAfter(log + [Erased], Teardown, first, n)
  {
    forall i | 0 <= i < |log + [Erased]| && Tries((log + [Erased])[i], Teardown, first)
      ensures exists j :: 0 <= j < i && Succeeds((log + [Erased])[j], Teardown, n)
    {
      var j :| 0 <= j < i && Succeeds(log[j], Teardown, n);
      assert (log + [Erased])[j] == log[j];
    }
  }

  /** The whole promise about when the state file goes. */
  predicate ErasedOnlyAfterAll(site: Site, r: Result)
    requires site.disk.Some?
  {
    if r.outcome == Returned then
      && r.site.disk == None
      && forall n | n in site.disk.value.nodes :: exists e :: e in r.log && Succeeds(e, Teardown, n)
    else
      r.site.disk == site.disk && Erased !in r.log
  }

  lemma DeleteShape(wx: Weather, site: Site)
    requires site.disk.Some?
    ensures
      var s, r := site.disk.value, Delete(wx, site);
      var step := RunPhases(DeletePhases(s), wx, World(s, site.disk, site.fleet, []));
      && r.site.fleet == step.world.fleet && (r.outcome == Returned <==> step.failed == [])
      && r.log == step.world.log + (if step.failed == [] then [Erased] else [])
  {
  }

  /** Delete removes the state file only if the teardown of every recorded node returned normally. */
  lemma DeleteErasesOnlyWhenAllTornDown(wx: Weather, site: Site)
    requires site.disk.Some? && Sound(site.disk.value)
    ensures ErasedOnlyAfterAll(site, Delete(wx, site))
  {
    var s := site.disk.value;
    var w := World(s, site.disk, site.fleet, []);
    DeleteKeepsFile(wx, site);
    DeleteShape(wx, site);
    NeverErases(DeletePhases(s), wx, w);
    if RunPhases(DeletePhases(s), wx, w).failed == [] {
      forall n | n in s.nodes ensures exists e :: e in Delete(wx, site).log && Succeeds(e, Teardown, n) {
        AllTornDown(s, wx, w, n);
        var e :| e in RunPhases(DeletePhases(s), wx, w).world.log && Succeeds(e, Teardown, n);
        assert e in Delete(wx, site).log;
      }
    }
  }

  lemma AllTornDown(s: Record, wx: Weather, w: World, n: Node)
    requires Sound(s) && n in s.nodes
    ensures RunPhases(DeletePhases(s), wx, w).failed == [] ==>
              exists e :: e in RunPhases(DeletePhases(s), wx, w).world.log && Succeeds(e, Teardown, n)
  {
    var ps := DeletePhases(s);
    PhasesLog(ps, wx, w);
    var p := if n.role == Agent then ps[0] else ps[1];
    assert n in p.nodes && p in ps;
    if RunPhases(ps, wx, w).failed == [] {
      assert Attempted(p.stage, Teardown, n, true) in RunPhases(ps, wx, w).world.log;
    }
  }

  lemma {:induction false} TrailNeverErases(p: Phase, order: seq<Node>, wx: Weather, w: World)
    requires Erased !in w.log
    ensures Erased !in Trail(p, order, wx, w).world.log
    decreases |order|
  {
    if order != [] { TrailNeverErases(p, order[1..], wx, Visit(p, order[0], wx, w).0); }
  }

  lemma {:induction false} NeverErases(ps: seq<Phase>, wx: Weather, w: World)
    requires Erased !in w.log
    ensures Erased !in RunPhases(ps, wx, w).world.log
    decreases |ps|
  {
    if ps != [] {
      TrailNeverErases(ps[0], Order(ps[0], wx), wx, w);
      NeverErases(ps[1..], wx, RunPhase(ps[0], wx, w).world);
    }
  }

  /*** upgrade ***/

  /**
   * When the specification lists the first server as a server, an update tries to upgrade it only
   * after every other kept node has been upgraded.
   */
  lemma UpgradeFirstServerLast(c: Cluster, wx: Weather, site: Site, n: Node)
    requires site.disk.Some? && Sound(site.disk.value) && UpdateRefusal(c, wx, site.disk) == None
    requires FirstIsServer(c.nodes, site.disk.value.firstServer)
    requires n in Kept(c, site.disk.value.nodes) && n.address != site.disk.value.firstServer
    ensures LastAfter(Update(c, wx, site).log, Upgrade(c.version), site.disk.value.firstServer, n)
  {
    var s := site.disk.value;
    var w := World(s, site.disk, site.fleet, []);
    PhasesUpgradeFirstLast(c, s, wx, w, n);
    UpdateWorld(c, wx, site);
    var step := RunPhases(UpdatePhases(c, s), wx, w);
    UpdateShape(c, wx, site);
    SavedTail(step.world.log, Update(c, wx, site).log, Upgrade(c.version), s.firstServer, n);
  }

  lemma PhasesUpgradeFirstLast(c: Cluster, s: Record, wx: Weather, w: World, n: Node)
    requires RolesKnown(c.nodes) && FirstIsServer(c.nodes, s.firstServer) && w.log == []
    requires n in Kept(c, s.nodes) && n.address != s.firstServer
    ensures LastAfter(RunPhases(UpdatePhases(c, s), wx, w).world.log, Upgrade(c.version), s.firstServer, n)
  {
    if c.version == s.version {
      NoUpgrades(c, s);
      PhasesAttempts(UpdatePhases(c, s), wx, w);
      NoneTried(RunPhases(UpdatePhases(c, s), wx, w).world.log, Upgrade(c.version), s.firstServer, n);
    } else {
      UpgradePlanFor(c, s, n);
      PlanOrder(UpgradePlan(c, s), s.firstServer, wx, w, n);
    }
  }

  lemma NoUpgrades(c: Cluster, s: Record)
    requires c.version == s.version
    ensures forall p | p in UpdatePhases(c, s) :: !p.task.Upgrade?
  {
    assert UpgradePhases(c, s) == [];
    forall p | p in UpdatePhases(c, s) ensures !p.task.Upgrade? {
      assert p in RemovalPhases(c, s.nodes) || p in JoinPhases(c, s.nodes) || p == FetchPhase(c, s);
    }
  }

  function UpgradePlan(c: Cluster, s: Record): (plan: Plan)
    requires c.version != s.version
  {
    var us, kept := UpgradePhases(c, s), Kept(c, s.nodes);
    Plan(RemovalPhases(c, s.nodes) + JoinPhases(c, s.nodes) + [us[0]], us[1],
         OtherServers(kept, s.firstServer), At(kept, s.firstServer), [FetchPhase(c, s)])
  }

  lemma UpgradePlanFor(c: Cluster, s: Record, n: Node)
    requires RolesKnown(c.nodes) && FirstIsServer(c.nodes, s.firstServer) && c.version != s.version
    requires n in Kept(c, s.nodes) && n.address != s.firstServer
    ensures
      var plan := UpgradePlan(c, s);
      && plan.final.task == Upgrade(c.version) && PlanFor(plan, s.firstServer) && Earlier(plan, n)
      && plan.before + [plan.final] + plan.after == UpdatePhases(c, s)
  {
    UpgradePlanParts(RemovalPhases(c, s.nodes) + JoinPhases(c, s.nodes), UpgradePhases(c, s), [FetchPhase(c, s)]);
    UpgradeAgentsOnly(c, s);
    var us, plan := UpgradePhases(c, s), UpgradePlan(c, s);
    if n.role == Agent {
      assert n in us[0].nodes && us[0] in plan.before && us[0].task == plan.final.task;
    } else {
      assert n in plan.others;
    }
  }

  lemma UpgradePlanParts(ps: seq<Phase>, us: seq<Phase>, fs: seq<Phase>)
    requires |us| == 2
    ensures ps + [us[0]] + [us[1]] + fs == ps + us + fs
  {
    assert us == [us[0]] + [us[1]];
  }

  lemma UpgradeAgentsOnly(c: Cluster, s: Record)
    requires FirstIsServer(c.nodes, s.firstServer) && c.version != s.version
    ensures forall p, m | p in UpgradePlan(c, s).before && m in p.nodes && p.task == Upgrade(c.version) ::
              m.address != s.firstServer
  {
    var us := UpgradePhases(c, s);
    forall p, m | p in UpgradePlan(c, s).before && m in p.nodes && p.task == Upgrade(c.version)
      ensures m.address != s.firstServer
    {
      assert p in RemovalPhases(c, s.nodes) || p in JoinPhases(c, s.nodes) || p == us[0];
      assert p == us[0] && m in Kept(c, s.nodes) && m in c.nodes;
    }
  }

  lemma SavedTail(log: seq<Event>, full: seq<Event>, t: Task, last: Address, n: Node)
    requires LastAfter(log, t, last, n)
    requires full == log || exists r :: full == log + [Saved(r)]
    ensures LastAfter(full, t, last, n)
  {
    forall i | 0 <= i < |full| && Tries(full[i], t, last) ensures exists j :: 0 <= j < i && Succeeds(full[j], t, n) {
      assert i < |log| && full[i] == log[i];
      var j :| 0 <= j < i && Succeeds(log[j], t, n);
      assert full[j] == log[j];
    }
  }

  /*** nodes that cannot be torn down ***/

  /** The node is installed, recorded, and every visit to it is a teardown that raises. */
  ghost predicate StuckIn(p: Phase, order: seq<Node>, wx: Weather, a: Address) {
    a in Addresses(order) ==> p.task.Teardown? && TeardownRaises(wx.reply(p.stage, a), true)
  }

  lemma VisitStuck(p: Phase, n: Node, wx: Weather, w: World, a: Address)
    requires a in w.fleet && a in Addresses(w.record.nodes)
    requires n.address == a ==> p.task.Teardown? && TeardownRaises(wx.reply(p.stage, a), true)
    ensures
      var (w1, ok) := Visit(p, n, wx, w);
      a in w1.fleet && a in Addresses(w1.record.nodes) && (n.address == a ==> !ok)
  {
    VisitAddresses(p, n, wx, w);
  }

  lemma {:induction false} TrailStuck(p: Phase, order: seq<Node>, wx: Weather, w: World, a: Address)
    requires a in w.fleet && a in Addresses(w.record.nodes) && StuckIn(p, order, wx, a)
    ensures
      var s := Trail(p, order, wx, w);
      && a in s.world.fleet && a in Addresses(s.world.record.nodes)
      && (a in Addresses(order) ==> s.failed != [])
    decreases |order|
  {
    if order != [] {
      AddressesCons(order);
      VisitStuck(p, order[0], wx, w, a);
      TrailStuck(p, order[1..], wx, Visit(p, order[0], wx, w).0, a);
    }
  }

  lemma {:induction false} PhasesStuck(ps: seq<Phase>, wx: Weather, w: World, a: Address)
    requires a in w.fleet && a in Addresses(w.record.nodes)
    requires forall p | p in ps :: StuckIn(p, p.nodes, wx, a)
    ensures
      var s := RunPhases(ps, wx, w);
      && a in s.world.fleet && a in Addresses(s.world.record.nodes)
      && ((exists p :: p in ps && a in Addresses(p.nodes)) ==> s.failed != [])
    decreases |ps|
  {
    if ps != [] {
      assert ps[0] in ps;
      OrderMembers(ps[0], wx);
      TrailStuck(ps[0], Order(ps[0], wx), wx, w, a);
      PhasesStuck(ps[1..], wx, RunPhase(ps[0], wx, w).world, a);
    }
  }

  /** The stage in which `update` would remove a recorded node. */
  function RemovalStage(n: Node): (s: Stage) {
    if n.role == Server then RemoveServers else RemoveAgents
  }

  /**
   * A node that still has RKE2 and whose teardown finds that out, for lack of an uninstall script or
   * because the check times out, never loses its record: an update that should drop it raises.
   */
  lemma StuckNodeKeepsRecord(c: Cluster, wx: Weather, site: Site, n: Node)
    requires site.disk.Some? && Sound(site.disk.value) && UpdateRefusal(c, wx, site.disk) == None
    requires n in Removed(c, site.disk.value.nodes) && n.address in site.fleet
    requires TeardownRaises(wx.reply(RemovalStage(n), n.address), true)
    ensures
      var r := Update(c, wx, site);
      && r.outcome.Raised? && n.address in r.site.fleet
      && r.site.disk.Some? && n.address in Addresses(r.site.disk.value.nodes)
  {
    var s := site.disk.value;
    var w := World(s, site.disk, site.fleet, []);
    var ps := UpdatePhases(c, s);
    RemovedOnlyTornDown(c, s, wx, n);
    PhasesStuck(ps, wx, w, n.address);
    UpdateWorld(c, wx, site);
    UpdateShape(c, wx, site);
  }

  lemma RemovedOnlyTornDown(c: Cluster, s: Record, wx: Weather, n: Node)
    requires Sound(s) && n in Removed(c, s.nodes) && s.firstServer in Addresses(c.nodes)
    requires TeardownRaises(wx.reply(RemovalStage(n), n.address), true)
    ensures forall p | p in UpdatePhases(c, s) :: StuckIn(p, p.nodes, wx, n.address)
    ensures exists p :: p in UpdatePhases(c, s) && n.address in Addresses(p.nodes)
  {
    var rs := RemovalPhases(c, s.nodes);
    UpdateInParts(c, s);
    JoinNodes(c, s.nodes);
    KeeperNodes(c, s);
    RemovalsStuck(c, s, wx, n);
    assert n.address !in Addresses(c.nodes);
    var p := if n.role == Server then rs[0] else rs[1];
    assert n in p.nodes && p in rs && p in UpdatePhases(c, s);
    assert n.address in Addresses(p.nodes);
  }

  lemma RemovalsStuck(c: Cluster, s: Record, wx: Weather, n: Node)
    requires Sound(s) && n in Removed(c, s.nodes)
    requires TeardownRaises(wx.reply(RemovalStage(n), n.address), true)
    ensures forall p | p in RemovalPhases(c, s.nodes) :: StuckIn(p, p.nodes, wx, n.address)
  {
    forall p | p in RemovalPhases(c, s.nodes) ensures StuckIn(p, p.nodes, wx, n.address) {
      forall m | m in p.nodes && m.address == n.address ensures m == n { SameAddressSameNode(s.nodes, m, n); }
    }
  }

  /*** nodes forgotten while RKE2 stays on them ***/

  /**
   * The ways in which tearing down an installed node returns normally and leaves RKE2 there: the search
   * for an uninstall script times out, the script does not take effect, or no script is seen and the
   * host does not answer the check for a remaining installation.
   */
  predicate Lingers(r: Reply) {
    || r.find.TimedOut?
    || (r.find.Answered? && r.script && !r.landed)
    || (!r.find.TimedOut? && !(r.find.Answered? && r.script) && r.present.Silent?)
  }

  ghost predicate Tried(log: seq<Event>, a: Address) {
    exists e :: e in log && Tries(e, Teardown, a)
  }

  /** Nothing about the address has changed: neither its record nor what it runs, and no teardown was tried. */
  ghost predicate SameStanding(a: Address, before: World, after: World) {
    && (a in Addresses(before.record.nodes) <==> a in Addresses(after.record.nodes))
    && (a in before.fleet <==> a in after.fleet)
    && (Tried(before.log, a) <==> Tried(after.log, a))
  }

  /** What tearing down an installed, recorded node with reply `r` comes to, if it was tried at all. */
  ghost predicate TeardownShows(change: Change, a: Address, r: Reply, w: World) {
    && (a in Addresses(w.record.nodes) <==> !Tried(w.log, a) || change == Keep || TeardownRaises(r, true))
    && (a in w.fleet <==> !Tried(w.log, a) || TeardownRaises(r, true) || Lingers(r))
  }

  /** Installed, recorded, and not yet tried. */
  ghost predicate Standing(a: Address, w: World) {
    a in Addresses(w.record.nodes) && a in w.fleet && !Tried(w.log, a)
  }

  lemma VisitElsewhere(p: Phase, n: Node, wx: Weather, w: World, a: Address)
    requires n.address != a
    ensures SameStanding(a, w, Visit(p, n, wx, w).0)
  {
    VisitAddresses(p, n, wx, w);
    var w1 := Visit(p, n, wx, w).0;
    assert w.log <= w1.log;
    if Tried(w.log, a) {
      var e :| e in w.log && Tries(e, Teardown, a);
      assert e in w1.log;
    }
  }

  lemma VisitShows(p: Phase, n: Node, wx: Weather, w: World)
    requires p.task == Teardown && p.change != Upsert && Standing(n.address, w)
    ensures TeardownShows(p.change, n.address, wx.reply(p.stage, n.address), Visit(p, n, wx, w).0)
    ensures Tried(Visit(p, n, wx, w).0.log, n.address)
  {
    VisitAddresses(p, n, wx, w);
    var (w1, ok) := Visit(p, n, wx, w);
    var attempt := Attempted(p.stage, p.task, n, ok);
    assert attempt in w1.log && Tries(attempt, Teardown, n.address);
  }

  lemma {:induction false} TrailElsewhere(p: Phase, order: seq<Node>, wx: Weather, w: World, a: Address)
    requires a !in Addresses(order)
    ensures SameStanding(a, w, Trail(p, order, wx, w).world)
    decreases |order|
  {
    if order != [] {
      AddressesCons(order);
      VisitElsewhere(p, order[0], wx, w, a);
      TrailElsewhere(p, order[1..], wx, Visit(p, order[0], wx, w).0, a);
    }
  }

  lemma {:induction false} TrailShows(p: Phase, order: seq<Node>, wx: Weather, w: World, n: Node)
    requires p.task == Teardown && p.change != Upsert && Standing(n.address, w)
    requires Distinct(order) && n in order
    ensures TeardownShows(p.change, n.address, wx.reply(p.stage, n.address), Trail(p, order, wx, w).world)
    ensures Trail(p, order, wx, w).failed == [] ==> !TeardownRaises(wx.reply(p.stage, n.address), true)
    decreases |order|
  {
    var w1 := Visit(p, order[0], wx, w).0;
    DistinctTail(order);
    if order[0].address == n.address {
      SameAddressSameNode(order, order[0], n);
      VisitShows(p, n, wx, w);
      TrailElsewhere(p, order[1..], wx, w1, n.address);
    } else {
      VisitElsewhere(p, order[0], wx, w, n.address);
      TrailShows(p, order[1..], wx, w1, n);
    }
  }

  lemma {:induction false} PhasesElsewhere(ps: seq<Phase>, wx: Weather, w: World, a: Address)
    requires forall p | p in ps :: a !in Addresses(p.nodes)
    ensures SameStanding(a, w, RunPhases(ps, wx, w).world)
    decreases |ps|
  {
    if ps != [] {
      assert ps[0] in ps;
      OrderMembers(ps[0], wx);
      TrailElsewhere(ps[0], Order(ps[0], wx), wx, w, a);
      PhasesElsewhere(ps[1..], wx, RunPhase(ps[0], wx, w).world, a);
    }
  }

  /** A call that visits the node in one phase only. */
  lemma PhasesShow(before: seq<Phase>, p: Phase, after: seq<Phase>, wx: Weather, w: World, n: Node)
    requires p.task == Teardown && p.change != Upsert && Standing(n.address, w)
    requires Distinct(p.nodes) && n in p.nodes
    requires forall q | q in before + after :: n.address !in Addresses(q.nodes)
    ensures
      var step, reply := RunPhases(before + [p] + after, wx, w), wx.reply(p.stage, n.address);
      && TeardownShows(p.change, n.address, reply, step.world)
      && (step.failed == [] ==> !TeardownRaises(reply, true))
  {
    PhasesAppend(before + [p], after, wx, w);
    PhasesAppend(before, [p], wx, w);
    PhasesElsewhere(before, wx, w, n.address);
    var w1 := RunPhases(before, wx, w).world;
    SinglePhase(p, wx, w1);
    OrderMembers(p, wx);
    TrailShows(p, Order(p, wx), wx, w1, n);
    PhasesElsewhere(after, wx, RunPhase(p, wx, w1).world, n.address);
  }

  /** The phase of two that visits the address, with what runs before and after it. */
  lemma PickPhase(two: seq<Phase>, rest: seq<Phase>, second: bool, a: Address)
    returns (before: seq<Phase>, p: Phase, after: seq<Phase>)
    requires |two| == 2 && a !in Addresses(two[if second then 0 else 1].nodes)
    requires forall q | q in rest :: a !in Addresses(q.nodes)
    ensures two + rest == before + [p] + after && p == two[if second then 1 else 0]
    ensures forall q | q in before + after :: a !in Addresses(q.nodes)
  {
    p := two[if second then 1 else 0];
    before, after := if second then [two[0]] else [], if second then rest else [two[1]] + rest;
    assert two == [two[0]] + [two[1]];
  }

  /** The one phase of an update that visits a node to be removed. */
  lemma RemovalPhaseOf(c: Cluster, s: Record, n: Node)
    returns (before: seq<Phase>, p: Phase, after: seq<Phase>)
    requires Sound(s) && n in Removed(c, s.nodes)
    ensures UpdatePhases(c, s) == before + [p] + after
    ensures p.task == Teardown && p.change == Drop && p.stage == RemovalStage(n)
    ensures Distinct(p.nodes) && n in p.nodes
    ensures forall q | q in before + after :: n.address !in Addresses(q.nodes)
  {
    UpdateAssociates(c, s);
    LaterPhasesFree(c, s, n);
    RemovalPhaseAt(c, s.nodes, n);
    before, p, after := PickPhase(RemovalPhases(c, s.nodes),
                                  JoinPhases(c, s.nodes) + (UpgradePhases(c, s) + [FetchPhase(c, s)]),
                                  n.role == Agent, n.address);
  }

  lemma UpdateAssociates(c: Cluster, s: Record)
    ensures UpdatePhases(c, s)
         == RemovalPhases(c, s.nodes) + (JoinPhases(c, s.nodes) + (UpgradePhases(c, s) + [FetchPhase(c, s)]))
  {
    UpdateInParts(c, s);
  }

  lemma LaterPhasesFree(c: Cluster, s: Record, n: Node)
    requires n.address !in Addresses(c.nodes)
    ensures forall q | q in JoinPhases(c, s.nodes) + (UpgradePhases(c, s) + [FetchPhase(c, s)]) ::
              n.address !in Addresses(q.nodes)
  {
    JoinNodes(c, s.nodes);
    KeeperNodes(c, s);
  }

  lemma RemovalPhaseAt(c: Cluster, saved: seq<Node>, n: Node)
    requires Distinct(saved) && RolesKnown(saved) && n in Removed(c, saved)
    ensures
      var rs := RemovalPhases(c, saved);
      && |rs| == 2
      && var here, there := rs[if n.role == Agent then 1 else 0], rs[if n.role == Agent then 0 else 1];
         && here.task == Teardown && here.change == Drop && here.stage == RemovalStage(n)
         && Distinct(here.nodes) && n in here.nodes && n.address !in Addresses(there.nodes)
  {
    RemovedDistinct(c, saved);
    var here := RemovalPhases(c, saved)[if n.role == Agent then 1 else 0];
    assert n in here.nodes && n.address in Addresses(here.nodes);
  }

  lemma RemovedDistinct(c: Cluster, saved: seq<Node>)
    requires Distinct(saved)
    ensures forall p | p in RemovalPhases(c, saved) :: Distinct(p.nodes)
    ensures Addresses(RemovalPhases(c, saved)[0].nodes) !! Addresses(RemovalPhases(c, saved)[1].nodes)
  {
    SelectDistinct(saved, (n: Node) => n.address !in Addresses(c.nodes));
    assert Removed(c, saved) == Select(saved, (n: Node) => n.address !in Addresses(c.nodes));
    ByRole(Removed(c, saved));
  }

  /** The whole promise about an installed node that an update is to remove. */
  ghost predicate ForgetsExactly(n: Node, reply: Reply, r: Result) {
    && r.site.disk.Some?
    && (n.address in Addresses(r.site.disk.value.nodes) <==> !Tried(r.log, n.address) || TeardownRaises(reply, true))
    && (n.address !in Addresses(r.site.disk.value.nodes) && n.address in r.site.fleet
        <==> Tried(r.log, n.address) && Lingers(reply))
    && (r.outcome == Returned ==>
          && n.address !in Addresses(r.site.disk.value.nodes)
          && (n.address in r.site.fleet <==> Lingers(reply)))
  }

  /**
   * An installed node that an update is to remove keeps its record exactly when its teardown was not
   * reached or raised; it is forgotten, its record gone while RKE2 stays, exactly when its teardown was
   * reached and returned in one of the ways that leave RKE2 there. After a normal return the record is
   * gone, and RKE2 stays exactly in those ways.
   */
  lemma UpdateForgetsExactlyWhen(c: Cluster, wx: Weather, site: Site, n: Node)
    requires site.disk.Some? && Sound(site.disk.value)
    requires n in Removed(c, site.disk.value.nodes) && n.address in site.fleet
    ensures ForgetsExactly(n, wx.reply(RemovalStage(n), n.address), Update(c, wx, site))
  {
    var s := site.disk.value;
    assert n.address in Addresses(s.nodes);
    if UpdateRefusal(c, wx, site.disk) == None {
      var w := World(s, site.disk, site.fleet, []);
      var before, p, after := RemovalPhaseOf(c, s, n);
      PhasesShow(before, p, after, wx, w, n);
      PhasesLog(UpdatePhases(c, s), wx, w);
      UpdateWorld(c, wx, site);
      UpdateShape(c, wx, site);
      var step := RunPhases(UpdatePhases(c, s), wx, w);
      assert step.failed == [] ==> Attempted(p.stage, p.task, n, true) in step.world.log by {
        assert p in UpdatePhases(c, s);
      }
      ForgetsAtEnd(c, n, wx.reply(p.stage, n.address), p.stage, step, Update(c, wx, site));
    }
  }

  lemma ForgetsAtEnd(c: Cluster, n: Node, reply: Reply, stage: Stage, step: Step, r: Result)
    requires TeardownShows(Drop, n.address, reply, step.world)
    requires step.failed == [] ==> Attempted(stage, Teardown, n, true) in step.world.log
    requires step.failed == [] ==> n.address !in Addresses(step.world.record.nodes)
    requires
      var final := if step.failed == []
        then step.world.record.(version := c.version, kubeconfigPath := c.kubeconfigPath) else step.world.record;
      && r.site == Site(Some(final), step.world.fleet)
      && r.log == step.world.log + (if step.failed == [] then [Saved(final)] else [])
      && r.outcome == if step.failed == [] then Returned else Raised(NodesFailed(step.failed))
    ensures ForgetsExactly(n, reply, r)
  {
    SameTries(step.world.log, r.log, n.address);
    if step.failed == [] {
      assert Tries(Attempted(stage, Teardown, n, true), Teardown, n.address);
      assert Tried(step.world.log, n.address);
    }
  }

  lemma SameTries(log: seq<Event>, full: seq<Event>, a: Address)
    requires log <= full && forall i | |log| <= i < |full| :: !full[i].Attempted?
    ensures Tried(log, a) <==> Tried(full, a)
  {
    if Tried(log, a) {
      var e :| e in log && Tries(e, Teardown, a);
      assert e in full;
    }
    if Tried(full, a) {
      var e :| e in full && Tries(e, Teardown, a);
      var i :| 0 <= i < |full| && full[i] == e;
      assert log[i] == e;
    }
  }

  /** The case `check=False` is responsible for: a host that answers nothing is taken for clean. */
  lemma SilentNodeIsForgotten(c: Cluster, wx: Weather, site: Site, n: Node)
    requires site.disk.Some? && Sound(site.disk.value)
    requires n in Removed(c, site.disk.value.nodes) && n.address in site.fleet
    requires var r := wx.reply(RemovalStage(n), n.address); r.find == Silent && r.present == Silent
    ensures
      var r := Update(c, wx, site);
      r.outcome == Returned ==>
        r.site.disk.Some? && n.address !in Addresses(r.site.disk.value.nodes) && n.address in r.site.fleet
  {
    UpdateForgetsExactlyWhen(c, wx, site, n);
  }

  /** The one phase of a delete that visits a recorded node. */
  lemma DeletionPhaseOf(s: Record, n: Node) returns (before: seq<Phase>, p: Phase, after: seq<Phase>)
    requires Sound(s) && n in s.nodes
    ensures DeletePhases(s) == before + [p] + after
    ensures p.task == Teardown && p.change == Keep && p.stage == RemovalStage(n)
    ensures Distinct(p.nodes) && n in p.nodes
    ensures forall q | q in before + after :: n.address !in Addresses(q.nodes)
  {
    var ps := DeletePhases(s);
    DeletionDistinct(s);
    assert n in ps[if n.role == Agent then 0 else 1].nodes;
    before, p, after := PickPhase(ps, [], n.role != Agent, n.address);
    assert ps + [] == ps;
  }

  lemma DeletionDistinct(s: Record)
    requires Sound(s)
    ensures Distinct(DeletePhases(s)[0].nodes) && Distinct(DeletePhases(s)[1].nodes)
    ensures Addresses(DeletePhases(s)[0].nodes) !! Addresses(DeletePhases(s)[1].nodes)
  {
    var others, firsts := OtherServers(s.nodes, s.firstServer), At(s.nodes, s.firstServer);
    ByRole(s.nodes);
    SelectDistinct(s.nodes, (n: Node) => n.role == Server && n.address != s.firstServer);
    assert others == Select(s.nodes, (n: Node) => n.role == Server && n.address != s.firstServer);
    SelectDistinct(s.nodes, (n: Node) => n.address == s.firstServer);
    assert firsts == Select(s.nodes, (n: Node) => n.address == s.firstServer);
    forall m | m in others + firsts ensures m in WithRole(s.nodes, Server) {}
    assert Addresses(others + firsts) <= Addresses(WithRole(s.nodes, Server));
  }

  /** The whole promise about an installed, recorded node under a delete. */
  ghost predicate DeletesExactly(n: Node, reply: Reply, r: Result) {
    && (n.address in r.site.fleet <==> !Tried(r.log, n.address) || TeardownRaises(reply, true) || Lingers(reply))
    && (r.outcome == Returned ==> r.site.disk == None && (n.address in r.site.fleet <==> Lingers(reply)))
  }

  /**
   * On an installed, recorded node a delete leaves RKE2 exactly when it did not reach its teardown, or
   * the teardown raised or returned in one of the ways that leave RKE2 there. So after a normal return,
   * with no record left of any node, RKE2 stays exactly where a teardown returned in one of those ways.
   */
  lemma DeleteForgetsExactlyWhen(wx: Weather, site: Site, n: Node)
    requires site.disk.Some? && Sound(site.disk.value) && n in site.disk.value.nodes && n.address in site.fleet
    ensures DeletesExactly(n, wx.reply(RemovalStage(n), n.address), Delete(wx, site))
  {
    var s := site.disk.value;
    var w := World(s, site.disk, site.fleet, []);
    assert n.address in Addresses(s.nodes);
    var before, p, after := DeletionPhaseOf(s, n);
    PhasesShow(before, p, after, wx, w, n);
    DeleteShape(wx, site);
    DeleteKeepsFile(wx, site);
    if Delete(wx, site).outcome == Returned { ReturnedTried(wx, site, n); }
    DeletesAtEnd(n, wx.reply(p.stage, n.address), RunPhases(DeletePhases(s), wx, w), Delete(wx, site));
  }

  lemma DeletesAtEnd(n: Node, reply: Reply, step: Step, r: Result)
    requires TeardownShows(Keep, n.address, reply, step.world) && (step.failed == [] ==> !TeardownRaises(reply, true))
    requires r.site.fleet == step.world.fleet && (r.outcome == Returned <==> step.failed == [])
    requires r.log == step.world.log + (if step.failed == [] then [Erased] else [])
    requires r.outcome == Returned ==> r.site.disk == None && Tried(r.log, n.address)
    ensures DeletesExactly(n, reply, r)
  {
    SameTries(step.world.log, r.log, n.address);
  }

  lemma ReturnedTried(wx: Weather, site: Site, n: Node)
    requires site.disk.Some? && Sound(site.disk.value) && n in site.disk.value.nodes
    requires Delete(wx, site).outcome == Returned
    ensures Tried(Delete(wx, site).log, n.address)
  {
    DeleteErasesOnlyWhenAllTornDown(wx, site);
    var e :| e in Delete(wx, site).log && Succeeds(e, Teardown, n);
    assert Tries(e, Teardown, n.address);
  }

  /*** parallel batches ***/

  lemma {:induction false} TrailOutcomes(p: Phase, order: seq<Node>, wx: Weather, w: World)
    requires p.parallel && Distinct(order)
    ensures
      var s := Trail(p, order, wx, w);
      && (forall a | a in s.failed :: a in Addresses(order))
      && (forall n | n in order :: Attempted(p.stage, p.task, n, n.address !in s.failed) in s.world.log)
      && (p.change == Upsert ==> forall a ::
            a in Addresses(s.world.record.nodes)
            <==> a in Addresses(w.record.nodes) || (a in Addresses(order) && a !in s.failed))
      && (p.change == Drop ==> forall a ::
            a in Addresses(s.world.record.nodes)
            <==> a in Addresses(w.record.nodes) && !(a in Addresses(order) && a !in s.failed))
    decreases |order|
  {
    if order != [] {
      var (w1, ok) := Visit(p, order[0], wx, w);
      DistinctTail(order);
      VisitAddresses(p, order[0], wx, w);
      TrailOutcomes(p, order[1..], wx, w1);
      TrailLog(p, order[1..], wx, w1);
      assert Attempted(p.stage, p.task, order[0], ok) in w1.log;
      assert order == [order[0]] + order[1..];
      assert forall e | e in w1.log :: e in Trail(p, order[1..], wx, w1).world.log;
    }
  }

  /**
   * A parallel batch, in any completion order: every node is attempted, the error lists exactly the
   * nodes whose work raised, and the record is changed for exactly the nodes whose work succeeded.
   */
  lemma BatchRecordsExactlySuccesses(p: Phase, wx: Weather, w: World)
    requires p.parallel && Distinct(p.nodes)
    ensures
      var s := RunPhase(p, wx, w);
      && (forall a | a in s.failed :: a in Addresses(p.nodes))
      && (forall n | n in p.nodes :: Attempted(p.stage, p.task, n, n.address !in s.failed) in s.world.log)
      && (p.change == Upsert ==> forall a ::
            a in Addresses(s.world.record.nodes)
            <==> a in Addresses(w.record.nodes) || (a in Addresses(p.nodes) && a !in s.failed))
      && (p.change == Drop ==> forall a ::
            a in Addresses(s.world.record.nodes)
            <==> a in Addresses(w.record.nodes) && !(a in Addresses(p.nodes) && a !in s.failed))
  {
    OrderMembers(p, wx);
    TrailOutcomes(p, Order(p, wx), wx, w);
  }
}
