/**
 * Re-running a failed update: how far each call gets, and that finitely many failures per node end
 * with the record equal to the specification.
 */
module Rke2Retry {
  import opened Collections
  import opened Rke2Spec
  import opened Rke2Reconcile
  import opened Rke2Record

  /** How many addresses still have to be joined or removed. */
  function Gap(recorded: set<Address>, desired: set<Address>): (g: nat) {
    |recorded - desired| + |desired - recorded|
  }

  /** Joins and removals that succeeded. */
  function Progress(log: seq<Event>): (k: nat) {
    if log == [] then 0 else Progress(log[..|log| - 1]) + Won(log[|log| - 1])
  }

  function Won(e: Event): (k: nat) {
    if e.Attempted? && e.ok && (e.task.Join? || e.task.Teardown?) then 1 else 0
  }

  lemma ProgressSnoc(log: seq<Event>, e: Event)
    ensures Progress(log + [e]) == Progress(log) + Won(e)
  {
    assert (log + [e])[..|log + [e]| - 1] == log;
  }

  /** Work that still closes the gap: nodes to join are desired and unrecorded, nodes to remove the reverse. */
  predicate Poised(p: Phase, order: seq<Node>, recorded: set<Address>, desired: set<Address>) {
    match p.change
    case Keep => p.task.Upgrade? || p.task.Fetch?
    case Upsert => p.task.Join? && Distinct(order) && Addresses(order) <= desired - recorded
    case Drop => p.task.Teardown? && Distinct(order) && Addresses(order) <= recorded - desired
  }

  lemma GapJoin(a: set<Address>, x: Address, desired: set<Address>)
    requires x in desired - a
    ensures Gap(a + {x}, desired) + 1 == Gap(a, desired)
  {
    assert desired - a == (desired - (a + {x})) + {x};
    assert (a + {x}) - desired == a - desired;
  }

  lemma GapRemove(a: set<Address>, x: Address, desired: set<Address>)
    requires x in a - desired
    ensures Gap(a - {x}, desired) + 1 == Gap(a, desired)
  {
    assert a - desired == ((a - {x}) - desired) + {x};
    assert desired - (a - {x}) == desired - a;
  }

  lemma VisitProgress(p: Phase, n: Node, wx: Weather, w: World)
    ensures
      var (w1, ok) := Visit(p, n, wx, w);
      Progress(w1.log) == Progress(w.log) + Won(Attempted(p.stage, p.task, n, ok))
  {
    var (w1, ok) := Visit(p, n, wx, w);
    var attempt := Attempted(p.stage, p.task, n, ok);
    ProgressSnoc(w.log, attempt);
    if ok && p.change != Keep { ProgressSnoc(w.log + [attempt], Saved(w1.record)); }
  }

  /** Nothing but the node itself enters or leaves the record, and the gap shrinks by what was won. */
  predicate Closed(before: World, after: World, touched: set<Address>, desired: set<Address>) {
    var a, b := Addresses(before.record.nodes), Addresses(after.record.nodes);
    && Gap(b, desired) + Progress(after.log) == Gap(a, desired) + Progress(before.log)
    && a - touched <= b <= a + touched
  }

  lemma VisitGap(p: Phase, n: Node, wx: Weather, w: World, desired: set<Address>)
    requires Poised(p, [n], Addresses(w.record.nodes), desired)
    ensures Closed(w, Visit(p, n, wx, w).0, if p.change == Keep then {} else {n.address}, desired)
  {
    var a := Addresses(w.record.nodes);
    VisitAddresses(p, n, wx, w);
    VisitProgress(p, n, wx, w);
    assert n in [n] && n.address in Addresses([n]);
    if p.change == Upsert { GapJoin(a, n.address, desired); }
    if p.change == Drop { GapRemove(a, n.address, desired); }
  }

  lemma PoisedTail(p: Phase, order: seq<Node>, a: set<Address>, b: set<Address>, desired: set<Address>)
    requires order != [] && Poised(p, order, a, desired)
    requires a - {order[0].address} <= b <= a + {order[0].address}
    ensures Poised(p, [order[0]], a, desired) && Poised(p, order[1..], b, desired)
    ensures Addresses(order) == {order[0].address} + Addresses(order[1..])
  {
    var n := order[0];
    assert n in order && Addresses([n]) == {n.address};
    assert order == [n] + order[1..];
    if p.change != Keep { DistinctTail(order); }
  }

  lemma {:induction false} TrailGap(p: Phase, order: seq<Node>, wx: Weather, w: World, desired: set<Address>)
    requires Poised(p, order, Addresses(w.record.nodes), desired)
    ensures Closed(w, Trail(p, order, wx, w).world, if p.change == Keep then {} else Addresses(order), desired)
    decreases |order|
  {
    if order != [] {
      var w1 := Visit(p, order[0], wx, w).0;
      VisitAddresses(p, order[0], wx, w);
      PoisedTail(p, order, Addresses(w.record.nodes), Addresses(w1.record.nodes), desired);
      VisitGap(p, order[0], wx, w, desired);
      TrailGap(p, order[1..], wx, w1, desired);
    }
  }

  /** Every phase is poised and no two of them record or drop the same address. */
  predicate AllPoised(ps: seq<Phase>, recorded: set<Address>, desired: set<Address>) {
    && (forall i | 0 <= i < |ps| :: Poised(ps[i], ps[i].nodes, recorded, desired))
    && (forall i, j | 0 <= i < j < |ps| && ps[i].change != Keep && ps[j].change != Keep ::
          Addresses(ps[i].nodes) !! Addresses(ps[j].nodes))
  }

  lemma AllPoisedTail(ps: seq<Phase>, a: set<Address>, b: set<Address>, desired: set<Address>)
    requires ps != [] && AllPoised(ps, a, desired)
    requires
      var touched := if ps[0].change == Keep then {} else Addresses(ps[0].nodes);
      a - touched <= b <= a + touched
    ensures AllPoised(ps[1..], b, desired)
  {
    forall i | 0 <= i < |ps[1..]| ensures Poised(ps[1..][i], ps[1..][i].nodes, b, desired) {
      assert ps[1..][i] == ps[i + 1];
    }
  }

  lemma {:induction false} PhasesGap(ps: seq<Phase>, wx: Weather, w: World, desired: set<Address>)
    requires AllPoised(ps, Addresses(w.record.nodes), desired)
    ensures
      var w1 := RunPhases(ps, wx, w).world;
      Gap(Addresses(w1.record.nodes), desired) + Progress(w1.log)
      == Gap(Addresses(w.record.nodes), desired) + Progress(w.log)
    decreases |ps|
  {
    if ps != [] {
      OrderMembers(ps[0], wx);
      TrailGap(ps[0], Order(ps[0], wx), wx, w, desired);
      var w1 := RunPhase(ps[0], wx, w).world;
      AllPoisedTail(ps, Addresses(w.record.nodes), Addresses(w1.record.nodes), desired);
      PhasesGap(ps[1..], wx, w1, desired);
    }
  }

  /** Phases that are poised and record or drop only addresses within `bound`. */
  predicate PartPoised(ps: seq<Phase>, bound: set<Address>, recorded: set<Address>, desired: set<Address>) {
    AllPoised(ps, recorded, desired) && forall p | p in ps :: p.change != Keep ==> Addresses(p.nodes) <= bound
  }

  lemma PoisedPair(servers: Phase, agents: Phase, nodes: seq<Node>, recorded: set<Address>, desired: set<Address>)
    requires servers.change == agents.change && servers.task == agents.task && Poised(servers, nodes, recorded, desired)
    requires servers.nodes == WithRole(nodes, Server) && agents.nodes == WithRole(nodes, Agent) && Distinct(nodes)
    ensures AllPoised([servers, agents], recorded, desired)
    ensures Addresses(servers.nodes) + Addresses(agents.nodes) <= Addresses(nodes)
  {
    ByRole(nodes);
    assert Addresses(servers.nodes) <= Addresses(nodes) && Addresses(agents.nodes) <= Addresses(nodes);
  }

  lemma RemovalPoised(c: Cluster, saved: seq<Node>)
    requires Distinct(saved)
    ensures PartPoised(RemovalPhases(c, saved), Addresses(saved) - Addresses(c.nodes), Addresses(saved),
                       Addresses(c.nodes))
  {
    var removed, ps := Removed(c, saved), RemovalPhases(c, saved);
    SelectDistinct(saved, (n: Node) => n.address !in Addresses(c.nodes));
    assert removed == Select(saved, (n: Node) => n.address !in Addresses(c.nodes));
    PoisedPair(ps[0], ps[1], removed, Addresses(saved), Addresses(c.nodes));
    assert ps == [ps[0], ps[1]];
  }

  lemma JoinPoised(c: Cluster, saved: seq<Node>)
    requires Distinct(c.nodes)
    ensures PartPoised(JoinPhases(c, saved), Addresses(c.nodes) - Addresses(saved), Addresses(saved),
                       Addresses(c.nodes))
  {
    var added, ps := Added(c, saved), JoinPhases(c, saved);
    SelectDistinct(c.nodes, (n: Node) => n.address !in Addresses(saved));
    assert added == Select(c.nodes, (n: Node) => n.address !in Addresses(saved));
    PoisedPair(ps[0], ps[1], added, Addresses(saved), Addresses(c.nodes));
    assert ps == [ps[0], ps[1]];
  }

  lemma AllPoisedAppend(ps: seq<Phase>, qs: seq<Phase>, x: set<Address>, y: set<Address>,
                        recorded: set<Address>, desired: set<Address>)
    requires AllPoised(ps, recorded, desired) && AllPoised(qs, recorded, desired)
    requires forall p | p in ps :: p.change != Keep ==> Addresses(p.nodes) <= x
    requires forall q | q in qs :: q.change != Keep ==> Addresses(q.nodes) <= y
    requires x !! y
    ensures AllPoised(ps + qs, recorded, desired)
  {
    forall i | 0 <= i < |ps + qs| ensures Poised((ps + qs)[i], (ps + qs)[i].nodes, recorded, desired) {
      if i >= |ps| { assert (ps + qs)[i] == qs[i - |ps|]; }
    }
    forall i, j | 0 <= i < j < |ps + qs| && (ps + qs)[i].change != Keep && (ps + qs)[j].change != Keep
      ensures Addresses((ps + qs)[i].nodes) !! Addresses((ps + qs)[j].nodes)
    {
      if j < |ps| {
      } else if i < |ps| {
        assert (ps + qs)[i] in ps && (ps + qs)[j] in qs;
      } else {
        assert (ps + qs)[i] == qs[i - |ps|] && (ps + qs)[j] == qs[j - |ps|];
      }
    }
  }

  lemma ByRole(nodes: seq<Node>)
    requires Distinct(nodes)
    ensures Distinct(WithRole(nodes, Server)) && Distinct(WithRole(nodes, Agent))
    ensures Addresses(WithRole(nodes, Server)) !! Addresses(WithRole(nodes, Agent))
  {
    SelectDistinct(nodes, (n: Node) => n.role == Server);
    SelectDistinct(nodes, (n: Node) => n.role == Agent);
    assert WithRole(nodes, Server) == Select(nodes, (n: Node) => n.role == Server);
    assert WithRole(nodes, Agent) == Select(nodes, (n: Node) => n.role == Agent);
    forall a, b | a in WithRole(nodes, Server) && b in WithRole(nodes, Agent) ensures a.address != b.address {
      if a.address == b.address { SameAddressSameNode(nodes, a, b); }
    }
  }

  lemma PoisedBound(ps: seq<Phase>, recorded: set<Address>, desired: set<Address>)
    requires AllPoised(ps, recorded, desired)
    ensures forall p | p in ps :: p.change != Keep ==> Addresses(p.nodes) <= recorded + desired
  {
    forall p | p in ps && p.change != Keep ensures Addresses(p.nodes) <= recorded + desired {
      var i :| 0 <= i < |ps| && ps[i] == p;
      assert Poised(ps[i], ps[i].nodes, recorded, desired);
    }
  }

  lemma KeepersPoised(c: Cluster, s: Record)
    ensures PartPoised(UpgradePhases(c, s) + [FetchPhase(c, s)], {}, Addresses(s.nodes), Addresses(c.nodes))
  {
    var ks := UpgradePhases(c, s) + [FetchPhase(c, s)];
    assert forall i | 0 <= i < |ks| :: ks[i].change == Keep && !ks[i].task.Join? && !ks[i].task.Teardown?;
  }

  lemma UpdatePoised(c: Cluster, s: Record)
    requires Validate(c) == None && Sound(s)
    ensures AllPoised(UpdatePhases(c, s), Addresses(s.nodes), Addresses(c.nodes))
  {
    RemovalPoised(c, s.nodes);
    JoinPoised(c, s.nodes);
    KeepersPoised(c, s);
    ThreeParts(RemovalPhases(c, s.nodes), JoinPhases(c, s.nodes), UpgradePhases(c, s) + [FetchPhase(c, s)],
               Addresses(s.nodes), Addresses(c.nodes));
    UpdateInParts(c, s);
  }

  lemma ThreeParts(rs: seq<Phase>, js: seq<Phase>, ks: seq<Phase>, recorded: set<Address>, desired: set<Address>)
    requires PartPoised(rs, recorded - desired, recorded, desired)
        && PartPoised(js, desired - recorded, recorded, desired)
    requires PartPoised(ks, {}, recorded, desired)
    ensures AllPoised(rs + js + ks, recorded, desired)
  {
    AllPoisedAppend(rs, js, recorded - desired, desired - recorded, recorded, desired);
    PoisedBound(rs + js, recorded, desired);
    AllPoisedAppend(rs + js, ks, recorded + desired, {}, recorded, desired);
  }

  /**
   * However an update ends, the distance between record and specification has shrunk by exactly the
   * joins and removals that succeeded in it; in particular it never grows.
   */
  lemma UpdateClosesGap(c: Cluster, wx: Weather, site: Site)
    requires site.disk.Some? && Sound(site.disk.value)
    ensures
      var r := Update(c, wx, site);
      && r.site.disk.Some?
      && Gap(Addresses(r.site.disk.value.nodes), Addresses(c.nodes)) + Progress(r.log)
         == Gap(Addresses(site.disk.value.nodes), Addresses(c.nodes))
  {
    var s := site.disk.value;
    if UpdateRefusal(c, wx, site.disk) == None {
      UpdatePoised(c, s);
      PhasesGap(UpdatePhases(c, s), wx, World(s, site.disk, site.fleet, []), Addresses(c.nodes));
      UpdateWorld(c, wx, site);
      var step := RunPhases(UpdatePhases(c, s), wx, World(s, site.disk, site.fleet, []));
      UpdateShape(c, wx, site);
      GapAtEnd(c, step, Update(c, wx, site));
    }
  }

  lemma GapAtEnd(c: Cluster, step: Step, r: Result)
    requires
      var final := if step.failed == []
        then step.world.record.(version := c.version, kubeconfigPath := c.kubeconfigPath) else step.world.record;
      && r.site.disk == Some(final)
      && r.log == step.world.log + (if step.failed == [] then [Saved(final)] else [])
    ensures Progress(r.log) == Progress(step.world.log)
    ensures Addresses(r.site.disk.value.nodes) == Addresses(step.world.record.nodes)
  {
    if step.failed == [] {
      ProgressSnoc(step.world.log, Saved(r.site.disk.value));
    } else {
      assert step.world.log + [] == step.world.log;
    }
  }

  /*** which joins a call attempts ***/

  lemma {:induction false} TrailAttempts(p: Phase, order: seq<Node>, wx: Weather, w: World)
    ensures forall e | e in Trail(p, order, wx, w).world.log && e.Attempted? ::
              e in w.log || (e.task == p.task && e.node in order)
    decreases |order|
  {
    if order != [] {
      TrailAttempts(p, order[1..], wx, Visit(p, order[0], wx, w).0);
    }
  }

  lemma {:induction false} PhasesAttempts(ps: seq<Phase>, wx: Weather, w: World)
    ensures forall e | e in RunPhases(ps, wx, w).world.log && e.Attempted? ::
              e in w.log || exists p :: p in ps && e.task == p.task && e.node in p.nodes
    decreases |ps|
  {
    if ps != [] {
      OrderMembers(ps[0], wx);
      TrailAttempts(ps[0], Order(ps[0], wx), wx, w);
      PhasesAttempts(ps[1..], wx, RunPhase(ps[0], wx, w).world);
      assert forall p | p in ps[1..] :: p in ps;
      assert ps[0] in ps;
    }
  }

  /** An update bootstraps only desired nodes that are not recorded: never one whose join was recorded. */
  lemma UpdateJoinsOnlyUnrecorded(c: Cluster, wx: Weather, site: Site)
    requires site.disk.Some? && Sound(site.disk.value)
    ensures forall e | e in Update(c, wx, site).log && e.Attempted? && e.task.Join? ::
              e.node in c.nodes && e.node.address !in Addresses(site.disk.value.nodes)
  {
    var s := site.disk.value;
    if UpdateRefusal(c, wx, site.disk) == None {
      PhasesAttempts(UpdatePhases(c, s), wx, World(s, site.disk, site.fleet, []));
      UpdateWorld(c, wx, site);
      UpdateShape(c, wx, site);
      JoinsAreAdditions(c, s);
    }
  }

  lemma JoinsAreAdditions(c: Cluster, s: Record)
    ensures forall p | p in UpdatePhases(c, s) && p.task.Join? ::
              forall n | n in p.nodes :: n in Added(c, s.nodes)
  {
    forall p | p in UpdatePhases(c, s) && p.task.Join?
      ensures forall n | n in p.nodes :: n in Added(c, s.nodes)
    {
      assert p in JoinPhases(c, s.nodes);
    }
  }

  /*** repeated calls ***/

  /** The site after `update(c)` has been called once under each weather in turn. */
  function Retry(c: Cluster, ws: seq<Weather>, site: Site): (r: Site)
    decreases |ws|
  {
    if ws == [] then site else Retry(c, ws[1..], Update(c, ws[0], site).site)
  }

  /** A specification that only prerequisites can keep from being applied to the record. */
  predicate Applicable(c: Cluster, s: Record) {
    && Validate(c) == None && Sound(s)
    && s.firstServer in Addresses(c.nodes) && c.cni == s.cni && c.disableKubeProxy == s.disableKubeProxy
  }

  lemma StaysApplicable(c: Cluster, wx: Weather, site: Site)
    requires site.disk.Some? && Applicable(c, site.disk.value)
    ensures
      var after := Update(c, wx, site).site.disk;
      && after.Some? && Applicable(c, after.value)
      && Addresses(after.value.nodes) >= Addresses(site.disk.value.nodes) * Addresses(c.nodes)
      && Addresses(after.value.nodes) <= Addresses(site.disk.value.nodes) + Addresses(c.nodes)
  {
    UpdateKeepsRecordHonest(c, wx, site);
  }

  lemma RetryStep(c: Cluster, ws: seq<Weather>, site: Site, k: nat)
    requires 0 < k <= |ws|
    ensures Retry(c, ws[..k], site) == Retry(c, ws[1..][..k - 1], Update(c, ws[0], site).site)
  {
    assert ws[..k][0] == ws[0] && ws[..k][1..] == ws[1..][..k - 1];
  }

  /** Once the join of a desired node is recorded, no later retry bootstraps it again. */
  lemma {:induction false} RecordedNeverRejoined(c: Cluster, ws: seq<Weather>, site: Site, a: Address, k: nat)
    requires site.disk.Some? && Applicable(c, site.disk.value)
    requires a in Addresses(site.disk.value.nodes) && a in Addresses(c.nodes) && k < |ws|
    ensures
      var before := Retry(c, ws[..k], site);
      && before.disk.Some? && a in Addresses(before.disk.value.nodes)
      && (forall e | e in Update(c, ws[k], before).log && e.Attempted? && e.task.Join? :: e.node.address != a)
    decreases k
  {
    if k == 0 {
      assert ws[..0] == [];
      UpdateJoinsOnlyUnrecorded(c, ws[0], site);
    } else {
      StaysApplicable(c, ws[0], site);
      RetryStep(c, ws, site, k);
      RecordedNeverRejoined(c, ws[1..], Update(c, ws[0], site).site, a, k - 1);
    }
  }

  /** Whether some command on the node fails in a way that can make a call raise. */
  ghost predicate AtFault(wx: Weather, a: Address) {
    exists st: Stage :: !wx.reply(st, a).done || TeardownRaises(wx.reply(st, a), true)
  }

  lemma {:induction false} TrailFaults(p: Phase, order: seq<Node>, wx: Weather, w: World)
    requires Trail(p, order, wx, w).failed != []
    ensures exists n :: n in order && AtFault(wx, n.address)
    decreases |order|
  {
    var (w1, ok) := Visit(p, order[0], wx, w);
    if ok {
      TrailFaults(p, order[1..], wx, w1);
      var n :| n in order[1..] && AtFault(wx, n.address);
      assert n in order;
    } else {
      var r := wx.reply(p.stage, order[0].address);
      assert !r.done || TeardownRaises(r, true);
      assert AtFault(wx, order[0].address);
    }
  }

  lemma {:induction false} PhasesFaults(ps: seq<Phase>, wx: Weather, w: World)
    requires RunPhases(ps, wx, w).failed != []
    ensures exists p, n :: p in ps && n in p.nodes && AtFault(wx, n.address)
    decreases |ps|
  {
    if RunPhase(ps[0], wx, w).failed != [] {
      OrderMembers(ps[0], wx);
      TrailFaults(ps[0], Order(ps[0], wx), wx, w);
      assert ps[0] in ps;
    } else {
      PhasesFaults(ps[1..], wx, RunPhase(ps[0], wx, w).world);
      var p, n :| p in ps[1..] && n in p.nodes && AtFault(wx, n.address);
      assert p in ps;
    }
  }

  /** An applicable update that raises was either not ready or met a fault on a recorded or desired node. */
  lemma RaiseNeedsFault(c: Cluster, wx: Weather, site: Site)
    requires site.disk.Some? && Applicable(c, site.disk.value)
    ensures Update(c, wx, site).outcome == Returned || !wx.ready
            || exists a :: a in Addresses(site.disk.value.nodes) + Addresses(c.nodes) && AtFault(wx, a)
  {
    var s := site.disk.value;
    if wx.ready && Update(c, wx, site).outcome.Raised? {
      PhasesFaults(UpdatePhases(c, s), wx, World(s, site.disk, site.fleet, []));
      var p, n :| p in UpdatePhases(c, s) && n in p.nodes && AtFault(wx, n.address);
      PhaseNodes(c, s);
      assert n.address in Addresses(s.nodes) + Addresses(c.nodes);
    }
  }

  lemma PhaseNodes(c: Cluster, s: Record)
    ensures forall p, n | p in UpdatePhases(c, s) && n in p.nodes :: n in s.nodes || n in c.nodes
  {
    RemovalNodes(c, s.nodes);
    JoinNodes(c, s.nodes);
    KeeperNodes(c, s);
    var rs, js, ks := RemovalPhases(c, s.nodes), JoinPhases(c, s.nodes), UpgradePhases(c, s) + [FetchPhase(c, s)];
    assert UpdatePhases(c, s) == rs + js + ks;
  }

  lemma RemovalNodes(c: Cluster, saved: seq<Node>)
    ensures forall p, n | p in RemovalPhases(c, saved) && n in p.nodes :: n in saved
  {
  }

  lemma JoinNodes(c: Cluster, saved: seq<Node>)
    ensures forall p, n | p in JoinPhases(c, saved) && n in p.nodes :: n in c.nodes
  {
  }

  lemma KeeperNodes(c: Cluster, s: Record)
    ensures forall p, n | p in UpgradePhases(c, s) + [FetchPhase(c, s)] && n in p.nodes :: n in c.nodes
  {
    assert forall n | n in Kept(c, s.nodes) :: n in c.nodes;
  }

  /** Calls during which the node is at fault. */
  ghost function FaultyCalls(ws: seq<Weather>, a: Address): (k: nat) {
    if ws == [] then 0 else (if AtFault(ws[0], a) then 1 else 0) + FaultyCalls(ws[1..], a)
  }

  /** Calls that find a prerequisite unmet. */
  function UnreadyCalls(ws: seq<Weather>): (k: nat) {
    if ws == [] then 0 else (if ws[0].ready then 0 else 1) + UnreadyCalls(ws[1..])
  }

  /** Calls that are not ready or find one of the nodes at fault. */
  ghost function HinderedCalls(ws: seq<Weather>, nodes: set<Address>): (k: nat) {
    if ws == [] then 0
    else (if !ws[0].ready || exists a :: a in nodes && AtFault(ws[0], a) then 1 else 0) + HinderedCalls(ws[1..], nodes)
  }

  lemma {:induction false} HinderedSplits(ws: seq<Weather>, nodes: set<Address>, a: Address)
    ensures HinderedCalls(ws, nodes + {a}) <= HinderedCalls(ws, nodes) + FaultyCalls(ws, a)
  {
    if ws != [] { HinderedSplits(ws[1..], nodes, a); }
  }

  lemma {:induction false} HinderedByNone(ws: seq<Weather>)
    ensures HinderedCalls(ws, {}) == UnreadyCalls(ws)
  {
    if ws != [] { HinderedByNone(ws[1..]); }
  }

  lemma OneMore(perNode: nat, n: nat)
    ensures perNode * (n + 1) == perNode * n + perNode
  {
  }

  lemma {:induction false} HinderedBound(ws: seq<Weather>, nodes: set<Address>, perNode: nat)
    requires forall a | a in nodes :: FaultyCalls(ws, a) <= perNode
    ensures HinderedCalls(ws, nodes) <= UnreadyCalls(ws) + perNode * |nodes|
    decreases nodes
  {
    if nodes == {} {
      HinderedByNone(ws);
    } else {
      var a :| a in nodes;
      var rest := nodes - {a};
      HinderedBound(ws, rest, perNode);
      assert rest + {a} == nodes && |nodes| == |rest| + 1;
      HinderedSplits(ws, rest, a);
      OneMore(perNode, |rest|);
    }
  }

  /** Once record and specification agree, retries keep them in agreement. */
  lemma {:induction false} AgreementLasts(c: Cluster, ws: seq<Weather>, site: Site)
    requires site.disk.Some? && Applicable(c, site.disk.value)
    requires Addresses(site.disk.value.nodes) == Addresses(c.nodes)
    ensures Retry(c, ws, site).disk.Some? && Addresses(Retry(c, ws, site).disk.value.nodes) == Addresses(c.nodes)
    decreases |ws|
  {
    if ws != [] {
      StaysApplicable(c, ws[0], site);
      AgreementLasts(c, ws[1..], Update(c, ws[0], site).site);
    }
  }

  lemma {:induction false} RetriesReachAgreement(c: Cluster, ws: seq<Weather>, site: Site, nodes: set<Address>)
    requires site.disk.Some? && Applicable(c, site.disk.value)
    requires Addresses(site.disk.value.nodes) + Addresses(c.nodes) <= nodes
    requires |ws| > HinderedCalls(ws, nodes)
    ensures Retry(c, ws, site).disk.Some? && Addresses(Retry(c, ws, site).disk.value.nodes) == Addresses(c.nodes)
    decreases |ws|
  {
    var r := Update(c, ws[0], site);
    StaysApplicable(c, ws[0], site);
    if r.outcome == Returned {
      UpdateKeepsRecordHonest(c, ws[0], site);
      AgreementLasts(c, ws[1..], r.site);
    } else {
      RaiseNeedsFault(c, ws[0], site);
      RetriesReachAgreement(c, ws[1..], r.site, nodes);
    }
  }

  /**
   * Retries converge: if each recorded or desired node is at fault in at most `perNode` calls, then
   * more calls than all those faults and unmet prerequisites together leave exactly the desired
   * nodes recorded.
   */
  lemma RetriesConverge(c: Cluster, ws: seq<Weather>, site: Site, perNode: nat)
    requires site.disk.Some? && Applicable(c, site.disk.value)
    requires
      var nodes := Addresses(site.disk.value.nodes) + Addresses(c.nodes);
      && (forall a | a in nodes :: FaultyCalls(ws, a) <= perNode)
      && |ws| > UnreadyCalls(ws) + perNode * |nodes|
    ensures Retry(c, ws, site).disk.Some? && Addresses(Retry(c, ws, site).disk.value.nodes) == Addresses(c.nodes)
  {
    var nodes := Addresses(site.disk.value.nodes) + Addresses(c.nodes);
    HinderedBound(ws, nodes, perNode);
    RetriesReachAgreement(c, ws, site, nodes);
  }
}
