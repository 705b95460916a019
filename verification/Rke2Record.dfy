/**
 * What the saved record of a cluster satisfies at every save, at every raise, and over whole runs
 * of create, update and delete.
 */
module Rke2Record {
  import opened Collections
  import opened Rke2Spec
  import opened Rke2Reconcile

  /** The fields a `create` fixes for the life of the state file. */
  datatype Identity = Identity(name: string, token: string, firstServer: Address, cni: string,
                               disableKubeProxy: bool, createdAt: string)

  function IdentityOf(r: Record): (id: Identity) {
    Identity(r.name, r.token, r.firstServer, r.cni, r.disableKubeProxy, r.createdAt)
  }

  /** Everything except the node list is that of `base`. */
  predicate SameBase(r: Record, base: Record) {
    r.(nodes := []) == base.(nodes := [])
  }

  /** No node list entry gives the first server another role than server. */
  predicate FirstIsServer(nodes: seq<Node>, first: Address) {
    forall n | n in nodes :: n.address == first ==> n.role == Server
  }

  /** The recorded addresses lie between `lo` and `hi`, without duplicates, all with a known role. */
  predicate Between(lo: set<Address>, hi: set<Address>, r: Record) {
    && lo <= Addresses(r.nodes) <= hi && Distinct(r.nodes) && RolesKnown(r.nodes)
    && FirstIsServer(r.nodes, r.firstServer)
  }

  predicate SavesBetween(lo: set<Address>, hi: set<Address>, base: Record, log: seq<Event>) {
    forall e | e in log && e.Saved? :: Between(lo, hi, e.record) && SameBase(e.record, base)
  }

  predicate WorldBetween(lo: set<Address>, hi: set<Address>, base: Record, w: World) {
    && w.disk == Some(w.record)
    && Between(lo, hi, w.record) && SameBase(w.record, base)
    && SavesBetween(lo, hi, base, w.log)
  }

  /** A phase that only records nodes inside `hi` and only drops nodes outside `lo`. */
  predicate PhaseFits(lo: set<Address>, hi: set<Address>, first: Address, p: Phase, nodes: seq<Node>) {
    && RolesKnown(nodes)
    && (p.change == Upsert ==> Addresses(nodes) <= hi && FirstIsServer(nodes, first))
    && (p.change == Drop ==> Addresses(nodes) !! lo)
  }

  /*** single steps ***/

  lemma WithoutDistinct(nodes: seq<Node>, a: Address)
    requires Distinct(nodes)
    ensures Distinct(Without(nodes, a))
  {
    SelectDistinct(nodes, (n: Node) => n.address != a);
    assert Without(nodes, a) == Select(nodes, (n: Node) => n.address != a);
  }

  /** What recording a success keeps. */
  lemma NoteBetween(change: Change, n: Node, w: World, lo: set<Address>, hi: set<Address>, base: Record)
    requires WorldBetween(lo, hi, base, w)
    requires n.role == Server || n.role == Agent
    requires change == Upsert ==> n.address in hi && FirstIsServer([n], base.firstServer)
    requires change == Drop ==> n.address !in lo
    ensures WorldBetween(lo, hi, base, Note(change, n, w))
  {
    WithoutDistinct(w.record.nodes, n.address);
    var without := Without(w.record.nodes, n.address);
    assert Addresses(without + [n]) == Addresses(without) + {n.address};
    assert n in [n];
  }

  lemma VisitBetween(p: Phase, n: Node, wx: Weather, w: World, lo: set<Address>, hi: set<Address>, base: Record)
    requires WorldBetween(lo, hi, base, w) && PhaseFits(lo, hi, base.firstServer, p, [n])
    ensures WorldBetween(lo, hi, base, Visit(p, n, wx, w).0)
  {
    assert n in [n] && n.address in Addresses([n]);
    var (fleet, ok) := Perform(p.task, n.address, wx.reply(p.stage, n.address), w.fleet);
    var w1 := w.(fleet := fleet, log := w.log + [Attempted(p.stage, p.task, n, ok)]);
    assert WorldBetween(lo, hi, base, w1);
    if ok { NoteBetween(p.change, n, w1, lo, hi, base); }
  }

  lemma {:induction false} TrailBetween(p: Phase, order: seq<Node>, wx: Weather, w: World,
                                        lo: set<Address>, hi: set<Address>, base: Record)
    requires WorldBetween(lo, hi, base, w) && PhaseFits(lo, hi, base.firstServer, p, order)
    ensures WorldBetween(lo, hi, base, Trail(p, order, wx, w).world)
    decreases |order|
  {
    if order != [] {
      assert order[0] in order && order[0].address in Addresses(order);
      assert Addresses([order[0]]) == {order[0].address};
      VisitBetween(p, order[0], wx, w, lo, hi, base);
      var (w1, ok) := Visit(p, order[0], wx, w);
      assert forall n | n in order[1..] :: n in order;
      assert Addresses(order[1..]) <= Addresses(order);
      TrailBetween(p, order[1..], wx, w1, lo, hi, base);
    }
  }

  lemma OrderMembers(p: Phase, wx: Weather)
    ensures forall n :: n in Order(p, wx) <==> n in p.nodes
    ensures Addresses(Order(p, wx)) == Addresses(p.nodes)
    ensures Distinct(p.nodes) ==> Distinct(Order(p, wx))
  {
    if p.parallel {
      ArrangePermutes(p.nodes, wx.picks(p.stage));
      SameMembers(p.nodes, Order(p, wx));
      if Distinct(p.nodes) { PermutedDistinct(p.nodes, Order(p, wx)); }
    }
  }

  lemma {:induction false} PhasesBetween(ps: seq<Phase>, wx: Weather, w: World,
                                         lo: set<Address>, hi: set<Address>, base: Record)
    requires WorldBetween(lo, hi, base, w)
    requires forall p | p in ps :: PhaseFits(lo, hi, base.firstServer, p, p.nodes)
    ensures WorldBetween(lo, hi, base, RunPhases(ps, wx, w).world)
    decreases |ps|
  {
    if ps != [] {
      assert ps[0] in ps;
      OrderMembers(ps[0], wx);
      TrailBetween(ps[0], Order(ps[0], wx), wx, w, lo, hi, base);
      PhasesBetween(ps[1..], wx, RunPhase(ps[0], wx, w).world, lo, hi, base);
    }
  }

  /*** what a normal return has done ***/

  /** The addresses a phase leaves recorded when nothing in it fails. */
  function AfterPhase(p: Phase, recorded: set<Address>): (r: set<Address>) {
    match p.change
    case Keep => recorded
    case Upsert => recorded + Addresses(p.nodes)
    case Drop => recorded - Addresses(p.nodes)
  }

  function AfterPhases(ps: seq<Phase>, recorded: set<Address>): (r: set<Address>)
    decreases |ps|
  {
    if ps == [] then recorded else AfterPhases(ps[1..], AfterPhase(ps[0], recorded))
  }

  lemma VisitAddresses(p: Phase, n: Node, wx: Weather, w: World)
    ensures
      var a, (w1, ok) := Addresses(w.record.nodes), Visit(p, n, wx, w);
      Addresses(w1.record.nodes)
        == if ok && p.change == Upsert then a + {n.address} else if ok && p.change == Drop then a - {n.address} else a
  {
    assert Addresses(Without(w.record.nodes, n.address) + [n]) == Addresses(w.record.nodes) + {n.address};
  }

  lemma {:induction false} TrailComplete(p: Phase, order: seq<Node>, wx: Weather, w: World)
    requires Trail(p, order, wx, w).failed == []
    ensures Addresses(Trail(p, order, wx, w).world.record.nodes)
            == AfterPhase(p.(nodes := order), Addresses(w.record.nodes))
    decreases |order|
  {
    if order == [] {
      assert Addresses(order) == {};
    } else {
      var (w1, ok) := Visit(p, order[0], wx, w);
      VisitAddresses(p, order[0], wx, w);
      TrailComplete(p, order[1..], wx, w1);
      AddressesCons(order);
      AfterCons(p, order, Addresses(w.record.nodes));
    }
  }

  lemma AddressesCons(order: seq<Node>)
    requires order != []
    ensures Addresses(order) == {order[0].address} + Addresses(order[1..])
  {
    assert order == [order[0]] + order[1..];
  }

  lemma AfterCons(p: Phase, order: seq<Node>, a: set<Address>)
    requires order != []
    ensures
      var n := order[0];
      var a1 := if p.change == Upsert then a + {n.address} else if p.change == Drop then a - {n.address} else a;
      AfterPhase(p.(nodes := order), a) == AfterPhase(p.(nodes := order[1..]), a1)
  {
    AddressesCons(order);
  }

  lemma {:induction false} PhasesComplete(ps: seq<Phase>, wx: Weather, w: World)
    requires RunPhases(ps, wx, w).failed == []
    ensures Addresses(RunPhases(ps, wx, w).world.record.nodes) == AfterPhases(ps, Addresses(w.record.nodes))
    decreases |ps|
  {
    if ps != [] {
      OrderMembers(ps[0], wx);
      TrailComplete(ps[0], Order(ps[0], wx), wx, w);
      PhasesComplete(ps[1..], wx, RunPhase(ps[0], wx, w).world);
    }
  }

  /*** update ***/

  /** A record that `create` or `update` could have saved. */
  predicate Sound(r: Record) {
    && Distinct(r.nodes) && RolesKnown(r.nodes)
    && r.firstServer in Addresses(r.nodes) && FirstIsServer(r.nodes, r.firstServer)
  }

  lemma AfterTwo(ps: seq<Phase>, a: set<Address>)
    requires |ps| == 2
    ensures AfterPhases(ps, a) == AfterPhase(ps[1], AfterPhase(ps[0], a))
  {
    var a1 := AfterPhase(ps[0], a);
    assert ps[1..][0] == ps[1] && ps[1..][1..] == [];
    assert AfterPhases(ps[1..], a1) == AfterPhases(ps[1..][1..], AfterPhase(ps[1], a1));
  }

  lemma RemovalFits(c: Cluster, saved: seq<Node>, first: Address)
    requires RolesKnown(saved)
    ensures forall p | p in RemovalPhases(c, saved) ::
              PhaseFits(Addresses(saved) * Addresses(c.nodes), Addresses(saved) + Addresses(c.nodes), first, p, p.nodes)
    ensures AfterPhases(RemovalPhases(c, saved), Addresses(saved)) == Addresses(saved) * Addresses(c.nodes)
  {
    var removed := Removed(c, saved);
    BothRoles(removed);
    assert Addresses(removed) == Addresses(saved) - Addresses(c.nodes);
    AfterTwo(RemovalPhases(c, saved), Addresses(saved));
  }

  lemma JoinFits(c: Cluster, saved: seq<Node>, lo: set<Address>, first: Address)
    requires RolesKnown(c.nodes) && first in Addresses(saved)
    ensures forall p | p in JoinPhases(c, saved) ::
        PhaseFits(lo, Addresses(saved) + Addresses(c.nodes), first, p, p.nodes)
  {
    forall p | p in JoinPhases(c, saved)
      ensures p.change == Upsert && forall n | n in p.nodes :: n in c.nodes && n.address != first
    {
      assert p.nodes == WithRole(Added(c, saved), Server) || p.nodes == WithRole(Added(c, saved), Agent);
    }
  }

  lemma JoinTarget(c: Cluster, saved: seq<Node>)
    requires RolesKnown(c.nodes)
    ensures AfterPhases(JoinPhases(c, saved), Addresses(saved) * Addresses(c.nodes)) == Addresses(c.nodes)
  {
    var added := Added(c, saved);
    BothRoles(added);
    assert Addresses(added) == Addresses(c.nodes) - Addresses(saved);
    AfterTwo(JoinPhases(c, saved), Addresses(saved) * Addresses(c.nodes));
  }

  lemma BothRoles(nodes: seq<Node>)
    requires RolesKnown(nodes)
    ensures Addresses(WithRole(nodes, Server)) + Addresses(WithRole(nodes, Agent)) == Addresses(nodes)
  {
    assert forall n | n in nodes :: n in WithRole(nodes, Server) || n in WithRole(nodes, Agent);
  }

  lemma KeepFits(c: Cluster, s: Record, lo: set<Address>, hi: set<Address>)
    requires RolesKnown(c.nodes)
    ensures forall p | p in UpgradePhases(c, s) + [FetchPhase(c, s)] ::
              p.change == Keep && PhaseFits(lo, hi, s.firstServer, p, p.nodes)
  {
    assert FetchPhase(c, s).change == Keep && RolesKnown(FetchPhase(c, s).nodes);
    forall p | p in UpgradePhases(c, s) ensures p.change == Keep && RolesKnown(p.nodes) {
      assert forall n | n in Kept(c, s.nodes) :: n in c.nodes;
    }
  }

  lemma {:induction false} AfterPhasesAppend(ps: seq<Phase>, qs: seq<Phase>, a: set<Address>)
    ensures AfterPhases(ps + qs, a) == AfterPhases(qs, AfterPhases(ps, a))
    decreases |ps|
  {
    if ps == [] {
      assert ps + qs == qs;
    } else {
      assert (ps + qs)[1..] == ps[1..] + qs;
      AfterPhasesAppend(ps[1..], qs, AfterPhase(ps[0], a));
    }
  }

  lemma UpdateFits(c: Cluster, s: Record)
    requires RolesKnown(c.nodes) && Sound(s)
    ensures forall p | p in UpdatePhases(c, s) ::
              PhaseFits(Addresses(s.nodes) * Addresses(c.nodes), Addresses(s.nodes) + Addresses(c.nodes), s.firstServer,
                        p, p.nodes)
  {
    var lo, hi := Addresses(s.nodes) * Addresses(c.nodes), Addresses(s.nodes) + Addresses(c.nodes);
    RemovalFits(c, s.nodes, s.firstServer);
    JoinFits(c, s.nodes, lo, s.firstServer);
    KeepFits(c, s, lo, hi);
    UpdateInParts(c, s);
  }

  lemma UpdateInParts(c: Cluster, s: Record)
    ensures UpdatePhases(c, s)
         == RemovalPhases(c, s.nodes) + JoinPhases(c, s.nodes) + (UpgradePhases(c, s) + [FetchPhase(c, s)])
  {
  }

  lemma UpdateTarget(c: Cluster, s: Record)
    requires RolesKnown(c.nodes) && Sound(s)
    ensures AfterPhases(UpdatePhases(c, s), Addresses(s.nodes)) == Addresses(c.nodes)
  {
    var r, j, k := RemovalPhases(c, s.nodes), JoinPhases(c, s.nodes), UpgradePhases(c, s) + [FetchPhase(c, s)];
    RemovalFits(c, s.nodes, s.firstServer);
    JoinTarget(c, s.nodes);
    KeepFits(c, s, {}, {});
    UpdateInParts(c, s);
    AfterPhasesAppend(r + j, k, Addresses(s.nodes));
    AfterPhasesAppend(r, j, Addresses(s.nodes));
    KeepPhases(k, Addresses(c.nodes));
  }

  lemma {:induction false} KeepPhases(ps: seq<Phase>, a: set<Address>)
    requires forall p | p in ps :: p.change == Keep
    ensures AfterPhases(ps, a) == a
    decreases |ps|
  {
    if ps != [] { KeepPhases(ps[1..], a); }
  }

  /** What holds of a record at any moment of an update of `s` towards `c`. */
  predicate Midway(c: Cluster, s: Record, r: Record) {
    && Between(Addresses(s.nodes) * Addresses(c.nodes), Addresses(s.nodes) + Addresses(c.nodes), r)
    && IdentityOf(r) == IdentityOf(s)
  }

  lemma UpdateWorld(c: Cluster, wx: Weather, site: Site)
    requires site.disk.Some? && Sound(site.disk.value) && UpdateRefusal(c, wx, site.disk) == None
    ensures
      var s := site.disk.value;
      var step := RunPhases(UpdatePhases(c, s), wx, World(s, site.disk, site.fleet, []));
      && WorldBetween(Addresses(s.nodes) * Addresses(c.nodes), Addresses(s.nodes) + Addresses(c.nodes), s, step.world)
      && (step.failed == [] ==> Addresses(step.world.record.nodes) == Addresses(c.nodes))
  {
    var s := site.disk.value;
    var lo, hi := Addresses(s.nodes) * Addresses(c.nodes), Addresses(s.nodes) + Addresses(c.nodes);
    var w := World(s, site.disk, site.fleet, []);
    UpdateFits(c, s);
    UpdateTarget(c, s);
    PhasesBetween(UpdatePhases(c, s), wx, w, lo, hi, s);
    if RunPhases(UpdatePhases(c, s), wx, w).failed == [] {
      PhasesComplete(UpdatePhases(c, s), wx, w);
    }
  }

  /** The whole promise about one call of update that starts from the record `s`. */
  predicate HonestUpdate(c: Cluster, s: Record, r: Result) {
    && (forall e | e in r.log && e.Saved? :: Midway(c, s, e.record))
    && r.site.disk.Some? && Midway(c, s, r.site.disk.value) && Sound(r.site.disk.value)
    && (r.outcome == Returned ==> Addresses(r.site.disk.value.nodes) == Addresses(c.nodes))
    && r.site.disk.value.version == if r.outcome == Returned then c.version else s.version
  }

  /**
   * For the saved addresses S and the desired addresses N: at every save of an update, and in the
   * state file it leaves behind however it ends, the recorded addresses lie between their
   * intersection and their union, without duplicates; a normal return leaves exactly N and the new
   * version, a raise leaves the version that was saved.
   */
  lemma UpdateKeepsRecordHonest(c: Cluster, wx: Weather, site: Site)
    requires site.disk.Some? && Sound(site.disk.value)
    ensures HonestUpdate(c, site.disk.value, Update(c, wx, site))
  {
    var s := site.disk.value;
    if UpdateRefusal(c, wx, site.disk) == None {
      UpdateWorld(c, wx, site);
      var step := RunPhases(UpdatePhases(c, s), wx, World(s, site.disk, site.fleet, []));
      UpdateShape(c, wx, site);
      HonestStep(c, s, step, Update(c, wx, site));
    } else {
      assert Midway(c, s, s);
    }
  }

  lemma HonestStep(c: Cluster, s: Record, step: Step, r: Result)
    requires Sound(s) && s.firstServer in Addresses(c.nodes)
    requires WorldBetween(Addresses(s.nodes) * Addresses(c.nodes), Addresses(s.nodes) + Addresses(c.nodes), s,
                          step.world)
    requires step.failed == [] ==> Addresses(step.world.record.nodes) == Addresses(c.nodes)
    requires
      var final := if step.failed == []
        then step.world.record.(version := c.version, kubeconfigPath := c.kubeconfigPath) else step.world.record;
      && r.site.disk == Some(final)
      && r.log == step.world.log + (if step.failed == [] then [Saved(final)] else [])
      && r.outcome == if step.failed == [] then Returned else Raised(NodesFailed(step.failed))
    ensures HonestUpdate(c, s, r)
  {
    MidwaySound(c, s, step.world.record);
  }

  lemma MidwaySound(c: Cluster, s: Record, r: Record)
    requires Midway(c, s, r) && Sound(s) && s.firstServer in Addresses(c.nodes)
    ensures Sound(r)
  {
    assert s.firstServer in Addresses(s.nodes) * Addresses(c.nodes);
  }

  /** The result of an accepted update, read off the world its phases end in. */
  lemma UpdateShape(c: Cluster, wx: Weather, site: Site)
    requires site.disk.Some? && UpdateRefusal(c, wx, site.disk) == None
    ensures
      var r, s := Update(c, wx, site), site.disk.value;
      var step := RunPhases(UpdatePhases(c, s), wx, World(s, site.disk, site.fleet, []));
      var final := if step.failed == []
        then step.world.record.(version := c.version, kubeconfigPath := c.kubeconfigPath) else step.world.record;
      step.world.disk == Some(step.world.record) ==>
        && r.site == Site(Some(final), step.world.fleet)
        && r.log == step.world.log + (if step.failed == [] then [Saved(final)] else [])
        && r.outcome == if step.failed == [] then Returned else Raised(NodesFailed(step.failed))
  {
  }

  /*** create ***/

  lemma CreateFirstPhase(c: Cluster, wx: Weather, w: World)
    requires Validate(c) == None && w.disk == None && w.log == [] && w.record.nodes == []
    requires w.record.firstServer == FirstServer(c).address
    ensures
      var s := RunPhase(CreatePhases(c)[0], wx, w);
      && (s.failed == [] ==> WorldBetween({w.record.firstServer}, Addresses(c.nodes), w.record, s.world))
      && (s.failed != [] ==> s.world.disk == None && forall e | e in s.world.log :: !e.Saved?)
  {
    var p := CreatePhases(c)[0];
    var first := FirstServer(c);
    assert p.nodes == [first];
    var (w1, ok) := Visit(p, first, wx, w);
    assert p.nodes[1..] == [];
    assert Trail(p, [], wx, w1) == Step(w1, []);
    assert Without([], first.address) == [];
    if ok {
      assert w1.record.nodes == [first];
      assert Addresses([first]) == {first.address};
    }
  }

  /** A record that this create could have saved. */
  predicate MadeFrom(c: Cluster, minted: string, now: string, r: Record) {
    && Validate(c) == None && Sound(r) && Addresses(r.nodes) <= Addresses(c.nodes)
    && r.version == c.version && IdentityOf(r) == IdentityOf(FreshRecord(c, minted, now))
  }

  lemma CreateRestFits(c: Cluster)
    requires Validate(c) == None
    ensures forall p | p in CreatePhases(c)[1..] ::
              PhaseFits({FirstServer(c).address}, Addresses(c.nodes), FirstServer(c).address, p, p.nodes)
  {
    var first := FirstServer(c);
    forall p | p in CreatePhases(c)[1..]
      ensures PhaseFits({first.address}, Addresses(c.nodes), first.address, p, p.nodes)
    {
      forall n | n in p.nodes ensures n in c.nodes && (n.address == first.address ==> n == first) {
        if n.address == first.address { SameAddressSameNode(c.nodes, n, first); }
      }
    }
  }

  predicate NothingSaved(w: World) {
    w.disk == None && forall e | e in w.log :: !e.Saved?
  }

  lemma AfterFirstPhase(ps: seq<Phase>, wx: Weather, w: World, lo: set<Address>, hi: set<Address>)
    requires ps != [] && forall p | p in ps[1..] :: PhaseFits(lo, hi, w.record.firstServer, p, p.nodes)
    requires var s := RunPhase(ps[0], wx, w);
      if s.failed == [] then WorldBetween(lo, hi, w.record, s.world) else NothingSaved(s.world)
    ensures var step := RunPhases(ps, wx, w);
      && (|| WorldBetween(lo, hi, w.record, step.world)
          || (step.failed != [] && NothingSaved(step.world)))
      && (step.failed == [] ==> Addresses(step.world.record.nodes) == AfterPhases(ps, Addresses(w.record.nodes)))
  {
    if RunPhases(ps, wx, w).failed == [] { PhasesComplete(ps, wx, w); }
    var s := RunPhase(ps[0], wx, w);
    if s.failed == [] {
      PhasesBetween(ps[1..], wx, s.world, lo, hi, w.record);
    }
  }

  /** The whole promise about one call of create that finds no state file. */
  predicate HonestCreate(c: Cluster, minted: string, now: string, r: Result) {
    && (forall e | e in r.log && e.Saved? :: MadeFrom(c, minted, now, e.record))
    && (r.site.disk.Some? ==> MadeFrom(c, minted, now, r.site.disk.value))
    && (r.outcome == Returned ==> r.site.disk.Some? && Addresses(r.site.disk.value.nodes) == Addresses(c.nodes))
  }

  /**
   * A create either leaves no state file or one that is sound, holds only nodes of the
   * specification, and carries its identity; so does every save. A normal return records every node.
   */
  lemma CreateKeepsRecordHonest(c: Cluster, minted: string, now: string, wx: Weather, site: Site)
    requires site.disk == None
    ensures HonestCreate(c, minted, now, Create(c, minted, now, wx, site))
  {
    if Validate(c) == None && wx.ready {
      CreateHonestFrom(c, minted, now, wx, site, CreatePhases(c));
    }
  }

  lemma CreateHonestFrom(c: Cluster, minted: string, now: string, wx: Weather, site: Site, ps: seq<Phase>)
    requires site.disk == None && Validate(c) == None && wx.ready && ps == CreatePhases(c)
    ensures HonestCreate(c, minted, now, Create(c, minted, now, wx, site))
  {
    var base := FreshRecord(c, minted, now);
    var w := World(base, None, site.fleet, []);
    CreateFirstPhase(c, wx, w);
    CreateRestFits(c);
    CreateTarget(c);
    assert Addresses(base.nodes) == {};
    AfterFirstPhase(ps, wx, w, {base.firstServer}, Addresses(c.nodes));
    HonestCreateStep(c, minted, now, RunPhases(ps, wx, w), Create(c, minted, now, wx, site));
  }

  lemma HonestCreateStep(c: Cluster, minted: string, now: string, step: Step, r: Result)
    requires Validate(c) == None
    requires
      var base := FreshRecord(c, minted, now);
      && (|| WorldBetween({base.firstServer}, Addresses(c.nodes), base, step.world)
          || (step.failed != [] && NothingSaved(step.world)))
      && (step.failed == [] ==> Addresses(step.world.record.nodes) == Addresses(c.nodes))
    requires r == if step.failed != [] then Ended(step, NodesFailed(step.failed)) else Finished(Save(step.world))
    ensures HonestCreate(c, minted, now, r)
  {
    var base := FreshRecord(c, minted, now);
    assert forall r: Record | Between({base.firstServer}, Addresses(c.nodes), r) && SameBase(r, base) ::
        MadeFrom(c, minted, now, r);
  }

  lemma CreateTarget(c: Cluster)
    requires Validate(c) == None
    ensures AfterPhases(CreatePhases(c), {}) == Addresses(c.nodes)
  {
    var ps := CreatePhases(c);
    var first, rest := WithRole(c.nodes, Server)[..1], WithRole(c.nodes, Server)[1..];
    var agents := WithRole(c.nodes, Agent);
    assert ps == ([ps[0], ps[1]] + [ps[2], ps[3]]) + [ps[4]];
    AfterPhasesAppend([ps[0], ps[1]] + [ps[2], ps[3]], [ps[4]], {});
    AfterPhasesAppend([ps[0], ps[1]], [ps[2], ps[3]], {});
    AfterTwo([ps[0], ps[1]], {});
    assert AfterPhases([ps[0], ps[1]], {}) == Addresses(first);
    AfterTwo([ps[2], ps[3]], Addresses(first));
    var all := AfterPhases([ps[2], ps[3]], Addresses(first));
    assert all == Addresses(first) + Addresses(rest) + Addresses(agents);
    KeepPhases([ps[4]], all);
    SplitServers(c.nodes);
    BothRoles(c.nodes);
  }

  lemma SplitServers(nodes: seq<Node>)
    requires WithRole(nodes, Server) != []
    ensures
      var servers := WithRole(nodes, Server);
      Addresses(servers) == Addresses(servers[..1]) + Addresses(servers[1..])
  {
    var servers := WithRole(nodes, Server);
    assert servers == servers[..1] + servers[1..];
  }

  /*** whole runs ***/

  /** Whether `call` made the state file found in `after` (there was none in `before`). */
  predicate Makes(call: Call, before: Site, after: Site) {
    && call.CreateCall? && before.disk == None && after.disk.Some? && Validate(call.cluster) == None
    && IdentityOf(after.disk.value) == IdentityOf(FreshRecord(call.cluster, call.minted, call.now))
  }

  lemma ApplySound(call: Call, site: Site)
    requires site.disk.Some? ==> Sound(site.disk.value)
    ensures
      var after := Apply(call, site).site;
      && (after.disk.Some? ==> Sound(after.disk.value))
      && (site.disk == None && after.disk.Some? ==> Makes(call, site, after))
      && (site.disk.Some? && after.disk.Some? ==> IdentityOf(after.disk.value) == IdentityOf(site.disk.value))
  {
    match call
    case CreateCall(c, minted, now, wx) =>
      if site.disk == None { CreateKeepsRecordHonest(c, minted, now, wx, site); }
    case UpdateCall(c, wx) =>
      if site.disk.Some? { UpdateKeepsRecordHonest(c, wx, site); }
    case DeleteCall(wx) =>
      if site.disk.Some? { DeleteKeepsFile(wx, site); }
  }

  lemma {:induction false} KeepTrail(p: Phase, order: seq<Node>, wx: Weather, w: World)
    requires p.change == Keep
    ensures Trail(p, order, wx, w).world.disk == w.disk
    ensures Trail(p, order, wx, w).world.record == w.record
    decreases |order|
  {
    if order != [] { KeepTrail(p, order[1..], wx, Visit(p, order[0], wx, w).0); }
  }

  lemma DeleteKeepsFile(wx: Weather, site: Site)
    requires site.disk.Some?
    ensures
      var r := Delete(wx, site);
      r.site.disk == if r.outcome == Returned then None else site.disk
  {
    var ps := DeletePhases(site.disk.value);
    var w := World(site.disk.value, site.disk, site.fleet, []);
    KeepTrail(ps[0], Order(ps[0], wx), wx, w);
    var w1 := RunPhase(ps[0], wx, w).world;
    KeepTrail(ps[1], Order(ps[1], wx), wx, w1);
    assert ps[1..] == [ps[1]] && ps[1..][1..] == [];
    assert RunPhases(ps[1..], wx, w1) == if RunPhase(ps[1], wx, w1).failed != [] then RunPhase(ps[1], wx, w1)
      else RunPhases([], wx, RunPhase(ps[1], wx, w1).world);
  }

  lemma {:induction false} RunExtends(calls: seq<Call>, site: Site, k: nat)
    requires k < |calls|
    ensures Run(calls[..k + 1], site) == Apply(calls[k], Run(calls[..k], site)).site
    decreases k
  {
    assert calls[..k + 1][0] == calls[0] && calls[..k + 1][1..] == calls[1..][..k];
    if k > 0 {
      assert calls[..k][1..] == calls[1..][..k - 1];
      RunExtends(calls[1..], Apply(calls[0], site).site, k - 1);
    } else {
      assert calls[..0] == [] && calls[1..][..0] == [];
    }
  }

  /** After the first `k` calls there is a state file, with the identity given to it by call `made`. */
  predicate HeldSince(calls: seq<Call>, start: Site, made: nat, k: nat)
    requires made < |calls| && k <= |calls|
  {
    var site, maker := Run(calls[..k], start), calls[made];
    && site.disk.Some?
    && maker.CreateCall? && Validate(maker.cluster) == None
    && IdentityOf(site.disk.value) == IdentityOf(FreshRecord(maker.cluster, maker.minted, maker.now))
  }

  /** Ever since call `made` the state file has existed with that call's identity. */
  predicate HeldFrom(calls: seq<Call>, start: Site, made: nat)
    requires made < |calls|
  {
    forall k | made < k <= |calls| :: HeldSince(calls, start, made, k)
  }

  lemma HeldOneMore(calls: seq<Call>, start: Site, made: nat)
    requires made < |calls| && HeldSince(calls, start, made, |calls|)
    requires made < |calls| - 1 ==> HeldFrom(calls[..|calls| - 1], start, made)
    ensures HeldFrom(calls, start, made)
  {
    var init := calls[..|calls| - 1];
    forall k | made < k < |calls| ensures HeldSince(calls, start, made, k) {
      assert HeldSince(init, start, made, k);
      assert init[..k] == calls[..k];
    }
  }

  /** The last call either keeps the state file, with its identity, or makes one where there was none. */
  lemma LastCallHolds(calls: seq<Call>, start: Site, made: nat)
    requires calls != [] && made < |calls| && Run(calls, start).disk.Some?
    requires
      var before := Run(calls[..|calls| - 1], start);
      && (before.disk.Some? ==> Sound(before.disk.value))
      && (if before.disk == None then made == |calls| - 1 else HeldSince(calls, start, made, |calls| - 1))
    ensures Sound(Run(calls, start).disk.value) && HeldSince(calls, start, made, |calls|)
  {
    var last := |calls| - 1;
    RunExtends(calls, start, last);
    assert calls[..last + 1] == calls;
    ApplySound(calls[last], Run(calls[..last], start));
  }

  /**
   * Over any sequence of calls, failing anywhere, starting without a state file: if there is one at
   * the end then its addresses are distinct, it contains the first server, and some create in the
   * sequence made it; ever since, the file has existed and has had that create's token,
   * first-server address, CNI, kube-proxy setting and creation time.
   */
  lemma {:induction false} RunKeepsIdentity(calls: seq<Call>, start: Site) returns (made: nat)
    requires start.disk == None && Run(calls, start).disk.Some?
    ensures Sound(Run(calls, start).disk.value)
    ensures made < |calls|
    ensures Run(calls[..made], start).disk == None
    ensures HeldFrom(calls, start, made)
    decreases |calls|
  {
    assert calls != [];
    var last := |calls| - 1;
    made := last;
    if Run(calls[..last], start).disk.Some? {
      made := RunKeepsIdentity(calls[..last], start);
      assert calls[..last][..made] == calls[..made];
      HeldInit(calls, start, made);
    }
    LastCallHolds(calls, start, made);
    HeldOneMore(calls, start, made);
  }

  lemma HeldInit(calls: seq<Call>, start: Site, made: nat)
    requires made < |calls| - 1 && HeldFrom(calls[..|calls| - 1], start, made)
    ensures HeldSince(calls, start, made, |calls| - 1)
  {
    var init := calls[..|calls| - 1];
    assert HeldSince(init, start, made, |init|);
    assert init[..|init|] == calls[..|calls| - 1];
  }
}
