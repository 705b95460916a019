/** Which RKE2 version the recorded nodes run, after one call and over whole runs. */
module Rke2Versions {
  import opened Collections
  import opened Rke2Spec
  import opened Rke2Reconcile
  import opened Rke2Record

  /** The addresses that really run version `v`. */
  function Holding(v: string, fleet: map<Address, string>): (r: set<Address>) {
    set a | a in fleet && fleet[a] == v
  }

  /** Every recorded node runs the recorded version. */
  predicate Uniform(r: Record, fleet: map<Address, string>) {
    Addresses(r.nodes) <= Holding(r.version, fleet)
  }

  predicate UniformSite(site: Site) {
    site.disk.Some? ==> Uniform(site.disk.value, site.fleet)
  }

  /** A phase that installs nothing but version `v`. */
  predicate Installs(v: string, p: Phase) {
    match p.task
    case Join(u) => u == v && p.change == Upsert
    case Upgrade(u) => u == v && p.change == Keep
    case Teardown => p.change == Drop
    case Fetch => p.change == Keep
  }

  /** The nodes a phase may take RKE2 off. */
  function Torn(p: Phase, nodes: seq<Node>): (r: set<Address>) {
    if p.task.Teardown? then Addresses(nodes) else {}
  }

  function AllTorn(ps: seq<Phase>): (r: set<Address>) {
    if ps == [] then {} else Torn(ps[0], ps[0].nodes) + AllTorn(ps[1..])
  }

  /** The nodes on which a phase that succeeds throughout has installed its version. */
  function Built(p: Phase, nodes: seq<Node>): (r: set<Address>) {
    if p.task.Join? || p.task.Upgrade? then Addresses(nodes) else {}
  }

  function AllBuilt(ps: seq<Phase>): (r: set<Address>) {
    if ps == [] then {} else Built(ps[0], ps[0].nodes) + AllBuilt(ps[1..])
  }

  /** Nodes neither torn down nor installed on keep what they run. */
  ghost predicate Undisturbed(nodes: set<Address>, before: map<Address, string>, after: map<Address, string>) {
    forall a | a !in nodes :: (a in after <==> a in before) && (a in after ==> after[a] == before[a])
  }

  lemma {:induction false} TrailFleet(p: Phase, order: seq<Node>, wx: Weather, w: World, v: string)
    requires Installs(v, p)
    ensures
      var s := Trail(p, order, wx, w);
      && Holding(v, w.fleet) - Torn(p, order) <= Holding(v, s.world.fleet)
      && (s.failed == [] ==> Built(p, order) <= Holding(v, s.world.fleet))
      && Undisturbed(Torn(p, order) + Built(p, order), w.fleet, s.world.fleet)
    decreases |order|
  {
    if order != [] {
      var w1 := Visit(p, order[0], wx, w).0;
      assert Addresses(order) == {order[0].address} + Addresses(order[1..]) by {
        assert order == [order[0]] + order[1..];
      }
      TrailFleet(p, order[1..], wx, w1, v);
    }
  }

  lemma {:induction false} PhasesFleet(ps: seq<Phase>, wx: Weather, w: World, v: string)
    requires forall p | p in ps :: Installs(v, p)
    ensures
      var s := RunPhases(ps, wx, w);
      && Holding(v, w.fleet) - AllTorn(ps) <= Holding(v, s.world.fleet)
      && (s.failed == [] ==> AllBuilt(ps) - AllTorn(ps) <= Holding(v, s.world.fleet))
      && Undisturbed(AllTorn(ps) + AllBuilt(ps), w.fleet, s.world.fleet)
    decreases |ps|
  {
    if ps != [] {
      assert ps[0] in ps;
      OrderMembers(ps[0], wx);
      TrailFleet(ps[0], Order(ps[0], wx), wx, w, v);
      PhasesFleet(ps[1..], wx, RunPhase(ps[0], wx, w).world, v);
    }
  }

  /** Whatever fails, work at the recorded version keeps every recorded node at it. */
  lemma VisitUniform(p: Phase, n: Node, wx: Weather, w: World)
    requires Installs(w.record.version, p) && Uniform(w.record, w.fleet)
    ensures Uniform(Visit(p, n, wx, w).0.record, Visit(p, n, wx, w).0.fleet)
    ensures Visit(p, n, wx, w).0.record.version == w.record.version
  {
    assert Addresses(Without(w.record.nodes, n.address) + [n]) == Addresses(w.record.nodes) + {n.address};
  }

  lemma {:induction false} TrailUniform(p: Phase, order: seq<Node>, wx: Weather, w: World)
    requires Installs(w.record.version, p) && Uniform(w.record, w.fleet)
    ensures Uniform(Trail(p, order, wx, w).world.record, Trail(p, order, wx, w).world.fleet)
    ensures Trail(p, order, wx, w).world.record.version == w.record.version
    decreases |order|
  {
    if order != [] {
      VisitUniform(p, order[0], wx, w);
      TrailUniform(p, order[1..], wx, Visit(p, order[0], wx, w).0);
    }
  }

  lemma {:induction false} PhasesUniform(ps: seq<Phase>, wx: Weather, w: World)
    requires (forall p | p in ps :: Installs(w.record.version, p)) && Uniform(w.record, w.fleet)
    ensures Uniform(RunPhases(ps, wx, w).world.record, RunPhases(ps, wx, w).world.fleet)
    decreases |ps|
  {
    if ps != [] {
      assert ps[0] in ps;
      TrailUniform(ps[0], Order(ps[0], wx), wx, w);
      PhasesUniform(ps[1..], wx, RunPhase(ps[0], wx, w).world);
    }
  }

  /*** update ***/

  lemma UpdateInstalls(c: Cluster, s: Record)
    ensures forall p | p in UpdatePhases(c, s) :: Installs(c.version, p)
  {
    forall p | p in UpdatePhases(c, s) ensures Installs(c.version, p) {
      assert p in RemovalPhases(c, s.nodes) || p in JoinPhases(c, s.nodes) || p in UpgradePhases(c, s)
             || p == FetchPhase(c, s);
    }
  }

  lemma {:induction false} TornAndBuiltAppend(ps: seq<Phase>, qs: seq<Phase>)
    ensures AllTorn(ps + qs) == AllTorn(ps) + AllTorn(qs)
    ensures AllBuilt(ps + qs) == AllBuilt(ps) + AllBuilt(qs)
    decreases |ps|
  {
    if ps == [] {
      assert ps + qs == qs;
    } else {
      assert (ps + qs)[1..] == ps[1..] + qs;
      TornAndBuiltAppend(ps[1..], qs);
    }
  }

  lemma PairTornAndBuilt(ps: seq<Phase>)
    requires |ps| == 2
    ensures AllTorn(ps) == Torn(ps[0], ps[0].nodes) + Torn(ps[1], ps[1].nodes)
    ensures AllBuilt(ps) == Built(ps[0], ps[0].nodes) + Built(ps[1], ps[1].nodes)
  {
    assert ps == [ps[0]] + [ps[1]];
    TornAndBuiltAppend([ps[0]], [ps[1]]);
    SingleTornAndBuilt(ps[0]);
    SingleTornAndBuilt(ps[1]);
  }

  lemma SingleTornAndBuilt(p: Phase)
    ensures AllTorn([p]) == Torn(p, p.nodes) && AllBuilt([p]) == Built(p, p.nodes)
  {
    assert [p][1..] == [];
    assert AllTorn([]) == {} && AllBuilt([]) == {};
  }

  /** Every kept node is in one of the two upgrade batches, whatever the first server's role. */
  lemma UpgradesCover(c: Cluster, s: Record)
    requires RolesKnown(c.nodes) && c.version != s.version
    ensures AllTorn(UpgradePhases(c, s)) == {} && AllBuilt(UpgradePhases(c, s)) == Addresses(Kept(c, s.nodes))
  {
    PairTornAndBuilt(UpgradePhases(c, s));
    BatchesCover(Kept(c, s.nodes), s.firstServer);
  }

  lemma BatchesCover(kept: seq<Node>, first: Address)
    requires RolesKnown(kept)
    ensures Addresses(WithRole(kept, Agent)) + Addresses(OtherServers(kept, first) + At(kept, first)) == Addresses(kept)
  {
    var agents, servers := WithRole(kept, Agent), OtherServers(kept, first) + At(kept, first);
    assert forall n :: n in kept <==> n in agents || n in servers;
  }

  lemma RemovalTorn(c: Cluster, saved: seq<Node>)
    requires RolesKnown(saved)
    ensures AllTorn(RemovalPhases(c, saved)) == Addresses(saved) - Addresses(c.nodes)
    ensures AllBuilt(RemovalPhases(c, saved)) == {}
  {
    PairTornAndBuilt(RemovalPhases(c, saved));
    BothRoles(Removed(c, saved));
    assert Addresses(Removed(c, saved)) == Addresses(saved) - Addresses(c.nodes);
  }

  lemma JoinBuilt(c: Cluster, saved: seq<Node>)
    requires RolesKnown(c.nodes)
    ensures AllTorn(JoinPhases(c, saved)) == {}
    ensures AllBuilt(JoinPhases(c, saved)) == Addresses(c.nodes) - Addresses(saved)
  {
    PairTornAndBuilt(JoinPhases(c, saved));
    BothRoles(Added(c, saved));
    assert Addresses(Added(c, saved)) == Addresses(c.nodes) - Addresses(saved);
  }

  lemma UpgradeBuilt(c: Cluster, s: Record)
    requires RolesKnown(c.nodes)
    ensures AllTorn(UpgradePhases(c, s)) == {}
    ensures AllBuilt(UpgradePhases(c, s))
            == if c.version == s.version then {} else Addresses(c.nodes) * Addresses(s.nodes)
  {
    if c.version != s.version {
      UpgradesCover(c, s);
      assert Addresses(Kept(c, s.nodes)) == Addresses(c.nodes) * Addresses(s.nodes);
    }
  }

  lemma UpdateTornAndBuilt(c: Cluster, s: Record)
    requires RolesKnown(c.nodes) && RolesKnown(s.nodes)
    ensures
      var kept, added := Addresses(c.nodes) * Addresses(s.nodes), Addresses(c.nodes) - Addresses(s.nodes);
      && AllTorn(UpdatePhases(c, s)) == Addresses(s.nodes) - Addresses(c.nodes)
      && AllBuilt(UpdatePhases(c, s)) == if c.version == s.version then added else added + kept
  {
    RemovalTorn(c, s.nodes);
    JoinBuilt(c, s.nodes);
    UpgradeBuilt(c, s);
    SingleTornAndBuilt(FetchPhase(c, s));
    FourParts(RemovalPhases(c, s.nodes), JoinPhases(c, s.nodes), UpgradePhases(c, s), [FetchPhase(c, s)]);
  }

  /** Phases of which only the first tear down, and only the second and third install. */
  lemma FourParts(rs: seq<Phase>, js: seq<Phase>, us: seq<Phase>, fs: seq<Phase>)
    requires AllBuilt(rs) == {} && AllTorn(js) == {} && AllTorn(us) == {} && AllTorn(fs) == {} && AllBuilt(fs) == {}
    ensures AllTorn(rs + js + us + fs) == AllTorn(rs)
    ensures AllBuilt(rs + js + us + fs) == AllBuilt(js) + AllBuilt(us)
  {
    TornAndBuiltAppend(rs + js + us, fs);
    TornAndBuiltAppend(rs + js, us);
    TornAndBuiltAppend(rs, js);
  }

  lemma UpdateFleet(c: Cluster, wx: Weather, site: Site)
    requires site.disk.Some? && Sound(site.disk.value) && UpdateRefusal(c, wx, site.disk) == None
    ensures
      var s, r := site.disk.value, Update(c, wx, site);
      var kept := Addresses(c.nodes) * Addresses(s.nodes);
      && (r.outcome == Returned ==> Addresses(c.nodes) - kept <= Holding(c.version, r.site.fleet))
      && (r.outcome == Returned && c.version != s.version ==> kept <= Holding(c.version, r.site.fleet))
      && (c.version == s.version ==>
          (kept <= Holding(c.version, r.site.fleet) <==> kept <= Holding(c.version, site.fleet)))
  {
    var s := site.disk.value;
    var w := World(s, site.disk, site.fleet, []);
    UpdateInstalls(c, s);
    UpdateTornAndBuilt(c, s);
    PhasesFleet(UpdatePhases(c, s), wx, w, c.version);
    UpdateWorld(c, wx, site);
    UpdateShape(c, wx, site);
  }

  /**
   * An update that returns normally leaves every recorded node at the requested version exactly when
   * it changed the version, or every node it kept was at that version already.
   */
  lemma UniformAfterUpdate(c: Cluster, wx: Weather, site: Site)
    requires site.disk.Some? && Sound(site.disk.value)
    ensures Update(c, wx, site).outcome == Returned ==>
      (UniformSite(Update(c, wx, site).site)
       <==> || c.version != site.disk.value.version
            || Addresses(c.nodes) * Addresses(site.disk.value.nodes) <= Holding(c.version, site.fleet))
  {
    if Update(c, wx, site).outcome.Raised? { return; }
    UpdateFleet(c, wx, site);
    UpdateKeepsRecordHonest(c, wx, site);
    var kept := Addresses(c.nodes) * Addresses(site.disk.value.nodes);
    assert Addresses(c.nodes) == kept + (Addresses(c.nodes) - kept);
  }

  /** An update at the recorded version preserves uniformity however it ends. */
  lemma SameVersionStaysUniform(c: Cluster, wx: Weather, site: Site)
    requires site.disk.Some? && Sound(site.disk.value) && c.version == site.disk.value.version
    requires UniformSite(site)
    ensures UniformSite(Update(c, wx, site).site)
  {
    var s := site.disk.value;
    if UpdateRefusal(c, wx, site.disk) == None {
      var w := World(s, site.disk, site.fleet, []);
      UpdateInstalls(c, s);
      PhasesUniform(UpdatePhases(c, s), wx, w);
      UpdateWorld(c, wx, site);
      UpdateShape(c, wx, site);
    }
  }

  /** A create leaves whatever it recorded at the requested version, however it ends. */
  lemma CreateIsUniform(c: Cluster, minted: string, now: string, wx: Weather, site: Site)
    requires site.disk == None
    ensures UniformSite(Create(c, minted, now, wx, site).site)
  {
    if Validate(c) == None && wx.ready {
      var base := FreshRecord(c, minted, now);
      var w := World(base, None, site.fleet, []);
      assert Addresses(base.nodes) == {};
      assert forall p | p in CreatePhases(c) :: Installs(base.version, p);
      PhasesUniform(CreatePhases(c), wx, w);
      CreateHonestWorld(c, minted, now, wx, site);
    }
  }

  lemma CreateHonestWorld(c: Cluster, minted: string, now: string, wx: Weather, site: Site)
    requires site.disk == None && Validate(c) == None && wx.ready
    ensures
      var base := FreshRecord(c, minted, now);
      var step := RunPhases(CreatePhases(c), wx, World(base, None, site.fleet, []));
      && (step.world.disk.Some? ==> step.world.disk.value == step.world.record)
  {
    var base := FreshRecord(c, minted, now);
    var w := World(base, None, site.fleet, []);
    CreateFirstPhase(c, wx, w);
    CreateRestFits(c);
    AfterFirstPhase(CreatePhases(c), wx, w, {base.firstServer}, Addresses(c.nodes));
  }

  /*** whole runs ***/

  /** An update at the saved version would keep a node that does not run it. */
  predicate Stale(call: Call, site: Site) {
    && call.UpdateCall? && site.disk.Some? && call.cluster.version == site.disk.value.version
    && !(Addresses(call.cluster.nodes) * Addresses(site.disk.value.nodes) <= Holding(call.cluster.version, site.fleet))
  }

  /** A call that returns normally leaves every recorded node at the recorded version exactly when it was not stale. */
  lemma SuccessUniformExactlyWhen(call: Call, site: Site)
    requires site.disk.Some? ==> Sound(site.disk.value)
    ensures Apply(call, site).outcome == Returned ==> (UniformSite(Apply(call, site).site) <==> !Stale(call, site))
  {
    match call
    case CreateCall(c, minted, now, wx) =>
      if site.disk == None { CreateIsUniform(c, minted, now, wx, site); }
    case UpdateCall(c, wx) =>
      if site.disk.Some? { UniformAfterUpdate(c, wx, site); }
    case DeleteCall(wx) =>
      if site.disk.Some? { DeleteKeepsFile(wx, site); }
  }

  /** Every call of the run that returns normally leaves the versions uniform. */
  predicate SuccessesUniform(calls: seq<Call>, site: Site)
    decreases |calls|
  {
    calls != [] ==>
      && (Apply(calls[0], site).outcome == Returned ==> UniformSite(Apply(calls[0], site).site))
      && SuccessesUniform(calls[1..], Apply(calls[0], site).site)
  }

  /** No call of the run that returns normally was stale. */
  predicate NoStaleSuccess(calls: seq<Call>, site: Site)
    decreases |calls|
  {
    calls != [] ==>
      && (Apply(calls[0], site).outcome == Returned ==> !Stale(calls[0], site))
      && NoStaleSuccess(calls[1..], Apply(calls[0], site).site)
  }

  /**
   * Over any run, failing anywhere: the versions are uniform after every successful call exactly when no
   * successful update at the saved version keeps a node that runs something else.
   */
  lemma {:induction false} RunsUniformExactlyWhen(calls: seq<Call>, site: Site)
    requires site.disk.Some? ==> Sound(site.disk.value)
    ensures SuccessesUniform(calls, site) <==> NoStaleSuccess(calls, site)
    decreases |calls|
  {
    if calls != [] {
      SuccessUniformExactlyWhen(calls[0], site);
      ApplySound(calls[0], site);
      RunsUniformExactlyWhen(calls[1..], Apply(calls[0], site).site);
    }
  }

  /*** whole runs, from their history alone ***/

  predicate Installing(log: seq<Event>) {
    exists e :: e in log && e.Attempted? && (e.task.Join? || e.task.Upgrade?)
  }

  /** Until it attempts a join or an upgrade, an update keeps the versions as uniform as it found them. */
  lemma VisitUniformOrInstalls(p: Phase, n: Node, wx: Weather, w: World, v: string)
    requires Installs(v, p) && (Uniform(w.record, w.fleet) || Installing(w.log))
    ensures var w1 := Visit(p, n, wx, w).0; Uniform(w1.record, w1.fleet) || Installing(w1.log)
  {
    var (w1, ok) := Visit(p, n, wx, w);
    var attempt := Attempted(p.stage, p.task, n, ok);
    assert attempt in w1.log && w.log <= w1.log;
    if Installing(w.log) {
      var e :| e in w.log && e.Attempted? && (e.task.Join? || e.task.Upgrade?);
      assert e in w1.log;
    }
  }

  lemma {:induction false} TrailUniformOrInstalls(p: Phase, order: seq<Node>, wx: Weather, w: World, v: string)
    requires Installs(v, p) && (Uniform(w.record, w.fleet) || Installing(w.log))
    ensures var w1 := Trail(p, order, wx, w).world; Uniform(w1.record, w1.fleet) || Installing(w1.log)
    decreases |order|
  {
    if order != [] {
      VisitUniformOrInstalls(p, order[0], wx, w, v);
      TrailUniformOrInstalls(p, order[1..], wx, Visit(p, order[0], wx, w).0, v);
    }
  }

  lemma {:induction false} PhasesUniformOrInstall(ps: seq<Phase>, wx: Weather, w: World, v: string)
    requires (forall p | p in ps :: Installs(v, p)) && (Uniform(w.record, w.fleet) || Installing(w.log))
    ensures var w1 := RunPhases(ps, wx, w).world; Uniform(w1.record, w1.fleet) || Installing(w1.log)
    decreases |ps|
  {
    if ps != [] {
      assert ps[0] in ps;
      TrailUniformOrInstalls(ps[0], Order(ps[0], wx), wx, w, v);
      PhasesUniformOrInstall(ps[1..], wx, RunPhase(ps[0], wx, w).world, v);
    }
  }

  lemma FailedUpdateUniform(c: Cluster, wx: Weather, site: Site)
    requires site.disk.Some? && Sound(site.disk.value) && UniformSite(site)
    requires Update(c, wx, site).outcome.Raised?
    ensures UniformSite(Update(c, wx, site).site) || Installing(Update(c, wx, site).log)
  {
    var s := site.disk.value;
    if UpdateRefusal(c, wx, site.disk) == None {
      UpdateInstalls(c, s);
      PhasesUniformOrInstall(UpdatePhases(c, s), wx, World(s, site.disk, site.fleet, []), c.version);
      UpdateWorld(c, wx, site);
      UpdateShape(c, wx, site);
    }
  }

  /** The call gave up after it had begun to install another version, or had taken RKE2 off some node. */
  predicate Disturbs(call: Call, site: Site) {
    var r := Apply(call, site);
    && site.disk.Some? && r.outcome.Raised?
    && match call
       case CreateCall(_, _, _, _) => false
       case UpdateCall(c, _) => c.version != site.disk.value.version && Installing(r.log)
       case DeleteCall(_) => r.site.fleet != site.fleet
  }

  /** After this call the recorded nodes may no longer all run the recorded version. */
  predicate SuspectAfter(call: Call, site: Site, suspect: bool) {
    Apply(call, site).outcome.Raised? && Apply(call, site).site.disk.Some? && (suspect || Disturbs(call, site))
  }

  /** The call brings the saved version back as if nothing had happened. */
  predicate FallsBack(call: Call, site: Site) {
    && call.UpdateCall? && site.disk.Some? && call.cluster.version == site.disk.value.version
    && Apply(call, site).outcome == Returned
  }

  /**
   * A run in which no version change or delete that gave up half-way is followed, before anything else
   * has succeeded, by a successful update at the version that is still saved.
   */
  predicate NeverFallsBack(calls: seq<Call>, site: Site, suspect: bool)
    decreases |calls|
  {
    calls != [] ==>
      && !(suspect && FallsBack(calls[0], site))
      && NeverFallsBack(calls[1..], Apply(calls[0], site).site, SuspectAfter(calls[0], site, suspect))
  }

  predicate SuspectAtEnd(calls: seq<Call>, site: Site, suspect: bool)
    decreases |calls|
  {
    if calls == [] then suspect
    else SuspectAtEnd(calls[1..], Apply(calls[0], site).site, SuspectAfter(calls[0], site, suspect))
  }

  lemma CallUniform(call: Call, site: Site, suspect: bool)
    requires site.disk.Some? ==> Sound(site.disk.value)
    requires suspect || UniformSite(site)
    requires !(suspect && FallsBack(call, site))
    ensures SuspectAfter(call, site, suspect) || UniformSite(Apply(call, site).site)
  {
    if Apply(call, site).outcome == Returned {
      SuccessUniformExactlyWhen(call, site);
      if Stale(call, site) { StaleIsNotUniform(call, site); }
    } else if !suspect {
      FailureUniform(call, site);
    }
  }

  lemma StaleIsNotUniform(call: Call, site: Site)
    requires Stale(call, site)
    ensures !UniformSite(site)
  {
  }

  lemma FailureUniform(call: Call, site: Site)
    requires site.disk.Some? ==> Sound(site.disk.value)
    requires UniformSite(site) && Apply(call, site).outcome.Raised?
    ensures Disturbs(call, site) || UniformSite(Apply(call, site).site)
  {
    match call
    case CreateCall(c, minted, now, wx) =>
      if site.disk == None { CreateIsUniform(c, minted, now, wx, site); }
    case UpdateCall(c, wx) =>
      if site.disk.Some? {
        if c.version == site.disk.value.version {
          SameVersionStaysUniform(c, wx, site);
        } else {
          FailedUpdateUniform(c, wx, site);
        }
      }
    case DeleteCall(wx) =>
      if site.disk.Some? { DeleteKeepsFile(wx, site); }
  }

  lemma {:induction false} SuspicionLasts(calls: seq<Call>, site: Site, suspect: bool)
    requires site.disk.Some? ==> Sound(site.disk.value)
    requires suspect || UniformSite(site)
    requires NeverFallsBack(calls, site, suspect)
    ensures SuspectAtEnd(calls, site, suspect) || UniformSite(Run(calls, site))
    decreases |calls|
  {
    if calls != [] {
      CallUniform(calls[0], site, suspect);
      ApplySound(calls[0], site);
      SuspicionLasts(calls[1..], Apply(calls[0], site).site, SuspectAfter(calls[0], site, suspect));
    }
  }

  lemma RunInit(calls: seq<Call>, site: Site)
    requires |calls| > 1
    ensures Run(calls[..|calls| - 1], site) == Run(calls[1..][..|calls[1..]| - 1], Apply(calls[0], site).site)
  {
    var init := calls[..|calls| - 1];
    assert init[0] == calls[0] && init[1..] == calls[1..][..|calls[1..]| - 1];
  }

  /** The last call decides whether suspicion remains, from some earlier suspicion. */
  lemma {:induction false} LastDecides(calls: seq<Call>, site: Site, suspect: bool) returns (earlier: bool)
    requires calls != []
    ensures SuspectAtEnd(calls, site, suspect)
         == SuspectAfter(calls[|calls| - 1], Run(calls[..|calls| - 1], site), earlier)
    decreases |calls|
  {
    if |calls| == 1 {
      assert calls[..0] == [] && calls[1..] == [];
      earlier := suspect;
    } else {
      RunInit(calls, site);
      assert calls[1..][|calls[1..]| - 1] == calls[|calls| - 1];
      earlier := LastDecides(calls[1..], Apply(calls[0], site).site, SuspectAfter(calls[0], site, suspect));
    }
  }

  /**
   * In such a run every recorded node runs the recorded version whenever no version change or delete
   * that gave up half-way is outstanding; in particular after every call that returns normally.
   */
  lemma RunsStayUniform(calls: seq<Call>, site: Site, suspect: bool)
    requires site.disk.Some? ==> Sound(site.disk.value)
    requires suspect || UniformSite(site)
    requires NeverFallsBack(calls, site, suspect)
    ensures SuspectAtEnd(calls, site, suspect) || UniformSite(Run(calls, site))
    ensures calls != [] && Apply(calls[|calls| - 1], Run(calls[..|calls| - 1], site)).outcome == Returned
            ==> UniformSite(Run(calls, site))
  {
    SuspicionLasts(calls, site, suspect);
    if calls != [] { var _ := LastDecides(calls, site, suspect); }
  }

  /*** why a failed delete matters ***/

  lemma RunEmptyPhase(p: Phase, wx: Weather, w: World)
    requires p.nodes == []
    ensures RunPhase(p, wx, w) == Step(w, [])
  {
  }

  lemma RunOneNode(p: Phase, n: Node, wx: Weather, w: World)
    requires p.nodes == [n]
    ensures
      var (w1, ok) := Visit(p, n, wx, w);
      RunPhase(p, wx, w) == Step(w1, if ok then [] else [n.address])
  {
    assert RemoveAt([n], 0) == [];
    assert Order(p, wx) == [n];
    var (w1, ok) := Visit(p, n, wx, w);
    assert [n][1..] == [] && Trail(p, [], wx, w1) == Step(w1, []);
  }

  lemma SelectPair(a: Node, b: Node, keep: Node -> bool)
    ensures Select([a, b], keep) == (if keep(a) then [a] else []) + (if keep(b) then [b] else [])
  {
    assert [a, b][1..] == [b] && [b][1..] == [];
    assert Select([b], keep) == if keep(b) then [b] else [];
  }

  /** One server and one agent, recorded at the version of the specification. */
  predicate Pair(c: Cluster, s: Record, server: Node, agent: Node) {
    && Validate(c) == None && s.nodes == c.nodes == [server, agent]
    && server.role == Server && agent.role == Agent && server.address == s.firstServer
        && agent.address != server.address
    && c.version == s.version && c.cni == s.cni && c.disableKubeProxy == s.disableKubeProxy
  }

  lemma PairDelete(s: Record, server: Node, agent: Node, wx: Weather, fleet: map<Address, string>)
    requires s.nodes == [server, agent] && server.role == Server && agent.role == Agent
    requires server.address == s.firstServer
    requires agent.address != server.address && agent.address in fleet && server.address in fleet
    requires var r := wx.reply(RemoveAgents, agent.address); r.find == Answered && r.script && r.landed
    requires var r := wx.reply(RemoveServers, server.address); r.find == Silent && r.present == TimedOut
    ensures
      var r := Delete(wx, Site(Some(s), fleet));
      r.outcome.Raised? && r.site == Site(Some(s), fleet - {agent.address})
  {
    var ps, w := DeletePhases(s), World(s, Some(s), fleet, []);
    PairDeletePhases(s, server, agent);
    RunOneNode(ps[0], agent, wx, w);
    var w1 := RunPhase(ps[0], wx, w).world;
    assert w1.fleet == fleet - {agent.address} && w1.record == s && w1.disk == Some(s);
    RunOneNode(ps[1], server, wx, w1);
    TwoPhases(ps, wx, w);
  }

  lemma TwoPhases(ps: seq<Phase>, wx: Weather, w: World)
    requires |ps| == 2
    requires RunPhase(ps[0], wx, w).failed == [] && RunPhase(ps[1], wx, RunPhase(ps[0], wx, w).world).failed != []
    ensures RunPhases(ps, wx, w) == RunPhase(ps[1], wx, RunPhase(ps[0], wx, w).world)
  {
    assert ps[1..][0] == ps[1];
  }

  lemma PairDeletePhases(s: Record, server: Node, agent: Node)
    requires s.nodes == [server, agent] && server.role == Server && agent.role == Agent
    requires server.address == s.firstServer
    requires agent.address != server.address
    ensures DeletePhases(s)[0].nodes == [agent] && DeletePhases(s)[1].nodes == [server]
  {
    SelectPair(server, agent, (n: Node) => n.role == Agent);
    assert WithRole(s.nodes, Agent) == Select(s.nodes, (n: Node) => n.role == Agent);
    SelectPair(server, agent, (n: Node) => n.role == Server && n.address != s.firstServer);
    assert OtherServers(s.nodes, s.firstServer)
        == Select(s.nodes, (n: Node) => n.role == Server && n.address != s.firstServer);
    SelectPair(server, agent, (n: Node) => n.address == s.firstServer);
    assert At(s.nodes, s.firstServer) == Select(s.nodes, (n: Node) => n.address == s.firstServer);
  }

  lemma NothingToDo(c: Cluster, saved: seq<Node>)
    requires saved == c.nodes
    ensures Added(c, saved) == [] && Removed(c, saved) == []
  {
    assert forall n | n in c.nodes :: n.address in Addresses(c.nodes);
    SelectNone(c.nodes, (n: Node) => n.address !in Addresses(saved));
    assert Added(c, saved) == Select(c.nodes, (n: Node) => n.address !in Addresses(saved));
    SelectNone(saved, (n: Node) => n.address !in Addresses(c.nodes));
    assert Removed(c, saved) == Select(saved, (n: Node) => n.address !in Addresses(c.nodes));
  }

  lemma PairUpdateStep(c: Cluster, s: Record, server: Node, agent: Node, wx: Weather, w: World)
    requires Pair(c, s, server, agent) && wx.reply(LateFetch, server.address).done
    ensures
      var step := RunPhases(UpdatePhases(c, s), wx, w);
      step.failed == [] && step.world.record == w.record && step.world.disk == w.disk && step.world.fleet == w.fleet
  {
    SelectPair(server, agent, (n: Node) => n.address == s.firstServer);
    assert At(c.nodes, s.firstServer) == Select(c.nodes, (n: Node) => n.address == s.firstServer);
    NothingToDo(c, s.nodes);
    EmptyParts(c, s.nodes);
    UpdateInParts(c, s);
    var r, j, f := RemovalPhases(c, s.nodes), JoinPhases(c, s.nodes), FetchPhase(c, s);
    assert UpgradePhases(c, s) + [f] == [f];
    EmptyPhasesFirst(r + j, [f], wx, w);
    RunOneNode(f, server, wx, w);
    assert [f][1..] == [];
  }

  lemma EmptyParts(c: Cluster, saved: seq<Node>)
    requires Added(c, saved) == [] && Removed(c, saved) == []
    ensures forall p | p in RemovalPhases(c, saved) + JoinPhases(c, saved) :: p.nodes == []
  {
  }

  lemma PairUpdate(c: Cluster, s: Record, server: Node, agent: Node, wx: Weather, fleet: map<Address, string>)
    requires Pair(c, s, server, agent) && wx.ready && wx.reply(LateFetch, server.address).done
    ensures
      var r := Update(c, wx, Site(Some(s), fleet));
      r.outcome == Returned && r.site.fleet == fleet && r.site.disk.Some? && r.site.disk.value.nodes == s.nodes
      && r.site.disk.value.version == c.version
  {
    NothingToDo(c, s.nodes);
    assert server in c.nodes;
    PairUpdateStep(c, s, server, agent, wx, World(s, Some(s), fleet, []));
    UpdateShape(c, wx, Site(Some(s), fleet));
  }

  lemma {:induction false} EmptyPhasesFirst(ps: seq<Phase>, qs: seq<Phase>, wx: Weather, w: World)
    requires forall p | p in ps :: p.nodes == []
    ensures RunPhases(ps + qs, wx, w) == RunPhases(qs, wx, w)
    decreases |ps|
  {
    if ps == [] {
      assert ps + qs == qs;
    } else {
      RunEmptyPhase(ps[0], wx, w);
      assert (ps + qs)[0] == ps[0] && (ps + qs)[1..] == ps[1..] + qs;
      assert forall p | p in ps[1..] :: p in ps;
      EmptyPhasesFirst(ps[1..], qs, wx, w);
    }
  }

  /**
   * The guard on runs must cover failed deletes too. Delete tears the agent down, fails on the server
   * and keeps both recorded; the next update at the saved version finds nothing to do and returns
   * normally, although the recorded agent runs nothing.
   */
  lemma FailedDeleteBreaksUniformity(c: Cluster, s: Record, server: Node, agent: Node, torn: Weather, calm: Weather,
                                     fleet: map<Address, string>)
    requires Pair(c, s, server, agent) && fleet == map[server.address := s.version, agent.address := s.version]
    requires var r := torn.reply(RemoveAgents, agent.address); r.find == Answered && r.script && r.landed
    requires var r := torn.reply(RemoveServers, server.address); r.find == Silent && r.present == TimedOut
    requires calm.ready && calm.reply(LateFetch, server.address).done
    ensures
      var site := Site(Some(s), fleet);
      var failed := Delete(torn, site);
      var next := Update(c, calm, failed.site);
      UniformSite(site) && failed.outcome.Raised? && next.outcome == Returned && !UniformSite(next.site)
  {
    PairDelete(s, server, agent, torn, fleet);
    PairUpdate(c, s, server, agent, calm, fleet - {agent.address});
    PairUniform(s, server, agent, fleet);
  }

  lemma PairUniform(s: Record, server: Node, agent: Node, fleet: map<Address, string>)
    requires s.nodes == [server, agent] && fleet == map[server.address := s.version, agent.address := s.version]
    ensures UniformSite(Site(Some(s), fleet))
    ensures forall r: Record | r.nodes == s.nodes :: !UniformSite(Site(Some(r), fleet - {agent.address}))
  {
    assert agent in s.nodes && agent.address in Addresses(s.nodes);
  }
}
