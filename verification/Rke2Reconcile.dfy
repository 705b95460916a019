/**
 * What create, update and delete of an RKE2 cluster do, as functions of the saved record, the real
 * nodes, and the environment: which command fails where, and in which order parallel work completes
 * (multistack/backends/rke2_client.py over multistack/backends/transport.py).
 */
module Rke2Reconcile {
  import opened Collections
  import opened Rke2Spec

  /** The saved record of one cluster (ClusterState). */
  datatype Record = Record(name: string, version: string, token: string, firstServer: Address,
                           kubeconfigPath: Option<string>, cni: string, disableKubeProxy: bool,
                           nodes: seq<Node>, createdAt: string)

  /** How a remote command whose exit status is ignored can end; an unreachable host is `Silent`. */
  datatype Probe = Answered | Silent | TimedOut

  /**
   * What one node answers during one stage. `done`: the work reported success. `landed`: a failed
   * install, or the uninstall script, took effect anyway. The rest is for teardown: the search for
   * an uninstall script, whether one exists, and the check for a remaining installation.
   */
  datatype Reply = Reply(done: bool, landed: bool, find: Probe, script: bool, present: Probe)

  datatype Stage =
    Bootstrap | EarlyFetch | JoinServers | JoinAgents | LateFetch
  | RemoveServers | RemoveAgents | UpgradeAgents | UpgradeServers

  /** The environment of one call. `ready`: the prerequisite checks pass. */
  datatype Weather = Weather(ready: bool, reply: (Stage, Address) -> Reply, picks: Stage -> seq<nat>)

  datatype Task = Join(version: string) | Upgrade(version: string) | Teardown | Fetch

  /** What a successful task does to the record. */
  datatype Change = Upsert | Drop | Keep

  /** One loop over nodes: in sequence, stopping at the first failure, or in parallel. */
  datatype Phase = Phase(stage: Stage, task: Task, change: Change, nodes: seq<Node>, parallel: bool)

  datatype Event = Attempted(stage: Stage, task: Task, node: Node, ok: bool) | Saved(record: Record) | Erased

  /** `record` is the in-memory state of the call, `disk` the state file, `fleet` what really runs where. */
  datatype World = World(record: Record, disk: Option<Record>, fleet: map<Address, string>, log: seq<Event>)

  /** A world and the addresses whose work raised; none means the phase returned normally. */
  datatype Step = Step(world: World, failed: seq<Address>)

  function Without(nodes: seq<Node>, a: Address): (r: seq<Node>)
    ensures forall n :: n in r <==> n in nodes && n.address != a
    ensures Addresses(r) == Addresses(nodes) - {a}
  {
    Select(nodes, (n: Node) => n.address != a)
  }

  function Save(w: World): (r: World) {
    w.(disk := Some(w.record), log := w.log + [Saved(w.record)])
  }

  function Note(change: Change, n: Node, w: World): (r: World) {
    match change
    case Keep => w
    case Upsert => Save(w.(record := w.record.(nodes := Without(w.record.nodes, n.address) + [n])))
    case Drop => Save(w.(record := w.record.(nodes := Without(w.record.nodes, n.address))))
  }

  /** Whether tearing down a node raises, given whether RKE2 is installed on it. */
  predicate TeardownRaises(r: Reply, installed: bool) {
    && !r.find.TimedOut?
    && !(r.find.Answered? && r.script)
    && (r.present.TimedOut? || (r.present.Answered? && installed))
  }

  /** The effect of one task on the fleet, and whether it returned normally. */
  function Perform(task: Task, a: Address, r: Reply, fleet: map<Address, string>): (res: (map<Address, string>, bool)) {
    match task
    case Join(v) => (if r.done || r.landed then fleet[a := v] else fleet, r.done)
    case Upgrade(v) => (if r.done || r.landed then fleet[a := v] else fleet, r.done)
    case Fetch => (fleet, r.done)
    case Teardown =>
      if r.find.Answered? && r.script then (if r.landed then fleet - {a} else fleet, true)
      else (fleet, !TeardownRaises(r, a in fleet))
  }

  function Visit(p: Phase, n: Node, wx: Weather, w: World): (res: (World, bool)) {
    var (fleet, ok) := Perform(p.task, n.address, wx.reply(p.stage, n.address), w.fleet);
    var w1 := w.(fleet := fleet, log := w.log + [Attempted(p.stage, p.task, n, ok)]);
    (if ok then Note(p.change, n, w1) else w1, ok)
  }

  /** Visit nodes in the given order; a sequential phase stops at the first failure. */
  function Trail(p: Phase, order: seq<Node>, wx: Weather, w: World): (r: Step)
    decreases |order|
  {
    if order == [] then Step(w, [])
    else
      var (w1, ok) := Visit(p, order[0], wx, w);
      if !ok && !p.parallel then Step(w1, [order[0].address])
      else
        var rest := Trail(p, order[1..], wx, w1);
        Step(rest.world, (if ok then [] else [order[0].address]) + rest.failed)
  }

  function Order(p: Phase, wx: Weather): (r: seq<Node>) {
    if p.parallel then Arrange(p.nodes, wx.picks(p.stage)) else p.nodes
  }

  function RunPhase(p: Phase, wx: Weather, w: World): (r: Step) {
    Trail(p, Order(p, wx), wx, w)
  }

  /** Phases one after the other; a phase that raises ends the call. */
  function RunPhases(ps: seq<Phase>, wx: Weather, w: World): (r: Step)
    decreases |ps|
  {
    if ps == [] then Step(w, [])
    else
      var s := RunPhase(ps[0], wx, w);
      if s.failed != [] then s else RunPhases(ps[1..], wx, s.world)
  }

  /*** create ***/

  datatype Error =
    Invalid(why: SpecError) | AlreadyExists | NoState | FirstServerMissing | CniChanged | KubeProxyChanged
  | NotReady | NodesFailed(addresses: seq<Address>)

  datatype Outcome = Returned | Raised(error: Error)

  /** What survives between calls: the state file and the real nodes. */
  datatype Site = Site(disk: Option<Record>, fleet: map<Address, string>)

  datatype Result = Result(site: Site, log: seq<Event>, outcome: Outcome)

  function Refuse(site: Site, e: Error): (r: Result) {
    Result(site, [], Raised(e))
  }

  function Ended(s: Step, e: Error): (r: Result) {
    Result(Site(s.world.disk, s.world.fleet), s.world.log, Raised(e))
  }

  function Finished(w: World): (r: Result) {
    Result(Site(w.disk, w.fleet), w.log, Returned)
  }

  function TokenFor(c: Cluster, minted: string): (r: string) {
    if c.token.Some? && c.token.value != "" then c.token.value else minted
  }

  function FreshRecord(c: Cluster, minted: string, now: string): (r: Record)
    requires Validate(c) == None
  {
    Record(c.name, c.version, TokenFor(c, minted), FirstServer(c).address, c.kubeconfigPath, c.cni,
           c.disableKubeProxy, [], now)
  }

  function CreatePhases(c: Cluster): (ps: seq<Phase>)
    requires Validate(c) == None
  {
    var servers := WithRole(c.nodes, Server);
    [ Phase(Bootstrap, Join(c.version), Upsert, servers[..1], false),
      Phase(EarlyFetch, Fetch, Keep, servers[..1], false),
      Phase(JoinServers, Join(c.version), Upsert, servers[1..], false),
      Phase(JoinAgents, Join(c.version), Upsert, WithRole(c.nodes, Agent), true),
      Phase(LateFetch, Fetch, Keep, servers[..1], false) ]
  }

  function Create(c: Cluster, minted: string, now: string, wx: Weather, site: Site): (r: Result) {
    if Validate(c).Some? then Refuse(site, Invalid(Validate(c).value))
    else if site.disk.Some? then Refuse(site, AlreadyExists)
    else if !wx.ready then Refuse(site, NotReady)
    else
      var s := RunPhases(CreatePhases(c), wx, World(FreshRecord(c, minted, now), None, site.fleet, []));
      if s.failed != [] then Ended(s, NodesFailed(s.failed)) else Finished(Save(s.world))
  }

  /*** update ***/

  function Added(c: Cluster, saved: seq<Node>): (r: seq<Node>)
    ensures forall n :: n in r <==> n in c.nodes && n.address !in Addresses(saved)
  {
    Select(c.nodes, (n: Node) => n.address !in Addresses(saved))
  }

  function Kept(c: Cluster, saved: seq<Node>): (r: seq<Node>)
    ensures forall n :: n in r <==> n in c.nodes && n.address in Addresses(saved)
  {
    Select(c.nodes, (n: Node) => n.address in Addresses(saved))
  }

  function Removed(c: Cluster, saved: seq<Node>): (r: seq<Node>)
    ensures forall n :: n in r <==> n in saved && n.address !in Addresses(c.nodes)
  {
    Select(saved, (n: Node) => n.address !in Addresses(c.nodes))
  }

  function At(nodes: seq<Node>, a: Address): (r: seq<Node>)
    ensures forall n :: n in r <==> n in nodes && n.address == a
  {
    Select(nodes, (n: Node) => n.address == a)
  }

  function OtherServers(nodes: seq<Node>, first: Address): (r: seq<Node>)
    ensures forall n :: n in r <==> n in nodes && n.role == Server && n.address != first
  {
    Select(nodes, (n: Node) => n.role == Server && n.address != first)
  }

  function RemovalPhases(c: Cluster, saved: seq<Node>): (ps: seq<Phase>) {
    var removed := Removed(c, saved);
    [ Phase(RemoveServers, Teardown, Drop, WithRole(removed, Server), false),
      Phase(RemoveAgents, Teardown, Drop, WithRole(removed, Agent), true) ]
  }

  function JoinPhases(c: Cluster, saved: seq<Node>): (ps: seq<Phase>) {
    var added := Added(c, saved);
    [ Phase(JoinServers, Join(c.version), Upsert, WithRole(added, Server), false),
      Phase(JoinAgents, Join(c.version), Upsert, WithRole(added, Agent), true) ]
  }

  function UpgradePhases(c: Cluster, s: Record): (ps: seq<Phase>) {
    if c.version == s.version then []
    else
      var kept := Kept(c, s.nodes);
      [ Phase(UpgradeAgents, Upgrade(c.version), Keep, WithRole(kept, Agent), true),
        Phase(UpgradeServers, Upgrade(c.version), Keep,
              OtherServers(kept, s.firstServer) + At(kept, s.firstServer), false) ]
  }

  function FetchPhase(c: Cluster, s: Record): (p: Phase) {
    Phase(LateFetch, Fetch, Keep, At(c.nodes, s.firstServer), false)
  }

  function UpdatePhases(c: Cluster, s: Record): (ps: seq<Phase>) {
    RemovalPhases(c, s.nodes) + JoinPhases(c, s.nodes) + UpgradePhases(c, s) + [FetchPhase(c, s)]
  }

  /** Why `update` turns a request down before touching any node, if it does. */
  function UpdateRefusal(c: Cluster, wx: Weather, disk: Option<Record>): (r: Option<Error>) {
    if Validate(c).Some? then Some(Invalid(Validate(c).value))
    else if disk.None? then Some(NoState)
    else if disk.value.firstServer !in Addresses(c.nodes) then Some(FirstServerMissing)
    else if c.cni != disk.value.cni then Some(CniChanged)
    else if c.disableKubeProxy != disk.value.disableKubeProxy then Some(KubeProxyChanged)
    else if Added(c, disk.value.nodes) != [] && !wx.ready then Some(NotReady)
    else None
  }

  function Update(c: Cluster, wx: Weather, site: Site): (r: Result) {
    var refusal := UpdateRefusal(c, wx, site.disk);
    if refusal.Some? then Refuse(site, refusal.value)
    else
      var saved := site.disk.value;
      var s := RunPhases(UpdatePhases(c, saved), wx, World(saved, site.disk, site.fleet, []));
      if s.failed != [] then Ended(s, NodesFailed(s.failed))
      else
        Finished(Save(s.world.(record := s.world.record.(version := c.version, kubeconfigPath := c.kubeconfigPath))))
  }

  /*** delete ***/

  function DeletePhases(s: Record): (ps: seq<Phase>) {
    [ Phase(RemoveAgents, Teardown, Keep, WithRole(s.nodes, Agent), true),
      Phase(RemoveServers, Teardown, Keep,
            OtherServers(s.nodes, s.firstServer) + At(s.nodes, s.firstServer), false) ]
  }

  function Delete(wx: Weather, site: Site): (r: Result) {
    if site.disk.None? then Refuse(site, NoState)
    else
      var s := RunPhases(DeletePhases(site.disk.value), wx, World(site.disk.value, site.disk, site.fleet, []));
      if s.failed != [] then Ended(s, NodesFailed(s.failed))
      else Finished(s.world.(disk := None, log := s.world.log + [Erased]))
  }

  /*** runs ***/

  datatype Call =
    | CreateCall(cluster: Cluster, minted: string, now: string, wx: Weather)
    | UpdateCall(cluster: Cluster, wx: Weather)
    | DeleteCall(wx: Weather)

  function Apply(call: Call, site: Site): (r: Result) {
    match call
    case CreateCall(c, minted, now, wx) => Create(c, minted, now, wx, site)
    case UpdateCall(c, wx) => Update(c, wx, site)
    case DeleteCall(wx) => Delete(wx, site)
  }

  /** The site after a sequence of calls, each possibly failing part-way. */
  function Run(calls: seq<Call>, site: Site): (r: Site)
    decreases |calls|
  {
    if calls == [] then site else Run(calls[1..], Apply(calls[0], site).site)
  }
}
