/** The backend as the source writes it: state updated in place, one save after each node. */
module Rke2Backend {
  import opened Collections
  import opened Rke2Spec
  import opened Rke2Reconcile

  /** The in-memory cluster state a call works on. */
  class ClusterState {
    const name: string
    const token: string
    const firstServer: Address
    const cni: string
    const disableKubeProxy: bool
    const createdAt: string
    var version: string
    var kubeconfigPath: Option<string>
    var nodes: seq<Node>

    function Snapshot(): (r: Record)
      reads this
    {
      Record(name, version, token, firstServer, kubeconfigPath, cni, disableKubeProxy, nodes, createdAt)
    }

    constructor (r: Record)
      ensures Snapshot() == r
    {
      name, token, firstServer, cni := r.name, r.token, r.firstServer, r.cni;
      disableKubeProxy, createdAt := r.disableKubeProxy, r.createdAt;
      version, kubeconfigPath, nodes := r.version, r.kubeconfigPath, r.nodes;
    }
  }

  /** The pending nodes, completing as `picks` decide, take `w` and the errors so far to `goal`. */
  ghost predicate Completes(p: Phase, pending: seq<Node>, picks: seq<nat>, wx: Weather, w: World,
                            errors: seq<Address>, goal: Step)
  {
    var s := Trail(p, Arrange(pending, picks), wx, w);
    goal == Step(s.world, errors + s.failed)
  }

  lemma NextCompletion(p: Phase, pending: seq<Node>, picks: seq<nat>, wx: Weather, w: World,
                       errors: seq<Address>, goal: Step)
    requires p.parallel && pending != [] && Completes(p, pending, picks, wx, w, errors, goal)
    ensures
      var i := Pick(picks, |pending|);
      var (w1, ok) := Visit(p, pending[i], wx, w);
      var seen := if ok then errors else errors + [pending[i].address];
      Completes(p, RemoveAt(pending, i), Rest(picks), wx, w1, seen, goal)
  {
    var i := Pick(picks, |pending|);
    var order := Arrange(pending, picks);
    assert order[0] == pending[i] && order[1..] == Arrange(RemoveAt(pending, i), Rest(picks));
    var (w1, ok) := Visit(p, pending[i], wx, w);
    var rest := Trail(p, order[1..], wx, w1);
    assert errors + ([] + rest.failed) == errors + rest.failed;
    assert errors + ([pending[i].address] + rest.failed) == (errors + [pending[i].address]) + rest.failed;
  }

  /** One cluster's state file, its real nodes, and what the latest call has done so far. */
  class Backend {
    var disk: Option<Record>
    var fleet: map<Address, string>
    var log: seq<Event>

    ghost function View(state: ClusterState): (w: World)
      reads this, state
    {
      World(state.Snapshot(), disk, fleet, log)
    }

    ghost function Where(): (site: Site)
      reads this
    {
      Site(disk, fleet)
    }

    constructor (site: Site)
      ensures Where() == site && log == []
    {
      disk, fleet, log := site.disk, site.fleet, [];
    }

    method SaveState(state: ClusterState)
      modifies this
      ensures View(state) == Save(old(View(state)))
    {
      disk := Some(state.Snapshot());
      log := log + [Saved(state.Snapshot())];
    }

    method UpsertNodeInState(state: ClusterState, node: Node)
      modifies this, state
      ensures View(state) == Note(Upsert, node, old(View(state)))
    {
      state.nodes := Without(state.nodes, node.address) + [node];
      SaveState(state);
    }

    method RemoveNodeFromState(state: ClusterState, node: Node)
      modifies this, state
      ensures View(state) == Note(Drop, node, old(View(state)))
    {
      state.nodes := Without(state.nodes, node.address);
      SaveState(state);
    }

    /** The three commands of a teardown, in the order the source issues them. */
    method TeardownNode(a: Address, r: Reply) returns (ok: bool)
      modifies this`fleet
      ensures (fleet, ok) == Perform(Teardown, a, r, old(fleet))
    {
      if r.find == TimedOut { return true; }
      var script := r.find == Answered && r.script;
      if !script {
        if r.present == TimedOut { return false; }
        var stillPresent := r.present == Answered && a in fleet;
        return !stillPresent;
      }
      if r.landed { fleet := fleet - {a}; }
      return true;
    }

    method Work(task: Task, a: Address, r: Reply) returns (ok: bool)
      modifies this`fleet
      ensures (fleet, ok) == Perform(task, a, r, old(fleet))
    {
      match task
      case Teardown => ok := TeardownNode(a, r);
      case Fetch => ok := r.done;
      case Join(v) =>
        if r.done || r.landed { fleet := fleet[a := v]; }
        ok := r.done;
      case Upgrade(v) =>
        if r.done || r.landed { fleet := fleet[a := v]; }
        ok := r.done;
    }

    /** One node of one loop, with the callback that records its success. */
    method VisitNode(p: Phase, n: Node, wx: Weather, state: ClusterState) returns (ok: bool)
      modifies this, state
      ensures (View(state), ok) == Visit(p, n, wx, old(View(state)))
    {
      ok := Work(p.task, n.address, wx.reply(p.stage, n.address));
      log := log + [Attempted(p.stage, p.task, n, ok)];
      if ok {
        match p.change
        case Keep =>
        case Upsert => UpsertNodeInState(state, n);
        case Drop => RemoveNodeFromState(state, n);
      }
    }

    method RunSequential(p: Phase, wx: Weather, state: ClusterState) returns (failed: seq<Address>)
      requires !p.parallel
      modifies this, state
      ensures Step(View(state), failed) == RunPhase(p, wx, old(View(state)))
    {
      failed := [];
      var rest := p.nodes;
      while rest != []
        invariant failed == []
        invariant Trail(p, rest, wx, View(state)) == RunPhase(p, wx, old(View(state)))
        decreases |rest|
      {
        var n := rest[0];
        ghost var before := View(state);
        var ok := VisitNode(p, n, wx, state);
        if !ok { return [n.address]; }
        assert Trail(p, rest, wx, before).failed == [] + Trail(p, rest[1..], wx, View(state)).failed;
        rest := rest[1..];
      }
    }

    /** Collects every failure rather than stopping at the first. */
    method RunParallel(p: Phase, wx: Weather, state: ClusterState) returns (errors: seq<Address>)
      requires p.parallel
      modifies this, state
      ensures Step(View(state), errors) == RunPhase(p, wx, old(View(state)))
    {
      errors := [];
      ghost var goal := RunPhase(p, wx, View(state));
      var pending, picks := p.nodes, wx.picks(p.stage);
      while pending != []
        invariant Completes(p, pending, picks, wx, View(state), errors, goal)
        decreases |pending|
      {
        var i := Pick(picks, |pending|);
        var n := pending[i];
        NextCompletion(p, pending, picks, wx, View(state), errors, goal);
        var ok := VisitNode(p, n, wx, state);
        if !ok { errors := errors + [n.address]; }
        pending, picks := RemoveAt(pending, i), Rest(picks);
      }
    }

    method RunAll(ps: seq<Phase>, wx: Weather, state: ClusterState) returns (failed: seq<Address>)
      modifies this, state
      ensures Step(View(state), failed) == RunPhases(ps, wx, old(View(state)))
    {
      failed := [];
      var rest := ps;
      while rest != []
        invariant failed == []
        invariant RunPhases(rest, wx, View(state)) == RunPhases(ps, wx, old(View(state)))
        decreases |rest|
      {
        if rest[0].parallel {
          failed := RunParallel(rest[0], wx, state);
        } else {
          failed := RunSequential(rest[0], wx, state);
        }
        if failed != [] { return; }
        rest := rest[1..];
      }
    }

    method Create(c: Cluster, minted: string, now: string, wx: Weather) returns (outcome: Outcome)
      modifies this
      ensures Result(Where(), log, outcome) == Rke2Reconcile.Create(c, minted, now, wx, old(Where()))
    {
      log := [];
      var invalid := Validate(c);
      if invalid.Some? { return Raised(Invalid(invalid.value)); }
      if disk.Some? { return Raised(AlreadyExists); }
      if !wx.ready { return Raised(NotReady); }
      var state := new ClusterState(FreshRecord(c, minted, now));
      var failed := RunAll(CreatePhases(c), wx, state);
      if failed != [] { return Raised(NodesFailed(failed)); }
      SaveState(state);
      return Returned;
    }

    /** The fields an update is responsible for, once all its work has succeeded. */
    method SaveVersion(c: Cluster, state: ClusterState)
      modifies this, state
      ensures
        var was := old(View(state));
        View(state) == Save(was.(record := was.record.(version := c.version, kubeconfigPath := c.kubeconfigPath)))
    {
      state.version := c.version;
      state.kubeconfigPath := c.kubeconfigPath;
      SaveState(state);
    }

    method Update(c: Cluster, wx: Weather) returns (outcome: Outcome)
      modifies this
      ensures Result(Where(), log, outcome) == Rke2Reconcile.Update(c, wx, old(Where()))
    {
      log := [];
      var refusal := UpdateRefusal(c, wx, disk);
      if refusal.Some? { return Raised(refusal.value); }
      var state := new ClusterState(disk.value);
      var failed := RunAll(UpdatePhases(c, disk.value), wx, state);
      if failed != [] { return Raised(NodesFailed(failed)); }
      SaveVersion(c, state);
      return Returned;
    }

    method Delete(wx: Weather) returns (outcome: Outcome)
      modifies this
      ensures Result(Where(), log, outcome) == Rke2Reconcile.Delete(wx, old(Where()))
    {
      log := [];
      if disk.None? { return Raised(NoState); }
      var state := new ClusterState(disk.value);
      var failed := RunAll(DeletePhases(disk.value), wx, state);
      if failed != [] { return Raised(NodesFailed(failed)); }
      disk := None;
      log := log + [Erased];
      return Returned;
    }
  }
}
