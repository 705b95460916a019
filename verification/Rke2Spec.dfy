/** The declarative cluster specification and the checks it must pass (multistack/core/rke2.py). */
module Rke2Spec {
  import opened Collections

  type Address = string

  datatype Role = Server | Agent | Other(text: string)

  datatype Node = Node(address: Address, role: Role)

  datatype Cluster = Cluster(name: string, version: string, nodes: seq<Node>, token: Option<string>,
                             kubeconfigPath: Option<string>, cni: string, disableKubeProxy: bool,
                             ciliumMtu: Option<int>)

  datatype SpecError =
    NoNodes | NoServer | BadRole | BadCni | KubeProxyNeedsCilium | MtuNeedsCilium | MtuOutOfRange | DuplicateAddress

  const SUPPORTED_CNI: set<string> := {"canal", "cilium", "calico", "flannel", "none"}

  function Addresses(nodes: seq<Node>): (r: set<Address>) {
    set n | n in nodes :: n.address
  }

  predicate Distinct(nodes: seq<Node>) {
    forall i, j | 0 <= i < j < |nodes| :: nodes[i].address != nodes[j].address
  }

  predicate RolesKnown(nodes: seq<Node>) {
    forall n | n in nodes :: n.role == Server || n.role == Agent
  }

  function WithRole(nodes: seq<Node>, role: Role): (r: seq<Node>)
    ensures forall n :: n in r <==> n in nodes && n.role == role
  {
    Select(nodes, (n: Node) => n.role == role)
  }

  /** The first problem found, in the order the specification checks them. */
  function Validate(c: Cluster): (r: Option<SpecError>) {
    if c.nodes == [] then Some(NoNodes)
    else if WithRole(c.nodes, Server) == [] then Some(NoServer)
    else if !RolesKnown(c.nodes) then Some(BadRole)
    else if c.cni !in SUPPORTED_CNI then Some(BadCni)
    else if c.disableKubeProxy && c.cni != "cilium" then Some(KubeProxyNeedsCilium)
    else if c.ciliumMtu.Some? && c.cni != "cilium" then Some(MtuNeedsCilium)
    else if c.ciliumMtu.Some? && !(576 <= c.ciliumMtu.value <= 9000) then Some(MtuOutOfRange)
    else if !Distinct(c.nodes) then Some(DuplicateAddress)
    else None
  }

  /** No server comes before position `i`. */
  predicate EarliestServer(nodes: seq<Node>, i: nat) {
    i < |nodes| && nodes[i].role == Server && forall j | 0 <= j < i :: nodes[j].role != Server
  }

  lemma FirstIsEarliest(nodes: seq<Node>)
    requires WithRole(nodes, Server) != []
    ensures exists i: nat :: EarliestServer(nodes, i) && nodes[i] == WithRole(nodes, Server)[0]
  {
    assert WithRole(nodes, Server) == Select(nodes, (n: Node) => n.role == Server);
    var i := SelectFirst(nodes, (n: Node) => n.role == Server);
    assert EarliestServer(nodes, i);
  }

  /** The node the cluster is bootstrapped from. */
  function FirstServer(c: Cluster): (r: Node)
    requires Validate(c) == None
    ensures r in c.nodes && r.role == Server
    ensures exists i: nat :: EarliestServer(c.nodes, i) && c.nodes[i] == r
  {
    FirstIsEarliest(c.nodes);
    WithRole(c.nodes, Server)[0]
  }

  lemma DistinctTail(nodes: seq<Node>)
    requires Distinct(nodes) && nodes != []
    ensures Distinct(nodes[1..]) && nodes[0].address !in Addresses(nodes[1..])
    ensures Addresses(nodes) == {nodes[0].address} + Addresses(nodes[1..])
  {
    assert nodes == [nodes[0]] + nodes[1..];
    forall m | m in nodes[1..] ensures m.address != nodes[0].address {
      var j :| 0 <= j < |nodes[1..]| && nodes[1..][j] == m;
      assert nodes[j + 1] == m;
    }
    forall i, j | 0 <= i < j < |nodes[1..]| ensures nodes[1..][i].address != nodes[1..][j].address {
      assert nodes[1..][i] == nodes[i + 1] && nodes[1..][j] == nodes[j + 1];
    }
  }

  lemma {:induction false} SelectDistinct(nodes: seq<Node>, keep: Node -> bool)
    requires Distinct(nodes)
    ensures Distinct(Select(nodes, keep))
  {
    if nodes != [] {
      DistinctTail(nodes);
      SelectDistinct(nodes[1..], keep);
    }
  }

  lemma PermutedDistinct(nodes: seq<Node>, order: seq<Node>)
    requires Distinct(nodes) && multiset(order) == multiset(nodes)
    ensures Distinct(order) && Addresses(order) == Addresses(nodes)
  {
    SameMembers(order, nodes);
    forall i, j | 0 <= i < j < |order| ensures order[i].address != order[j].address {
      if order[i].address == order[j].address {
        SameAddressSameNode(nodes, order[i], order[j]);
        TwiceIn(order, i, j);
        OnceIn(nodes, order[i]);
      }
    }
  }

  lemma SameAddressSameNode(nodes: seq<Node>, a: Node, b: Node)
    requires Distinct(nodes) && a in nodes && b in nodes && a.address == b.address
    ensures a == b
  {
    var i :| 0 <= i < |nodes| && nodes[i] == a;
    var j :| 0 <= j < |nodes| && nodes[j] == b;
  }

  lemma TwiceIn(order: seq<Node>, i: nat, j: nat)
    requires i < j < |order| && order[i] == order[j]
    ensures multiset(order)[order[i]] >= 2
  {
    assert order == order[..i] + [order[i]] + order[i + 1..j] + [order[j]] + order[j + 1..];
  }

  lemma {:induction false} OnceIn(nodes: seq<Node>, n: Node)
    requires Distinct(nodes)
    ensures multiset(nodes)[n] <= 1
  {
    if nodes != [] {
      assert nodes == [nodes[0]] + nodes[1..];
      OnceIn(nodes[1..], n);
      assert nodes[0] !in multiset(nodes[1..]);
    }
  }
}
