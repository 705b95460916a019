/** The path-MTU search and the pod-network MTU advice derived from it. */
module PathMtu {
  import opened Collections
  import opened Rke2Spec

  const VXLAN_CNIS: set<string> := {"cilium", "canal", "flannel"}
  const VXLAN_OVERHEAD_BYTES := 50
  const ICMP_HEADER_BYTES := 28
  const DEFAULT_POD_MTU := 1450

  /** `replies(k, size)`: whether the k-th ping, if it has that size, is answered. */
  type Pings = (nat, nat) -> bool

  /** Survival depends on the size alone, and smaller packets survive where larger ones do. */
  ghost predicate DownwardClosed(replies: Pings) {
    && (forall j, k, size :: replies(j, size) == replies(k, size))
    && (forall k, small, large :: small <= large && replies(k, large) ==> replies(k, small))
  }

  function Pow2(k: nat): (r: nat)
    ensures r > 0
  {
    if k == 0 then 1 else 2 * Pow2(k - 1)
  }

  /**
   * At most ten pings. Any non-zero result is a size in range that one of them carried; when survival
   * is downward closed it is the largest surviving size, and zero means that not even 576 survives.
   */
  method MeasureLargestPacket(replies: Pings) returns (best: nat, pings: nat)
    ensures pings <= 10
    ensures best != 0 ==> 576 <= best <= 1472 && exists k :: 0 <= k < pings && replies(k, best)
    ensures DownwardClosed(replies) ==>
              forall size | 576 <= size <= 1472 :: replies(0, size) <==> size <= best
  {
    var lo, hi := 576, 1472;
    best, pings := 0, 0;
    assert Pow2(10) == 1024 by { assert Pow2(5) == 32; }
    while lo <= hi
      invariant 576 <= lo && lo - 1 <= hi <= 1472
      invariant pings <= 10 && hi - lo + 1 < Pow2(10 - pings)
      invariant best != 0 ==> best == lo - 1 && 576 <= best <= 1472 && exists k :: 0 <= k < pings && replies(k, best)
      invariant best == 0 ==> lo == 576
      invariant DownwardClosed(replies) ==> forall size | hi < size <= 1472 :: !replies(0, size)
      decreases hi - lo
    {
      var mid := (lo + hi) / 2;
      assert Pow2(10 - pings) == 2 * Pow2(9 - pings);
      if replies(pings, mid) {
        best, lo := mid, mid + 1;
      } else {
        assert DownwardClosed(replies) ==> forall size :: replies(0, size) == replies(pings, size);
        hi := mid - 1;
      }
      pings := pings + 1;
    }
    if DownwardClosed(replies) && best != 0 {
      assert replies(0, best);
    }
  }

  function PathMtuOf(best: nat): (r: Option<nat>) {
    if best == 0 then None else Some(best + ICMP_HEADER_BYTES)
  }

  datatype Warning = Unmeasured(node: nat) | TooSmall(node: nat, suggested: int)

  /** What the check says about one node whose largest surviving payload is `best`. */
  function Judge(node: nat, best: nat, intended: int): (r: Option<Warning>) {
    match PathMtuOf(best)
    case None => Some(Unmeasured(node))
    case Some(mtu) =>
      var usable := mtu - VXLAN_OVERHEAD_BYTES;
      if intended > usable then Some(TooSmall(node, usable - 28)) else None
  }

  function Intended(ciliumMtu: Option<int>): (r: int) {
    if ciliumMtu.Some? then ciliumMtu.value else DEFAULT_POD_MTU
  }

  /** `bests[i]` is the largest payload node i + 1 got through to the first node. */
  method CheckPodNetworkMtu(cni: string, ciliumMtu: Option<int>, bests: seq<nat>) returns (warnings: seq<Warning>)
    ensures cni !in VXLAN_CNIS ==> warnings == []
    ensures cni in VXLAN_CNIS ==>
              forall w ::
                w in warnings
                <==> exists i :: 0 <= i < |bests| && Judge(i, bests[i], Intended(ciliumMtu)) == Some(w)
    ensures |warnings| <= |bests|
  {
    warnings := [];
    if cni !in VXLAN_CNIS { return; }
    for n := 0 to |bests|
      invariant |warnings| <= n
      invariant forall w ::
                  w in warnings <==> exists i :: 0 <= i < n && Judge(i, bests[i], Intended(ciliumMtu)) == Some(w)
    {
      var verdict := Judge(n, bests[n], Intended(ciliumMtu));
      if verdict.Some? { warnings := warnings + [verdict.value]; }
    }
  }

  predicate Mismatched(node: nat, best: nat, intended: int) {
    Judge(node, best, intended).Some? && Judge(node, best, intended).value.TooSmall?
  }

  /** The payload of a mismatched node that no other mismatched node undercuts. */
  predicate LeastMismatched(bests: seq<nat>, intended: int, i: nat) {
    && i < |bests| && Mismatched(i, bests[i], intended)
    && forall j | 0 <= j < |bests| && Mismatched(j, bests[j], intended) :: bests[i] <= bests[j]
  }

  /**
   * Setting `cilium_mtu` to the least suggested value clears every mismatch warning, of the nodes
   * that were warned about and of all others.
   */
  lemma LeastSuggestionClears(bests: seq<nat>, ciliumMtu: Option<int>, i: nat)
    requires LeastMismatched(bests, Intended(ciliumMtu), i)
    ensures
      var suggested := Judge(i, bests[i], Intended(ciliumMtu)).value.suggested;
      forall j | 0 <= j < |bests| :: !Mismatched(j, bests[j], Intended(Some(suggested)))
  {
    var suggested := Judge(i, bests[i], Intended(ciliumMtu)).value.suggested;
    forall j | 0 <= j < |bests| ensures !Mismatched(j, bests[j], Intended(Some(suggested))) {
      if bests[j] != 0 && !Mismatched(j, bests[j], Intended(ciliumMtu)) {
        assert Intended(ciliumMtu) <= bests[j] + ICMP_HEADER_BYTES - VXLAN_OVERHEAD_BYTES;
      }
    }
  }

  /**
   * An otherwise valid specification accepts the least suggested value exactly when its CNI is Cilium
   * and the least measured payload among the warned nodes is at least 626.
   */
  lemma SuggestionAcceptedIff(c: Cluster, bests: seq<nat>, i: nat)
    requires Validate(c) == None && LeastMismatched(bests, Intended(c.ciliumMtu), i) && bests[i] <= 1472
    ensures
      var suggested := Judge(i, bests[i], Intended(c.ciliumMtu)).value.suggested;
      Validate(c.(ciliumMtu := Some(suggested))) == None <==> c.cni == "cilium" && bests[i] >= 626
  {
  }
}
