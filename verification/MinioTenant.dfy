/**
 * The MinIO tenant (multistack/backends/minio_client.py): creation that adopts a live tenant's
 * credentials, resizing that checks every volume before it changes one, and deletion.
 */
module MinioTenant {
  import opened Collections
  import Quantity
  import StateStore

  datatype Credentials = Credentials(user: string, password: string)

  /** A release is pending when a Helm change to it was interrupted. */
  datatype ReleaseStatus = Deployed | InFailedState | Pending

  /** `secret`: the root credentials the release's secret holds, if it holds a pair. */
  datatype Release = Release(status: ReleaseStatus, secret: Option<Credentials>)

  /** A change asked of Helm. */
  datatype HelmChange = InstallOperator | Uninstall | Deploy(credentials: Credentials)

  /** `size` is empty for a claim that lists no requested size. */
  datatype Pvc = Pvc(name: string, size: string)

  /** What is on the cluster, and every Helm change asked for so far. */
  datatype Site = Site(release: Option<Release>, policy: bool, pvcs: seq<Pvc>, changes: seq<HelmChange>)

  /** A step that may fail, with or without having taken effect. */
  datatype Step = Done | Failed(landed: bool)

  predicate Lands(s: Step) {
    s.Done? || s.landed
  }

  /*** create ***/

  datatype Kept = OldSecret | NewSecret | NoSecret

  /** What a failed install or upgrade leaves: what was there, nothing, or a release in some state. */
  datatype Left = AsBefore | Absent | Remains(status: ReleaseStatus, kept: Kept)

  datatype Install = Installed | InstallFailed(left: Left)

  datatype Operator = Present | Missing(install: Step) | Unknown

  /** The caller's choices: whether to install the operator, restrict ingress, and wait. */
  datatype Wishes = Wishes(operator: bool, restricted: bool, wait: bool)

  /** How each step of one `create` goes, and the credentials it would mint. */
  datatype Fates = Fates(
    prerequisites: bool, found: bool, readable: bool, mint: Credentials,
    operator: Operator, foundAgain: bool, uninstall: Step, install: Install, policy: Step, ready: bool)

  datatype Outcome = Returned(credentials: Credentials) | Unreadable | Raised

  datatype Choice = Use(credentials: Credentials) | CannotRead | Blocked

  /** The credentials to deploy with: the spec's, else a live tenant's, else minted ones. */
  function Choose(given: Option<Credentials>, site: Site, f: Fates): (c: Choice) {
    if !f.prerequisites then Blocked
    else if given.Some? then Use(given.value)
    else if !f.found then Blocked
    else if site.release.None? then Use(f.mint)
    else if f.readable && site.release.value.secret.Some? then Use(site.release.value.secret.value)
    else CannotRead
  }

  function Log(site: Site, change: HelmChange): Site {
    site.(changes := site.changes + [change])
  }

  function SecretLeft(kept: Kept, release: Option<Release>, c: Credentials): Option<Credentials> {
    match kept
    case OldSecret => if release.Some? then release.value.secret else None
    case NewSecret => Some(c)
    case NoSecret => None
  }

  function InstallOrUpgrade(c: Credentials, site: Site, install: Install): (r: (Site, bool)) {
    var asked := Log(site, Deploy(c));
    match install
    case Installed => (asked.(release := Some(Release(Deployed, Some(c)))), true)
    case InstallFailed(AsBefore) => (asked, false)
    case InstallFailed(Absent) => (asked.(release := None), false)
    case InstallFailed(Remains(status, kept)) =>
      (asked.(release := Some(Release(status, SecretLeft(kept, site.release, c)))), false)
  }

  /** Uninstalling takes the release's secret with it. */
  function UninstallRelease(site: Site, uninstall: Step): (r: (Site, bool)) {
    var asked := Log(site, Uninstall);
    (if Lands(uninstall) then asked.(release := None) else asked, uninstall.Done?)
  }

  /** `_deploy_tenant`: Helm refuses to upgrade over a failed release, so that is cleared first. */
  function DeployTenant(c: Credentials, site: Site, f: Fates): (r: (Site, bool)) {
    if !f.foundAgain then (site, false)
    else if site.release.Some? && site.release.value.status == InFailedState then
      var (cleared, ok) := UninstallRelease(site, f.uninstall);
      if ok then InstallOrUpgrade(c, cleared, f.install) else (cleared, false)
    else InstallOrUpgrade(c, site, f.install)
  }

  function EnsureOperator(site: Site, operator: Operator): (r: (Site, bool)) {
    match operator
    case Present => (site, true)
    case Unknown => (site, false)
    case Missing(install) => (Log(site, InstallOperator), install.Done?)
  }

  /** What follows the deployment: the network policy, and waiting for the pods. */
  function Finish(c: Credentials, wishes: Wishes, site: Site, f: Fates): (r: (Site, Outcome)) {
    var site1 := if wishes.restricted && Lands(f.policy) then site.(policy := true) else site;
    if (wishes.restricted && !f.policy.Done?) || (wishes.wait && !f.ready) then (site1, Raised)
    else (site1, Returned(c))
  }

  /** `create` once the credentials are settled. */
  function Provision(c: Credentials, wishes: Wishes, site: Site, f: Fates): (r: (Site, Outcome)) {
    var (site1, ok1) := if wishes.operator then EnsureOperator(site, f.operator) else (site, true);
    if !ok1 then (site1, Raised)
    else
      var (site2, ok2) := DeployTenant(c, site1, f);
      if ok2 then Finish(c, wishes, site2, f) else (site2, Raised)
  }

  /** One `create`; the middle result is what the spec object holds afterwards. */
  function Create(given: Option<Credentials>, wishes: Wishes, site: Site, f: Fates)
    : (r: (Site, Option<Credentials>, Outcome))
  {
    match Choose(given, site, f)
    case Blocked => (site, given, Raised)
    case CannotRead => (site, given, Unreadable)
    case Use(c) =>
      var (after, o) := Provision(c, wishes, site, f);
      (after, Some(c), o)
  }

  /*** resize ***/

  /** Error kinds, as the recorder tells them apart. */
  const KUBE: nat := 0
  const STORAGE: nat := 1
  const VALUE: nat := 2

  datatype Resized = Grown(names: seq<string>) | Error(kind: nat)

  predicate Listed(p: Pvc) {
    p.size != ""
  }

  function Sizes(pvcs: seq<Pvc>): (r: seq<Pvc>)
    ensures forall p :: p in r <==> p in pvcs && Listed(p)
  {
    Select(pvcs, p => Listed(p))
  }

  function Names(pvcs: seq<Pvc>): (r: seq<string>)
    ensures |r| == |pvcs| && forall i | 0 <= i < |r| :: r[i] == pvcs[i].name
  {
    seq(|pvcs|, i requires 0 <= i < |pvcs| => pvcs[i].name)
  }

  /** The claims' sizes in bytes, where they can be read. */
  function Bytes(sizes: seq<Pvc>): (r: seq<Option<nat>>)
    ensures |r| == |sizes| && forall i | 0 <= i < |r| :: r[i] == Quantity.Parse(sizes[i].size)
  {
    seq(|sizes|, i requires 0 <= i < |sizes| => Quantity.Parse(sizes[i].size))
  }

  /** The first claim that cannot be resized to `target` bytes, as the error it gives. */
  function Obstacle(bytes: seq<Option<nat>>, target: nat): (r: Option<nat>) {
    if bytes == [] then None
    else if bytes[0].None? then Some(VALUE)
    else if bytes[0].value > target then Some(STORAGE)
    else Obstacle(bytes[1..], target)
  }

  /** Patches the listed claims from position `i` on, until one fails. */
  function PatchFrom(pvcs: seq<Pvc>, i: nat, newSize: string, patch: nat -> Step): (r: (seq<Pvc>, bool))
    requires i <= |pvcs|
    decreases |pvcs| - i
  {
    if i == |pvcs| then (pvcs, true)
    else if !Listed(pvcs[i]) then PatchFrom(pvcs, i + 1, newSize, patch)
    else
      var after := if Lands(patch(i)) then pvcs[i := pvcs[i].(size := newSize)] else pvcs;
      if patch(i).Done? then PatchFrom(after, i + 1, newSize, patch) else (after, false)
  }

  /** `resize_storage`: the claims, the spec's volume size, and the result. */
  function Resize(pvcs: seq<Pvc>, volumeSize: string, newSize: string, listed: bool, patch: nat -> Step)
    : (r: (seq<Pvc>, string, Resized))
  {
    var target := Quantity.Parse(newSize);
    if !listed then (pvcs, volumeSize, Error(KUBE))
    else if Sizes(pvcs) == [] then (pvcs, volumeSize, Error(STORAGE))
    else if target.None? then (pvcs, volumeSize, Error(VALUE))
    else if Obstacle(Bytes(Sizes(pvcs)), target.value).Some? then
      (pvcs, volumeSize, Error(Obstacle(Bytes(Sizes(pvcs)), target.value).value))
    else
      var (after, ok) := PatchFrom(pvcs, 0, newSize, patch);
      if ok then (after, newSize, Grown(Sorted(Names(Sizes(pvcs))))) else (after, volumeSize, Error(KUBE))
  }

  /*** delete ***/

  datatype Removal = Removal(found: bool, uninstall: Step, policy: Step, listed: bool, remove: nat -> Step)

  /** Deletes claims from the first on, until one fails; `k` counts those already deleted. */
  function RemoveFrom(pvcs: seq<Pvc>, k: nat, remove: nat -> Step): (r: (seq<Pvc>, bool)) {
    if pvcs == [] then (pvcs, true)
    else
      var after := if Lands(remove(k)) then pvcs[1..] else pvcs;
      if remove(k).Done? then RemoveFrom(after, k + 1, remove) else (after, false)
  }

  function DeletePvcs(pvcs: seq<Pvc>, f: Removal): (r: (seq<Pvc>, bool)) {
    if f.listed then RemoveFrom(pvcs, 0, f.remove) else (pvcs, false)
  }

  /** Release and network policy: what `delete` removes before it comes to the claims. */
  function DeleteRelease(site: Site, f: Removal): (r: (Site, bool)) {
    if !f.found then (site, false)
    else
      var (site1, ok) := if site.release.Some? then UninstallRelease(site, f.uninstall) else (site, true);
      if !ok then (site1, false)
      else (if Lands(f.policy) then site1.(policy := false) else site1, f.policy.Done?)
  }

  function Delete(site: Site, deletePvcs: bool, f: Removal): (r: (Site, bool)) {
    var (site1, ok) := DeleteRelease(site, f);
    if !ok || !deletePvcs then (site1, ok)
    else
      var (pvcs, removed) := DeletePvcs(site1.pvcs, f);
      (site1.(pvcs := pvcs), removed)
  }

  /*** as the recorder sees them ***/

  function Ends(kind: Option<nat>): StateStore.Body {
    if kind.None? then StateStore.Returns else StateStore.Raises(kind.value, "")
  }

  function ResizeOp(name: string, r: Resized): (op: StateStore.Op) {
    StateStore.Update(name, {STORAGE}, Ends(if r.Error? then Some(r.kind) else None))
  }

  /** `delete` calls the wrapped `delete_pvcs`, so an update nests in it. */
  function DeleteBody(name: string, ok: bool, deletePvcs: bool, removed: bool): (b: StateStore.Body) {
    if !ok then Ends(Some(KUBE))
    else if deletePvcs then
      var inner := StateStore.Update(name, {}, Ends(if removed then None else Some(KUBE)));
      StateStore.Calls(inner, false, StateStore.Returns)
    else Ends(None)
  }

  function DeleteOp(name: string, site: Site, deletePvcs: bool, f: Removal): (op: StateStore.Op) {
    var (site1, ok) := DeleteRelease(site, f);
    StateStore.Delete(name, DeleteBody(name, ok, deletePvcs, DeletePvcs(site1.pvcs, f).1))
  }
}

/** The backend as the source writes it: a spec object and a cluster changed step by step. */
module MinioBackend {
  import opened Collections
  import opened MinioTenant
  import Quantity

  class Tenant {
    var credentials: Option<Credentials>
    var volumeSize: string

    constructor (credentials: Option<Credentials>, volumeSize: string)
      ensures this.credentials == credentials && this.volumeSize == volumeSize
    {
      this.credentials, this.volumeSize := credentials, volumeSize;
    }
  }

  class Cluster {
    var release: Option<Release>
    var policy: bool
    var pvcs: seq<Pvc>
    var changes: seq<HelmChange>

    ghost function Contents(): (site: Site)
      reads this
    {
      Site(release, policy, pvcs, changes)
    }

    constructor ()
      ensures Contents() == Site(None, false, [], [])
    {
      release, policy, pvcs, changes := None, false, [], [];
    }

    method RunUninstall(uninstall: Step) returns (ok: bool)
      modifies this`release, this`changes
      ensures (Contents(), ok) == UninstallRelease(old(Contents()), uninstall)
    {
      changes := changes + [Uninstall];
      if Lands(uninstall) { release := None; }
      ok := uninstall.Done?;
    }

    method RunInstall(c: Credentials, install: Install) returns (ok: bool)
      modifies this`release, this`changes
      ensures (Contents(), ok) == InstallOrUpgrade(c, old(Contents()), install)
    {
      changes := changes + [Deploy(c)];
      ok := install.Installed?;
      match install {
        case Installed => release := Some(Release(Deployed, Some(c)));
        case InstallFailed(AsBefore) =>
        case InstallFailed(Absent) => release := None;
        case InstallFailed(Remains(status, kept)) => release := Some(Release(status, SecretLeft(kept, release, c)));
      }
    }

    method RunDeploy(c: Credentials, f: Fates) returns (ok: bool)
      modifies this`release, this`changes
      ensures (Contents(), ok) == DeployTenant(c, old(Contents()), f)
    {
      if !f.foundAgain { return false; }
      if release.Some? && release.value.status == InFailedState {
        ok := RunUninstall(f.uninstall);
        if !ok { return; }
      }
      ok := RunInstall(c, f.install);
    }

    method CreateTenant(tenant: Tenant, wishes: Wishes, f: Fates) returns (o: Outcome)
      modifies this`release, this`changes, this`policy, tenant`credentials
      ensures (Contents(), tenant.credentials, o) == Create(old(tenant.credentials), wishes, old(Contents()), f)
    {
      if !f.prerequisites { return Raised; }
      var adopted := false;
      if tenant.credentials.None? {
        if !f.found { return Raised; }
        if release.Some? {
          if !f.readable || release.value.secret.None? { return Unreadable; }
          tenant.credentials := release.value.secret;
          adopted := true;
        }
      }
      if !adopted && tenant.credentials.None? { tenant.credentials := Some(f.mint); }
      var c := tenant.credentials.value;
      if wishes.operator {
        match f.operator {
          case Present =>
          case Unknown => return Raised;
          case Missing(install) =>
            changes := changes + [InstallOperator];
            if install.Failed? { return Raised; }
        }
      }
      var deployed := RunDeploy(c, f);
      if !deployed { return Raised; }
      if wishes.restricted {
        if Lands(f.policy) { policy := true; }
        if f.policy.Failed? { return Raised; }
      }
      if wishes.wait && !f.ready { return Raised; }
      o := Returned(c);
    }

    method CheckSizes(sizes: seq<Pvc>, target: nat) returns (obstacle: Option<nat>)
      ensures obstacle == Obstacle(Bytes(sizes), target)
    {
      for k := 0 to |sizes|
        invariant Obstacle(Bytes(sizes), target) == Obstacle(Bytes(sizes)[k..], target)
      {
        var bytes := Quantity.Parse(sizes[k].size);
        if bytes.None? { return Some(VALUE); }
        if bytes.value > target { return Some(STORAGE); }
      }
      obstacle := None;
    }

    method PatchVolumes(newSize: string, patch: nat -> Step) returns (ok: bool)
      modifies this`pvcs
      ensures (pvcs, ok) == PatchFrom(old(pvcs), 0, newSize, patch)
    {
      for i := 0 to |pvcs|
        invariant |pvcs| == |old(pvcs)|
        invariant PatchFrom(old(pvcs), 0, newSize, patch) == PatchFrom(pvcs, i, newSize, patch)
      {
        if Listed(pvcs[i]) {
          var step := patch(i);
          if Lands(step) { pvcs := pvcs[i := pvcs[i].(size := newSize)]; }
          if step.Failed? { return false; }
        }
      }
      ok := true;
    }

    method ResizeStorage(tenant: Tenant, newSize: string, listed: bool, patch: nat -> Step) returns (r: Resized)
      modifies this`pvcs, tenant`volumeSize
      ensures (pvcs, tenant.volumeSize, r) == Resize(old(pvcs), old(tenant.volumeSize), newSize, listed, patch)
    {
      if !listed { return Error(KUBE); }
      var sizes := Sizes(pvcs);
      if sizes == [] { return Error(STORAGE); }
      var target := Quantity.Parse(newSize);
      if target.None? { return Error(VALUE); }
      var obstacle := CheckSizes(sizes, target.value);
      if obstacle.Some? { return Error(obstacle.value); }
      var ok := PatchVolumes(newSize, patch);
      if !ok { return Error(KUBE); }
      tenant.volumeSize := newSize;
      r := Grown(Sorted(Names(sizes)));
    }

    method RemovePvcs(f: Removal) returns (ok: bool)
      modifies this`pvcs
      ensures (pvcs, ok) == DeletePvcs(old(pvcs), f)
    {
      if !f.listed { return false; }
      var n := |pvcs|;
      for k := 0 to n
        invariant |pvcs| == n - k
        invariant RemoveFrom(old(pvcs), 0, f.remove) == RemoveFrom(pvcs, k, f.remove)
      {
        if Lands(f.remove(k)) { pvcs := pvcs[1..]; }
        if f.remove(k).Failed? { return false; }
      }
      ok := true;
    }

    method DeleteTenant(deletePvcs: bool, f: Removal) returns (ok: bool)
      modifies this
      ensures (Contents(), ok) == Delete(old(Contents()), deletePvcs, f)
    {
      if !f.found { return false; }
      if release.Some? {
        ok := RunUninstall(f.uninstall);
        if !ok { return; }
      }
      if Lands(f.policy) { policy := false; }
      if f.policy.Failed? { return false; }
      ok := true;
      if deletePvcs { ok := RemovePvcs(f); }
    }
  }
}
