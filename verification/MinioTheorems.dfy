/** What a tenant's lifecycle keeps: its credentials, the sizes of its volumes, and an honest record of both. */
module MinioTheorems {
  import opened Collections
  import opened MinioTenant
  import Quantity
  import StateStore
  import StateTheorems

  /*** credentials are adopted, never rotated ***/

  predicate Deploys(changes: seq<HelmChange>, c: Credentials) {
    forall h | h in changes :: h.Deploy? ==> h.credentials == c
  }

  function Secret(site: Site): (c: Option<Credentials>) {
    if site.release.Some? then site.release.value.secret else None
  }

  /** What one create with the credentials `c` does to the release. */
  predicate Honours(c: Credentials, site: Site, after: Site, o: Outcome) {
    && site.changes <= after.changes && Deploys(after.changes[|site.changes|..], c)
    && Secret(after) in {None, Some(c), Secret(site)}
    && (site.release.None? ==> Secret(after) in {None, Some(c)})
    && (o.Returned? ==> o.credentials == c && after.release == Some(Release(Deployed, Some(c))))
  }

  lemma DeployHonours(c: Credentials, site: Site, f: Fates)
    ensures
      var (after, ok) := DeployTenant(c, site, f);
      Honours(c, site, after, if ok then Returned(c) else Raised)
  {
    if f.foundAgain {
      if site.release.Some? && site.release.value.status == InFailedState {
        var (cleared, ok) := UninstallRelease(site, f.uninstall);
        assert cleared.changes == site.changes + [Uninstall];
        if ok {
          InstallHonours(c, cleared, f.install);
          var o := if f.install.Installed? then Returned(c) else Raised;
          HonoursAfter(c, Uninstall, site, cleared, DeployTenant(c, site, f).0, o);
        }
      } else {
        InstallHonours(c, site, f.install);
      }
    }
  }

  lemma InstallHonours(c: Credentials, site: Site, install: Install)
    ensures
      var (after, ok) := InstallOrUpgrade(c, site, install);
      Honours(c, site, after, if ok then Returned(c) else Raised)
  {
    assert (site.changes + [Deploy(c)])[|site.changes|..] == [Deploy(c)];
  }

  /** A change that deploys nothing may come first. */
  lemma HonoursAfter(c: Credentials, first: HelmChange, site: Site, asked: Site, after: Site, o: Outcome)
    requires Honours(c, asked, after, o) && asked.changes == site.changes + [first] && !first.Deploy?
    requires asked.release == site.release || asked.release.None?
    ensures Honours(c, site, after, o)
  {
    var added, more := after.changes[|asked.changes|..], after.changes[|site.changes|..];
    assert more == [first] + added;
  }

  lemma HonoursThen(c: Credentials, site: Site, mid: Site, after: Site, wishes: Wishes, f: Fates)
    requires Honours(c, site, mid, Returned(c)) && after == Finish(c, wishes, mid, f).0
    ensures Honours(c, site, after, Finish(c, wishes, mid, f).1)
  {
  }

  lemma ProvisionHonours(c: Credentials, wishes: Wishes, site: Site, f: Fates)
    ensures
      var (after, o) := Provision(c, wishes, site, f);
      Honours(c, site, after, o) && !o.Unreadable?
  {
    var (site1, ok1) := if wishes.operator then EnsureOperator(site, f.operator) else (site, true);
    var (after, o) := Provision(c, wishes, site, f);
    if ok1 {
      DeployHonours(c, site1, f);
      var (site2, ok2) := DeployTenant(c, site1, f);
      if ok2 { HonoursThen(c, site1, site2, after, wishes, f); }
    }
    if site1 != site { HonoursAfter(c, InstallOperator, site, site1, after, o); }
  }

  /**
   * A credential-less create over an existing release deploys only the credentials already live, and
   * raises before asking Helm for anything when it cannot read them. Only an absent release gets minted
   * ones. A normal return means those very credentials are deployed.
   */
  lemma LiveCredentialsNeverRotate(wishes: Wishes, site: Site, f: Fates)
    ensures
      var (after, spec, o) := Create(None, wishes, site, f);
      && (o.Returned? ==> after.release == Some(Release(Deployed, Some(o.credentials))) && spec == Some(o.credentials))
      && (o.Unreadable? ==> after == site && site.release.Some? && spec == None)
      && (Secret(site).Some? ==> Honours(Secret(site).value, site, after, o))
      && (site.release.Some? && Secret(site).None? ==> after == site && !o.Returned?)
      && (site.release.None? ==> Honours(f.mint, site, after, o))
  {
    if Choose(None, site, f).Use? { ProvisionHonours(Choose(None, site, f).credentials, wishes, site, f); }
  }

  /** The call has the credentials it settled on written into the release, whether or not it then returns. */
  predicate Writes(given: Option<Credentials>, wishes: Wishes, site: Site, f: Fates) {
    && Choose(given, site, f).Use?
    && (wishes.operator ==> f.operator.Present? || (f.operator.Missing? && f.operator.install.Done?))
    && f.foundAgain
    && (site.release.Some? && site.release.value.status == InFailedState ==> f.uninstall.Done?)
    && (f.install.Installed? || (f.install.left.Remains? && f.install.left.kept.NewSecret?))
  }

  lemma WrittenIsLive(given: Option<Credentials>, wishes: Wishes, site: Site, f: Fates)
    ensures
      var after := Create(given, wishes, site, f).0;
      if Writes(given, wishes, site, f) then Secret(after) == Some(Choose(given, site, f).credentials)
      else Secret(after) in {None, Secret(site)}
  {
    if Choose(given, site, f).Use? {
      var c := Choose(given, site, f).credentials;
      var site1 := if wishes.operator then EnsureOperator(site, f.operator).0 else site;
      assert site1.release == site.release;
      DeployWrites(c, site1, f);
    }
  }

  lemma DeployWrites(c: Credentials, site: Site, f: Fates)
    ensures
      var after, given := DeployTenant(c, site, f).0, Some(c);
      var written := && f.foundAgain
                     && (site.release.Some? && site.release.value.status == InFailedState ==> f.uninstall.Done?)
                     && (f.install.Installed? || (f.install.left.Remains? && f.install.left.kept.NewSecret?));
      if written then Secret(after) == given else Secret(after) in {None, Secret(site)}
  {
  }

  /**
   * Over a live pair, a create replaces it by another exactly when it writes and its spec object holds
   * another. So one that returns normally keeps the pair exactly when its object holds none or that one.
   */
  lemma RotatesExactlyWhen(given: Option<Credentials>, wishes: Wishes, site: Site, f: Fates)
    requires Secret(site).Some?
    ensures
      var (after, _, o) := Create(given, wishes, site, f);
      && (Secret(after) !in {None, Secret(site)}
          <==> Writes(given, wishes, site, f) && given.Some? && given != Secret(site))
      && (o.Returned? ==> (Secret(after) == Secret(site) <==> given.None? || given == Secret(site)))
  {
    WrittenIsLive(given, wishes, site, f);
    if Choose(given, site, f).Use? { ProvisionHonours(Choose(given, site, f).credentials, wishes, site, f); }
  }

  /** `spec` names the spec object the call is made with. */
  datatype Call = Call(spec: string, wishes: Wishes, fates: Fates)

  /** The cluster, and the credentials spec objects hold; an object not listed holds none. */
  datatype Moment = Moment(site: Site, specs: map<string, Credentials>)

  function Held(call: Call, at: Moment): (given: Option<Credentials>) {
    if call.spec in at.specs then Some(at.specs[call.spec]) else None
  }

  predicate Ran(call: Call, before: Moment, after: Moment, o: Outcome) {
    var (site, spec, outcome) := Create(Held(call, before), call.wishes, before.site, call.fates);
    && after == Moment(site, if spec.Some? then before.specs[call.spec := spec.value] else before.specs)
    && o == outcome
  }

  /** A run of creates: the moments before, between and after them, and their outcomes. */
  predicate IsRun(calls: seq<Call>, at: seq<Moment>, outcomes: seq<Outcome>) {
    && |at| == |calls| + 1 && |outcomes| == |calls|
    && forall k | 0 <= k < |calls| :: Ran(calls[k], at[k], at[k + 1], outcomes[k])
  }

  /*** runs in which spec objects may be used again ***/

  /** From after call `i` up to moment `n` the release is there, holding the pair or nothing readable. */
  predicate StaysLive(at: seq<Moment>, i: nat, n: nat, c: Credentials)
    requires n < |at|
  {
    forall m | i < m <= n :: at[m].site.release.Some? && Secret(at[m].site) in {None, Some(c)}
  }

  /** The call's spec object holds another pair than `c`, and the call writes it. */
  predicate Displaces(call: Call, before: Moment, c: Credentials) {
    && Held(call, before).Some? && Held(call, before).value != c
    && Writes(Held(call, before), call.wishes, before.site, call.fates)
  }

  /** Call `m` neither ends with the release absent nor displaces the pair. */
  predicate Spares(calls: seq<Call>, at: seq<Moment>, m: nat, c: Credentials)
    requires m < |calls| && |at| == |calls| + 1
  {
    at[m + 1].site.release.Some? && !Displaces(calls[m], at[m], c)
  }

  lemma SparedStaysLive(call: Call, before: Moment, after: Moment, o: Outcome, c: Credentials)
    requires Ran(call, before, after, o)
    requires before.site.release.Some? && Secret(before.site) in {None, Some(c)} && after.site.release.Some?
    ensures Secret(after.site) in {None, Some(c)} <==> !Displaces(call, before, c)
  {
    WrittenIsLive(Held(call, before), call.wishes, before.site, call.fates);
  }

  lemma {:induction false} SparedThroughout(calls: seq<Call>, at: seq<Moment>, outcomes: seq<Outcome>, i: nat, n: nat)
    requires IsRun(calls, at, outcomes) && i < n <= |calls| && outcomes[i].Returned?
    requires forall m | i < m < n :: Spares(calls, at, m, outcomes[i].credentials)
    ensures StaysLive(at, i, n, outcomes[i].credentials)
    decreases n
  {
    if n == i + 1 {
      assert Ran(calls[i], at[i], at[n], outcomes[i]);
      ReturnedIsDeployed(calls[i], at[i], at[n], outcomes[i]);
    } else {
      SparedThroughout(calls, at, outcomes, i, n - 1);
      assert Spares(calls, at, n - 1, outcomes[i].credentials);
      SparedStaysLive(calls[n - 1], at[n - 1], at[n], outcomes[n - 1], outcomes[i].credentials);
    }
  }

  lemma ReturnedIsDeployed(call: Call, before: Moment, after: Moment, o: Outcome)
    requires Ran(call, before, after, o) && o.Returned?
    ensures after.site.release == Some(Release(Deployed, Some(o.credentials)))
  {
    var given := Held(call, before);
    ProvisionHonours(Choose(given, before.site, call.fates).credentials, call.wishes, before.site, call.fates);
  }

  /**
   * In any run, with spec objects used once or again and with whatever they hold: the pair a successful
   * call deployed stays live up to moment n exactly when no call in between ends with the release absent
   * or writes another pair its object holds. And while it does, every successful call returns that pair.
   */
  lemma PairStaysLiveExactlyWhen(calls: seq<Call>, at: seq<Moment>, outcomes: seq<Outcome>, i: nat, n: nat)
    requires IsRun(calls, at, outcomes) && i < n <= |calls| && outcomes[i].Returned?
    ensures StaysLive(at, i, n, outcomes[i].credentials)
            <==> forall m | i < m < n :: Spares(calls, at, m, outcomes[i].credentials)
    ensures StaysLive(at, i, n, outcomes[i].credentials) ==>
              forall m | i < m < n && outcomes[m].Returned? :: outcomes[m] == outcomes[i]
  {
    var c := outcomes[i].credentials;
    if forall m | i < m < n :: Spares(calls, at, m, c) {
      SparedThroughout(calls, at, outcomes, i, n);
    }
    if StaysLive(at, i, n, c) {
      forall m | i < m < n ensures Spares(calls, at, m, c) && (outcomes[m].Returned? ==> outcomes[m] == outcomes[i]) {
        assert Ran(calls[m], at[m], at[m + 1], outcomes[m]);
        assert Secret(at[m].site) in {None, Some(c)} && Secret(at[m + 1].site) in {None, Some(c)};
        SparedStaysLive(calls[m], at[m], at[m + 1], outcomes[m], c);
        if outcomes[m].Returned? { ReturnedIsDeployed(calls[m], at[m], at[m + 1], outcomes[m]); }
      }
    }
  }

  /*** runs of credential-less creates ***/

  /** Every call finds its spec object without credentials. */
  predicate CredentialLess(calls: seq<Call>, at: seq<Moment>)
    requires |at| == |calls| + 1
  {
    forall k | 0 <= k < |calls| :: Held(calls[k], at[k]).None?
  }

  /** What a credential-less call does to the secret, and what its normal return means. */
  predicate Adopts(mint: Credentials, before: Site, after: Site, o: Outcome) {
    && (before.release.Some? ==>
          && (after.release.Some? ==> Secret(after) in {None, Secret(before)})
          && (o.Returned? ==> Some(o.credentials) == Secret(before)))
    && (before.release.None? ==> Secret(after) in {None, Some(mint)})
    && (o.Returned? ==> after.release == Some(Release(Deployed, Some(o.credentials))))
  }

  predicate AllAdopt(calls: seq<Call>, at: seq<Moment>, outcomes: seq<Outcome>) {
    && |at| == |calls| + 1 && |outcomes| == |calls|
    && forall k | 0 <= k < |calls| :: Adopts(calls[k].fates.mint, at[k].site, at[k + 1].site, outcomes[k])
  }

  lemma RunAdopts(calls: seq<Call>, at: seq<Moment>, outcomes: seq<Outcome>)
    requires IsRun(calls, at, outcomes) && CredentialLess(calls, at)
    ensures AllAdopt(calls, at, outcomes)
  {
    forall k | 0 <= k < |calls| ensures Adopts(calls[k].fates.mint, at[k].site, at[k + 1].site, outcomes[k]) {
      assert Ran(calls[k], at[k], at[k + 1], outcomes[k]) && Held(calls[k], at[k]).None?;
      LiveCredentialsNeverRotate(calls[k].wishes, at[k].site, calls[k].fates);
    }
  }

  /** No call after the `i`-th and before the `j`-th ends with the release absent. */
  predicate NeverAbsent(at: seq<Moment>, i: nat, j: nat)
    requires j < |at|
  {
    forall m | i + 1 < m <= j :: at[m].site.release.Some?
  }

  /** No two calls mint the same credentials, nor those live at the start. */
  predicate FreshMints(calls: seq<Call>, start: Site) {
    && (forall k, l | 0 <= k < l < |calls| :: calls[k].fates.mint != calls[l].fates.mint)
    && (forall k | 0 <= k < |calls| :: Some(calls[k].fates.mint) != Secret(start))
  }

  predicate MintedWithin(calls: seq<Call>, lo: nat, hi: nat, c: Credentials)
    requires hi <= |calls|
  {
    exists k :: lo <= k < hi && calls[k].fates.mint == c
  }

  /** Live credentials are those of an earlier moment or minted since. */
  lemma {:induction false} Origin(calls: seq<Call>, at: seq<Moment>, outcomes: seq<Outcome>, lo: nat, hi: nat)
    requires AllAdopt(calls, at, outcomes) && lo <= hi <= |calls|
    ensures
      var now := Secret(at[hi].site);
      now.Some? ==> MintedWithin(calls, lo, hi, now.value) || now == Secret(at[lo].site)
    decreases hi
  {
    if lo < hi {
      Origin(calls, at, outcomes, lo, hi - 1);
      assert Adopts(calls[hi - 1].fates.mint, at[hi - 1].site, at[hi].site, outcomes[hi - 1]);
    }
  }

  /** After a call that ends with the release absent, only credentials minted since can go live. */
  lemma AbsenceRenews(calls: seq<Call>, at: seq<Moment>, outcomes: seq<Outcome>, i: nat, m: nat, j: nat)
    requires AllAdopt(calls, at, outcomes) && FreshMints(calls, at[0].site)
    requires i + 1 < m <= j < |calls| && at[m].site.release.None?
    requires outcomes[i].Returned? && outcomes[j].Returned?
    ensures outcomes[i] != outcomes[j]
  {
    assert Adopts(calls[i].fates.mint, at[i].site, at[i + 1].site, outcomes[i]);
    assert Adopts(calls[j].fates.mint, at[j].site, at[j + 1].site, outcomes[j]);
    Origin(calls, at, outcomes, 0, i + 1);
    Origin(calls, at, outcomes, m, j + 1);
  }

  /**
   * Whatever fails in between, and whether or not a failed release had to be cleared: while no call
   * ends with the release absent, every successful call deploys and returns the same credentials.
   */
  lemma AdoptedUnlessAbsent(calls: seq<Call>, at: seq<Moment>, outcomes: seq<Outcome>, i: nat, j: nat)
    requires IsRun(calls, at, outcomes) && CredentialLess(calls, at)
    requires i < j < |calls| && outcomes[i].Returned? && outcomes[j].Returned? && NeverAbsent(at, i, j)
    ensures outcomes[j] == outcomes[i]
    ensures at[j + 1].site.release == Some(Release(Deployed, Some(outcomes[i].credentials)))
  {
    assert Ran(calls[j], at[j], at[j + 1], outcomes[j]);
    ReturnedIsDeployed(calls[j], at[j], at[j + 1], outcomes[j]);
    forall m | i < m < j + 1 ensures Spares(calls, at, m, outcomes[i].credentials) {
      assert Held(calls[m], at[m]).None?;
      assert at[m + 1].site.release.Some?;
    }
    PairStaysLiveExactlyWhen(calls, at, outcomes, i, j + 1);
  }

  /** And, minting never repeating itself, only then. */
  lemma SameCredentialsExactlyWhen(calls: seq<Call>, at: seq<Moment>, outcomes: seq<Outcome>, i: nat, j: nat)
    requires IsRun(calls, at, outcomes) && CredentialLess(calls, at)
    requires i < j < |calls| && outcomes[i].Returned? && outcomes[j].Returned?
    requires FreshMints(calls, at[0].site)
    ensures outcomes[j] == outcomes[i] <==> NeverAbsent(at, i, j)
  {
    if NeverAbsent(at, i, j) {
      AdoptedUnlessAbsent(calls, at, outcomes, i, j);
    } else {
      RunAdopts(calls, at, outcomes);
      var m :| i + 1 < m <= j && at[m].site.release.None?;
      AbsenceRenews(calls, at, outcomes, i, m, j);
    }
  }

  /**
   * An object used again displaces a live pair, for instance, when its own create minted credentials and
   * failed, leaving no release, and another object's create has since succeeded.
   */
  lemma RetriedSpecRotates(mine: Credentials, theirs: Credentials, f: Fates)
    requires mine != theirs
    requires f == Fates(true, true, true, mine, Present, true, Step.Done, Installed, Step.Done, true)
    ensures
      var none, all := Site(None, false, [], []), Wishes(true, true, true);
      var (site1, spec, o1) := Create(None, all, none, f.(install := InstallFailed(Absent)));
      var (site2, _, o2) := Create(None, all, site1, f.(mint := theirs));
      var (site3, _, o3) := Create(spec, all, site2, f);
      && o1 == Raised && o2 == Returned(theirs) && o3 == Returned(mine)
      && Secret(site2) == Some(theirs) && Secret(site3) == Some(mine)
  {
  }

  /*** resizing never shrinks, and refuses cleanly ***/

  predicate OnlyGrew(before: seq<Pvc>, after: seq<Pvc>, newSize: string) {
    && |after| == |before|
    && forall k | 0 <= k < |before| ::
         && after[k].name == before[k].name
         && after[k].size in {before[k].size, newSize}
         && (after[k] != before[k] ==> NotBelow(before[k].size, newSize))
  }

  predicate NotBelow(before: string, after: string) {
    && Quantity.Parse(before).Some? && Quantity.Parse(after).Some?
    && Quantity.Parse(before).value <= Quantity.Parse(after).value
  }

  predicate AllAt(pvcs: seq<Pvc>, size: string, before: seq<Pvc>)
    requires |pvcs| == |before|
  {
    forall k | 0 <= k < |pvcs| :: pvcs[k] == if Listed(before[k]) then Pvc(before[k].name, size) else before[k]
  }

  lemma {:induction false} PatchingKeeps(pvcs: seq<Pvc>, i: nat, newSize: string, patch: nat -> Step)
    requires i <= |pvcs|
    ensures
      var (after, ok) := PatchFrom(pvcs, i, newSize, patch);
      && |after| == |pvcs| && after[..i] == pvcs[..i]
      && (forall k | i <= k < |pvcs| ::
            after[k] == pvcs[k] || (Listed(pvcs[k]) && after[k] == pvcs[k].(size := newSize)))
      && (ok ==> forall k | i <= k < |pvcs| ::
            after[k] == if Listed(pvcs[k]) then pvcs[k].(size := newSize) else pvcs[k])
    decreases |pvcs| - i
  {
    if i < |pvcs| {
      var next := if Listed(pvcs[i]) && Lands(patch(i)) then pvcs[i := pvcs[i].(size := newSize)] else pvcs;
      PatchingKeeps(next, i + 1, newSize, patch);
      var after := PatchFrom(next, i + 1, newSize, patch).0;
      assert after[i] == after[..i + 1][i] == next[..i + 1][i];
      assert after[..i] == after[..i + 1][..i] && pvcs[..i] == next[..i + 1][..i];
    }
  }

  /** The first claim in listing order that is unreadable or larger than the target is one larger than it. */
  predicate ShrinksFirst(bytes: seq<Option<nat>>, target: nat, i: nat) {
    && i < |bytes| && bytes[i].Some? && bytes[i].value > target
    && forall j | 0 <= j < i :: bytes[j].Some? && bytes[j].value <= target
  }

  lemma {:induction false} NoObstacle(bytes: seq<Option<nat>>, target: nat)
    ensures Obstacle(bytes, target) in {None, Some(STORAGE), Some(VALUE)}
    ensures Obstacle(bytes, target).None? <==> forall b | b in bytes :: b.Some? && b.value <= target
  {
    if bytes != [] {
      NoObstacle(bytes[1..], target);
      assert bytes == [bytes[0]] + bytes[1..];
    }
  }

  lemma {:induction false} ShrinkIsObstacle(bytes: seq<Option<nat>>, target: nat)
    ensures Obstacle(bytes, target) == Some(STORAGE) <==> exists i :: ShrinksFirst(bytes, target, i)
  {
    if bytes != [] && bytes[0].Some? {
      if bytes[0].value > target {
        assert ShrinksFirst(bytes, target, 0);
      } else {
        ShrinkIsObstacle(bytes[1..], target);
        if i: nat :| ShrinksFirst(bytes, target, i) {
          assert i > 0;
          ShrinksLater(bytes, target, i - 1);
        }
        if i: nat :| ShrinksFirst(bytes[1..], target, i) { ShrinksLater(bytes, target, i); }
      }
    }
  }

  lemma ShrinksLater(bytes: seq<Option<nat>>, target: nat, i: nat)
    requires bytes != [] && bytes[0].Some? && bytes[0].value <= target
    ensures ShrinksFirst(bytes, target, i + 1) <==> ShrinksFirst(bytes[1..], target, i)
  {
    var tail := bytes[1..];
    assert forall j | 0 <= j < |tail| :: tail[j] == bytes[j + 1];
    if ShrinksFirst(tail, target, i) {
      forall j | 0 <= j < i + 1 ensures bytes[j].Some? && bytes[j].value <= target {
        assert j > 0 ==> bytes[j] == tail[j - 1];
      }
    }
  }

  predicate SoundResize(pvcs: seq<Pvc>, volumeSize: string, newSize: string, after: seq<Pvc>, volume: string,
                        r: Resized)
  {
    && OnlyGrew(pvcs, after, newSize)
    && (r.Grown? ==> AllAt(after, newSize, pvcs) && volume == newSize && r.names == Sorted(Names(Sizes(pvcs))))
    && (r.Error? ==> volume == volumeSize)
    && (r in {Error(STORAGE), Error(VALUE)} ==> after == pvcs)
  }

  /**
   * Every claim ends at its old or the new size and none smaller in bytes; a storage or value error
   * comes before any patch; only a normal return, with every listed claim at the new size, updates the
   * spec's volume size.
   */
  lemma ResizeNeverShrinks(pvcs: seq<Pvc>, volumeSize: string, newSize: string, listed: bool, patch: nat -> Step)
    ensures
      var (after, volume, r) := Resize(pvcs, volumeSize, newSize, listed, patch);
      SoundResize(pvcs, volumeSize, newSize, after, volume, r)
  {
    var target, sizes := Quantity.Parse(newSize), Sizes(pvcs);
    if target.Some? {
      NoObstacle(Bytes(sizes), target.value);
      if listed && sizes != [] && Obstacle(Bytes(sizes), target.value).None? {
        PatchingGrows(pvcs, newSize, patch);
      }
    }
  }

  lemma PatchingGrows(pvcs: seq<Pvc>, newSize: string, patch: nat -> Step)
    requires Quantity.Parse(newSize).Some?
    requires forall b | b in Bytes(Sizes(pvcs)) :: b.Some? && b.value <= Quantity.Parse(newSize).value
    ensures
      var (after, ok) := PatchFrom(pvcs, 0, newSize, patch);
      OnlyGrew(pvcs, after, newSize) && (ok ==> AllAt(after, newSize, pvcs))
  {
    PatchingKeeps(pvcs, 0, newSize, patch);
    var after, sizes := PatchFrom(pvcs, 0, newSize, patch).0, Sizes(pvcs);
    forall k | 0 <= k < |pvcs| && after[k] != pvcs[k] ensures NotBelow(pvcs[k].size, newSize) {
      assert pvcs[k] in sizes;
      var i :| 0 <= i < |sizes| && sizes[i] == pvcs[k];
      assert Bytes(sizes)[i] in Bytes(sizes);
    }
  }

  /** The first claim in listing order that is unreadable or larger than the target is unreadable. */
  predicate UnreadableFirst(bytes: seq<Option<nat>>, target: nat, i: nat) {
    i < |bytes| && bytes[i].None? && forall j | 0 <= j < i :: bytes[j].Some? && bytes[j].value <= target
  }

  lemma {:induction false} UnreadableIsObstacle(bytes: seq<Option<nat>>, target: nat)
    ensures Obstacle(bytes, target) == Some(VALUE) <==> exists i :: UnreadableFirst(bytes, target, i)
  {
    if bytes != [] {
      if bytes[0].None? {
        assert UnreadableFirst(bytes, target, 0);
      } else if bytes[0].value <= target {
        UnreadableIsObstacle(bytes[1..], target);
        if i: nat :| UnreadableFirst(bytes, target, i) {
          assert i > 0;
          UnreadableLater(bytes, target, i - 1);
        }
        if i: nat :| UnreadableFirst(bytes[1..], target, i) { UnreadableLater(bytes, target, i); }
      }
    }
  }

  lemma UnreadableLater(bytes: seq<Option<nat>>, target: nat, i: nat)
    requires bytes != [] && bytes[0].Some? && bytes[0].value <= target
    ensures UnreadableFirst(bytes, target, i + 1) <==> UnreadableFirst(bytes[1..], target, i)
  {
    var tail := bytes[1..];
    assert forall j | 0 <= j < |tail| :: tail[j] == bytes[j + 1];
    if UnreadableFirst(tail, target, i) {
      forall j | 0 <= j < i + 1 ensures bytes[j].Some? && bytes[j].value <= target {
        assert j > 0 ==> bytes[j] == tail[j - 1];
      }
    }
  }

  /** There is nothing to resize, or a claim would shrink before any size is found unreadable. */
  ghost predicate Refused(pvcs: seq<Pvc>, newSize: string) {
    || (forall p | p in pvcs :: !Listed(p))
    || var target := Quantity.Parse(newSize);
       target.Some? && exists i :: ShrinksFirst(Bytes(Sizes(pvcs)), target.value, i)
  }

  /** There is something to resize, but the new size, or a present one met before any shrink, is unreadable. */
  ghost predicate UnreadableSize(pvcs: seq<Pvc>, newSize: string) {
    && (exists p :: p in pvcs && Listed(p))
    && var target := Quantity.Parse(newSize);
       target.None? || exists i :: UnreadableFirst(Bytes(Sizes(pvcs)), target.value, i)
  }

  lemma SizesEmpty(pvcs: seq<Pvc>)
    ensures Sizes(pvcs) == [] <==> forall p | p in pvcs :: !Listed(p)
  {
    if Sizes(pvcs) != [] { assert Sizes(pvcs)[0] in Sizes(pvcs); }
  }

  /** When a resize gives a storage error, and when a value error: for all claims, sizes and failures. */
  lemma RefusedExactlyWhen(pvcs: seq<Pvc>, volumeSize: string, newSize: string, listed: bool, patch: nat -> Step)
    ensures
      var r := Resize(pvcs, volumeSize, newSize, listed, patch).2;
      && (r == Error(STORAGE) <==> listed && Refused(pvcs, newSize))
      && (r == Error(VALUE) <==> listed && UnreadableSize(pvcs, newSize))
  {
    SizesEmpty(pvcs);
    var target, bytes := Quantity.Parse(newSize), Bytes(Sizes(pvcs));
    if target.Some? {
      ShrinkIsObstacle(bytes, target.value);
      UnreadableIsObstacle(bytes, target.value);
      NoObstacle(bytes, target.value);
    }
  }

  /** The row of a tracked tenant after a resize that ended with `r`. */
  predicate RowShows(name: string, r: Resized, db: StateStore.Db, db1: StateStore.Db) {
    && name in db.rows && name in db1.rows
    && db1.rows[name].status
       == if r.Grown? || r == Error(STORAGE) then db.rows[name].status else StateStore.Status.Failed
  }

  lemma ResultIsRecorded(r: Resized, name: string, db: StateStore.Db)
    requires name in db.rows
    ensures RowShows(name, r, db, StateStore.RunOp(ResizeOp(name, r), db).0)
  {
    StateTheorems.UpdateBracket(ResizeOp(name, r), db);
  }

  /** The store after a tracked resize. */
  function AfterResize(pvcs: seq<Pvc>, volumeSize: string, newSize: string, listed: bool, patch: nat -> Step,
                       name: string, db: StateStore.Db): (db1: StateStore.Db)
    requires name in db.rows
    ensures RowShows(name, Resize(pvcs, volumeSize, newSize, listed, patch).2, db, db1)
  {
    ResultIsRecorded(Resize(pvcs, volumeSize, newSize, listed, patch).2, name, db);
    StateStore.RunOp(ResizeOp(name, Resize(pvcs, volumeSize, newSize, listed, patch).2), db).0
  }

  /**
   * On a tracked tenant, success and refusal put the status back and every other error leaves FAILED.
   * So a row that is not FAILED means that all listed claims are at the new size, or none changed.
   */
  lemma ResizeIsRecorded(pvcs: seq<Pvc>, volumeSize: string, newSize: string, listed: bool, patch: nat -> Step,
                         name: string, db: StateStore.Db)
    requires name in db.rows
    ensures
      var (after, volume, r) := Resize(pvcs, volumeSize, newSize, listed, patch);
      var db1 := AfterResize(pvcs, volumeSize, newSize, listed, patch, name, db);
      && RowShows(name, r, db, db1)
      && (db1.rows[name].status != StateStore.Status.Failed ==>
            AllOrNothing(pvcs, volumeSize, newSize, after, volume))
  {
    var (after, volume, r) := Resize(pvcs, volumeSize, newSize, listed, patch);
    ResizeNeverShrinks(pvcs, volumeSize, newSize, listed, patch);
    SoundIsAllOrNothing(pvcs, volumeSize, newSize, after, volume, r);
  }

  predicate AllOrNothing(pvcs: seq<Pvc>, volumeSize: string, newSize: string, after: seq<Pvc>, volume: string) {
    || (after == pvcs && volume == volumeSize)
    || (|after| == |pvcs| && AllAt(after, newSize, pvcs) && volume == newSize)
  }

  lemma SoundIsAllOrNothing(pvcs: seq<Pvc>, volumeSize: string, newSize: string, after: seq<Pvc>, volume: string,
                            r: Resized)
    requires SoundResize(pvcs, volumeSize, newSize, after, volume, r)
    ensures r.Grown? || r == Error(STORAGE) ==> AllOrNothing(pvcs, volumeSize, newSize, after, volume)
  {
  }

  /** The resize is turned down before the first patch: it fails even if every patch would succeed. */
  predicate TurnedDown(pvcs: seq<Pvc>, volumeSize: string, newSize: string, listed: bool) {
    Resize(pvcs, volumeSize, newSize, listed, k => Step.Done).2.Error?
  }

  lemma {:induction false} PatchingSucceeds(pvcs: seq<Pvc>, i: nat, newSize: string, patch: nat -> Step)
    requires i <= |pvcs| && forall k :: patch(k).Done?
    ensures PatchFrom(pvcs, i, newSize, patch).1
    decreases |pvcs| - i
  {
    if i < |pvcs| {
      var after := if Listed(pvcs[i]) then pvcs[i := pvcs[i].(size := newSize)] else pvcs;
      PatchingSucceeds(after, i + 1, newSize, patch);
    }
  }

  /**
   * Of the resizes of a tracked tenant not FAILED before that are turned down before the first patch,
   * the status is kept exactly for the refusals. It becomes FAILED, although nothing was touched, exactly
   * when the listing of claims fails or a size is unreadable.
   */
  lemma TurnedDownIsRecorded(pvcs: seq<Pvc>, volumeSize: string, newSize: string, listed: bool, patch: nat -> Step,
                             name: string, db: StateStore.Db)
    requires name in db.rows && db.rows[name].status != StateStore.Status.Failed
    ensures
      var status := AfterResize(pvcs, volumeSize, newSize, listed, patch, name, db).rows[name].status;
      var turnedDown := TurnedDown(pvcs, volumeSize, newSize, listed);
      && (turnedDown ==> Resize(pvcs, volumeSize, newSize, listed, patch).0 == pvcs)
      && (turnedDown && status == db.rows[name].status <==> listed && Refused(pvcs, newSize))
      && (turnedDown && status == StateStore.Status.Failed <==> !listed || UnreadableSize(pvcs, newSize))
  {
    RefusedExactlyWhen(pvcs, volumeSize, newSize, listed, patch);
    TurnedDownMeans(pvcs, volumeSize, newSize, listed, patch);
  }

  lemma TurnedDownMeans(pvcs: seq<Pvc>, volumeSize: string, newSize: string, listed: bool, patch: nat -> Step)
    ensures
      var (after, _, r) := Resize(pvcs, volumeSize, newSize, listed, patch);
      && (TurnedDown(pvcs, volumeSize, newSize, listed) <==> !listed || r == Error(STORAGE) || r == Error(VALUE))
      && (TurnedDown(pvcs, volumeSize, newSize, listed) ==> after == pvcs && r.Error?)
  {
    var target := Quantity.Parse(newSize);
    PatchingSucceeds(pvcs, 0, newSize, k => Step.Done);
    if target.Some? { NoObstacle(Bytes(Sizes(pvcs)), target.value); }
  }

  /*** deletion ***/

  lemma {:induction false} RemovalEmpties(pvcs: seq<Pvc>, k: nat, remove: nat -> Step)
    ensures
      var (after, ok) := RemoveFrom(pvcs, k, remove);
      && (ok ==> after == [])
      && |after| <= |pvcs| && after == pvcs[|pvcs| - |after|..]
  {
    if pvcs != [] {
      var next := if Lands(remove(k)) then pvcs[1..] else pvcs;
      if remove(k).Done? { RemovalEmpties(next, k + 1, remove); }
    }
  }

  lemma DeleteRemoves(site: Site, deletePvcs: bool, f: Removal)
    ensures
      var (after, ok) := Delete(site, deletePvcs, f);
      && (ok ==> after.release.None? && !after.policy && (deletePvcs ==> after.pvcs == []))
      && (if deletePvcs then |after.pvcs| <= |site.pvcs| && after.pvcs == site.pvcs[|site.pvcs| - |after.pvcs|..]
          else after.pvcs == site.pvcs)
  {
    ReleaseGoes(site, f);
    RemovalEmpties(site.pvcs, 0, f.remove);
  }

  lemma ReleaseGoes(site: Site, f: Removal)
    ensures
      var (after, ok) := DeleteRelease(site, f);
      after.pvcs == site.pvcs && (ok ==> after.release.None? && !after.policy)
  {
  }

  /** `released`: the release and its policy went; `removed`: so did the claims. */
  lemma DeletionIsRecorded(name: string, released: bool, deletePvcs: bool, removed: bool, db: StateStore.Db)
    requires name in db.rows
    ensures
      var db1 := StateStore.RunOp(StateStore.Delete(name, DeleteBody(name, released, deletePvcs, removed)), db).0;
      if released && (deletePvcs ==> removed) then name !in db1.rows
      else name in db1.rows && db1.rows[name].status == StateStore.Status.Failed
  {
    var body := DeleteBody(name, released, deletePvcs, removed);
    var db0 := StateStore.SetStatus(db, name, StateStore.Deleting, None);
    StateTheorems.DeleteBracket(StateStore.Delete(name, body), db);
    if released && deletePvcs {
      StateTheorems.UpdateBracket(body.op, db0);
      var inner := StateStore.SetStatus(db0, name, StateStore.Provisioning, None);
      assert StateStore.RunBody(body.op.body, inner).1.Ok? <==> removed;
      var (db1, o) := StateStore.RunOp(body.op, db0);
      assert StateStore.RunBody(StateStore.Returns, db1).1.Ok?;
      assert StateStore.RunBody(body, db0).1.Ok? <==> o.Ok?;
    }
  }

  /**
   * The row goes exactly when everything asked for is gone: the release, the network policy and, if
   * asked, every claim. A failure anywhere, the nested `delete_pvcs` included, leaves the row FAILED;
   * and claims are touched only when asked for, in listing order.
   */
  lemma DeleteIsRecorded(site: Site, deletePvcs: bool, f: Removal, name: string, db: StateStore.Db)
    requires name in db.rows
    ensures
      var (after, ok) := Delete(site, deletePvcs, f);
      var db1 := StateStore.RunOp(DeleteOp(name, site, deletePvcs, f), db).0;
      && (ok <==> name !in db1.rows)
      && (!ok ==> db1.rows[name].status == StateStore.Status.Failed)
      && (ok ==> after.release.None? && !after.policy && (deletePvcs ==> after.pvcs == []))
  {
    var (site1, released) := DeleteRelease(site, f);
    DeleteRemoves(site, deletePvcs, f);
    DeletionIsRecorded(name, released, deletePvcs, DeletePvcs(site1.pvcs, f).1, db);
  }
}
