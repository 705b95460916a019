/**
 * The seeding script of examples/seed_admin.py: create one organization with its owner and make the
 * owner its administrator, against a server whose calls may fail before or after taking effect.
 */
module SeedOrganization {
  import opened Collections

  datatype User = User(id: nat, email: string)

  datatype Organization = Organization(id: nat, name: string, users: seq<User>)

  /** A plan or a role, as its listing shows it. */
  datatype Entry = Entry(id: nat, name: string)

  datatype RoleWrite = RoleWrite(org: nat, user: nat, roles: seq<nat>)

  /** How much of a call took place: of creating an organization with its owner, perhaps only the first half. */
  datatype Effect = Nothing | Part | Whole

  /** `Clash` answers 409, `Refused` any other failing status; `Lost` is an exception in the transport. */
  datatype Fate = Answered | Clash(effect: Effect) | Refused(effect: Effect) | Lost(effect: Effect)

  function EffectOf(f: Fate): Effect {
    if f.Answered? then Whole else f.effect
  }

  datatype Reply<+T> = Good(value: T) | Conflict | Bad | Broken

  function ReplyOf<T>(f: Fate, value: T): Reply<T> {
    match f
    case Answered => Good(value)
    case Clash(_) => Conflict
    case Refused(_) => Bad
    case Lost(_) => Broken
  }

  /** Failures so far: those that end a run, and those the two retry loops absorb. */
  datatype Tally = Tally(fatal: nat, creating: nat, granting: nat)

  /*** what the listings are searched for ***/

  /** Index of the first element with that key, or the length. */
  function Locate<T>(xs: seq<T>, key: T -> string, wanted: string): (i: nat)
    ensures i <= |xs| && (i < |xs| ==> key(xs[i]) == wanted)
    ensures forall j | 0 <= j < i :: key(xs[j]) != wanted
  {
    if xs == [] || key(xs[0]) == wanted then 0 else 1 + Locate(xs[1..], key, wanted)
  }

  function LocateOrg(orgs: seq<Organization>, name: string): (i: nat) {
    Locate(orgs, (o: Organization) => o.name, name)
  }

  function LocateUser(users: seq<User>, email: string): (i: nat) {
    Locate(users, (u: User) => u.email, email)
  }

  function LocateEntry(entries: seq<Entry>, name: string): (i: nat) {
    Locate(entries, (e: Entry) => e.name, name)
  }

  predicate HasOrg(orgs: seq<Organization>, name: string) {
    LocateOrg(orgs, name) < |orgs|
  }

  function OrgOf(orgs: seq<Organization>, name: string): (o: Organization)
    requires HasOrg(orgs, name)
    ensures o in orgs && o.name == name
  {
    orgs[LocateOrg(orgs, name)]
  }

  predicate HasUser(users: seq<User>, email: string) {
    LocateUser(users, email) < |users|
  }

  /** The owner is a member of the organization of that name. */
  predicate Seeded(orgs: seq<Organization>, name: string, email: string) {
    HasOrg(orgs, name) && HasUser(OrgOf(orgs, name).users, email)
  }

  function AdminWrite(org: nat, user: nat, roles: seq<Entry>): (w: RoleWrite)
    requires LocateEntry(roles, "org_admin") < |roles|
  {
    RoleWrite(org, user, [roles[LocateEntry(roles, "org_admin")].id])
  }

  predicate AllAdminWrites(writes: seq<RoleWrite>, from: nat, org: nat, user: nat, roles: seq<Entry>) {
    from < |writes| ==>
      && LocateEntry(roles, "org_admin") < |roles|
      && forall i | from <= i < |writes| :: writes[i] == AdminWrite(org, user, roles)
  }

  /** The role write that makes the owner administrator. */
  function Grant(orgs: seq<Organization>, name: string, email: string, roles: seq<Entry>): (w: RoleWrite)
    requires Seeded(orgs, name, email) && LocateEntry(roles, "org_admin") < |roles|
  {
    var org := OrgOf(orgs, name);
    AdminWrite(org.id, org.users[LocateUser(org.users, email)].id, roles)
  }

  /*** what runs keep ***/

  predicate AtMostOne(orgs: seq<Organization>, name: string) {
    forall i, j | 0 <= i < j < |orgs| :: !(orgs[i].name == name && orgs[j].name == name)
  }

  predicate IdsDistinct(orgs: seq<Organization>, nextId: nat) {
    && (forall i, j | 0 <= i < j < |orgs| :: orgs[i].id != orgs[j].id)
    && (forall i | 0 <= i < |orgs| :: orgs[i].id < nextId)
  }

  /** Organizations stay, those of other names unchanged; members of this one are only added, at most one of them. */
  ghost predicate Kept(before: seq<Organization>, after: seq<Organization>, name: string, email: string) {
    && |before| <= |after|
    && (forall i | |before| <= i < |after| ::
          after[i].name == name && (after[i].users == [] || (|after[i].users| == 1
              && after[i].users[0].email == email)))
    && (forall i | 0 <= i < |before| :: Grew(before[i], after[i], name, email))
  }

  ghost predicate Grew(before: Organization, after: Organization, name: string, email: string) {
    || before == after
    || (before.name == name && !HasUser(before.users, email)
        && exists id :: after == before.(users := before.users + [User(id, email)]))
  }

  /** Every role write from position `from` on is the owner's grant. */
  predicate OnlyGrants(writes: seq<RoleWrite>, from: nat, orgs: seq<Organization>, name: string, email: string,
                       roles: seq<Entry>) {
    from < |writes| ==>
      && Seeded(orgs, name, email) && LocateEntry(roles, "org_admin") < |roles|
      && forall i | from <= i < |writes| :: writes[i] == Grant(orgs, name, email, roles)
  }

  lemma KeptSame(orgs: seq<Organization>, name: string, email: string)
    ensures Kept(orgs, orgs, name, email)
  {
  }

  lemma KeptTwice(a: seq<Organization>, b: seq<Organization>, c: seq<Organization>, name: string, email: string)
    requires Kept(a, b, name, email) && Kept(b, c, name, email)
    ensures Kept(a, c, name, email)
  {
    forall i | 0 <= i < |a| ensures Grew(a[i], c[i], name, email) {
      assert Grew(a[i], b[i], name, email) && Grew(b[i], c[i], name, email);
      if a[i] != b[i] { AddedIsThere(a[i].users, b[i].users[|a[i].users|].id, email); }
    }
    forall i | |a| <= i < |b|
      ensures c[i].name == name && (c[i].users == [] || (|c[i].users| == 1 && c[i].users[0].email == email))
    {
      assert Grew(b[i], c[i], name, email);
    }
  }

  lemma AddedIsThere(users: seq<User>, id: nat, email: string)
    ensures HasUser(users + [User(id, email)], email)
    ensures !HasUser(users, email) ==> LocateUser(users + [User(id, email)], email) == |users|
  {
    assert (users + [User(id, email)])[|users|].email == email;
  }

  lemma LocateNew(orgs: seq<Organization>, o: Organization)
    requires !HasOrg(orgs, o.name)
    ensures LocateOrg(orgs + [o], o.name) == |orgs|
  {
    var all := orgs + [o];
    assert all[|orgs|] == o;
    forall j | 0 <= j < |orgs| ensures all[j].name != o.name {
      assert all[j] == orgs[j];
    }
  }

  lemma LocatePinned(before: seq<Organization>, after: seq<Organization>, name: string, email: string)
    requires Kept(before, after, name, email) && HasOrg(before, name)
    ensures LocateOrg(after, name) == LocateOrg(before, name)
  {
    var i := LocateOrg(before, name);
    forall j | 0 <= j <= i ensures after[j].name == before[j].name {
      assert Grew(before[j], after[j], name, email);
    }
  }

  /** What was seeded stays seeded, with the same grant. */
  lemma SeededStays(before: seq<Organization>, after: seq<Organization>, name: string, email: string, roles: seq<Entry>)
    requires Kept(before, after, name, email) && Seeded(before, name, email)
    ensures Seeded(after, name, email)
    ensures LocateEntry(roles, "org_admin") < |roles| ==>
              Grant(after, name, email, roles) == Grant(before, name, email, roles)
  {
    LocatePinned(before, after, name, email);
    assert Grew(OrgOf(before, name), OrgOf(after, name), name, email);
  }

  lemma StillAtMostOne(before: seq<Organization>, after: seq<Organization>, name: string, email: string)
    requires AtMostOne(before, name) && Kept(before, after, name, email)
    requires |after| == |before| || (|after| == |before| + 1 && !HasOrg(before, name))
    ensures AtMostOne(after, name)
  {
    forall i | 0 <= i < |before| ensures after[i].name == before[i].name {
      assert Grew(before[i], after[i], name, email);
    }
  }

  /** Creating the organization, as far as it got, keeps what runs keep. */
  lemma OrgCreated(base: seq<Organization>, was: seq<Organization>, now: seq<Organization>, o: Organization,
                   name: string, email: string)
    requires Kept(base, was, name, email) && AtMostOne(was, name) && !HasOrg(was, name) && o.name == name
    requires o.users == [] || (|o.users| == 1 && o.users[0].email == email)
    requires now == was || now == was + [o]
    ensures Kept(base, now, name, email) && AtMostOne(now, name) && !HasOrg(base, name)
    ensures now != was ==> HasOrg(now, name) && OrgOf(now, name) == o
  {
    assert Kept(was, now, name, email);
    KeptTwice(base, was, now, name, email);
    StillAtMostOne(was, now, name, email);
    if HasOrg(base, name) { LocatePinned(base, was, name, email); }
    LocateNew(was, o);
  }

  /** So does adding the owner to it. */
  lemma OwnerAdded(base: seq<Organization>, was: seq<Organization>, now: seq<Organization>, id: nat, name: string,
                   email: string)
    requires Kept(base, was, name, email) && AtMostOne(was, name) && HasOrg(was, name)
    requires
      var i := LocateOrg(was, name);
      || now == was
      || (!HasUser(was[i].users, email) && now == was[i := was[i].(users := was[i].users + [User(id, email)])])
    ensures Kept(base, now, name, email) && AtMostOne(now, name) && HasOrg(now, name)
    ensures OrgOf(now, name).id == OrgOf(was, name).id && LocateOrg(now, name) == LocateOrg(was, name)
    ensures now != was ==>
              && Seeded(now, name, email) && !Seeded(was, name, email)
              && OrgOf(now, name).users[LocateUser(OrgOf(now, name).users, email)].id == id
  {
    var i := LocateOrg(was, name);
    AddedIsThere(was[i].users, id, email);
    assert Kept(was, now, name, email);
    KeptTwice(base, was, now, name, email);
    StillAtMostOne(was, now, name, email);
    LocatePinned(was, now, name, email);
  }

  lemma SeededBefore(before: seq<Organization>, after: seq<Organization>, name: string, email: string)
    requires Kept(before, after, name, email) && !Seeded(after, name, email)
    ensures !Seeded(before, name, email)
  {
    if Seeded(before, name, email) { SeededStays(before, after, name, email, []); }
  }

  /** Earlier grants are still the owner's grant after another run. */
  lemma GrantsCarry(before: seq<Organization>, after: seq<Organization>, writes: seq<RoleWrite>, more: seq<RoleWrite>,
                    from: nat, name: string, email: string, roles: seq<Entry>)
    requires Kept(before, after, name, email) && writes <= more
    requires OnlyGrants(writes, from, before, name, email, roles)
    requires OnlyGrants(more, |writes|, after, name, email, roles)
    ensures OnlyGrants(more, from, after, name, email, roles)
  {
    if from < |writes| { SeededStays(before, after, name, email, roles); }
    assert forall i | 0 <= i < |writes| :: more[i] == writes[i];
  }

  /** How one attempt of the creation loop ends. */
  datatype Attempt = Done(owner: Option<nat>) | Stop | Again

  class ControlPlane {
    const fate: nat -> Fate
    const plans: seq<Entry>
    const roles: seq<Entry>
    var clock: nat
    var orgs: seq<Organization>
    var nextId: nat
    var roleWrites: seq<RoleWrite>
    ghost var tally: Tally

    constructor (fate: nat -> Fate, plans: seq<Entry>, roles: seq<Entry>, orgs: seq<Organization>, nextId: nat)
      ensures this.fate == fate && this.plans == plans && this.roles == roles
      ensures this.orgs == orgs && this.nextId == nextId && clock == 0 && roleWrites == [] && tally == Tally(0, 0, 0)
    {
      this.fate, this.plans, this.roles, this.orgs, this.nextId := fate, plans, roles, orgs, nextId;
      clock, roleWrites, tally := 0, [], Tally(0, 0, 0);
    }

    /** The fate of the next call. */
    method Tick() returns (f: Fate)
      modifies this`clock
      ensures f == fate(old(clock)) && clock == old(clock) + 1
    {
      f := fate(clock);
      clock := clock + 1;
    }

    /*** the server ***/

    method ListOrganizations() returns (r: Reply<seq<Organization>>)
      modifies this`clock, this`tally
      ensures r == ReplyOf(fate(old(clock)), orgs) && clock == old(clock) + 1
      ensures tally == if r.Good? then old(tally) else old(tally).(fatal := old(tally).fatal + 1)
    {
      var f := Tick();
      r := ReplyOf(f, orgs);
      if !r.Good? { tally := tally.(fatal := tally.fatal + 1); }
    }

    method ListPlans() returns (r: Reply<seq<Entry>>)
      modifies this`clock, this`tally
      ensures r == ReplyOf(fate(old(clock)), plans) && clock == old(clock) + 1
      ensures tally == if r.Good? then old(tally) else old(tally).(fatal := old(tally).fatal + 1)
    {
      var f := Tick();
      r := ReplyOf(f, plans);
      if !r.Good? { tally := tally.(fatal := tally.fatal + 1); }
    }

    /** Creates another organization whether or not one of that name is there already. */
    method CreateWithOwner(name: string, email: string) returns (r: Reply<Organization>)
      modifies this`clock, this`tally, this`orgs, this`nextId
      ensures clock == old(clock) + 1 && nextId == old(nextId) + 2
      ensures
        var f := fate(old(clock));
        var bare := Organization(old(nextId), name, []);
        var full := Organization(old(nextId), name, [User(old(nextId) + 1, email)]);
        && orgs == old(orgs) + (match EffectOf(f) case Nothing => [] case Part => [bare] case Whole => [full])
        && r == ReplyOf(f, full)
      ensures tally == if r.Good? then old(tally)
                       else if r.Broken? then old(tally).(fatal := old(tally).fatal + 1)
                       else old(tally).(creating := old(tally).creating + 1)
    {
      var f := Tick();
      var full := Organization(nextId, name, [User(nextId + 1, email)]);
      match EffectOf(f) {
        case Nothing =>
        case Part => orgs := orgs + [full.(users := [])];
        case Whole => orgs := orgs + [full];
      }
      nextId := nextId + 2;
      r := ReplyOf(f, full);
      if r.Broken? { tally := tally.(fatal := tally.fatal + 1); }
      else if !r.Good? { tally := tally.(creating := tally.creating + 1); }
    }

    /**
     * Adds a user unless the organization has one with that email, which is answered by a conflict. A
     * conflict reported for a user that is not there counts as a failure that ends the run.
     */
    method CreateUser(ghost i: nat, orgId: nat, email: string) returns (r: Reply<User>)
      requires IdsDistinct(orgs, nextId) && i < |orgs| && orgs[i].id == orgId
      modifies this`clock, this`tally, this`orgs, this`nextId
      ensures clock == old(clock) + 1 && nextId == old(nextId) + 1
      ensures
        var f := fate(old(clock));
        var known := HasUser(old(orgs)[i].users, email);
        var user := User(old(nextId), email);
        && orgs == (if known || EffectOf(f) == Nothing then old(orgs)
                    else old(orgs)[i := old(orgs)[i].(users := old(orgs)[i].users + [user])])
        && r == (if f.Answered? && known then Conflict else ReplyOf(f, user))
      ensures tally == if r.Good? then old(tally)
                       else if r.Bad? then old(tally).(creating := old(tally).creating + 1)
                       else if r.Conflict? && HasUser(orgs[i].users, email) then old(tally)
                       else old(tally).(fatal := old(tally).fatal + 1)
    {
      var f := Tick();
      var k := 0;
      while orgs[k].id != orgId
        invariant 0 <= k <= i
        decreases i - k
      {
        k := k + 1;
      }
      var known := HasUser(orgs[k].users, email);
      var user := User(nextId, email);
      if !known && EffectOf(f) != Nothing {
        orgs := orgs[k := orgs[k].(users := orgs[k].users + [user])];
      }
      nextId := nextId + 1;
      r := if f.Answered? && known then Conflict else ReplyOf(f, user);
      if r.Bad? { tally := tally.(creating := tally.creating + 1); }
      else if r.Broken? || (r.Conflict? && !HasUser(orgs[k].users, email)) {
          tally := tally.(fatal := tally.fatal + 1); }
    }

    method ListUsers(ghost i: nat, orgId: nat) returns (r: Reply<seq<User>>)
      requires IdsDistinct(orgs, nextId) && i < |orgs| && orgs[i].id == orgId
      modifies this`clock, this`tally
      ensures r == ReplyOf(fate(old(clock)), orgs[i].users) && clock == old(clock) + 1
      ensures tally == if r.Good? then old(tally) else old(tally).(fatal := old(tally).fatal + 1)
    {
      var f := Tick();
      var k := 0;
      while orgs[k].id != orgId
        invariant 0 <= k <= i
        decreases i - k
      {
        k := k + 1;
      }
      r := ReplyOf(f, orgs[k].users);
      if !r.Good? { tally := tally.(fatal := tally.fatal + 1); }
    }

    ghost function Setback<T>(r: Reply<T>, t: Tally): Tally {
      if r.Good? then t
      else if r.Broken? then t.(fatal := t.fatal + 1)
      else t.(granting := t.granting + 1)
    }

    method ListRoles() returns (r: Reply<seq<Entry>>)
      modifies this`clock, this`tally
      ensures r == ReplyOf(fate(old(clock)), roles) && clock == old(clock) + 1
      ensures tally == Setback(r, old(tally))
    {
      var f := Tick();
      r := ReplyOf(f, roles);
      tally := Setback(r, tally);
    }

    method PutRoles(orgId: nat, userId: nat, roleIds: seq<nat>) returns (r: Reply<()>)
      modifies this`clock, this`tally, this`roleWrites
      ensures r == ReplyOf(fate(old(clock)), ()) && clock == old(clock) + 1
      ensures roleWrites == old(roleWrites) +
                (if EffectOf(fate(old(clock))) == Nothing then [] else [RoleWrite(orgId, userId, roleIds)])
      ensures tally == Setback(r, old(tally))
    {
      var f := Tick();
      if EffectOf(f) != Nothing { roleWrites := roleWrites + [RoleWrite(orgId, userId, roleIds)]; }
      r := ReplyOf(f, ());
      tally := Setback(r, tally);
    }

    /*** the script ***/

    /** Nothing about plan and members keeps the owner from becoming one. */
    predicate Admits(orgs: seq<Organization>, name: string, plan: string, email: string) {
      if HasOrg(orgs, name) then OrgOf(orgs, name).users == [] || HasUser(OrgOf(orgs, name).users, email)
      else LocateEntry(plans, plan) < |plans|
    }

    /** Nothing about plan, role and members rules success out. */
    predicate Ready(orgs: seq<Organization>, name: string, plan: string, email: string) {
      LocateEntry(roles, "org_admin") < |roles| && Admits(orgs, name, plan, email)
    }

    method FindOrg(name: string) returns (r: Reply<Option<Organization>>)
      modifies this`clock, this`tally
      ensures r.Good? ==> r.value == if HasOrg(orgs, name) then Some(OrgOf(orgs, name)) else None
      ensures tally == if r.Good? then old(tally) else old(tally).(fatal := old(tally).fatal + 1)
    {
      var listing := ListOrganizations();
      if !listing.Good? { return Bad; }
      r := Good(if HasOrg(listing.value, name) then Some(OrgOf(listing.value, name)) else None);
    }

    /** Create the organization with its owner, and look again when that failed. */
    method CreateThenLook(name: string, email: string) returns (a: Attempt, org: Option<Organization>)
      requires IdsDistinct(orgs, nextId) && AtMostOne(orgs, name) && !HasOrg(orgs, name)
      modifies this`clock, this`tally, this`orgs, this`nextId
      ensures IdsDistinct(orgs, nextId) && AtMostOne(orgs, name) && Kept(old(orgs), orgs, name, email)
      ensures a.Done? ==>
                && tally == old(tally) && Seeded(orgs, name, email) && org == Some(OrgOf(orgs, name))
                && a.owner == Some(OrgOf(orgs, name).users[LocateUser(OrgOf(orgs, name).users, email)].id)
      ensures a.Again? ==>
                && tally == old(tally).(creating := old(tally).creating + 1)
                && org == if HasOrg(orgs, name) then Some(OrgOf(orgs, name)) else None
      ensures tally.granting == old(tally).granting && tally.fatal >= old(tally).fatal
      ensures a.Stop? ==> tally.fatal > old(tally).fatal
    {
      a, org := Stop, None;
      ghost var was := orgs;
      KeptSame(was, name, email);
      var created := CreateWithOwner(name, email);
      OrgCreated(was, was, orgs, if orgs == was then Organization(0, name, []) else orgs[|was|], name, email);
      if created.Good? { return Done(Some(created.value.users[0].id)), Some(created.value); }
      if created.Broken? { return; }
      var again := FindOrg(name);
      if again.Good? { a, org := Again, again.value; }
    }

    /** An attempt while the organization is not there needs the plan, and then creates both. */
    method AttemptCreate(name: string, plan: string, email: string) returns (a: Attempt, org: Option<Organization>)
      requires IdsDistinct(orgs, nextId) && AtMostOne(orgs, name) && !HasOrg(orgs, name)
      modifies this`clock, this`tally, this`orgs, this`nextId
      ensures IdsDistinct(orgs, nextId) && AtMostOne(orgs, name) && Kept(old(orgs), orgs, name, email)
      ensures a.Done? ==>
                && tally == old(tally) && Seeded(orgs, name, email) && org == Some(OrgOf(orgs, name))
                && a.owner == Some(OrgOf(orgs, name).users[LocateUser(OrgOf(orgs, name).users, email)].id)
      ensures a.Again? ==>
                && tally == old(tally).(creating := old(tally).creating + 1)
                && org == if HasOrg(orgs, name) then Some(OrgOf(orgs, name)) else None
      ensures tally.granting == old(tally).granting && tally.fatal >= old(tally).fatal
      ensures a.Stop? ==> LocateEntry(plans, plan) == |plans| || tally.fatal > old(tally).fatal
      ensures !a.Stop? ==> LocateEntry(plans, plan) < |plans|
    {
      a, org := Stop, None;
      KeptSame(orgs, name, email);
      var listing := ListPlans();
      if listing.Good? && LocateEntry(listing.value, plan) < |listing.value| {
        a, org := CreateThenLook(name, email);
      }
    }

    /** An attempt while it is there: add the owner. A conflict leaves the owner to be looked up. */
    method AttemptOwner(name: string, email: string, orgId: nat) returns (a: Attempt)
      requires IdsDistinct(orgs, nextId) && AtMostOne(orgs, name) && HasOrg(orgs, name) && OrgOf(orgs, name).id == orgId
      modifies this`clock, this`tally, this`orgs, this`nextId
      ensures IdsDistinct(orgs, nextId) && AtMostOne(orgs, name) && Kept(old(orgs), orgs, name, email)
      ensures HasOrg(orgs, name) && OrgOf(orgs, name).id == orgId
      ensures a.Done? && a.owner.Some? ==>
                && tally == old(tally) && Seeded(orgs, name, email) && !Seeded(old(orgs), name, email)
                && a.owner.value == OrgOf(orgs, name).users[LocateUser(OrgOf(orgs, name).users, email)].id
      ensures a.Done? && a.owner.None? ==>
                tally == if Seeded(orgs, name, email) then old(tally) else old(tally).(fatal := old(tally).fatal + 1)
      ensures a.Again? ==> tally == old(tally).(creating := old(tally).creating + 1)
      ensures a.Stop? ==> tally == old(tally).(fatal := old(tally).fatal + 1)
    {
      ghost var was, i := orgs, LocateOrg(orgs, name);
      KeptSame(was, name, email);
      var user := CreateUser(i, orgId, email);
      OwnerAdded(was, was, orgs, nextId - 1, name, email);
      match user {
        case Good(u) => a := Done(Some(u.id));
        case Conflict => a := Done(None);
        case Bad => a := Again;
        case Broken => a := Stop;
      }
    }

    /**
     * The first retry loop: up to three attempts, each doing only what the last look showed to be
     * missing. `owner` is known when the server reported it, and looked up later when it did not.
     */
    method EnsureOwner(name: string, plan: string, email: string, found: Option<Organization>)
      returns (ok: bool, org: Option<Organization>, owner: Option<nat>)
      requires IdsDistinct(orgs, nextId) && AtMostOne(orgs, name)
      requires found == if HasOrg(orgs, name) then Some(OrgOf(orgs, name)) else None
      modifies this`clock, this`tally, this`orgs, this`nextId
      ensures IdsDistinct(orgs, nextId) && AtMostOne(orgs, name) && Kept(old(orgs), orgs, name, email)
      ensures tally.granting == old(tally).granting && tally.fatal >= old(tally).fatal
      ensures ok ==> HasOrg(orgs, name) && org.Some? && org.value.id == OrgOf(orgs, name).id
      ensures ok && owner.Some? ==>
                && Seeded(orgs, name, email) && !Seeded(old(orgs), name, email)
                && owner.value == OrgOf(orgs, name).users[LocateUser(OrgOf(orgs, name).users, email)].id
      ensures ok ==> tally.creating < old(tally).creating + 3
      ensures ok ==> (tally.fatal == old(tally).fatal <==> Seeded(orgs, name, email))
      ensures ok && !HasOrg(old(orgs), name) ==> LocateEntry(plans, plan) < |plans|
      ensures !ok ==> || tally.fatal > old(tally).fatal || tally.creating >= old(tally).creating + 3
                      || (!HasOrg(old(orgs), name) && LocateEntry(plans, plan) == |plans|)
    {
      org, owner := found, None;
      KeptSame(orgs, name, email);
      var attempt := 0;
      while attempt < 3
        invariant 0 <= attempt <= 3
        invariant IdsDistinct(orgs, nextId) && AtMostOne(orgs, name) && Kept(old(orgs), orgs, name, email)
        invariant tally == old(tally).(creating := old(tally).creating + attempt)
        invariant org.Some? <==> HasOrg(orgs, name)
        invariant org.Some? ==> org.value.id == OrgOf(orgs, name).id
        invariant attempt == 0 ==> orgs == old(orgs)
        invariant attempt > 0 && !HasOrg(old(orgs), name) ==> LocateEntry(plans, plan) < |plans|
      {
        ghost var was := orgs;
        var a;
        if org.None? {
          if HasOrg(old(orgs), name) { LocatePinned(old(orgs), was, name, email); }
          a, org := AttemptCreate(name, plan, email);
        } else {
          a := AttemptOwner(name, email, org.value.id);
        }
        KeptTwice(old(orgs), was, orgs, name, email);
        if !Seeded(was, name, email) { SeededBefore(old(orgs), was, name, email); }
        if a.Done? { return true, org, a.owner; }
        if a.Stop? { return false, org, None; }
        attempt := attempt + 1;
      }
      ok := false;
    }

    /** The owner's user id, when the server did not report it. */
    method LookUpOwner(name: string, email: string, orgId: nat) returns (owner: Option<nat>)
      requires IdsDistinct(orgs, nextId) && HasOrg(orgs, name) && OrgOf(orgs, name).id == orgId
      modifies this`clock, this`tally
      ensures tally == old(tally).(fatal := tally.fatal) && tally.fatal >= old(tally).fatal
      ensures owner.Some? <==> Seeded(orgs, name, email) && tally.fatal == old(tally).fatal
      ensures owner.Some? ==> owner.value == OrgOf(orgs, name).users[LocateUser(OrgOf(orgs, name).users, email)].id
    {
      var members := ListUsers(LocateOrg(orgs, name), orgId);
      if !members.Good? || !HasUser(members.value, email) { return None; }
      owner := Some(members.value[LocateUser(members.value, email)].id);
    }

    /** The second retry loop: up to three attempts to look the role up and write it. */
    method GrantRole(orgId: nat, owner: nat) returns (ok: bool)
      modifies this`clock, this`tally, this`roleWrites
      ensures old(roleWrites) <= roleWrites
      ensures AllAdminWrites(roleWrites, |old(roleWrites)|, orgId, owner, roles)
      ensures ok ==> |roleWrites| > |old(roleWrites)|
      ensures tally.creating == old(tally).creating && tally.fatal >= old(tally).fatal
      ensures ok <==> && LocateEntry(roles, "org_admin") < |roles|
                      && tally.fatal == old(tally).fatal && tally.granting < old(tally).granting + 3
    {
      var attempt := 0;
      while attempt < 3
        invariant 0 <= attempt <= 3
        invariant old(roleWrites) <= roleWrites
        invariant AllAdminWrites(roleWrites, |old(roleWrites)|, orgId, owner, roles)
        invariant tally.creating == old(tally).creating && tally.fatal == old(tally).fatal
        invariant LocateEntry(roles, "org_admin") < |roles| ==> tally.granting == old(tally).granting + attempt
      {
        var listing := ListRoles();
        if listing.Broken? { return false; }
        if listing.Good? && LocateEntry(listing.value, "org_admin") < |listing.value| {
          var role := listing.value[LocateEntry(listing.value, "org_admin")].id;
          ghost var was := roleWrites;
          var put := PutRoles(orgId, owner, [role]);
          assert roleWrites == was || roleWrites == was + [AdminWrite(orgId, owner, roles)];
          if put.Broken? { return false; }
          if put.Good? { return true; }
        }
        attempt := attempt + 1;
      }
      ok := false;
    }

    /** The run up to the point where the owner's user id is known. */
    method EnsureMember(name: string, plan: string, email: string)
      returns (owner: Option<nat>, orgId: nat, skipped: bool)
      requires IdsDistinct(orgs, nextId) && AtMostOne(orgs, name)
      modifies this`clock, this`tally, this`orgs, this`nextId
      ensures IdsDistinct(orgs, nextId) && AtMostOne(orgs, name) && Kept(old(orgs), orgs, name, email)
      ensures tally.granting == old(tally).granting && tally.fatal >= old(tally).fatal
      ensures owner.Some? ==>
                && Seeded(orgs, name, email) && orgId == OrgOf(orgs, name).id
                && owner.value == OrgOf(orgs, name).users[LocateUser(OrgOf(orgs, name).users, email)].id
      ensures owner.Some? && Seeded(old(orgs), name, email) ==> skipped
      ensures owner.Some? <==> && Admits(old(orgs), name, plan, email) && tally.fatal == old(tally).fatal
                               && tally.creating < old(tally).creating + 3
    {
      owner, orgId, skipped := None, 0, false;
      KeptSame(orgs, name, email);
      var found := FindOrg(name);
      if !found.Good? { return; }
      var org := found.value;
      skipped := org.Some? && org.value.users != [];
      if !skipped {
        var ok;
        ok, org, owner := EnsureOwner(name, plan, email, org);
        if !ok { return None, 0, skipped; }
        skipped := owner.None?;
      }
      orgId := org.value.id;
      if owner.None? { owner := LookUpOwner(name, email, orgId); }
    }

    /**
     * One run. Whatever calls fail, with or without their effect, at most one organization of the name
     * exists, no other organization changes, and no role is written but the owner's. Exit 0 means the
     * owner is a member and the last role write made that very user administrator. And a run exits 0
     * exactly when nothing about plan, role and members rules it out and each loop saw at most two
     * failures it can absorb and none it cannot.
     */
    method Seed(name: string, plan: string, email: string) returns (code: nat, skipped: bool)
      requires IdsDistinct(orgs, nextId) && AtMostOne(orgs, name)
      modifies this`clock, this`tally, this`orgs, this`nextId, this`roleWrites
      ensures IdsDistinct(orgs, nextId) && AtMostOne(orgs, name) && Kept(old(orgs), orgs, name, email)
      ensures old(roleWrites) <= roleWrites && OnlyGrants(roleWrites, |old(roleWrites)|, orgs, name, email, roles)
      ensures code == 0 ==>
                && Seeded(orgs, name, email) && LocateEntry(roles, "org_admin") < |roles|
                && |roleWrites| > |old(roleWrites)| && roleWrites[|roleWrites| - 1] == Grant(orgs, name, email, roles)
      ensures code == 0 && Seeded(old(orgs), name, email) ==> skipped
      ensures code == 0 <==> && Ready(old(orgs), name, plan, email) && tally.fatal == old(tally).fatal
                             && tally.creating < old(tally).creating + 3 && tally.granting < old(tally).granting + 3
    {
      code := 1;
      var owner, orgId;
      owner, orgId, skipped := EnsureMember(name, plan, email);
      if owner.None? { return; }
      var granted := GrantRole(orgId, owner.value);
      code := if granted then 0 else 1;
    }

    /**
     * Any number of runs, each possibly cut short at any of its calls. Still at most one organization of
     * the name; and once a run has exited 0, the owner stays a member and the last role write his grant.
     */
    method SeedRepeatedly(name: string, plan: string, email: string, runs: nat) returns (codes: seq<nat>)
      requires IdsDistinct(orgs, nextId) && AtMostOne(orgs, name)
      modifies this`clock, this`tally, this`orgs, this`nextId, this`roleWrites
      ensures |codes| == runs
      ensures AtMostOne(orgs, name) && Kept(old(orgs), orgs, name, email)
      ensures OnlyGrants(roleWrites, |old(roleWrites)|, orgs, name, email, roles)
      ensures 0 in codes ==>
                && Seeded(orgs, name, email) && LocateEntry(roles, "org_admin") < |roles|
                && |roleWrites| > |old(roleWrites)| && roleWrites[|roleWrites| - 1] == Grant(orgs, name, email, roles)
    {
      codes := [];
      KeptSame(orgs, name, email);
      for n := 0 to runs
        invariant |codes| == n && IdsDistinct(orgs, nextId)
        invariant AtMostOne(orgs, name) && Kept(old(orgs), orgs, name, email)
        invariant old(roleWrites) <= roleWrites
        invariant OnlyGrants(roleWrites, |old(roleWrites)|, orgs, name, email, roles)
        invariant 0 in codes ==>
                    && Seeded(orgs, name, email) && LocateEntry(roles, "org_admin") < |roles|
                    && |roleWrites| > |old(roleWrites)|
                    && roleWrites[|roleWrites| - 1] == Grant(orgs, name, email, roles)
      {
        ghost var was, writes := orgs, roleWrites;
        var code, _ := Seed(name, plan, email);
        KeptTwice(old(orgs), was, orgs, name, email);
        GrantsCarry(was, orgs, writes, roleWrites, |old(roleWrites)|, name, email, roles);
        if Seeded(was, name, email) { SeededStays(was, orgs, name, email, roles); }
        codes := codes + [code];
      }
    }
  }
}
