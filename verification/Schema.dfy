/**
 The six tables, the constraints SQLite enforces on them, and every SQL write the
 handlers issue. A transaction is the list of writes it commits.
 */
module Schema {
  import opened Wrappers
  import opened Timestamps

  /** SHA-256 as an injective function. */
  datatype Hash = Sha256(preimage: string)

  datatype Role = RegularUser | Administrator
  datatype Status = Active | Blocked

  datatype User = User(username: string, email: string, fullName: Option<string>, role: Role, status: Status,
                       provider: string, providerId: string, createdAt: nat, updatedAt: nat)

  datatype ApiKey = ApiKey(user: string, hash: Hash, days: nat, expiresAt: Option<nat>,
                           revokedAt: Option<nat>, createdAt: nat)

  datatype Pat = Pat(user: string, name: string, hash: Hash, perms: seq<string>, days: nat,
                     expiresAt: Option<nat>, revokedAt: Option<nat>, createdAt: nat)

  datatype Org = Org(name: string, slug: string, url: string, owner: Option<string>, status: Status,
                     createdAt: nat, updatedAt: nat)

  datatype Tables = Tables(
    users: map<string, User>,
    keys: map<string, ApiKey>,
    pats: map<string, Pat>,
    orgs: map<string, Org>,
    members: map<(string, string), nat>,  // (org, user) to created_at
    adminEmail: Option<string>,
    adminHash: Option<Hash>)

  /** What FormatTime keeps of an instant. */
  function Truncated(t: nat): nat { t - t % SECOND }

  function DaysLater(t: nat, days: nat): nat { t + days * 86_400_000_000_000 }

  /** NULL for an indefinite credential. */
  function ExpiryOf(t: nat, days: nat): Option<nat> {
    if days == 0 then None else Some(Truncated(DaysLater(t, days)))
  }

  predicate IsActiveAdmin(u: User) { u.role == Administrator && u.status == Active }

  function ActiveAdmins(users: map<string, User>): set<string> {
    set i | i in users && IsActiveAdmin(users[i])
  }

  function Admins(users: map<string, User>): set<string> {
    set i | i in users && users[i].role == Administrator
  }

  // ---- Hooks ----

  /** A hook returns the transaction's new state or an error that may be a constraint failure
      or carry its own HTTP status. */
  datatype HookResult = HookOk(db: Tables) | HookFailed(conflict: bool, status: Option<nat>)

  type Hook = (Tables, string) -> HookResult

  /** Hooks that leave a table of the store alone. */
  ghost predicate LeavesUsers(hook: Hook) {
    forall db: Tables, id :: hook(db, id).HookOk? ==> hook(db, id).db.users == db.users
  }

  ghost predicate LeavesKeys(hook: Hook) {
    forall db: Tables, id :: hook(db, id).HookOk? ==> hook(db, id).db.keys == db.keys
  }

  ghost predicate LeavesPats(hook: Hook) {
    forall db: Tables, id :: hook(db, id).HookOk? ==> hook(db, id).db.pats == db.pats
  }

  // ---- Writes ----

  datatype Write =
    | NewUser(id: string, user: User)
    | LoginUser(id: string, username: Option<string>, email: string, at: nat)
    | SetFullName(id: string, name: string, at: nat)
    | SetRole(id: string, role: Role, at: nat)
    | SetStatus(id: string, status: Status, at: nat)
    | ClearOwner(id: string)
    | DropKeysOf(id: string)
    | DropPatsOf(id: string)
    | DropMembershipsOf(id: string)
    | DropUser(id: string)
    | RevokeKeysOf(id: string, at: nat)
    | NewKey(keyId: string, key: ApiKey)
    | RevokeKey(keyId: string, id: string, at: nat)
    | RefreshKey(keyId: string, id: string, hash: Hash, expiresAt: Option<nat>, at: nat)
    | NewPat(tokenId: string, pat: Pat)
    | SetPerms(tokenId: string, id: string, perms: seq<string>, revokedAt: Option<nat>)
    | RevokePat(tokenId: string, id: string, at: nat)
    | NewOrg(orgId: string, org: Org)
    | SetOrg(orgId: string, newName: Option<string>, newUrl: Option<string>, newStatus: Option<Status>, at: nat)
    | DropOrg(orgId: string)
    | NewMember(orgId: string, id: string, at: nat)
    | DropMember(orgId: string, id: string)
    | RunHook(hook: Hook, id: string)

  function WithLogin(u: User, username: Option<string>, email: string, at: nat): User {
    u.(username := if username.Some? then username.value else u.username, email := email, updatedAt := at)
  }

  function WithOrg(o: Org, name: Option<string>, url: Option<string>, status: Option<Status>, at: nat): Org {
    o.(name := if name.Some? then name.value else o.name,
       url := if url.Some? then url.value else o.url,
       status := if status.Some? then status.value else o.status,
       updatedAt := at)
  }

  function RevokedAll(keys: map<string, ApiKey>, id: string, at: nat): map<string, ApiKey> {
    map k | k in keys :: if keys[k].user == id && keys[k].revokedAt == None
                         then keys[k].(revokedAt := Some(at)) else keys[k]
  }

  function KeysNotOf(keys: map<string, ApiKey>, id: string): map<string, ApiKey> {
    map k | k in keys && keys[k].user != id :: keys[k]
  }

  function PatsNotOf(pats: map<string, Pat>, id: string): map<string, Pat> {
    map k | k in pats && pats[k].user != id :: pats[k]
  }

  function MembershipsNotOf(members: map<(string, string), nat>, id: string): map<(string, string), nat> {
    map m | m in members && m.1 != id :: members[m]
  }

  function MembershipsOutside(members: map<(string, string), nat>, orgId: string): map<(string, string), nat> {
    map m | m in members && m.0 != orgId :: members[m]
  }

  function Unowned(orgs: map<string, Org>, id: string): map<string, Org> {
    map o | o in orgs :: if orgs[o].owner == Some(id) then orgs[o].(owner := None) else orgs[o]
  }

  predicate KeyOf(keys: map<string, ApiKey>, keyId: string, id: string) {
    keyId in keys && keys[keyId].user == id
  }

  predicate PatOf(pats: map<string, Pat>, tokenId: string, id: string) {
    tokenId in pats && pats[tokenId].user == id
  }

  function Apply(db: Tables, w: Write): Tables {
    match w
    case NewUser(id, user) => db.(users := db.users[id := user])
    case LoginUser(id, username, email, at) =>
      if id in db.users then db.(users := db.users[id := WithLogin(db.users[id], username, email, at)]) else db
    case SetFullName(id, name, at) =>
      if id in db.users then
        db.(users := db.users[id := db.users[id].(fullName := Some(name), updatedAt := at)]) else db
    case SetRole(id, role, at) =>
      if id in db.users then db.(users := db.users[id := db.users[id].(role := role, updatedAt := at)]) else db
    case SetStatus(id, status, at) =>
      if id in db.users then db.(users := db.users[id := db.users[id].(status := status, updatedAt := at)]) else db
    case ClearOwner(id) => db.(orgs := Unowned(db.orgs, id))
    case DropKeysOf(id) => db.(keys := KeysNotOf(db.keys, id))
    case DropPatsOf(id) => db.(pats := PatsNotOf(db.pats, id))
    case DropMembershipsOf(id) => db.(members := MembershipsNotOf(db.members, id))
    case DropUser(id) =>  // with the ON DELETE CASCADE actions
      db.(users := db.users - {id}, keys := KeysNotOf(db.keys, id), pats := PatsNotOf(db.pats, id),
          members := MembershipsNotOf(db.members, id))
    case RevokeKeysOf(id, at) => db.(keys := RevokedAll(db.keys, id, at))
    case NewKey(keyId, key) => db.(keys := db.keys[keyId := key])
    case RevokeKey(keyId, id, at) =>
      if KeyOf(db.keys, keyId, id) then
        db.(keys := db.keys[keyId := db.keys[keyId].(revokedAt := Some(at))]) else db
    case RefreshKey(keyId, id, hash, expiresAt, at) =>
      if KeyOf(db.keys, keyId, id) then
        db.(keys := db.keys[keyId := db.keys[keyId].(hash := hash, expiresAt := expiresAt, createdAt := at)])
      else db
    case NewPat(tokenId, pat) => db.(pats := db.pats[tokenId := pat])
    case SetPerms(tokenId, id, perms, revokedAt) =>
      if PatOf(db.pats, tokenId, id) then
        var p := db.pats[tokenId];
        db.(pats := db.pats[tokenId := p.(perms := perms,
                                          revokedAt := if revokedAt.Some? then revokedAt else p.revokedAt)])
      else db
    case RevokePat(tokenId, id, at) =>
      if PatOf(db.pats, tokenId, id) then
        db.(pats := db.pats[tokenId := db.pats[tokenId].(revokedAt := Some(at))]) else db
    case NewOrg(orgId, org) => db.(orgs := db.orgs[orgId := org])
    case SetOrg(orgId, name, url, status, at) =>
      if orgId in db.orgs then db.(orgs := db.orgs[orgId := WithOrg(db.orgs[orgId], name, url, status, at)]) else db
    case DropOrg(orgId) =>
      db.(orgs := db.orgs - {orgId}, members := MembershipsOutside(db.members, orgId))
    case NewMember(orgId, id, at) => db.(members := db.members[(orgId, id) := at])
    case DropMember(orgId, id) => db.(members := db.members - {(orgId, id)})
    case RunHook(hook, id) => (match hook(db, id) case HookOk(next) => next case HookFailed(_, _) => db)
  }

  function ApplyAll(db: Tables, ws: seq<Write>): Tables
    decreases |ws|
  {
    if ws == [] then db else ApplyAll(Apply(db, ws[0]), ws[1..])
  }

  lemma ApplyOne(db: Tables, w: Write)
    ensures ApplyAll(db, [w]) == Apply(db, w)
  {
    assert ApplyAll(Apply(db, w), [w][1..]) == Apply(db, w);
  }

  lemma {:induction false} ApplyConcat(db: Tables, a: seq<Write>, b: seq<Write>)
    ensures ApplyAll(db, a + b) == ApplyAll(ApplyAll(db, a), b)
    decreases |a|
  {
    if a == [] {
      assert a + b == b;
    } else {
      ApplyConcat(Apply(db, a[0]), a[1..], b);
      assert (a + b)[1..] == a[1..] + b;
    }
  }

  lemma ApplyFive(db: Tables, a: Write, b: Write, c: Write, d: Write, e: Write)
    ensures ApplyAll(db, [a, b, c, d, e]) == Apply(Apply(Apply(Apply(Apply(db, a), b), c), d), e)
  {
    hide Apply;
    ApplyConcat(db, [a, b, c, d], [e]);
    ApplyConcat(db, [a, b, c], [d]);
    ApplyConcat(db, [a, b], [c]);
    ApplyConcat(db, [a], [b]);
    ApplyOne(db, a);
    ApplyOne(Apply(db, a), b);
    assert [a] + [b] == [a, b] && [a, b] + [c] == [a, b, c];
    assert [a, b, c] + [d] == [a, b, c, d] && [a, b, c, d] + [e] == [a, b, c, d, e];
    ApplyOne(ApplyAll(db, [a, b]), c);
    ApplyOne(ApplyAll(db, [a, b, c]), d);
    ApplyOne(ApplyAll(db, [a, b, c, d]), e);
  }

  // ---- Constraints ----

  ghost predicate UniqueUsers(users: map<string, User>) {
    forall i, j :: i in users && j in users && i != j ==>
      && users[i].username != users[j].username
      && users[i].email != users[j].email
      && (users[i].provider, users[i].providerId) != (users[j].provider, users[j].providerId)
  }

  ghost predicate UniqueOrgs(orgs: map<string, Org>) {
    forall i, j :: i in orgs && j in orgs && i != j ==>
      orgs[i].name != orgs[j].name && orgs[i].slug != orgs[j].slug
  }

  /** Every constraint of the schema: uniqueness and foreign keys. */
  ghost predicate Consistent(db: Tables) {
    && UniqueUsers(db.users)
    && UniqueOrgs(db.orgs)
    && References(db)
  }

  ghost predicate References(db: Tables) { KeysRefer(db) && PatsRefer(db) && MembersRefer(db) }

  ghost predicate KeysRefer(db: Tables) { forall k :: k in db.keys ==> db.keys[k].user in db.users }

  ghost predicate PatsRefer(db: Tables) { forall k :: k in db.pats ==> db.pats[k].user in db.users }

  ghost predicate MembersRefer(db: Tables) { forall m :: m in db.members ==> m.0 in db.orgs && m.1 in db.users }

  /** How SQLite answers a write. When several constraints fail at once only one is reported. */
  datatype Verdict = Accepted | DupUsername | DupOther | DupId | ForeignKey

  predicate UsernameTaken(users: map<string, User>, name: string, self: string) {
    exists i :: i in users && i != self && users[i].username == name
  }

  predicate EmailTaken(users: map<string, User>, email: string, self: string) {
    exists i :: i in users && i != self && users[i].email == email
  }

  predicate IdentityTaken(users: map<string, User>, provider: string, providerId: string) {
    exists i :: i in users && users[i].provider == provider && users[i].providerId == providerId
  }

  predicate OrgNameTaken(orgs: map<string, Org>, name: string, self: string) {
    exists i :: i in orgs && i != self && orgs[i].name == name
  }

  predicate SlugTaken(orgs: map<string, Org>, slug: string) {
    exists i :: i in orgs && orgs[i].slug == slug
  }

  /** usernameFirst settles which failure is reported when the username is not the only one. */
  function Check(db: Tables, w: Write, usernameFirst: bool): Verdict {
    match w
    case NewUser(id, u) =>
      var name := UsernameTaken(db.users, u.username, id) || (id in db.users && db.users[id].username == u.username);
      var other := EmailTaken(db.users, u.email, id) || IdentityTaken(db.users, u.provider, u.providerId);
      if name && (usernameFirst || !(other || id in db.users)) then DupUsername
      else if other then DupOther
      else if id in db.users then DupId
      else Accepted
    case LoginUser(id, username, email, at) =>
      if id !in db.users then Accepted else
      var name := username.Some? && UsernameTaken(db.users, username.value, id);
      var other := EmailTaken(db.users, email, id);
      if name && (usernameFirst || !other) then DupUsername
      else if other then DupOther
      else Accepted
    case NewKey(keyId, key) =>
      if keyId in db.keys then DupId else if key.user !in db.users then ForeignKey else Accepted
    case NewPat(tokenId, pat) =>
      if tokenId in db.pats then DupId else if pat.user !in db.users then ForeignKey else Accepted
    case NewOrg(orgId, org) =>
      if OrgNameTaken(db.orgs, org.name, orgId) || SlugTaken(db.orgs, org.slug) then DupOther
      else if orgId in db.orgs then DupId
      else Accepted
    case SetOrg(orgId, name, url, status, at) =>
      if orgId in db.orgs && name.Some? && OrgNameTaken(db.orgs, name.value, orgId) then DupOther else Accepted
    case NewMember(orgId, id, at) =>
      if (orgId, id) in db.members then DupId
      else if orgId !in db.orgs || id !in db.users then ForeignKey
      else Accepted
    case _ => Accepted
  }

  /** Writes no constraint can refuse. */
  predicate Unconditional(w: Write) {
    !w.NewUser? && !w.LoginUser? && !w.NewKey? && !w.NewPat? && !w.NewOrg? && !w.NewMember? && !w.RunHook?
    && (w.SetOrg? ==> w.newName == None)
  }

  predicate TouchesUsers(w: Write) {
    w.NewUser? || w.LoginUser? || w.SetFullName? || w.SetRole? || w.SetStatus? || w.DropUser?
  }

  predicate TouchesOrgs(w: Write) {
    w.ClearOwner? || w.NewOrg? || w.SetOrg? || w.DropOrg?
  }

  predicate TouchesKeys(w: Write) {
    w.NewKey? || w.RevokeKeysOf? || w.RevokeKey? || w.RefreshKey? || w.DropKeysOf? || w.DropUser? || w.RunHook?
  }

  predicate TouchesPats(w: Write) {
    w.NewPat? || w.SetPerms? || w.RevokePat? || w.DropPatsOf? || w.DropUser? || w.RunHook?
  }

  predicate TouchesMembers(w: Write) {
    w.NewMember? || w.DropMember? || w.DropMembershipsOf? || w.DropUser? || w.DropOrg? || w.RunHook?
  }

  lemma MembersUntouchedBy(db: Tables, w: Write)
    requires !TouchesMembers(w)
    ensures Apply(db, w).members == db.members
  {
    hide KeysNotOf, PatsNotOf, MembershipsNotOf, MembershipsOutside, Unowned, RevokedAll;
  }

  lemma KeysUntouchedBy(db: Tables, w: Write)
    requires !TouchesKeys(w)
    ensures Apply(db, w).keys == db.keys
  {
    hide KeysNotOf, PatsNotOf, MembershipsNotOf, MembershipsOutside, Unowned, RevokedAll;
  }

  lemma PatsUntouchedBy(db: Tables, w: Write)
    requires !TouchesPats(w)
    ensures Apply(db, w).pats == db.pats
  {
    hide KeysNotOf, PatsNotOf, MembershipsNotOf, MembershipsOutside, Unowned, RevokedAll;
  }

  lemma UserPut(users: map<string, User>, id: string, u: User)
    requires UniqueUsers(users)
    requires !UsernameTaken(users, u.username, id) && !EmailTaken(users, u.email, id)
    requires forall i :: i in users && i != id ==>
               (users[i].provider, users[i].providerId) != (u.provider, u.providerId)
    ensures UniqueUsers(users[id := u])
  {
  }

  lemma UserWritesKeepUnique(db: Tables, w: Write, usernameFirst: bool)
    requires UniqueUsers(db.users) && TouchesUsers(w) && Check(db, w, usernameFirst) == Accepted
    ensures UniqueUsers(Apply(db, w).users)
  {
    if w.NewUser? {
      UserPut(db.users, w.id, w.user);
    } else if !w.DropUser? && w.id in db.users {
      UserPut(db.users, w.id, Apply(db, w).users[w.id]);
    }
  }

  lemma OrgPut(orgs: map<string, Org>, id: string, o: Org)
    requires UniqueOrgs(orgs) && !OrgNameTaken(orgs, o.name, id)
    requires forall i :: i in orgs && i != id ==> orgs[i].slug != o.slug
    ensures UniqueOrgs(orgs[id := o])
  {
  }

  lemma OrgWritesKeepUnique(db: Tables, w: Write, usernameFirst: bool)
    requires UniqueOrgs(db.orgs) && TouchesOrgs(w) && Check(db, w, usernameFirst) == Accepted
    ensures UniqueOrgs(Apply(db, w).orgs)
  {
    hide KeysNotOf, PatsNotOf, MembershipsNotOf, MembershipsOutside, RevokedAll;
    if w.NewOrg? {
      OrgPut(db.orgs, w.orgId, w.org);
    } else if w.SetOrg? && w.orgId in db.orgs {
      OrgPut(db.orgs, w.orgId, Apply(db, w).orgs[w.orgId]);
    }
  }

  /** Only deletions make the tables referred to smaller. */
  lemma TargetsStay(db: Tables, w: Write)
    requires !w.RunHook?
    ensures !w.DropUser? ==> db.users.Keys <= Apply(db, w).users.Keys
    ensures !w.DropOrg? ==> db.orgs.Keys <= Apply(db, w).orgs.Keys
  {
    hide KeysNotOf, PatsNotOf, MembershipsNotOf, MembershipsOutside, RevokedAll;
  }

  lemma KeysStillRefer(db: Tables, w: Write, usernameFirst: bool)
    requires KeysRefer(db) && Check(db, w, usernameFirst) == Accepted && !w.RunHook?
    ensures KeysRefer(Apply(db, w))
  {
    TargetsStay(db, w);
    if TouchesKeys(w) { KeysReferAfter(db, w, usernameFirst); }
    else {
      hide Apply, Check;
      KeysUntouchedBy(db, w);
    }
  }

  lemma KeysReferAfter(db: Tables, w: Write, usernameFirst: bool)
    requires KeysRefer(db) && TouchesKeys(w) && Check(db, w, usernameFirst) == Accepted && !w.RunHook?
    ensures KeysRefer(Apply(db, w))
  {
    hide PatsNotOf, MembershipsNotOf, MembershipsOutside, Unowned,
      UsernameTaken, EmailTaken, IdentityTaken, OrgNameTaken, SlugTaken;
  }

  lemma PatsStillRefer(db: Tables, w: Write, usernameFirst: bool)
    requires PatsRefer(db) && Check(db, w, usernameFirst) == Accepted && !w.RunHook?
    ensures PatsRefer(Apply(db, w))
  {
    TargetsStay(db, w);
    if TouchesPats(w) { PatsReferAfter(db, w, usernameFirst); }
    else {
      hide Apply, Check;
      PatsUntouchedBy(db, w);
    }
  }

  lemma PatsReferAfter(db: Tables, w: Write, usernameFirst: bool)
    requires PatsRefer(db) && TouchesPats(w) && Check(db, w, usernameFirst) == Accepted && !w.RunHook?
    ensures PatsRefer(Apply(db, w))
  {
    hide KeysNotOf, RevokedAll, MembershipsNotOf, MembershipsOutside, Unowned,
      UsernameTaken, EmailTaken, IdentityTaken, OrgNameTaken, SlugTaken;
  }

  lemma MembersStillRefer(db: Tables, w: Write, usernameFirst: bool)
    requires MembersRefer(db) && Check(db, w, usernameFirst) == Accepted && !w.RunHook?
    ensures MembersRefer(Apply(db, w))
  {
    TargetsStay(db, w);
    if TouchesMembers(w) { MembersReferAfter(db, w, usernameFirst); }
    else {
      hide Apply, Check;
      MembersUntouchedBy(db, w);
    }
  }

  lemma MembersReferAfter(db: Tables, w: Write, usernameFirst: bool)
    requires MembersRefer(db) && TouchesMembers(w) && Check(db, w, usernameFirst) == Accepted && !w.RunHook?
    ensures MembersRefer(Apply(db, w))
  {
    hide KeysNotOf, PatsNotOf, RevokedAll, Unowned, UsernameTaken, EmailTaken, IdentityTaken, OrgNameTaken, SlugTaken;
  }

  lemma WritesKeepReferences(db: Tables, w: Write, usernameFirst: bool)
    requires References(db) && Check(db, w, usernameFirst) == Accepted && !w.RunHook?
    ensures References(Apply(db, w))
  {
    hide Apply, Check, KeysRefer, PatsRefer, MembersRefer;
    KeysStillRefer(db, w, usernameFirst);
    PatsStillRefer(db, w, usernameFirst);
    MembersStillRefer(db, w, usernameFirst);
  }

  /** Every accepted write keeps every constraint. */
  lemma AcceptedKeepsConsistent(db: Tables, w: Write, usernameFirst: bool)
    requires Consistent(db) && Check(db, w, usernameFirst) == Accepted
    requires w.RunHook? && w.hook(db, w.id).HookOk? ==> Consistent(w.hook(db, w.id).db)
    ensures Consistent(Apply(db, w))
  {
    hide UniqueUsers, UniqueOrgs, References, UsernameTaken, EmailTaken, IdentityTaken, OrgNameTaken, SlugTaken;
    if !w.RunHook? {
      WritesKeepReferences(db, w, usernameFirst);
      if TouchesUsers(w) { UserWritesKeepUnique(db, w, usernameFirst); }
      if TouchesOrgs(w) { OrgWritesKeepUnique(db, w, usernameFirst); }
    }
  }
}
