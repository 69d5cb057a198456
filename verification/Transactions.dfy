/**
 The three transactions that span several statements: OAuth login, API key
 generation and user deletion. Each is planned against the tables it sees and
 either commits a list of writes or refuses without writing anything.
 */
module Transactions {
  import opened Wrappers
  import opened Decimal
  import opened Sampling
  import opened Schema
  import opened Text

  /** Names of the statements that may fail with an I/O error. */
  datatype Stmt =
    | ReadCredential | ReadOwner | Resolve | ResolveSecond | Fetch | CountAdmins
    | Begin | Recheck | Clear | DropKeys | DropPats | DropMembers | DropRow
    | Update | Fallback | ReadPromotion | Insert | RevokeOld | InsertKey | Commit | Refetch

  /** Everything a step takes from outside: two successive clock readings, a fresh UUID, random bytes,
      which statements fail, which of several violated constraints SQLite reports, and the hooks. */
  datatype Env = Env(now: nat, later: nat, uuid: string, bytes: seq<byte>, faults: set<Stmt>,
                     usernameFirst: bool, hook: Hook, veto: Option<nat>)

  /** A transaction's outcome: committed writes and the credential handed out, or an HTTP status. */
  datatype Plan = Committed(writes: seq<Write>, keyId: string, secret: string) | Refused(status: nat)

  const INTERNAL: nat := 500
  const CONFLICT: nat := 409

  function HookStatus(r: HookResult): nat
    requires r.HookFailed?
  {
    if r.conflict then CONFLICT else INTERNAL
  }

  // ---- Key generation (keys package): revoke, then insert with up to three fresh ids ----

  const MAX_INSERT_ATTEMPTS: nat := 3

  ghost function PlanNewKey(db: Tables, user: string, days: nat, e: Env, stream: seq<byte>, attempts: nat): Plan
    decreases attempts
  {
    if attempts == 0 then Refused(INTERNAL)
    else
      var id := Sample(Letters(KEYS_CHARSET), ID_LENGTH, stream);
      if id.text == None then Refused(INTERNAL)
      else
        var secret := Sample(Letters(KEYS_CHARSET), SECRET_LENGTH, id.rest);
        if secret.text == None then Refused(INTERNAL)
        else
          var key := ApiKey(user, Sha256(secret.text.value), days, ExpiryOf(e.now, days), None, Truncated(e.now));
          var w := NewKey(id.text.value, key);
          if InsertKey in e.faults then Refused(INTERNAL)
          else if Check(db, w, e.usernameFirst) != Accepted then
            PlanNewKey(db, user, days, e, secret.rest, attempts - 1)
          else Committed([w], id.text.value, secret.text.value)
  }

  predicate ValidDays(days: int) { days == 0 || days == 30 || days == 60 || days == 90 }

  ghost function PlanGenerate(db: Tables, user: string, days: int, e: Env): Plan {
    if !ValidDays(days) || Begin in e.faults || RevokeOld in e.faults then Refused(INTERNAL)
    else
      var revoke := RevokeKeysOf(user, Truncated(e.now));
      match PlanNewKey(Apply(db, revoke), user, days, e, e.bytes, MAX_INSERT_ATTEMPTS)
      case Refused(status) => Refused(status)
      case Committed(ws, id, secret) =>
        if Commit in e.faults then Refused(INTERNAL) else Committed([revoke] + ws, id, secret)
  }

  // ---- OAuth login ----

  datatype Login = Login(provider: string, providerId: string, username: string, email: string, days: nat)

  const MAX_USERNAME_ATTEMPTS: nat := 10

  /** base, base-2, base-3, ... */
  function Candidate(base: string, attempt: nat): string {
    if attempt == 0 then base else base + "-" + Dec(attempt + 1)
  }

  ghost predicate HasIdentity(db: Tables, id: string, provider: string, providerId: string) {
    id in db.users && db.users[id].provider == provider && db.users[id].providerId == providerId
  }

  ghost function FindIdentity(db: Tables, provider: string, providerId: string): Option<string> {
    if exists id :: HasIdentity(db, id, provider, providerId) then
      var id :| HasIdentity(db, id, provider, providerId);
      Some(id)
    else None
  }

  /** The new account's role: the designated address, while no account holds the admin role. */
  function NewRole(db: Tables, email: string): Role {
    if db.adminEmail.Some? && EqualFold(db.adminEmail.value, email) && Admins(db.users) == {} then Administrator
    else RegularUser
  }

  function NewAccount(l: Login, username: string, role: Role, at: nat): User {
    User(username, l.email, None, role, Active, l.provider, l.providerId, at, at)
  }

  /** The insert loop: only a username collision is retried, and the last one is not. */
  ghost function PlanInsert(db: Tables, l: Login, role: Role, e: Env, attempt: nat): Plan
    requires attempt < MAX_USERNAME_ATTEMPTS
    decreases MAX_USERNAME_ATTEMPTS - attempt
  {
    var w := NewUser(e.uuid, NewAccount(l, Candidate(l.username, attempt), role, Truncated(e.now)));
    if Insert in e.faults then Refused(INTERNAL)
    else
      match Check(db, w, e.usernameFirst)
      case Accepted => Committed([w], "", "")
      case DupUsername =>
        if attempt == MAX_USERNAME_ATTEMPTS - 1 then Refused(CONFLICT) else PlanInsert(db, l, role, e, attempt + 1)
      case _ => Refused(CONFLICT)
  }

  ghost function PlanSignup(db: Tables, l: Login, e: Env): Plan {
    if ReadPromotion in e.faults then Refused(INTERNAL)
    else if CountAdmins in e.faults && db.adminEmail.Some? && EqualFold(db.adminEmail.value, l.email) then
      Refused(INTERNAL)
    else
      match PlanInsert(db, l, NewRole(db, l.email), e, 0)
      case Refused(status) => Refused(status)
      case Committed(ws, _, _) =>
        var hooked := e.hook(ApplyAll(db, ws), e.uuid);
        if hooked.HookFailed? then Refused(HookStatus(hooked))
        else Committed(ws + [RunHook(e.hook, e.uuid)], "", "")
  }

  /** A returning user: refresh the profile, keeping the old username if the new one is taken. */
  ghost function PlanReturn(db: Tables, id: string, l: Login, e: Env): Plan
    requires id in db.users
  {
    var at := Truncated(e.now);
    var w := LoginUser(id, Some(l.username), l.email, at);
    var keep := LoginUser(id, None, l.email, at);
    if db.users[id].status == Blocked then Refused(403)
    else if Update in e.faults then Refused(INTERNAL)
    else
      match Check(db, w, e.usernameFirst)
      case Accepted => Committed([w], "", "")
      case DupUsername =>
        if Fallback in e.faults then Refused(INTERNAL)
        else if Check(db, keep, e.usernameFirst) == Accepted then Committed([keep], "", "")
        else Refused(CONFLICT)
      case _ => Refused(CONFLICT)
  }

  /** The oauth package's key: one attempt, any collision refuses the login. */
  ghost function PlanLoginKey(db: Tables, user: string, days: nat, e: Env): Plan {
    if RevokeOld in e.faults then Refused(INTERNAL)
    else
      var revoke := RevokeKeysOf(user, Truncated(e.now));
      var id := Sample(Letters(OAUTH_CHARSET), ID_LENGTH, e.bytes);
      if id.text == None then Refused(INTERNAL)
      else
        var secret := Sample(Letters(OAUTH_CHARSET), SECRET_LENGTH, id.rest);
        if secret.text == None then Refused(INTERNAL)
        else
          var key := ApiKey(user, Sha256(secret.text.value), days, ExpiryOf(e.later, days), None, Truncated(e.now));
          var w := NewKey(id.text.value, key);
          if InsertKey in e.faults then Refused(INTERNAL)
          else if Check(Apply(db, revoke), w, e.usernameFirst) != Accepted then Refused(CONFLICT)
          else if Commit in e.faults then Refused(INTERNAL)
          else Committed([revoke, w], id.text.value, secret.text.value)
  }

  /** Whose login it is: the account with this identity, or the fresh one. */
  ghost function LoginId(db: Tables, l: Login, e: Env): string {
    var found := FindIdentity(db, l.provider, l.providerId);
    if found.Some? then found.value else e.uuid
  }

  ghost function PlanLogin(db: Tables, l: Login, e: Env): Plan {
    if Begin in e.faults || Fetch in e.faults then Refused(INTERNAL)
    else
      var found := FindIdentity(db, l.provider, l.providerId);
      match (if found.Some? then PlanReturn(db, found.value, l, e) else PlanSignup(db, l, e))
      case Refused(status) => Refused(status)
      case Committed(ws, _, _) =>
        match PlanLoginKey(ApplyAll(db, ws), LoginId(db, l, e), l.days, e)
        case Refused(status) => Refused(status)
        case Committed(ks, id, secret) => Committed(ws + ks, id, secret)
  }

  // ---- User deletion ----

  function Purge(id: string): seq<Write> {
    [ClearOwner(id), DropKeysOf(id), DropPatsOf(id), DropMembershipsOf(id), DropUser(id)]
  }

  predicate CascadeFails(faults: set<Stmt>) {
    Clear in faults || DropKeys in faults || DropPats in faults || DropMembers in faults || DropRow in faults
  }

  /** wasActiveAdmin comes from a row read before the transaction began. */
  ghost function PlanDelete(db: Tables, id: string, wasActiveAdmin: bool, e: Env): Plan {
    if Begin in e.faults || (wasActiveAdmin && Recheck in e.faults) then Refused(INTERNAL)
    else if wasActiveAdmin && |ActiveAdmins(db.users)| <= 1 then Refused(CONFLICT)
    else if CascadeFails(e.faults) then Refused(INTERNAL)
    else if id !in db.users then Refused(404)
    else
      match e.hook(ApplyAll(db, Purge(id)), id)
      case HookFailed(_, status) => Refused(if status.Some? then status.value else INTERNAL)
      case HookOk(_) =>
        if Commit in e.faults then Refused(INTERNAL) else Committed(Purge(id) + [RunHook(e.hook, id)], "", "")
  }

  /** Creating a user by hand: one insert and the hook. */
  ghost function PlanCreateUser(db: Tables, u: User, e: Env): Plan {
    var w := NewUser(e.uuid, u);
    if Begin in e.faults || Insert in e.faults then Refused(INTERNAL)
    else
      match Check(db, w, e.usernameFirst)
      case DupUsername => Refused(CONFLICT)
      case DupOther => Refused(CONFLICT)
      case Accepted =>
        if e.hook(Apply(db, w), e.uuid).HookFailed? || Commit in e.faults then Refused(INTERNAL)
        else Committed([w, RunHook(e.hook, e.uuid)], "", "")
      case _ => Refused(INTERNAL)
  }
}
