/**
 Every request as a small program of SQL statements. A Thread is a request in
 flight: what it has read so far and which statement comes next. Step runs one
 statement (or one transaction, which SQLite serialises), so interleaving Steps of
 different threads is statement-level concurrency, and running one thread's Steps
 in a row is the atomic handler.
 */
module Requests {
  import opened Wrappers
  import opened Auth
  import opened Permissions
  import opened Sampling
  import opened Schema
  import opened Text
  import opened Tokens
  import opened Transactions

  datatype Request =
    | CreateUser(username: string, email: string, provider: string, providerId: string)
    | UpdateUser(sel: string, fullName: Option<string>)
    | DeleteUser(sel: string)
    | Promote(sel: string)
    | Demote(sel: string)
    | Block(sel: string)
    | Unblock(sel: string)
    | RevokeUserKey(sel: string, keyId: string)
    | RevokeUserToken(sel: string, tokenId: string)
    | UpdateProfile(fullName: Option<string>)
    | RefreshOwnKey(keyId: string)
    | RevokeOwnKey(keyId: string)
    | CreatePat(name: string, perms: seq<string>, expires: Option<int>)
    | RevokeOwnPat(tokenId: string)
    | ReplacePerms(tokenId: string, newPerms: Option<seq<string>>)
    | AddPerms(tokenId: string, newPerms: Option<seq<string>>)
    | RemovePerms(tokenId: string, newPerms: Option<seq<string>>)
    | CreateOrg(name: string, slug: string, url: string, owner: Option<string>)
    | UpdateOrg(sel: string, newName: Option<string>, newUrl: Option<string>)
    | DeleteOrg(sel: string)
    | BlockOrg(sel: string)
    | UnblockOrg(sel: string)
    | AddMember(sel: string, userSel: string)
    | RemoveMember(sel: string, userSel: string)
    | Callback(provider: string, user: UserInfo, expires: Option<int>)  // behind the provider exchange
    | IssueKey(id: string, days: int)                                   // a library call, not a route

  datatype UserInfo = UserInfo(username: string, email: string, providerId: string)

  /** What a handler has learned between two statements. */
  datatype Pc =
    | Enter
    | Target(id: string)                   // the selector is resolved
    | Pair(orgId: string, memberId: string)
    | Snapshot(id: string, row: User)      // the target row as it was read
    | Approved(id: string, row: User)      // deletion passed its first guard and was not vetoed
    | Found(id: string)                    // the row to write exists
    | KeyRead(key: ApiKey)
    | PatRead(pat: Pat)
    | Inserting(tokenId: string, pat: Pat, secret: string, rest: seq<byte>, attempt: nat)
    | Refetching(id: string)               // the write is done; the response row is read back
    | Missed                               // a conditional update matched nothing

  datatype Thread =
    | Start(token: string, req: Request)
    | Owner(info: AuthInfo, req: Request)  // the credential row matched; its owner is read next
    | At(info: AuthInfo, req: Request, pc: Pc)
    | Done(status: nat, credential: string)

  /** The stages each request passes through. */
  predicate Stage(req: Request, pc: Pc) {
    match pc
    case Enter => true
    case Target(_) => OnUser(req) || OnOrg(req)
    case Pair(_, _) => req.AddMember? || req.RemoveMember?
    case Snapshot(_, _) => req.DeleteUser? || Lifecycle(req)
    case Approved(_, _) => req.DeleteUser?
    case Found(_) => req.UpdateUser? || req.UpdateProfile? || AdminRevoke(req) || EditsOrg(req)
    case KeyRead(_) => req.RefreshOwnKey? || req.RevokeOwnKey?
    case PatRead(_) => EditsPerms(req)
    case Inserting(_, _, _, _, _) => req.CreatePat?
    case Refetching(_) => req.UpdateUser? || req.UpdateProfile? || req.RevokeOwnPat? || EditsOrg(req)
    case Missed => req.RevokeOwnPat?
  }

  predicate Lifecycle(req: Request) { req.Promote? || req.Demote? || req.Block? || req.Unblock? }

  predicate AdminRevoke(req: Request) { req.RevokeUserKey? || req.RevokeUserToken? }

  predicate EditsPerms(req: Request) { req.ReplacePerms? || req.AddPerms? || req.RemovePerms? }

  predicate EditsOrg(req: Request) { req.UpdateOrg? || req.BlockOrg? || req.UnblockOrg? }

  predicate OnUser(req: Request) { req.UpdateUser? || req.DeleteUser? || Lifecycle(req) || AdminRevoke(req) }

  predicate OnOrg(req: Request) { EditsOrg(req) || req.DeleteOrg? || req.AddMember? || req.RemoveMember? }

  /** One statement: the writes it commits and where the thread goes. */
  datatype Next = Next(writes: seq<Write>, thread: Thread)

  function Reply(status: nat): Next { Next([], Done(status, "")) }

  function Continue(info: AuthInfo, req: Request, pc: Pc): Next { Next([], At(info, req, pc)) }

  function Wrote(w: Write, thread: Thread): Next { Next([w], thread) }

  predicate Public(req: Request) { req.Callback? || req.IssueKey? }

  function Launched(token: string, req: Request): Thread {
    if Public(req) then At(NoAuth, req, Enter) else Start(token, req)
  }

  // ---- Selectors ----

  function StripDashes(s: string): string {
    if |s| == 36 && s[8] == '-' && s[13] == '-' && s[18] == '-' && s[23] == '-' then
      s[..8] + s[9..13] + s[14..18] + s[19..23] + s[24..]
    else ""
  }

  /** The shapes uuid.Parse takes: plain, braced, URN and 32 digits. */
  predicate IsUuid(s: string) {
    var hex := if |s| == 45 && EqualFold(s[..9], "urn:uuid:") then StripDashes(s[9..])
               else if |s| == 38 then StripDashes(s[1..37])
               else if |s| == 32 then s
               else StripDashes(s);
    hex != "" && AllHex(hex)
  }

  datatype Selector = ById(text: string) | ByEmail(text: string) | ByName(text: string)

  function UserSelector(s: string): Selector {
    if IsUuid(s) then ById(s) else if '@' in s then ByEmail(s) else ByName(s)
  }

  /** For organizations the name is the slug, and '@' means nothing. */
  function OrgSelector(s: string): Selector {
    if IsUuid(s) then ById(s) else ByName(s)
  }

  ghost predicate SelectsUser(db: Tables, sel: Selector, id: string) {
    && id in db.users
    && match sel
       case ById(text) => id == text
       case ByEmail(text) => db.users[id].email == text
       case ByName(text) => db.users[id].username == text
  }

  ghost function ResolveUser(db: Tables, sel: Selector): Option<string> {
    if exists id :: SelectsUser(db, sel, id) then
      var id :| SelectsUser(db, sel, id);
      Some(id)
    else None
  }

  ghost predicate SelectsOrg(db: Tables, sel: Selector, id: string) {
    id in db.orgs && if sel.ById? then id == sel.text else db.orgs[id].slug == sel.text
  }

  ghost function ResolveOrg(db: Tables, sel: Selector): Option<string> {
    if exists id :: SelectsOrg(db, sel, id) then
      var id :| SelectsOrg(db, sel, id);
      Some(id)
    else None
  }

  predicate HasSelector(req: Request) { OnUser(req) || OnOrg(req) }

  /** The opening of every admin route on a user or an organization: authorization, then resolution. */
  ghost function EnterAdmin(db: Tables, info: AuthInfo, req: Request, e: Env): Next
    requires HasSelector(req)
  {
    if !IsAdmin(info) then Reply(403)
    else if Resolve in e.faults then Reply(INTERNAL)
    else
      match (if OnUser(req) then ResolveUser(db, UserSelector(req.sel)) else ResolveOrg(db, OrgSelector(req.sel)))
      case None => Reply(404)
      case Some(id) => Continue(info, req, Target(id))
  }

  // ---- Users ----

  ghost function StepCreateUser(db: Tables, info: AuthInfo, req: Request, e: Env): Next
    requires req.CreateUser?
  {
    if !IsAdmin(info) then Reply(403)
    else if req.username == "" || req.email == "" || req.provider == "" || req.providerId == "" then Reply(400)
    else
      var at := Truncated(e.now);
      var u := User(req.username, req.email, Some(""), RegularUser, Active, req.provider, req.providerId, at, at);
      match PlanCreateUser(db, u, e)
      case Refused(status) => Reply(status)
      case Committed(ws, _, _) => Next(ws, Done(201, ""))
  }

  /** Reading a row back for the response; the write before it has been committed. */
  function StepRefetch(present: bool, e: Env): Next {
    if Refetch in e.faults || !present then Reply(INTERNAL) else Reply(200)
  }

  ghost function StepUpdateUser(db: Tables, info: AuthInfo, req: Request, pc: Pc, e: Env): Next
    requires req.UpdateUser? && Stage(req, pc) && !pc.Enter?
  {
    match pc
    case Target(id) =>
      if req.fullName == None then Reply(400)
      else if Fetch in e.faults then Reply(INTERNAL)
      else if id !in db.users then Reply(404)
      else Continue(info, req, Found(id))
    case Found(id) =>
      if Update in e.faults || req.fullName == None then Reply(INTERNAL)
      else Wrote(SetFullName(id, req.fullName.value, Truncated(e.now)), At(info, req, Refetching(id)))
    case Refetching(id) => StepRefetch(id in db.users, e)
  }

  ghost function StepProfile(db: Tables, info: AuthInfo, req: Request, pc: Pc, e: Env): Next
    requires req.UpdateProfile?
  {
    match pc
    case Found(id) =>
      if Update in e.faults || req.fullName == None then Reply(INTERNAL)
      else Wrote(SetFullName(id, req.fullName.value, Truncated(e.now)), At(info, req, Refetching(id)))
    case Refetching(id) => StepRefetch(id in db.users, e)
    case _ =>
      if !HasPermission(info, "users:read") then Reply(403)
      else if req.fullName == None then Reply(400)
      else if Fetch in e.faults then Reply(INTERNAL)
      else if UserOf(info) !in db.users then Reply(404)
      else Continue(info, req, Found(UserOf(info)))
  }

  ghost function StepDelete(db: Tables, info: AuthInfo, req: Request, pc: Pc, e: Env): Next
    requires req.DeleteUser? && Stage(req, pc) && !pc.Enter?
  {
    match pc
    case Target(id) =>
      if Fetch in e.faults then Reply(INTERNAL)
      else if id !in db.users then Reply(404)
      else Continue(info, req, Snapshot(id, db.users[id]))
    case Snapshot(id, row) =>
      if IsActiveAdmin(row) && CountAdmins in e.faults then Reply(INTERNAL)
      else if IsActiveAdmin(row) && |ActiveAdmins(db.users)| <= 1 then Reply(CONFLICT)
      else if e.veto.Some? then Reply(e.veto.value)
      else Continue(info, req, Approved(id, row))
    case Approved(id, row) =>
      (match PlanDelete(db, id, IsActiveAdmin(row), e)
       case Refused(status) => Reply(status)
       case Committed(ws, _, _) => Next(ws, Done(204, "")))
  }

  /** Promote, demote, block and unblock: read the row, answer at once if nothing is to change. */
  ghost function StepLifecycle(db: Tables, info: AuthInfo, req: Request, pc: Pc, e: Env): Next
    requires Lifecycle(req) && Stage(req, pc) && !pc.Enter?
  {
    var at := Truncated(e.now);
    match pc
    case Target(id) =>
      if Fetch in e.faults then Reply(INTERNAL)
      else if id !in db.users then Reply(404)
      else if AlreadySo(req, db.users[id]) then Reply(200)
      else Continue(info, req, Snapshot(id, db.users[id]))
    case Snapshot(id, row) =>
      if Update in e.faults then Reply(INTERNAL)
      else if req.Promote? then Wrote(SetRole(id, Administrator, at), Done(200, ""))
      else if req.Block? then Wrote(SetStatus(id, Blocked, at), Done(200, ""))
      else if req.Unblock? then Wrote(SetStatus(id, Active, at), Done(200, ""))
      else if id in db.users && db.users[id].role == Administrator && |ActiveAdmins(db.users)| > 1 then
        Wrote(SetRole(id, RegularUser, at), Done(200, ""))
      else Reply(CONFLICT)
  }

  predicate AlreadySo(req: Request, u: User) {
    (req.Promote? && u.role == Administrator) || (req.Demote? && u.role == RegularUser)
    || (req.Block? && u.status == Blocked) || (req.Unblock? && u.status == Active)
  }

  /** An admin revoking somebody's key or token: read it, then write unless it is revoked already. */
  ghost function StepAdminRevoke(db: Tables, info: AuthInfo, req: Request, pc: Pc, e: Env): Next
    requires AdminRevoke(req) && Stage(req, pc) && !pc.Enter?
  {
    var at := Truncated(e.now);
    match pc
    case Target(id) =>
      if Fetch in e.faults then Reply(INTERNAL)
      else if req.RevokeUserKey? then
        if !KeyOf(db.keys, req.keyId, id) then Reply(404)
        else if db.keys[req.keyId].revokedAt.Some? then Reply(204)
        else Continue(info, req, Found(id))
      else
        if !PatOf(db.pats, req.tokenId, id) then Reply(404)
        else if db.pats[req.tokenId].revokedAt.Some? then Reply(204)
        else Continue(info, req, Found(id))
    case Found(id) =>
      if Update in e.faults then Reply(INTERNAL)
      else if req.RevokeUserKey? then Wrote(RevokeKey(req.keyId, id, at), Done(204, ""))
      else Wrote(RevokePat(req.tokenId, id, at), Done(204, ""))
  }

  // ---- Own API keys ----

  ghost function StepRefresh(prefix: string, db: Tables, info: AuthInfo, req: Request, pc: Pc, e: Env): Next
    requires req.RefreshOwnKey?
  {
    match pc
    case KeyRead(key) =>
      var secret := Sample(Letters(KEYS_CHARSET), SECRET_LENGTH, e.bytes);
      if secret.text == None || Update in e.faults then Reply(INTERNAL)
      else if !KeyOf(db.keys, req.keyId, UserOf(info)) then Reply(404)
      else
        Wrote(Schema.RefreshKey(req.keyId, UserOf(info), Sha256(secret.text.value), ExpiryOf(e.later, key.days), e.later),
              Done(200, FormatApiKey(prefix, req.keyId, secret.text.value)))
    case _ =>
      if info.PatAuth? then Reply(401)
      else if Fetch in e.faults then Reply(INTERNAL)
      else if !KeyOf(db.keys, req.keyId, UserOf(info)) then Reply(404)
      else
        var key := db.keys[req.keyId];
        if key.revokedAt.Some? then Reply(400)
        else if key.expiresAt.Some? && key.expiresAt.value < e.now then Reply(400)
        else Continue(info, req, KeyRead(key))
  }

  ghost function StepRevokeKey(db: Tables, info: AuthInfo, req: Request, pc: Pc, e: Env): Next
    requires req.RevokeOwnKey?
  {
    match pc
    case KeyRead(_) =>
      if Update in e.faults then Reply(INTERNAL)
      else Wrote(Schema.RevokeKey(req.keyId, UserOf(info), Truncated(e.now)), Done(200, ""))
    case _ =>
      if !HasPermission(info, "keys:manage") then Reply(403)
      else if Fetch in e.faults then Reply(INTERNAL)
      else if !KeyOf(db.keys, req.keyId, UserOf(info)) then Reply(404)
      else if db.keys[req.keyId].revokedAt.Some? then Reply(400)
      else Continue(info, req, KeyRead(db.keys[req.keyId]))
  }

  // ---- Personal access tokens ----

  const MAX_PAT_ATTEMPTS: nat := 3

  /** Token callers may grant only what MayGrant allows; other credentials are not checked. */
  predicate Granting(info: AuthInfo, existing: seq<string>, requested: seq<string>) {
    info.PatAuth? ==> MayGrant(info.perms, existing, requested)
  }

  ghost function StepCreatePat(prefix: string, registry: set<string>, db: Tables, info: AuthInfo, req: Request,
                               pc: Pc, e: Env): Next
    requires req.CreatePat?
  {
    match pc
    case Inserting(tokenId, pat, secret, rest, attempt) =>
      if Begin in e.faults || Insert in e.faults || Commit in e.faults then Reply(INTERNAL)
      else if Check(db, NewPat(tokenId, pat), e.usernameFirst) == Accepted then
        Wrote(NewPat(tokenId, pat), Done(201, FormatPat(prefix, tokenId, secret)))
      else if attempt >= MAX_PAT_ATTEMPTS - 1 then Reply(INTERNAL)
      else
        var id := Sample(Letters(TOKEN_ALPHABET), ID_LENGTH, rest);
        (match id.text
         case None => Reply(INTERNAL)
         case Some(text) => Continue(info, req, Inserting(text, pat, secret, id.rest, attempt + 1)))
    case _ =>
      var days := DaysOf(req.expires);
      if !HasPermission(info, "tokens:manage") then Reply(403)
      else if req.name == "" || |req.name| > 255 || req.perms == [] then Reply(400)
      else if !Acceptable(req.perms, false, registry) || !ValidDays(days) then Reply(400)
      else if !Granting(info, [], req.perms) then Reply(403)
      else
        var id := Sample(Letters(TOKEN_ALPHABET), ID_LENGTH, e.bytes);
        var secret := Sample(Letters(TOKEN_ALPHABET), SECRET_LENGTH, id.rest);
        if id.text == None || secret.text == None then Reply(INTERNAL)
        else
          var pat := Pat(UserOf(info), req.name, Sha256(secret.text.value), req.perms, days,
                         ExpiryOf(e.now, days), None, Truncated(e.now));
          Continue(info, req, Inserting(id.text.value, pat, secret.text.value, secret.rest, 0))
  }

  ghost function StepRevokePat(db: Tables, info: AuthInfo, req: Request, pc: Pc, e: Env): Next
    requires req.RevokeOwnPat?
  {
    match pc
    case Refetching(_) => StepRefetch(PatOf(db.pats, req.tokenId, UserOf(info)), e)
    case Missed =>
      if Fetch in e.faults then Reply(INTERNAL)
      else if !PatOf(db.pats, req.tokenId, UserOf(info)) then Reply(404)
      else Reply(400)
    case _ =>
      if !HasPermission(info, "tokens:manage") then Reply(403)
      else if Update in e.faults then Reply(INTERNAL)
      else if PatOf(db.pats, req.tokenId, UserOf(info)) && db.pats[req.tokenId].revokedAt == None then
        Wrote(RevokePat(req.tokenId, UserOf(info), Truncated(e.now)), At(info, req, Refetching(req.tokenId)))
      else Continue(info, req, Missed)
  }

  /** lookupAndGuardPAT: own, unrevoked and not yet at its expiry instant. */
  ghost function LookupPat(db: Tables, info: AuthInfo, req: Request, tokenId: string, e: Env): Next {
    if Fetch in e.faults then Reply(INTERNAL)
    else if !PatOf(db.pats, tokenId, UserOf(info)) then Reply(404)
    else
      var pat := db.pats[tokenId];
      if pat.revokedAt.Some? then Reply(400)
      else if pat.expiresAt.Some? && pat.expiresAt.value <= e.now then Reply(400)
      else Continue(info, req, PatRead(pat))
  }

  /** Writing a token's permissions revokes it when nothing is left. */
  ghost function WritePerms(info: AuthInfo, tokenId: string, perms: seq<string>, e: Env): Next {
    if Begin in e.faults || Update in e.faults || Commit in e.faults then Reply(INTERNAL)
    else Wrote(SetPerms(tokenId, UserOf(info), perms, if perms == [] then Some(Truncated(e.now)) else None),
               Done(200, ""))
  }

  ghost function StepPerms(registry: set<string>, db: Tables, info: AuthInfo, req: Request, pc: Pc, e: Env): Next
    requires EditsPerms(req)
  {
    match pc
    case PatRead(pat) =>
      if req.newPerms == None then Reply(400)
      else
        var perms := req.newPerms.value;
        if !Acceptable(perms, req.RemovePerms?, registry) then Reply(400)
        else if req.RemovePerms? then WritePerms(info, req.tokenId, Remaining(pat.perms, perms), e)
        else if !Granting(info, pat.perms, perms) then Reply(403)
        else if req.ReplacePerms? then WritePerms(info, req.tokenId, perms, e)
        else WritePerms(info, req.tokenId, Merge(pat.perms, perms), e)
    case _ =>
      if !WriteOrManageTokens(info) then Reply(403)
      else if req.newPerms == None || (!req.ReplacePerms? && req.newPerms.value == []) then Reply(400)
      else LookupPat(db, info, req, req.tokenId, e)
  }

  // ---- Organizations ----

  predicate SlugChar(c: char) { 'a' <= c <= 'z' || '0' <= c <= '9' }

  predicate ValidSlug(s: string) {
    && 1 <= |s| <= 128 && SlugChar(s[0]) && SlugChar(s[|s| - 1])
    && forall c :: c in s ==> SlugChar(c) || c == '-' || c == '_'
  }

  ghost function StepCreateOrg(db: Tables, info: AuthInfo, req: Request, e: Env): Next
    requires req.CreateOrg?
  {
    if !IsAdmin(info) then Reply(403)
    else if TrimSpace(req.name) == "" || req.slug == "" || !ValidSlug(req.slug) then Reply(400)
    else if Insert in e.faults then Reply(INTERNAL)
    else
      var at := Truncated(e.now);
      var w := NewOrg(e.uuid, Org(TrimSpace(req.name), req.slug, req.url, req.owner, Active, at, at));
      match Check(db, w, e.usernameFirst)
      case Accepted => Wrote(w, Done(201, ""))
      case DupOther => Reply(CONFLICT)
      case _ => Reply(INTERNAL)
  }

  function OrgUpdate(req: Request, id: string, at: nat): Write
    requires EditsOrg(req)
  {
    if req.BlockOrg? then SetOrg(id, None, None, Some(Blocked), at)
    else if req.UnblockOrg? then SetOrg(id, None, None, Some(Active), at)
    else SetOrg(id, if req.newName.Some? then Some(TrimSpace(req.newName.value)) else None, req.newUrl, None, at)
  }

  ghost function StepOrg(db: Tables, info: AuthInfo, req: Request, pc: Pc, e: Env): Next
    requires EditsOrg(req) && Stage(req, pc) && !pc.Enter?
  {
    match pc
    case Target(id) =>
      if req.UpdateOrg? && ((req.newName == None && req.newUrl == None)
                            || (req.newName.Some? && TrimSpace(req.newName.value) == "")) then Reply(400)
      else if Fetch in e.faults then Reply(INTERNAL)
      else if id !in db.orgs then Reply(404)
      else if (req.BlockOrg? && db.orgs[id].status == Blocked)
              || (req.UnblockOrg? && db.orgs[id].status == Active) then Reply(200)
      else Continue(info, req, Found(id))
    case Found(id) =>
      var w := OrgUpdate(req, id, Truncated(e.now));
      if Update in e.faults then Reply(INTERNAL)
      else if Check(db, w, e.usernameFirst) != Accepted then Reply(CONFLICT)
      else Wrote(w, At(info, req, Refetching(id)))
    case Refetching(id) => StepRefetch(id in db.orgs, e)
  }

  ghost function StepDeleteOrg(db: Tables, info: AuthInfo, req: Request, pc: Pc, e: Env): Next
    requires req.DeleteOrg? && Stage(req, pc) && !pc.Enter?
  {
    match pc
    case Target(id) =>
      if e.veto.Some? then Reply(e.veto.value)
      else if Begin in e.faults || DropRow in e.faults then Reply(INTERNAL)
      else if id !in db.orgs then Reply(404)
      else
        (match e.hook(Apply(db, DropOrg(id)), id)
         case HookFailed(_, status) => Reply(if status.Some? then status.value else INTERNAL)
         case HookOk(_) =>
           if Commit in e.faults then Reply(INTERNAL)
           else Next([DropOrg(id), RunHook(e.hook, id)], Done(204, "")))
  }

  ghost function StepMember(db: Tables, info: AuthInfo, req: Request, pc: Pc, e: Env): Next
    requires (req.AddMember? || req.RemoveMember?) && Stage(req, pc) && !pc.Enter?
  {
    match pc
    case Target(orgId) =>
      if ResolveSecond in e.faults then Reply(INTERNAL)
      else
        (match ResolveUser(db, UserSelector(req.userSel))
         case None => Reply(404)
         case Some(id) => Continue(info, req, Pair(orgId, id)))
    case Pair(orgId, id) =>
      if Update in e.faults then Reply(INTERNAL)
      else if req.RemoveMember? then
        if (orgId, id) in db.members then Wrote(DropMember(orgId, id), Done(204, "")) else Reply(404)
      else
        var w := NewMember(orgId, id, Truncated(e.now));
        (match Check(db, w, e.usernameFirst)
         case Accepted => Wrote(w, Done(204, ""))
         case DupId => Reply(204)
         case _ => Reply(INTERNAL))
  }

  // ---- Login and library key issue ----

  function LoginOf(req: Request, days: nat): Login
    requires req.Callback?
  {
    Login(req.provider, req.user.providerId,
          if req.user.username == "" then req.provider + "-" + req.user.providerId else req.user.username,
          req.user.email, days)
  }

  function DaysOf(expires: Option<int>): int { if expires.Some? then expires.value else 90 }

  /** The callback's checks before its transaction; 200 when there is nothing to refuse. */
  function CallbackStatus(req: Request): nat
    requires req.Callback?
  {
    if !ValidDays(DaysOf(req.expires)) then 400
    else if req.user.email == "" then 400
    else if req.user.providerId == "" then 502
    else 200
  }

  /** What a finished transaction answers. */
  function Answer(prefix: string, p: Plan): Next {
    match p
    case Refused(status) => Reply(status)
    case Committed(ws, id, secret) => Next(ws, Done(200, FormatApiKey(prefix, id, secret)))
  }

  ghost function StepCallback(prefix: string, db: Tables, req: Request, e: Env): Next
    requires req.Callback?
  {
    if CallbackStatus(req) != 200 then Reply(CallbackStatus(req))
    else Answer(prefix, PlanLogin(db, LoginOf(req, DaysOf(req.expires)), e))
  }

  ghost function StepIssue(prefix: string, db: Tables, req: Request, e: Env): Next
    requires req.IssueKey?
  {
    Answer(prefix, PlanGenerate(db, req.id, req.days, e))
  }

  // ---- The machine ----

  predicate OnAccounts(req: Request) { req.CreateUser? || OnUser(req) || req.UpdateProfile? }

  predicate OnPats(req: Request) { req.CreatePat? || req.RevokeOwnPat? || EditsPerms(req) }

  ghost function StepAccounts(db: Tables, info: AuthInfo, req: Request, pc: Pc, e: Env): Next
    requires OnAccounts(req) && Stage(req, pc) && !(pc.Enter? && HasSelector(req))
  {
    if req.CreateUser? then StepCreateUser(db, info, req, e)
    else if req.UpdateUser? then StepUpdateUser(db, info, req, pc, e)
    else if req.DeleteUser? then StepDelete(db, info, req, pc, e)
    else if Lifecycle(req) then StepLifecycle(db, info, req, pc, e)
    else if AdminRevoke(req) then StepAdminRevoke(db, info, req, pc, e)
    else StepProfile(db, info, req, pc, e)
  }

  ghost function StepPats(prefix: string, registry: set<string>, db: Tables, info: AuthInfo, req: Request,
                          pc: Pc, e: Env): Next
    requires OnPats(req) && Stage(req, pc)
  {
    if req.CreatePat? then StepCreatePat(prefix, registry, db, info, req, pc, e)
    else if req.RevokeOwnPat? then StepRevokePat(db, info, req, pc, e)
    else StepPerms(registry, db, info, req, pc, e)
  }

  ghost function StepOrgs(db: Tables, info: AuthInfo, req: Request, pc: Pc, e: Env): Next
    requires (req.CreateOrg? || OnOrg(req)) && Stage(req, pc) && !(pc.Enter? && HasSelector(req))
  {
    if req.CreateOrg? then StepCreateOrg(db, info, req, e)
    else if req.DeleteOrg? then StepDeleteOrg(db, info, req, pc, e)
    else if EditsOrg(req) then StepOrg(db, info, req, pc, e)
    else StepMember(db, info, req, pc, e)
  }

  ghost function StepKeys(prefix: string, db: Tables, info: AuthInfo, req: Request, pc: Pc, e: Env): Next
    requires req.RefreshOwnKey? || req.RevokeOwnKey? || Public(req)
  {
    if req.RefreshOwnKey? then StepRefresh(prefix, db, info, req, pc, e)
    else if req.RevokeOwnKey? then StepRevokeKey(db, info, req, pc, e)
    else if req.Callback? then StepCallback(prefix, db, req, e)
    else StepIssue(prefix, db, req, e)
  }

  ghost function StepHandler(prefix: string, registry: set<string>, db: Tables, info: AuthInfo, req: Request,
                             pc: Pc, e: Env): Next
    requires Stage(req, pc)
  {
    if pc.Enter? && HasSelector(req) then EnterAdmin(db, info, req, e)
    else if OnAccounts(req) then StepAccounts(db, info, req, pc, e)
    else if OnPats(req) then StepPats(prefix, registry, db, info, req, pc, e)
    else if req.CreateOrg? || OnOrg(req) then StepOrgs(db, info, req, pc, e)
    else StepKeys(prefix, db, info, req, pc, e)
  }

  ghost function Step(prefix: string, registry: set<string>, db: Tables, t: Thread, e: Env): Next {
    match t
    case Done(_, _) => Next([], t)
    case Start(token, req) =>
      if ReadCredential in e.faults && ReadsRow(prefix, token) then Reply(INTERNAL)
      else
        (match CheckCredential(prefix, db, e.now, token)
         case Rejected(error) => Reply(StatusOf(error))
         case Authenticated(info) =>
           if NeedsOwner(info) then Next([], Owner(info, req)) else Continue(info, req, Enter))
    case Owner(info, req) =>
      if ReadOwner in e.faults then Reply(INTERNAL)
      else
        (match CheckOwner(db, info)
         case Rejected(error) => Reply(StatusOf(error))
         case Authenticated(full) => Continue(full, req, Enter))
    case At(info, req, pc) =>
      if Stage(req, pc) then StepHandler(prefix, registry, db, info, req, pc, e) else Reply(INTERNAL)
  }
}
