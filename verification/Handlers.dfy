/**
 The handlers in the form the source gives them: methods that read, check and update
 the store in place. Each is proved to do, in one go, what the statement machine does
 with nothing in between, so the results about runs are results about these methods.
 */
module Handlers {
  import opened Wrappers
  import opened Auth
  import opened Database
  import opened Permissions
  import opened Requests
  import opened Runs
  import opened Sampling
  import opened Schema
  import opened Serving
  import opened Tokens
  import opened Transactions

  /** Middleware and guards either let a request through or answer it. */
  datatype Gate<+T> = Pass(value: T) | Deny(status: nat)

  class Api {
    const prefix: string
    const store: Store
    const registry: PermissionRegistry

    constructor (prefix: string, store: Store, registry: PermissionRegistry)
      ensures this.prefix == prefix && this.store == store && this.registry == registry
    {
      this.prefix, this.store, this.registry := prefix, store, registry;
    }

    /** How the machine ends from a thread, on the tables as they are. */
    ghost function Ending(t: Thread, e: Env): Outcome
      reads store, registry
    {
      Finish(prefix, registry.perms, store.Contents(), t, e)
    }

    /** One statement of a handler on the tables as they are. */
    lemma Stepped(info: AuthInfo, req: Request, pc: Pc, e: Env)
      requires Stage(req, pc)
      ensures var db := store.Contents(); var t := At(info, req, pc);
              var n := Step(prefix, registry.perms, db, t, e); var after := ApplyAll(db, n.writes);
              && (if pc.Enter? && HasSelector(req) then n == EnterAdmin(db, info, req, e)
                  else if OnAccounts(req) then n == StepAccounts(db, info, req, pc, e)
                  else if OnPats(req) then n == StepPats(prefix, registry.perms, db, info, req, pc, e)
                  else if req.CreateOrg? || OnOrg(req) then n == StepOrgs(db, info, req, pc, e)
                  else n == StepKeys(prefix, db, info, req, pc, e))
              && Ending(t, e) == Finish(prefix, registry.perms, after, n.thread, e)
              && (n.thread.Done? ==> Ending(t, e) == Outcome(after, n.thread.status, n.thread.credential))
              && (n.writes == [] ==> after == db)
              && (|n.writes| == 1 ==> after == Apply(db, n.writes[0]))
    {
      hide Step, Finish, EnterAdmin, StepAccounts, StepPats, StepOrgs, StepKeys;
      Goes(prefix, registry.perms, store.Contents(), info, req, pc, e);
    }

    // ---- Middleware ----

    method Authenticate(token: string, ghost req: Request, e: Env) returns (g: Gate<AuthInfo>)
      ensures match g
              case Deny(status) => Ending(Start(token, req), e) == Outcome(store.Contents(), status, "")
              case Pass(info) => Ending(Start(token, req), e) == Ending(At(info, req, Enter), e)
    {
      hide StepHandler, CheckCredential, CheckOwner;
      ghost var db := store.Contents();
      Proceed(prefix, registry.perms, db, Start(token, req), e);
      if ReadCredential in e.faults && ReadsRow(prefix, token) {
        return Deny(INTERNAL);
      }
      var r := CheckCredential(prefix, store.Contents(), e.now, token);
      if r.Rejected? {
        return Deny(StatusOf(r.error));
      }
      if !NeedsOwner(r.info) {
        return Pass(r.info);
      }
      Proceed(prefix, registry.perms, db, Owner(r.info, req), e);
      if ReadOwner in e.faults {
        return Deny(INTERNAL);
      }
      var full := CheckOwner(store.Contents(), r.info);
      if full.Rejected? {
        return Deny(StatusOf(full.error));
      }
      return Pass(full.info);
    }

    // ---- Selectors ----

    method ResolveUserId(sel: string) returns (found: Option<string>)
      requires UniqueUsers(store.users)
      ensures found == ResolveUser(store.Contents(), UserSelector(sel))
    {
      hide IsUuid;
      ghost var db := store.Contents();
      var users := store.users;
      match UserSelector(sel) {
        case ById(text) =>
          assert SelectsUser(db, ById(text), text) <==> text in users;
          found := if text in users then Some(text) else None;
        case ByEmail(text) =>
          if id :| id in users && users[id].email == text {
            assert SelectsUser(db, ByEmail(text), id);
            found := Some(id);
          } else {
            assert forall id :: !SelectsUser(db, ByEmail(text), id);
            found := None;
          }
        case ByName(text) =>
          if id :| id in users && users[id].username == text {
            assert SelectsUser(db, ByName(text), id);
            found := Some(id);
          } else {
            assert forall id :: !SelectsUser(db, ByName(text), id);
            found := None;
          }
      }
    }

    /** RequireAdmin, then the target user. */
    method AdminTarget(info: AuthInfo, ghost req: Request, sel: string, e: Env) returns (g: Gate<string>)
      requires OnUser(req) && req.sel == sel && UniqueUsers(store.users)
      ensures match g
              case Deny(status) => Ending(At(info, req, Enter), e) == Outcome(store.Contents(), status, "")
              case Pass(id) => Ending(At(info, req, Enter), e) == Ending(At(info, req, Target(id)), e)
    {
      hide Finish, Step, StepAccounts, StepPats, StepOrgs, StepKeys, UserSelector, ResolveUser, OrgSelector, ResolveOrg;
      Stepped(info, req, Enter, e);
      if !IsAdmin(info) {
        return Deny(403);
      }
      if Resolve in e.faults {
        return Deny(INTERNAL);
      }
      var found := ResolveUserId(sel);
      return if found == None then Deny(404) else Pass(found.value);
    }

    // ---- Users ----

    method CreateUser(token: string, username: string, email: string, provider: string, providerId: string, e: Env)
      returns (status: nat)
      modifies store
      ensures Serve(prefix, old(store.Contents()),
                    Job(token, Request.CreateUser(username, email, provider, providerId), registry.perms, e))
              == Outcome(store.Contents(), status, "")
    {
      hide Finish, Step, StepPats, StepOrgs, StepKeys, EnterAdmin, PlanCreateUser,
        StepUpdateUser, StepDelete, StepLifecycle, StepAdminRevoke, StepProfile;
      ghost var req := Request.CreateUser(username, email, provider, providerId);
      var g := Authenticate(token, req, e);
      if g.Deny? {
        return g.status;
      }
      Stepped(g.value, req, Enter, e);
      if !IsAdmin(g.value) {
        return 403;
      }
      if username == "" || email == "" || provider == "" || providerId == "" {
        return 400;
      }
      var at := Truncated(e.now);
      status := store.InsertUser(User(username, email, Some(""), RegularUser, Active, provider, providerId, at, at), e);
    }

    method DeleteUser(token: string, sel: string, e: Env) returns (status: nat)
      requires UniqueUsers(store.users)
      modifies store
      ensures Serve(prefix, old(store.Contents()), Job(token, Request.DeleteUser(sel), registry.perms, e))
              == Outcome(store.Contents(), status, "")
    {
      hide Finish, Step, StepPats, StepOrgs, StepKeys, EnterAdmin, PlanDelete, ActiveAdmins,
        StepCreateUser, StepUpdateUser, StepLifecycle, StepAdminRevoke, StepProfile;
      ghost var req := Request.DeleteUser(sel);
      var g := Authenticate(token, req, e);
      if g.Deny? {
        return g.status;
      }
      var info := g.value;
      var target := AdminTarget(info, req, sel, e);
      if target.Deny? {
        return target.status;
      }
      var id := target.value;
      Stepped(info, req, Target(id), e);
      if Fetch in e.faults {
        return INTERNAL;
      }
      if id !in store.users {
        return 404;
      }
      var row := store.users[id];
      Stepped(info, req, Snapshot(id, row), e);
      if IsActiveAdmin(row) {
        if CountAdmins in e.faults {
          return INTERNAL;
        }
        if |ActiveAdmins(store.users)| <= 1 {
          return CONFLICT;
        }
      }
      if e.veto.Some? {
        return e.veto.value;
      }
      Stepped(info, req, Approved(id, row), e);
      var committed;
      committed, status := store.DeleteUser(id, IsActiveAdmin(row), e);
    }

    /** Promote, demote, block and unblock: the update, after the row has been read. */
    method WriteChange(info: AuthInfo, req: Request, id: string, row: User, e: Env) returns (status: nat)
      requires Lifecycle(req)
      modifies store
      ensures old(Ending(At(info, req, Snapshot(id, row)), e)) == Outcome(store.Contents(), status, "")
    {
      hide Finish, Step, StepPats, StepOrgs, StepKeys, EnterAdmin, ActiveAdmins, Apply,
        StepCreateUser, StepUpdateUser, StepDelete, StepAdminRevoke, StepProfile;
      Stepped(info, req, Snapshot(id, row), e);
      if Update in e.faults {
        return INTERNAL;
      }
      if req.Demote?
         && !(id in store.users && store.users[id].role == Administrator && |ActiveAdmins(store.users)| > 1) {
        return CONFLICT;  // the guard is part of the one conditional update
      }
      var at := Truncated(e.now);
      var w := if req.Promote? then SetRole(id, Administrator, at)
               else if req.Demote? then SetRole(id, RegularUser, at)
               else SetStatus(id, if req.Block? then Blocked else Active, at);
      assert Ending(At(info, req, Snapshot(id, row)), e) == Outcome(Apply(store.Contents(), w), 200, "");
      store.Amend(w);
      return 200;
    }

    method ChangeUser(token: string, req: Request, e: Env) returns (status: nat)
      requires Lifecycle(req) && UniqueUsers(store.users)
      modifies store
      ensures Serve(prefix, old(store.Contents()), Job(token, req, registry.perms, e))
              == Outcome(store.Contents(), status, "")
    {
      hide Finish, Step, StepPats, StepOrgs, StepKeys, EnterAdmin, ActiveAdmins, Apply,
        StepCreateUser, StepUpdateUser, StepDelete, StepAdminRevoke, StepProfile;
      var g := Authenticate(token, req, e);
      if g.Deny? {
        return g.status;
      }
      var info := g.value;
      var target := AdminTarget(info, req, req.sel, e);
      if target.Deny? {
        return target.status;
      }
      var id := target.value;
      Stepped(info, req, Target(id), e);
      if Fetch in e.faults {
        return INTERNAL;
      }
      if id !in store.users {
        return 404;
      }
      var row := store.users[id];
      if AlreadySo(req, row) {
        return 200;
      }
      status := WriteChange(info, req, id, row, e);
    }

    /** The write of a profile and the row read back for the response. */
    method SaveFullName(info: AuthInfo, ghost req: Request, id: string, fullName: string, e: Env) returns (status: nat)
      requires req.UpdateUser? || req.UpdateProfile?
      requires req.fullName == Some(fullName)
      modifies store
      ensures old(Ending(At(info, req, Found(id)), e)) == Outcome(store.Contents(), status, "")
    {
      hide Finish, Step, StepPats, StepOrgs, StepKeys, EnterAdmin, Apply,
        StepCreateUser, StepDelete, StepLifecycle, StepAdminRevoke;
      Stepped(info, req, Found(id), e);
      if Update in e.faults {
        return INTERNAL;
      }
      var w := SetFullName(id, fullName, Truncated(e.now));
      assert Ending(At(info, req, Found(id)), e)
             == Finish(prefix, registry.perms, Apply(store.Contents(), w), At(info, req, Refetching(id)), e);
      store.Amend(w);
      Stepped(info, req, Refetching(id), e);
      return if Refetch in e.faults || id !in store.users then INTERNAL else 200;
    }

    method UpdateUser(token: string, sel: string, fullName: Option<string>, e: Env) returns (status: nat)
      requires UniqueUsers(store.users)
      modifies store
      ensures Serve(prefix, old(store.Contents()), Job(token, Request.UpdateUser(sel, fullName), registry.perms, e))
              == Outcome(store.Contents(), status, "")
    {
      hide Finish, Step, StepPats, StepOrgs, StepKeys, EnterAdmin, Apply,
        StepCreateUser, StepDelete, StepLifecycle, StepAdminRevoke, StepProfile;
      ghost var req := Request.UpdateUser(sel, fullName);
      var g := Authenticate(token, req, e);
      if g.Deny? {
        return g.status;
      }
      var target := AdminTarget(g.value, req, sel, e);
      if target.Deny? {
        return target.status;
      }
      var id := target.value;
      Stepped(g.value, req, Target(id), e);
      if fullName == None {
        return 400;
      }
      if Fetch in e.faults {
        return INTERNAL;
      }
      if id !in store.users {
        return 404;
      }
      status := SaveFullName(g.value, req, id, fullName.value, e);
    }

    method UpdateOwnProfile(token: string, fullName: Option<string>, e: Env) returns (status: nat)
      modifies store
      ensures Serve(prefix, old(store.Contents()), Job(token, UpdateProfile(fullName), registry.perms, e))
              == Outcome(store.Contents(), status, "")
    {
      hide Finish, Step, StepPats, StepOrgs, StepKeys, EnterAdmin, Apply,
        StepCreateUser, StepUpdateUser, StepDelete, StepLifecycle, StepAdminRevoke;
      ghost var req := UpdateProfile(fullName);
      var g := Authenticate(token, req, e);
      if g.Deny? {
        return g.status;
      }
      Stepped(g.value, req, Enter, e);
      if !HasPermission(g.value, "users:read") {
        return 403;
      }
      if fullName == None {
        return 400;
      }
      if Fetch in e.faults {
        return INTERNAL;
      }
      var id := UserOf(g.value);
      if id !in store.users {
        return 404;
      }
      status := SaveFullName(g.value, req, id, fullName.value, e);
    }

    method MarkTargetRevoked(info: AuthInfo, ghost req: Request, id: string, w: Write, e: Env) returns (status: nat)
      requires (req.RevokeUserKey? && w == Schema.RevokeKey(req.keyId, id, Truncated(e.now)))
               || (req.RevokeUserToken? && w == RevokePat(req.tokenId, id, Truncated(e.now)))
      modifies store
      ensures old(Ending(At(info, req, Found(id)), e)) == Outcome(store.Contents(), status, "")
    {
      hide Finish, Step, StepPats, StepOrgs, StepKeys, EnterAdmin, Apply,
        StepCreateUser, StepUpdateUser, StepDelete, StepLifecycle, StepProfile;
      Stepped(info, req, Found(id), e);
      if Update in e.faults {
        return INTERNAL;
      }
      store.Amend(w);
      return 204;
    }

    method RevokeUserKey(token: string, sel: string, keyId: string, e: Env) returns (status: nat)
      requires UniqueUsers(store.users)
      modifies store
      ensures Serve(prefix, old(store.Contents()), Job(token, Request.RevokeUserKey(sel, keyId), registry.perms, e))
              == Outcome(store.Contents(), status, "")
    {
      hide Finish, Step, StepPats, StepOrgs, StepKeys, EnterAdmin, Apply,
        StepCreateUser, StepUpdateUser, StepDelete, StepLifecycle, StepProfile;
      ghost var req := Request.RevokeUserKey(sel, keyId);
      var g := Authenticate(token, req, e);
      if g.Deny? {
        return g.status;
      }
      var target := AdminTarget(g.value, req, sel, e);
      if target.Deny? {
        return target.status;
      }
      var id := target.value;
      Stepped(g.value, req, Target(id), e);
      if Fetch in e.faults {
        return INTERNAL;
      }
      if !KeyOf(store.keys, keyId, id) {
        return 404;
      }
      if store.keys[keyId].revokedAt.Some? {
        return 204;
      }
      status := MarkTargetRevoked(g.value, req, id, Schema.RevokeKey(keyId, id, Truncated(e.now)), e);
    }

    method RevokeUserToken(token: string, sel: string, tokenId: string, e: Env) returns (status: nat)
      requires UniqueUsers(store.users)
      modifies store
      ensures Serve(prefix, old(store.Contents()), Job(token, Request.RevokeUserToken(sel, tokenId), registry.perms, e))
              == Outcome(store.Contents(), status, "")
    {
      hide Finish, Step, StepPats, StepOrgs, StepKeys, EnterAdmin, Apply,
        StepCreateUser, StepUpdateUser, StepDelete, StepLifecycle, StepProfile;
      ghost var req := Request.RevokeUserToken(sel, tokenId);
      var g := Authenticate(token, req, e);
      if g.Deny? {
        return g.status;
      }
      var target := AdminTarget(g.value, req, sel, e);
      if target.Deny? {
        return target.status;
      }
      var id := target.value;
      Stepped(g.value, req, Target(id), e);
      if Fetch in e.faults {
        return INTERNAL;
      }
      if !PatOf(store.pats, tokenId, id) {
        return 404;
      }
      if store.pats[tokenId].revokedAt.Some? {
        return 204;
      }
      status := MarkTargetRevoked(g.value, req, id, RevokePat(tokenId, id, Truncated(e.now)), e);
    }

    // ---- Own API keys ----

    method RefreshKey(token: string, keyId: string, e: Env) returns (status: nat, credential: string)
      modifies store
      ensures Serve(prefix, old(store.Contents()), Job(token, RefreshOwnKey(keyId), registry.perms, e))
              == Outcome(store.Contents(), status, credential)
    {
      hide Finish, Step, StepAccounts, StepPats, StepOrgs, EnterAdmin, Apply, ExpiryOf,
        StepRevokeKey, StepCallback, StepIssue;
      credential := "";
      ghost var req := RefreshOwnKey(keyId);
      var g := Authenticate(token, req, e);
      if g.Deny? {
        return g.status, "";
      }
      var user := UserOf(g.value);
      Stepped(g.value, req, Enter, e);
      if g.value.PatAuth? {
        return 401, "";
      }
      if Fetch in e.faults {
        return INTERNAL, "";
      }
      if !KeyOf(store.keys, keyId, user) {
        return 404, "";
      }
      var key := store.keys[keyId];
      if key.revokedAt.Some? || (key.expiresAt.Some? && key.expiresAt.value < e.now) {
        return 400, "";
      }
      status, credential := StoreSecret(g.value, req, keyId, key, e);
    }

    /** The new secret goes to the row by id and owner, whatever has become of it since it was read. */
    method StoreSecret(info: AuthInfo, ghost req: Request, keyId: string, key: ApiKey, e: Env)
      returns (status: nat, credential: string)
      requires req == RefreshOwnKey(keyId)
      modifies store
      ensures old(Ending(At(info, req, KeyRead(key)), e)) == Outcome(store.Contents(), status, credential)
    {
      hide Finish, Step, StepAccounts, StepPats, StepOrgs, EnterAdmin, Apply, ExpiryOf, FormatApiKey,
        StepRevokeKey, StepCallback, StepIssue, Sample, BulkRounds;
      var user := UserOf(info);
      Stepped(info, req, KeyRead(key), e);
      var reader := new Reader(e.bytes);
      var secret := reader.RandAlphanumeric(KEYS_CHARSET, SECRET_LENGTH);
      if secret == None || Update in e.faults {
        return INTERNAL, "";
      }
      if !KeyOf(store.keys, keyId, user) {
        return 404, "";
      }
      var w := Schema.RefreshKey(keyId, user, Sha256(secret.value), ExpiryOf(e.later, key.days), e.later);
      credential := FormatApiKey(prefix, keyId, secret.value);
      assert Ending(At(info, req, KeyRead(key)), e) == Outcome(Apply(store.Contents(), w), 200, credential);
      store.Amend(w);
      status := 200;
    }

    method RevokeKey(token: string, keyId: string, e: Env) returns (status: nat)
      modifies store
      ensures Serve(prefix, old(store.Contents()), Job(token, RevokeOwnKey(keyId), registry.perms, e))
              == Outcome(store.Contents(), status, "")
    {
      hide Finish, Step, StepAccounts, StepPats, StepOrgs, EnterAdmin, Apply,
        StepRefresh, StepCallback, StepIssue;
      ghost var req := RevokeOwnKey(keyId);
      var g := Authenticate(token, req, e);
      if g.Deny? {
        return g.status;
      }
      var user := UserOf(g.value);
      Stepped(g.value, req, Enter, e);
      if !HasPermission(g.value, "keys:manage") {
        return 403;
      }
      if Fetch in e.faults {
        return INTERNAL;
      }
      if !KeyOf(store.keys, keyId, user) {
        return 404;
      }
      var key := store.keys[keyId];
      if key.revokedAt.Some? {
        return 400;
      }
      status := MarkRevoked(g.value, req, keyId, key, e);
    }

    method MarkRevoked(info: AuthInfo, ghost req: Request, keyId: string, key: ApiKey, e: Env) returns (status: nat)
      requires req == RevokeOwnKey(keyId)
      modifies store
      ensures old(Ending(At(info, req, KeyRead(key)), e)) == Outcome(store.Contents(), status, "")
    {
      hide Finish, Step, StepAccounts, StepPats, StepOrgs, EnterAdmin, Apply,
        StepRefresh, StepCallback, StepIssue;
      Stepped(info, req, KeyRead(key), e);
      if Update in e.faults {
        return INTERNAL;
      }
      var w := Schema.RevokeKey(keyId, UserOf(info), Truncated(e.now));
      assert Ending(At(info, req, KeyRead(key)), e) == Outcome(Apply(store.Contents(), w), 200, "");
      store.Amend(w);
      return 200;
    }

    // ---- Login and key issue ----

    method HandleCallback(provider: string, user: UserInfo, expires: Option<int>, e: Env)
      returns (status: nat, credential: string)
      requires UniqueUsers(store.users)
      modifies store
      ensures Serve(prefix, old(store.Contents()), Job("", Callback(provider, user, expires), registry.perms, e))
              == Outcome(store.Contents(), status, credential)
    {
      hide Finish, Step, StepAccounts, StepPats, StepOrgs, EnterAdmin, PlanLogin, ApplyAll,
        StepRefresh, StepRevokeKey, StepIssue;
      var req := Callback(provider, user, expires);
      Stepped(NoAuth, req, Enter, e);
      status := CallbackStatus(req);
      if status != 200 {
        return status, "";
      }
      ghost var db := store.Contents();
      var keyId, secret;
      status, keyId, secret := store.LogIn(LoginOf(req, DaysOf(expires)), e);
      credential := if status == 200 then FormatApiKey(prefix, keyId, secret) else "";
    }

    method GenerateApiKey(user: string, days: int, e: Env) returns (status: nat, credential: string)
      modifies store
      ensures Serve(prefix, old(store.Contents()), Job("", IssueKey(user, days), registry.perms, e))
              == Outcome(store.Contents(), status, credential)
    {
      hide Finish, Step, StepAccounts, StepPats, StepOrgs, EnterAdmin, PlanGenerate, ApplyAll,
        StepRefresh, StepRevokeKey, StepCallback;
      ghost var req := IssueKey(user, days);
      Stepped(NoAuth, req, Enter, e);
      var keyId, secret;
      status, keyId, secret := store.GenerateApiKey(user, days, e);
      credential := if status == 200 then FormatApiKey(prefix, keyId, secret) else "";
    }
  }
}
