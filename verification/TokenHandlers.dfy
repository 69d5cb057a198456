/**
 The personal access token handlers: creation with its retry loop, revocation, and the
 three ways of editing a token's permissions.
 */
module TokenHandlers {
  import opened Wrappers
  import opened Auth
  import opened Handlers
  import opened Permissions
  import opened Requests
  import opened Runs
  import opened Sampling
  import opened Schema
  import opened Tokens
  import opened Transactions

  class PatApi {
    const api: Api

    constructor (api: Api)
      ensures this.api == api
    {
      this.api := api;
    }

    /** Token callers are held to their own permissions; other credentials are not. */
    method MayGrantTo(info: AuthInfo, existing: seq<string>, requested: seq<string>) returns (ok: bool)
      ensures ok <==> Granting(info, existing, requested)
    {
      if !info.PatAuth? {
        return true;
      }
      ok := CheckPrivilegeEscalation(info.perms, existing, requested);
    }

    // ---- Creation ----

    /** One transaction per attempt, a fresh id after each collision. */
    method InsertPat(info: AuthInfo, ghost req: Request, firstId: string, pat: Pat, secret: string, reader: Reader, e: Env)
      returns (status: nat, credential: string)
      requires req.CreatePat?
      modifies api.store, reader
      ensures old(api.Ending(At(info, req, Inserting(firstId, pat, secret, reader.stream, 0)), e))
              == Outcome(api.store.Contents(), status, credential)
    {
      hide Finish, Step, StepAccounts, StepOrgs, StepKeys, EnterAdmin, Check, Apply, Sample, StepRevokePat, StepPerms;
      var tokenId := firstId;
      var attempt := 0;
      while true
        invariant 0 <= attempt < MAX_PAT_ATTEMPTS
        invariant api.store.Contents() == old(api.store.Contents())
        invariant api.Ending(At(info, req, Inserting(tokenId, pat, secret, reader.stream, attempt)), e)
                  == old(api.Ending(At(info, req, Inserting(firstId, pat, secret, reader.stream, 0)), e))
        modifies api.store, reader
        decreases MAX_PAT_ATTEMPTS - attempt
      {
        api.Stepped(info, req, Inserting(tokenId, pat, secret, reader.stream, attempt), e);
        if Begin in e.faults || Insert in e.faults || Commit in e.faults {
          return INTERNAL, "";
        }
        var v := api.store.Exec(NewPat(tokenId, pat), e.usernameFirst);
        if v == Accepted {
          return 201, FormatPat(api.prefix, tokenId, secret);
        }
        if attempt >= MAX_PAT_ATTEMPTS - 1 {
          return INTERNAL, "";
        }
        var id := reader.RandomString(TOKEN_ALPHABET, ID_LENGTH);
        if id == None {
          return INTERNAL, "";
        }
        tokenId, attempt := id.value, attempt + 1;
      }
    }

    method CreatePat(token: string, name: string, perms: seq<string>, expires: Option<int>, e: Env)
      returns (status: nat, credential: string)
      modifies api.store
      ensures Serve(api.prefix, old(api.store.Contents()),
                    Job(token, Request.CreatePat(name, perms, expires), api.registry.perms, e))
              == Outcome(api.store.Contents(), status, credential)
    {
      hide Finish, Step, StepAccounts, StepOrgs, StepKeys, EnterAdmin, Apply, Sample, BulkRounds, ExpiryOf, StepRevokePat,
        StepPerms, Acceptable;
      ghost var req := Request.CreatePat(name, perms, expires);
      var g := api.Authenticate(token, req, e);
      if g.Deny? {
        return g.status, "";
      }
      var info := g.value;
      api.Stepped(info, req, Enter, e);
      if !HasPermission(info, "tokens:manage") {
        return 403, "";
      }
      if name == "" || |name| > 255 || perms == [] {
        return 400, "";
      }
      var known := api.registry.ValidatePermissions(perms, false);
      var days := DaysOf(expires);
      if !known || !ValidDays(days) {
        return 400, "";
      }
      var allowed := MayGrantTo(info, [], perms);
      if !allowed {
        return 403, "";
      }
      var reader := new Reader(e.bytes);
      var id := reader.RandomString(TOKEN_ALPHABET, ID_LENGTH);
      if id == None {
        return INTERNAL, "";
      }
      var secret := reader.RandomString(TOKEN_ALPHABET, SECRET_LENGTH);
      if secret == None {
        return INTERNAL, "";
      }
      var pat := Pat(UserOf(info), name, Sha256(secret.value), perms, days, ExpiryOf(e.now, days), None, Truncated(e.now));
      status, credential := InsertPat(info, req, id.value, pat, secret.value, reader, e);
    }

    // ---- Revocation ----

    method RevokePat(token: string, tokenId: string, e: Env) returns (status: nat)
      modifies api.store
      ensures Serve(api.prefix, old(api.store.Contents()), Job(token, RevokeOwnPat(tokenId), api.registry.perms, e))
              == Outcome(api.store.Contents(), status, "")
    {
      hide Finish, Step, StepAccounts, StepOrgs, StepKeys, EnterAdmin, StepCreatePat, StepPerms, Apply;
      ghost var req := RevokeOwnPat(tokenId);
      var g := api.Authenticate(token, req, e);
      if g.Deny? {
        return g.status;
      }
      var user := UserOf(g.value);
      api.Stepped(g.value, req, Enter, e);
      if !HasPermission(g.value, "tokens:manage") {
        return 403;
      }
      if Update in e.faults {
        return INTERNAL;
      }
      // the update is conditional on the row being there and unrevoked
      if PatOf(api.store.pats, tokenId, user) && api.store.pats[tokenId].revokedAt == None {
        ghost var w := Schema.RevokePat(tokenId, user, Truncated(e.now));
        assert api.Ending(At(g.value, req, Enter), e)
               == Finish(api.prefix, api.registry.perms, Apply(api.store.Contents(), w),
                         At(g.value, req, Refetching(tokenId)), e);
        api.store.Amend(Schema.RevokePat(tokenId, user, Truncated(e.now)));
        status := ReadBack(g.value, req, tokenId, e);
      } else {
        status := ExplainMiss(g.value, req, tokenId, e);
      }
    }

    method ReadBack(info: AuthInfo, ghost req: Request, tokenId: string, e: Env) returns (status: nat)
      requires req == RevokeOwnPat(tokenId)
      ensures api.Ending(At(info, req, Refetching(tokenId)), e) == Outcome(api.store.Contents(), status, "")
    {
      hide Finish, Step, StepAccounts, StepOrgs, StepKeys, EnterAdmin, StepCreatePat, StepPerms;
      api.Stepped(info, req, Refetching(tokenId), e);
      return if Refetch in e.faults || !PatOf(api.store.pats, tokenId, UserOf(info)) then INTERNAL else 200;
    }

    /** No row matched: unknown to this user, or revoked before. */
    method ExplainMiss(info: AuthInfo, ghost req: Request, tokenId: string, e: Env) returns (status: nat)
      requires req == RevokeOwnPat(tokenId)
      ensures api.Ending(At(info, req, Missed), e) == Outcome(api.store.Contents(), status, "")
    {
      hide Finish, Step, StepAccounts, StepOrgs, StepKeys, EnterAdmin, StepCreatePat, StepPerms;
      api.Stepped(info, req, Missed, e);
      if Fetch in e.faults {
        return INTERNAL;
      }
      return if PatOf(api.store.pats, tokenId, UserOf(info)) then 400 else 404;
    }

    // ---- Permissions ----

    /** The opening of the three: authorization, the request's form, then the token itself. */
    method LookupAndGuard(token: string, req: Request, e: Env) returns (info: AuthInfo, g: Gate<Pat>)
      requires EditsPerms(req)
      ensures match g
              case Deny(status) => api.Ending(Start(token, req), e) == Outcome(api.store.Contents(), status, "")
              case Pass(pat) =>
                && api.Ending(Start(token, req), e) == api.Ending(At(info, req, PatRead(pat)), e)
                && req.newPerms.Some?
    {
      hide Finish, Step, StepAccounts, StepOrgs, StepKeys, EnterAdmin, StepCreatePat, StepRevokePat;
      info := NoAuth;
      var auth := api.Authenticate(token, req, e);
      if auth.Deny? {
        return info, Deny(auth.status);
      }
      info := auth.value;
      api.Stepped(info, req, Enter, e);
      if !WriteOrManageTokens(info) {
        return info, Deny(403);
      }
      if req.newPerms == None || (!req.ReplacePerms? && req.newPerms.value == []) {
        return info, Deny(400);
      }
      if Fetch in e.faults {
        return info, Deny(INTERNAL);
      }
      if !PatOf(api.store.pats, req.tokenId, UserOf(info)) {
        return info, Deny(404);
      }
      var pat := api.store.pats[req.tokenId];
      if pat.revokedAt.Some? || (pat.expiresAt.Some? && pat.expiresAt.value <= e.now) {
        return info, Deny(400);
      }
      return info, Pass(pat);
    }

    /** The write, in a transaction; an empty list revokes the token as well. */
    method StorePerms(info: AuthInfo, ghost req: Request, tokenId: string, pat: Pat, perms: seq<string>, e: Env)
      returns (status: nat)
      requires EditsPerms(req) && req.tokenId == tokenId
      requires Step(api.prefix, api.registry.perms, api.store.Contents(), At(info, req, PatRead(pat)), e)
               == WritePerms(info, tokenId, perms, e)
      modifies api.store
      ensures old(api.Ending(At(info, req, PatRead(pat)), e)) == Outcome(api.store.Contents(), status, "")
    {
      hide Finish, Step, StepAccounts, StepPats, StepOrgs, StepKeys, EnterAdmin, Apply;
      api.Stepped(info, req, PatRead(pat), e);
      if Begin in e.faults || Update in e.faults || Commit in e.faults {
        return INTERNAL;
      }
      api.store.Amend(SetPerms(tokenId, UserOf(info), perms, if perms == [] then Some(Truncated(e.now)) else None));
      return 200;
    }

    method ReplacePermissions(token: string, tokenId: string, perms: Option<seq<string>>, e: Env) returns (status: nat)
      modifies api.store
      ensures Serve(api.prefix, old(api.store.Contents()), Job(token, ReplacePerms(tokenId, perms), api.registry.perms, e))
              == Outcome(api.store.Contents(), status, "")
    {
      hide Finish, Step, StepAccounts, StepOrgs, StepKeys, EnterAdmin, StepCreatePat, StepRevokePat, WritePerms, Acceptable;
      var req := ReplacePerms(tokenId, perms);
      var info, g := LookupAndGuard(token, req, e);
      if g.Deny? {
        return g.status;
      }
      var pat := g.value;
      api.Stepped(info, req, PatRead(pat), e);
      var ok := api.registry.ValidatePermissions(perms.value, false);
      if !ok {
        return 400;
      }
      ok := MayGrantTo(info, pat.perms, perms.value);
      if !ok {
        return 403;
      }
      status := StorePerms(info, req, tokenId, pat, perms.value, e);
    }

    method AddTokenPermissions(token: string, tokenId: string, perms: Option<seq<string>>, e: Env) returns (status: nat)
      modifies api.store
      ensures Serve(api.prefix, old(api.store.Contents()), Job(token, AddPerms(tokenId, perms), api.registry.perms, e))
              == Outcome(api.store.Contents(), status, "")
    {
      hide Finish, Step, StepAccounts, StepOrgs, StepKeys, EnterAdmin, StepCreatePat, StepRevokePat, WritePerms, Acceptable;
      var req := AddPerms(tokenId, perms);
      var info, g := LookupAndGuard(token, req, e);
      if g.Deny? {
        return g.status;
      }
      var pat := g.value;
      api.Stepped(info, req, PatRead(pat), e);
      var ok := api.registry.ValidatePermissions(perms.value, false);
      if !ok {
        return 400;
      }
      ok := MayGrantTo(info, pat.perms, perms.value);
      if !ok {
        return 403;
      }
      var merged := AddPermissions(pat.perms, perms.value);
      status := StorePerms(info, req, tokenId, pat, merged, e);
    }

    method RemoveTokenPermissions(token: string, tokenId: string, perms: Option<seq<string>>, e: Env) returns (status: nat)
      modifies api.store
      ensures Serve(api.prefix, old(api.store.Contents()), Job(token, RemovePerms(tokenId, perms), api.registry.perms, e))
              == Outcome(api.store.Contents(), status, "")
    {
      hide Finish, Step, StepAccounts, StepOrgs, StepKeys, EnterAdmin, StepCreatePat, StepRevokePat, WritePerms, Acceptable;
      var req := RemovePerms(tokenId, perms);
      var info, g := LookupAndGuard(token, req, e);
      if g.Deny? {
        return g.status;
      }
      var pat := g.value;
      api.Stepped(info, req, PatRead(pat), e);
      var ok := api.registry.ValidatePermissions(perms.value, true);
      if !ok {
        return 400;
      }
      var remaining := RemovePermissions(pat.perms, perms.value);
      status := StorePerms(info, req, tokenId, pat, remaining, e);
    }
  }
}
