/**
 The store as the handlers see it: tables updated in place by single statements, and
 transactions that either keep all their writes or put the tables back.
 */
module Database {
  import opened Wrappers
  import opened Sampling
  import opened Schema
  import opened Text
  import opened Transactions

  class Store {
    var users: map<string, User>
    var keys: map<string, ApiKey>
    var pats: map<string, Pat>
    var orgs: map<string, Org>
    var members: map<(string, string), nat>
    var adminEmail: Option<string>
    var adminHash: Option<Hash>

    constructor (db: Tables)
      ensures Contents() == db
    {
      users, keys, pats, orgs, members := db.users, db.keys, db.pats, db.orgs, db.members;
      adminEmail, adminHash := db.adminEmail, db.adminHash;
    }

    function Contents(): Tables
      reads this
    {
      Tables(users, keys, pats, orgs, members, adminEmail, adminHash)
    }

    /** Rollback: the tables as they were when the transaction began. */
    method Restore(saved: Tables)
      modifies this
      ensures Contents() == saved
    {
      users, keys, pats, orgs, members := saved.users, saved.keys, saved.pats, saved.orgs, saved.members;
      adminEmail, adminHash := saved.adminEmail, saved.adminHash;
    }

    /** One statement: refused with the constraint it would violate, or applied. */
    method Exec(w: Write, usernameFirst: bool) returns (v: Verdict)
      modifies this
      ensures v == Check(old(Contents()), w, usernameFirst)
      ensures Contents() == if v == Accepted then Apply(old(Contents()), w) else old(Contents())
    {
      hide Check, Apply;
      v := Check(Contents(), w, usernameFirst);
      if v == Accepted {
        Put(w);
      }
    }

    /** A statement that violates no constraint whatever the tables hold. */
    method Amend(w: Write)
      requires Unconditional(w)
      modifies this
      ensures Contents() == Apply(old(Contents()), w)
    {
      hide Check, Apply;
      Put(w);
    }

    method Put(w: Write)
      modifies this
      ensures Contents() == Apply(old(Contents()), w)
    {
      hide Apply;
      if TouchesUsers(w) {
        WriteUsers(w);
      } else if w.RevokeKeysOf? || w.NewKey? || w.RevokeKey? || w.RefreshKey? || w.DropKeysOf? {
        WriteKeys(w);
      } else if w.NewPat? || w.SetPerms? || w.RevokePat? || w.DropPatsOf? {
        WritePats(w);
      } else if TouchesOrgs(w) {
        WriteOrgs(w);
      } else {
        WriteOthers(w);
      }
    }

    method WriteUsers(w: Write)
      requires TouchesUsers(w)
      modifies this
      ensures Contents() == Apply(old(Contents()), w)
    {
      match w
      case NewUser(id, user) => users := users[id := user];
      case LoginUser(id, username, email, at) =>
        if id in users { users := users[id := WithLogin(users[id], username, email, at)]; }
      case SetFullName(id, name, at) =>
        if id in users { users := users[id := users[id].(fullName := Some(name), updatedAt := at)]; }
      case SetRole(id, role, at) =>
        if id in users { users := users[id := users[id].(role := role, updatedAt := at)]; }
      case SetStatus(id, status, at) =>
        if id in users { users := users[id := users[id].(status := status, updatedAt := at)]; }
      case DropUser(id) =>
        users := users - {id};
        keys := KeysNotOf(keys, id);
        pats := PatsNotOf(pats, id);
        members := MembershipsNotOf(members, id);
    }

    method WriteKeys(w: Write)
      requires w.RevokeKeysOf? || w.NewKey? || w.RevokeKey? || w.RefreshKey? || w.DropKeysOf?
      modifies this
      ensures Contents() == Apply(old(Contents()), w)
    {
      match w
      case RevokeKeysOf(id, at) => keys := RevokedAll(keys, id, at);
      case NewKey(keyId, key) => keys := keys[keyId := key];
      case RevokeKey(keyId, id, at) =>
        if KeyOf(keys, keyId, id) { keys := keys[keyId := keys[keyId].(revokedAt := Some(at))]; }
      case RefreshKey(keyId, id, hash, expiresAt, at) =>
        if KeyOf(keys, keyId, id) {
          keys := keys[keyId := keys[keyId].(hash := hash, expiresAt := expiresAt, createdAt := at)];
        }
      case DropKeysOf(id) => keys := KeysNotOf(keys, id);
    }

    method WritePats(w: Write)
      requires w.NewPat? || w.SetPerms? || w.RevokePat? || w.DropPatsOf?
      modifies this
      ensures Contents() == Apply(old(Contents()), w)
    {
      match w
      case NewPat(tokenId, pat) => pats := pats[tokenId := pat];
      case SetPerms(tokenId, id, perms, revokedAt) =>
        if PatOf(pats, tokenId, id) {
          var p := pats[tokenId];
          pats := pats[tokenId := p.(perms := perms, revokedAt := if revokedAt.Some? then revokedAt else p.revokedAt)];
        }
      case RevokePat(tokenId, id, at) =>
        if PatOf(pats, tokenId, id) { pats := pats[tokenId := pats[tokenId].(revokedAt := Some(at))]; }
      case DropPatsOf(id) => pats := PatsNotOf(pats, id);
    }

    method WriteOrgs(w: Write)
      requires TouchesOrgs(w)
      modifies this
      ensures Contents() == Apply(old(Contents()), w)
    {
      match w
      case ClearOwner(id) => orgs := Unowned(orgs, id);
      case NewOrg(orgId, org) => orgs := orgs[orgId := org];
      case SetOrg(orgId, name, url, status, at) =>
        if orgId in orgs { orgs := orgs[orgId := WithOrg(orgs[orgId], name, url, status, at)]; }
      case DropOrg(orgId) =>
        orgs := orgs - {orgId};
        members := MembershipsOutside(members, orgId);
    }

    method WriteOthers(w: Write)
      requires w.DropMembershipsOf? || w.NewMember? || w.DropMember? || w.RunHook?
      modifies this
      ensures Contents() == Apply(old(Contents()), w)
    {
      match w
      case DropMembershipsOf(id) => members := MembershipsNotOf(members, id);
      case NewMember(orgId, id, at) => members := members[(orgId, id) := at];
      case DropMember(orgId, id) => members := members - {(orgId, id)};
      case RunHook(hook, id) =>
        var answer := hook(Contents(), id);
        if answer.HookOk? { Restore(answer.db); }
    }

    // ---- API key generation ----

    /** Revoke, then insert under a fresh id, trying again on a collision; the revocation is not repeated. */
    method GenerateWithExecutor(user: string, days: nat, e: Env) returns (status: nat, keyId: string, secret: string)
      modifies this
      ensures RevokeOld in e.faults ==> status == INTERNAL
      ensures RevokeOld !in e.faults ==>
                var mid := Apply(old(Contents()), RevokeKeysOf(user, Truncated(e.now)));
                var p := PlanNewKey(mid, user, days, e, e.bytes, MAX_INSERT_ATTEMPTS);
                Realizes(p, mid, Contents(), status, keyId, secret)
    {
      hide Check, Apply, ExpiryOf, Sample, BulkRounds;
      keyId, secret := "", "";
      if RevokeOld in e.faults {
        return INTERNAL, "", "";
      }
      Amend(RevokeKeysOf(user, Truncated(e.now)));
      ghost var mid := Contents();
      var reader := new Reader(e.bytes);
      var attempt := 0;
      while attempt < MAX_INSERT_ATTEMPTS
        invariant 0 <= attempt <= MAX_INSERT_ATTEMPTS
        invariant Contents() == mid && fresh(reader)
        invariant PlanNewKey(mid, user, days, e, e.bytes, MAX_INSERT_ATTEMPTS)
                  == PlanNewKey(mid, user, days, e, reader.stream, MAX_INSERT_ATTEMPTS - attempt)
        modifies this, reader
      {
        var id := reader.RandAlphanumeric(KEYS_CHARSET, ID_LENGTH);
        if id == None {
          return INTERNAL, "", "";
        }
        var text := reader.RandAlphanumeric(KEYS_CHARSET, SECRET_LENGTH);
        if text == None {
          return INTERNAL, "", "";
        }
        if InsertKey in e.faults {
          return INTERNAL, "", "";
        }
        var key := ApiKey(user, Sha256(text.value), days, ExpiryOf(e.now, days), None, Truncated(e.now));
        var v := Exec(NewKey(id.value, key), e.usernameFirst);
        if v == Accepted {
          ApplyOne(mid, NewKey(id.value, key));
          return 200, id.value, text.value;
        }
        attempt := attempt + 1;
      }
      return INTERNAL, "", "";
    }

    /** GenerateAPIKey in a transaction of its own. */
    method GenerateApiKey(user: string, days: int, e: Env) returns (status: nat, keyId: string, secret: string)
      modifies this
      ensures Realizes(PlanGenerate(old(Contents()), user, days, e), old(Contents()), Contents(), status, keyId, secret)
    {
      hide PlanNewKey, Apply;
      if !ValidDays(days) || Begin in e.faults {
        return INTERNAL, "", "";
      }
      var saved := Contents();
      status, keyId, secret := GenerateWithExecutor(user, days, e);
      if status != 200 {
        Restore(saved);
        return status, "", "";
      }
      if Commit in e.faults {
        Restore(saved);
        return INTERNAL, "", "";
      }
      ghost var revoke := RevokeKeysOf(user, Truncated(e.now));
      ghost var inner := PlanNewKey(Apply(saved, revoke), user, days, e, e.bytes, MAX_INSERT_ATTEMPTS);
      ApplyOne(saved, revoke);
      ApplyConcat(saved, [revoke], inner.writes);
    }

    // ---- The OAuth callback ----

    /** SELECT ... WHERE provider = ? AND provider_id = ?. */
    method FindAccount(provider: string, providerId: string) returns (found: Option<string>)
      requires UniqueUsers(users)
      ensures found == FindIdentity(Contents(), provider, providerId)
    {
      if id :| id in users && users[id].provider == provider && users[id].providerId == providerId {
        assert HasIdentity(Contents(), id, provider, providerId);
        found := Some(id);
      } else {
        assert forall id :: !HasIdentity(Contents(), id, provider, providerId);
        found := None;
      }
    }

    /** The insert loop over base, base-2, ..., base-10. */
    method InsertAccount(l: Login, role: Role, e: Env) returns (status: nat)
      modifies this
      ensures Realizes(PlanInsert(old(Contents()), l, role, e, 0), old(Contents()), Contents(), status, "", "")
    {
      hide Check, Apply, Candidate;
      ghost var db := Contents();
      var attempt := 0;
      while attempt < MAX_USERNAME_ATTEMPTS
        invariant 0 <= attempt <= MAX_USERNAME_ATTEMPTS
        invariant Contents() == db
        invariant attempt < MAX_USERNAME_ATTEMPTS ==>
                    PlanInsert(db, l, role, e, 0) == PlanInsert(db, l, role, e, attempt)
        invariant attempt == MAX_USERNAME_ATTEMPTS ==> false
      {
        if Insert in e.faults {
          return INTERNAL;
        }
        var w := NewUser(e.uuid, NewAccount(l, Candidate(l.username, attempt), role, Truncated(e.now)));
        var v := Exec(w, e.usernameFirst);
        if v == Accepted {
          ApplyOne(db, w);
          return 200;
        }
        if v != DupUsername || attempt == MAX_USERNAME_ATTEMPTS - 1 {
          return CONFLICT;
        }
        attempt := attempt + 1;
      }
    }

    method SignUp(l: Login, e: Env) returns (status: nat)
      modifies this
      ensures match PlanSignup(old(Contents()), l, e)
              case Refused(s) => status == s && s != 200
              case Committed(ws, _, _) => status == 200 && Contents() == ApplyAll(old(Contents()), ws)
    {
      hide PlanInsert, EqualFold, Apply;
      if ReadPromotion in e.faults {
        return INTERNAL;
      }
      var role := RegularUser;
      if adminEmail.Some? && EqualFold(adminEmail.value, l.email) {
        if CountAdmins in e.faults {
          return INTERNAL;
        }
        if |Admins(users)| == 0 {
          role := Administrator;
        }
      }
      ghost var db := Contents();
      assert role == NewRole(db, l.email);
      status := InsertAccount(l, role, e);
      if status == 200 {
        ghost var ws := PlanInsert(db, l, role, e, 0).writes;
        ghost var mid := Contents();
        ApplyConcat(db, ws, [RunHook(e.hook, e.uuid)]);
        ApplyOne(mid, RunHook(e.hook, e.uuid));
        var answer := e.hook(Contents(), e.uuid);
        if answer.HookFailed? {
          return HookStatus(answer);
        }
        var _ := Exec(RunHook(e.hook, e.uuid), e.usernameFirst);
      }
    }

    method SignIn(id: string, l: Login, e: Env) returns (status: nat)
      requires id in users
      modifies this
      ensures match PlanReturn(old(Contents()), id, l, e)
              case Refused(s) => status == s && s != 200
              case Committed(ws, _, _) => status == 200 && Contents() == ApplyAll(old(Contents()), ws)
    {
      hide Check, Apply;
      if users[id].status == Blocked {
        return 403;
      }
      if Update in e.faults {
        return INTERNAL;
      }
      ghost var db := Contents();
      var at := Truncated(e.now);
      var v := Exec(LoginUser(id, Some(l.username), l.email, at), e.usernameFirst);
      ApplyOne(db, LoginUser(id, Some(l.username), l.email, at));
      if v == DupUsername {
        if Fallback in e.faults {
          return INTERNAL;
        }
        v := Exec(LoginUser(id, None, l.email, at), e.usernameFirst);
        ApplyOne(db, LoginUser(id, None, l.email, at));
      }
      return if v == Accepted then 200 else CONFLICT;
    }

    method ReplaceLoginKey(user: string, days: nat, e: Env) returns (status: nat, keyId: string, secret: string)
      modifies this
      ensures match PlanLoginKey(old(Contents()), user, days, e)
              case Refused(s) => status == s && s != 200
              case Committed(ws, id, sec) =>
                status == 200 && keyId == id && secret == sec && Contents() == ApplyAll(old(Contents()), ws)
    {
      hide Check, Apply, ExpiryOf;
      keyId, secret := "", "";
      if RevokeOld in e.faults {
        return INTERNAL, "", "";
      }
      ghost var db := Contents();
      var revoke := RevokeKeysOf(user, Truncated(e.now));
      Amend(revoke);
      var reader := new Reader(e.bytes);
      var id := reader.RandomString(OAUTH_CHARSET, ID_LENGTH);
      if id == None {
        return INTERNAL, "", "";
      }
      var text := reader.RandomString(OAUTH_CHARSET, SECRET_LENGTH);
      if text == None {
        return INTERNAL, "", "";
      }
      if InsertKey in e.faults {
        return INTERNAL, "", "";
      }
      var key := ApiKey(user, Sha256(text.value), days, ExpiryOf(e.later, days), None, Truncated(e.now));
      var w := NewKey(id.value, key);
      ghost var mid := Contents();
      var v := Exec(w, e.usernameFirst);
      if v != Accepted {
        return CONFLICT, "", "";
      }
      if Commit in e.faults {
        return INTERNAL, "", "";
      }
      ApplyOne(db, revoke);
      ApplyOne(mid, w);
      ApplyConcat(db, [revoke], [w]);
      assert [revoke] + [w] == [revoke, w];
      return 200, id.value, text.value;
    }

    /** The callback's transaction: every early return puts the tables back. */
    method LogIn(l: Login, e: Env) returns (status: nat, keyId: string, secret: string)
      requires UniqueUsers(users)
      modifies this
      ensures Realizes(PlanLogin(old(Contents()), l, e), old(Contents()), Contents(), status, keyId, secret)
    {
      hide PlanReturn, PlanSignup, PlanLoginKey;
      if Begin in e.faults {
        return INTERNAL, "", "";
      }
      var saved := Contents();
      if Fetch in e.faults {
        return INTERNAL, "", "";
      }
      var found := FindAccount(l.provider, l.providerId);
      var user := e.uuid;
      match found {
        case Some(id) =>
          user := id;
          status := SignIn(id, l, e);
        case None =>
          status := SignUp(l, e);
      }
      if status != 200 {
        Restore(saved);
        return status, "", "";
      }
      ghost var mid := Contents();
      assert user == LoginId(saved, l, e);
      status, keyId, secret := ReplaceLoginKey(user, l.days, e);
      if status != 200 {
        Restore(saved);
        return status, "", "";
      }
      ghost var first := if found.Some? then PlanReturn(saved, found.value, l, e) else PlanSignup(saved, l, e);
      ApplyConcat(saved, first.writes, PlanLoginKey(mid, user, l.days, e).writes);
    }

    // ---- Creating and deleting users ----

    /** One insert and the hook, committed together. */
    method InsertUser(u: User, e: Env) returns (status: nat)
      modifies this
      ensures match PlanCreateUser(old(Contents()), u, e)
              case Refused(s) => status == s && s != 201 && Contents() == old(Contents())
              case Committed(ws, _, _) => status == 201 && Contents() == ApplyAll(old(Contents()), ws)
    {
      hide Check, Apply;
      if Begin in e.faults {
        return INTERNAL;
      }
      var saved := Contents();
      if Insert in e.faults {
        return INTERNAL;
      }
      var w := NewUser(e.uuid, u);
      var v := Exec(w, e.usernameFirst);
      if v != Accepted {
        return if v == DupUsername || v == DupOther then CONFLICT else INTERNAL;
      }
      var answer := e.hook(Contents(), e.uuid);
      if answer.HookFailed? || Commit in e.faults {
        Restore(saved);
        return INTERNAL;
      }
      ghost var mid := Contents();
      Hooked(mid, e.hook, e.uuid, e.usernameFirst);
      var _ := Exec(RunHook(e.hook, e.uuid), e.usernameFirst);
      ApplyOne(saved, w);
      ApplyOne(mid, RunHook(e.hook, e.uuid));
      ApplyConcat(saved, [w], [RunHook(e.hook, e.uuid)]);
      assert [w] + [RunHook(e.hook, e.uuid)] == [w, RunHook(e.hook, e.uuid)];
      return 201;
    }

    /** The cascade, statement by statement. */
    method Cascade(id: string, e: Env) returns (ok: bool, found: bool)
      modifies this
      ensures ok <==> !CascadeFails(e.faults)
      ensures ok ==> found == (id in old(users)) && Contents() == ApplyAll(old(Contents()), Purge(id))
    {
      hide Check, Apply, ApplyAll;
      found := false;
      ghost var db := Contents();
      if Clear in e.faults { return false, false; }
      Amend(ClearOwner(id));
      if DropKeys in e.faults { return false, false; }
      Amend(DropKeysOf(id));
      if DropPats in e.faults { return false, false; }
      Amend(DropPatsOf(id));
      if DropMembers in e.faults { return false, false; }
      Amend(DropMembershipsOf(id));
      if DropRow in e.faults { return false, false; }
      found := id in users;
      EarlierKeepUsers(db, id);
      Amend(DropUser(id));
      ApplyFive(db, ClearOwner(id), DropKeysOf(id), DropPatsOf(id), DropMembershipsOf(id), DropUser(id));
      ok := true;
    }

    /** Deletion's transaction, with the guard repeated inside for a target read as an active administrator. */
    method DeleteUser(id: string, wasActiveAdmin: bool, e: Env) returns (committed: bool, status: nat)
      modifies this
      ensures match PlanDelete(old(Contents()), id, wasActiveAdmin, e)
              case Refused(s) => !committed && status == s && Contents() == old(Contents())
              case Committed(ws, _, _) => committed && status == 204 && Contents() == ApplyAll(old(Contents()), ws)
    {
      hide Check, Apply, ApplyAll, Purge;
      committed := false;
      if Begin in e.faults {
        return false, INTERNAL;
      }
      var saved := Contents();
      if wasActiveAdmin {
        if Recheck in e.faults {
          return false, INTERNAL;
        }
        if |ActiveAdmins(users)| <= 1 {
          return false, CONFLICT;
        }
      }
      var ok, found := Cascade(id, e);
      if !ok || !found {
        Restore(saved);
        return false, if !ok then INTERNAL else 404;
      }
      var answer := e.hook(Contents(), id);
      if answer.HookFailed? {
        Restore(saved);
        return false, if answer.status.Some? then answer.status.value else INTERNAL;
      }
      ghost var mid := Contents();
      Hooked(mid, e.hook, id, e.usernameFirst);
      var _ := Exec(RunHook(e.hook, id), e.usernameFirst);
      if Commit in e.faults {
        Restore(saved);
        return false, INTERNAL;
      }
      ApplyConcat(saved, Purge(id), [RunHook(e.hook, id)]);
      ApplyOne(mid, RunHook(e.hook, id));
      return true, 204;
    }
  }

  /** A method's result and the tables it leaves are those of the plan. */
  ghost predicate Realizes(p: Plan, before: Tables, after: Tables, status: nat, keyId: string, secret: string) {
    match p
    case Refused(s) => status == s && s != 200 && after == before
    case Committed(ws, id, sec) => status == 200 && keyId == id && secret == sec && after == ApplyAll(before, ws)
  }

  lemma Hooked(db: Tables, hook: Hook, id: string, usernameFirst: bool)
    ensures Check(db, RunHook(hook, id), usernameFirst) == Accepted
  {
  }

  /** Only the last statement of the cascade touches the users table. */
  lemma EarlierKeepUsers(db: Tables, id: string)
    ensures Apply(Apply(Apply(Apply(db, ClearOwner(id)), DropKeysOf(id)), DropPatsOf(id)), DropMembershipsOf(id)).users
            == db.users
  {
    hide KeysNotOf, PatsNotOf, MembershipsNotOf, Unowned;
  }
}
