/**
 The OAuth callback: all or nothing, the first free username for a new account, and
 nothing but the profile changed for a returning one.
 */
module Logins {
  import opened Wrappers
  import opened Auth
  import opened Constraints
  import opened Requests
  import opened Runs
  import opened Sampling
  import opened Schema
  import opened Serving
  import opened Text
  import opened Transactions

  // ---- The username search ----

  ghost predicate Free(db: Tables, name: string) { forall i :: i in db.users ==> db.users[i].username != name }

  /** The first candidate nobody has: base, base-2, ..., base-10. */
  ghost predicate FirstFree(db: Tables, base: string, from: nat, n: nat) {
    && from <= n < MAX_USERNAME_ATTEMPTS && Free(db, Candidate(base, n))
    && forall j :: from <= j < n ==> !Free(db, Candidate(base, j))
  }

  ghost predicate AnyFree(db: Tables, base: string, from: nat) { exists n :: FirstFree(db, base, from, n) }

  /** Nothing but the username can stand in the way of the insert. */
  ghost predicate Insertable(db: Tables, l: Login, e: Env) {
    && Insert !in e.faults && e.uuid !in db.users
    && !EmailTaken(db.users, l.email, e.uuid) && !IdentityTaken(db.users, l.provider, l.providerId)
  }

  lemma CheckInsert(db: Tables, l: Login, role: Role, e: Env, name: string)
    ensures var v := Check(db, NewUser(e.uuid, NewAccount(l, name, role, Truncated(e.now))), e.usernameFirst);
            && (v == Accepted <==> Free(db, name) && e.uuid !in db.users && !EmailTaken(db.users, l.email, e.uuid)
                                   && !IdentityTaken(db.users, l.provider, l.providerId))
            && (v == DupUsername ==> !Free(db, name))
            && (v != Accepted && v != DupUsername ==> e.uuid in db.users || EmailTaken(db.users, l.email, e.uuid)
                                                      || IdentityTaken(db.users, l.provider, l.providerId))
  {
  }

  /** The insert loop commits exactly when the email, the identity and the id are free and one of the ten
      names is, and then with the first free one. */
  lemma {:induction false} InsertFindsFirstFree(db: Tables, l: Login, role: Role, e: Env, attempt: nat)
    requires attempt < MAX_USERNAME_ATTEMPTS
    ensures var p := PlanInsert(db, l, role, e, attempt);
            && (p.Committed? <==> Insertable(db, l, e) && AnyFree(db, l.username, attempt))
            && (forall n :: p.Committed? && FirstFree(db, l.username, attempt, n) ==>
                  p.writes == [NewUser(e.uuid, NewAccount(l, Candidate(l.username, n), role, Truncated(e.now)))])
            && (p.Refused? ==> p.status == if Insert in e.faults then INTERNAL else CONFLICT)
    decreases MAX_USERNAME_ATTEMPTS - attempt
  {
    hide Check, Free, EmailTaken, IdentityTaken, Candidate;
    var p := PlanInsert(db, l, role, e, attempt);
    CheckInsert(db, l, role, e, Candidate(l.username, attempt));
    var u := NewAccount(l, Candidate(l.username, attempt), role, Truncated(e.now));
    var v := Check(db, NewUser(e.uuid, u), e.usernameFirst);
    if Free(db, Candidate(l.username, attempt)) {
      assert FirstFree(db, l.username, attempt, attempt);
    } else if v == DupUsername && attempt < MAX_USERNAME_ATTEMPTS - 1 {
      InsertFindsFirstFree(db, l, role, e, attempt + 1);
      var q := PlanInsert(db, l, role, e, attempt + 1);
      assert Insert !in e.faults ==> p == q;
      LaterFirstFree(db, l.username, attempt);
    } else {
      assert p.Refused?;
      if attempt == MAX_USERNAME_ATTEMPTS - 1 {
        forall n ensures !FirstFree(db, l.username, attempt, n) {}
      }
    }
  }

  lemma LaterFirstFree(db: Tables, base: string, from: nat)
    requires !Free(db, Candidate(base, from))
    ensures forall n :: FirstFree(db, base, from, n) <==> FirstFree(db, base, from + 1, n)
    ensures AnyFree(db, base, from) <==> AnyFree(db, base, from + 1)
  {
    hide Free, Candidate;
    if AnyFree(db, base, from) {
      var n :| FirstFree(db, base, from, n);
      assert FirstFree(db, base, from + 1, n);
    }
    if AnyFree(db, base, from + 1) {
      var n :| FirstFree(db, base, from + 1, n);
      assert FirstFree(db, base, from, n);
    }
  }

  // ---- Accounts ----

  /** One more account, with the first free name, and then whatever the hook makes of the tables. */
  ghost predicate SignedUp(db: Tables, l: Login, e: Env, after: Tables) {
    && e.uuid !in db.users
    && exists n :: FirstFree(db, l.username, 0, n)
                   && var hooked := e.hook(WithAccount(db, l, e, n), e.uuid); hooked.HookOk? && after == hooked.db
  }

  function WithAccount(db: Tables, l: Login, e: Env, n: nat): Tables {
    db.(users := db.users[e.uuid := NewAccount(l, Candidate(l.username, n), NewRole(db, l.email), Truncated(e.now))])
  }

  /** The account as before but for the profile; the new username only if nobody else has it. */
  ghost function WithProfile(db: Tables, l: Login, e: Env, id: string): Tables
    requires id in db.users
  {
    var u := db.users[id];
    db.(users := db.users[id := u.(username := if FreeFor(db, l.username, id) then l.username else u.username,
                                   email := l.email, updatedAt := Truncated(e.now))])
  }

  lemma SignupRow(db: Tables, l: Login, e: Env)
    ensures var p := PlanSignup(db, l, e);
            && (p.Committed? ==> SignedUp(db, l, e, ApplyAll(db, p.writes)))
            && (p.Refused? ==> p.status == CONFLICT || p.status == INTERNAL)
  {
    hide PlanInsert, NewRole, EqualFold, FirstFree, EmailTaken, IdentityTaken, Candidate;
    var role := NewRole(db, l.email);
    InsertFindsFirstFree(db, l, role, e, 0);
    var p := PlanSignup(db, l, e);
    if p.Committed? {
      var n :| FirstFree(db, l.username, 0, n);
      var w := NewUser(e.uuid, NewAccount(l, Candidate(l.username, n), role, Truncated(e.now)));
      assert p.writes == [w] + [RunHook(e.hook, e.uuid)];
      ApplyConcat(db, [w], [RunHook(e.hook, e.uuid)]);
      ApplyOne(db, w);
      ApplyOne(Apply(db, w), RunHook(e.hook, e.uuid));
      assert Apply(db, w) == WithAccount(db, l, e, n);
    }
  }

  /** Nobody else has the name. */
  ghost predicate FreeFor(db: Tables, name: string, id: string) {
    forall i :: i in db.users && i != id ==> db.users[i].username != name
  }

  lemma ReturnRow(db: Tables, id: string, l: Login, e: Env)
    requires id in db.users
    ensures var p := PlanReturn(db, id, l, e);
            && (p.Committed? ==>
                  db.users[id].status == Active && ApplyAll(db, p.writes) == WithProfile(db, l, e, id))
            && (p.Refused? ==> p.status == 403 || p.status == CONFLICT || p.status == INTERNAL)
  {
    hide EmailTaken, ApplyAll;
    var p := PlanReturn(db, id, l, e);
    if p.Committed? {
      assert p.writes == [p.writes[0]];
      ApplyOne(db, p.writes[0]);
      assert FreeFor(db, l.username, id) <==> !UsernameTaken(db.users, l.username, id);
    }
  }

  /** The user's keys revoked and one new key of the user's, under an id no key had; nothing else. */
  ghost predicate Rekeyed(before: Tables, after: Tables, user: string, at: nat) {
    exists k :: && k !in before.keys && k in after.keys && after.keys[k].user == user && after.keys[k].revokedAt == None
                && after == before.(keys := RevokedAll(before.keys, user, at)[k := after.keys[k]])
  }

  lemma LoginKeyRow(db: Tables, user: string, days: nat, e: Env)
    ensures var p := PlanLoginKey(db, user, days, e);
            && (p.Committed? ==> Rekeyed(db, ApplyAll(db, p.writes), user, Truncated(e.now)))
            && (p.Refused? ==> p.status == CONFLICT || p.status == INTERNAL)
  {
    hide Sample, ExpiryOf, ApplyAll;
    var p := PlanLoginKey(db, user, days, e);
    if p.Committed? {
      var revoke, insert := p.writes[0], p.writes[1];
      assert p.writes == [revoke] + [insert];
      ApplyConcat(db, [revoke], [insert]);
      ApplyOne(db, revoke);
      ApplyOne(Apply(db, revoke), insert);
      assert insert.keyId !in db.keys;
      assert ApplyAll(db, p.writes).keys[insert.keyId] == insert.key;
    }
  }

  /** The tables once the account is created or refreshed. */
  ghost predicate AccountReady(db: Tables, l: Login, e: Env, after: Tables) {
    match FindIdentity(db, l.provider, l.providerId)
    case None => SignedUp(db, l, e, after)
    case Some(id) => id in db.users && db.users[id].status == Active && after == WithProfile(db, l, e, id)
  }

  /** The tables after a committed login: the account, and then its one live key. */
  ghost predicate LoggedIn(db: Tables, l: Login, e: Env, after: Tables) {
    exists mid :: AccountReady(db, l, e, mid) && Rekeyed(mid, after, LoginId(db, l, e), Truncated(e.now))
  }

  lemma LoginTables(db: Tables, l: Login, e: Env)
    ensures var p := PlanLogin(db, l, e);
            && (p.Committed? ==> LoggedIn(db, l, e, ApplyAll(db, p.writes)))
            && (p.Refused? ==> p.status == 403 || p.status == CONFLICT || p.status == INTERNAL)
  {
    hide PlanReturn, PlanSignup, PlanLoginKey, ApplyAll, SignedUp, WithProfile, LoginId, Rekeyed;
    var p := PlanLogin(db, l, e);
    var found := FindIdentity(db, l.provider, l.providerId);
    if found.Some? { ReturnRow(db, found.value, l, e); } else { SignupRow(db, l, e); }
    var first := if found.Some? then PlanReturn(db, found.value, l, e) else PlanSignup(db, l, e);
    if first.Committed? {
      var mid := ApplyAll(db, first.writes);
      var second := PlanLoginKey(mid, LoginId(db, l, e), l.days, e);
      LoginKeyRow(mid, LoginId(db, l, e), l.days, e);
      if second.Committed? {
        assert AccountReady(db, l, e, mid);
        ApplyConcat(db, first.writes, second.writes);
      }
    }
  }

  /** The callback is all or nothing, for every hook behaviour and every failing statement: an error leaves
      every table as it was; a success signs the account up, under the first free name, or refreshes it, and
      gives it one live key. A hook that respects the schema keeps usernames unique. */
  lemma CallbackAllOrNothing(prefix: string, db: Tables, job: Job)
    requires job.req.Callback?
    ensures var o := Serve(prefix, db, job);
            && (o.status != 200 ==> o.db == db && o.credential == "")
            && (o.status == 200 ==> CallbackStatus(job.req) == 200
                                    && LoggedIn(db, LoginOf(job.req, DaysOf(job.req.expires)), job.e, o.db))
            && (Consistent(db) && KeepsConsistent(job.e.hook) ==> UniqueUsers(o.db.users))
  {
    hide PlanLogin, LoggedIn, Step, Finish, UniqueUsers, KeepsConsistent;
    CallbackServed(prefix, db, job);
    if CallbackStatus(job.req) == 200 { LoginTables(db, LoginOf(job.req, DaysOf(job.req.expires)), job.e); }
    if Consistent(db) && KeepsConsistent(job.e.hook) {
      FinishConsistent(prefix, job.registry, db, Launched(job.token, job.req), job.e);
    }
  }

  /** A callback runs in one step. */
  lemma CallbackServed(prefix: string, db: Tables, job: Job)
    requires job.req.Callback?
    ensures var n := StepCallback(prefix, db, job.req, job.e);
            n.thread.Done? && Serve(prefix, db, job) == Outcome(ApplyAll(db, n.writes), n.thread.status, n.thread.credential)
  {
    hide StepCallback, StepAccounts, StepPats, StepOrgs, EnterAdmin;
    var n := StepCallback(prefix, db, job.req, job.e);
    CallbackEnds(prefix, db, job.req, job.e);
    assert Step(prefix, job.registry, db, At(NoAuth, job.req, Enter), job.e) == n;
    SettledFinish(prefix, job.registry, ApplyAll(db, n.writes), n.thread, job.e);
  }

  lemma CallbackEnds(prefix: string, db: Tables, req: Request, e: Env)
    requires req.Callback?
    ensures StepCallback(prefix, db, req, e).thread.Done?
  {
    hide PlanLogin;
  }

  /** A returning user keeps id, role and status; everybody else is untouched. */
  lemma ReturningUserKept(prefix: string, db: Tables, job: Job, id: string)
    requires job.req.Callback? && LeavesUsers(job.e.hook) && id in db.users
    requires Serve(prefix, db, job).status == 200
    ensures var after := Serve(prefix, db, job).db.users;
            && id in after && after[id].role == db.users[id].role && after[id].status == db.users[id].status
            && after[id].provider == db.users[id].provider && after[id].providerId == db.users[id].providerId
            && (db.users[id].provider != job.req.provider || db.users[id].providerId != job.req.user.providerId ==>
                  after[id] == db.users[id])
  {
    hide Serve, FirstFree, FreeFor, NewRole, Candidate, Consistent, UniqueUsers, RevokedAll;
    CallbackAllOrNothing(prefix, db, job);
  }
}
