/**
 What the OAuth callback is answered, and what it leaves, when no statement fails:
 exactly, for a newcomer and for somebody with an account.
 */
module AnswersLogin {
  import opened Wrappers
  import opened AnswersKeys
  import opened Decimal
  import opened Faults
  import opened Requests
  import opened Runs
  import opened Sampling
  import opened Schema
  import opened Terms
  import opened Text
  import opened Transactions
  import L = Logins

  // ---- The words ----

  /** The account of this identity. */
  ghost predicate HasAccount(db: Tables, r: Request, id: string)
    requires r.Callback?
  {
    id in db.users && db.users[id].provider == r.provider && db.users[id].providerId == r.user.providerId
  }

  /** The provider's user name, or provider-id if it gives none. */
  function BaseName(r: Request): string
    requires r.Callback?
  {
    if r.user.username != "" then r.user.username else r.provider + "-" + r.user.providerId
  }

  /** The ten names tried, in this order. */
  function NameList(base: string): (names: seq<string>)
    ensures |names| == 10
  {
    [base, base + "-2", base + "-3", base + "-4", base + "-5", base + "-6", base + "-7", base + "-8", base + "-9",
     base + "-10"]
  }

  ghost predicate Unused(users: map<string, User>, name: string) { forall i :: i in users ==> users[i].username != name }

  /** The first of the names that nobody has. */
  ghost predicate FirstName(users: map<string, User>, base: string, n: nat) {
    && n < 10 && Unused(users, NameList(base)[n])
    && forall j :: 0 <= j < n ==> !Unused(users, NameList(base)[j])
  }

  /** The designated address signs up as administrator as long as nobody has the role. */
  ghost predicate Designated(db: Tables, email: string) {
    && db.adminEmail.Some? && SameButForCase(db.adminEmail.value, email)
    && forall i :: i in db.users ==> db.users[i].role != Administrator
  }

  ghost function Newcomer(db: Tables, r: Request, name: string, now: nat): User
    requires r.Callback?
  {
    User(name, r.user.email, None, if Designated(db, r.user.email) then Administrator else RegularUser, Active, r.provider,
         r.user.providerId, Second(now), Second(now))
  }

  /** What the transaction's last part makes of the account: its keys revoked and one new key, or a failure for want
      of random bytes, an id in use, or an account the hook has taken away. */
  function WithKey(prefix: string, before: Tables, mid: Tables, user: string, days: nat, e: Env): Outcome {
    var id := LoginText(8, e.bytes);
    var secret := LoginText(32, id.rest);
    if id.text == None || secret.text == None then Outcome(before, 500, "")
    else if id.text.value in mid.keys || user !in mid.users then Outcome(before, 409, "")
    else Outcome(Rekeyed(mid, user, id.text.value, secret.text.value, days, e.later, e.now), 200,
                 PrintedKey(prefix, id.text.value, secret.text.value))
  }

  /** The checks before the transaction: lifetime, email, and the provider's id. */
  function Refusal(r: Request): Option<nat>
    requires r.Callback?
  {
    if !Offered(Lifetime(r.expires)) || r.user.email == "" then Some(400)
    else if r.user.providerId == "" then Some(502)
    else None
  }

  // ---- From plans to answers ----

  /** The answer to a planned transaction that goes on from mid; a refusal leaves the tables as before. */
  function Answered(prefix: string, before: Tables, mid: Tables, p: Plan): Outcome {
    match p
    case Refused(status) => Outcome(before, status, "")
    case Committed(ws, id, secret) => Outcome(ApplyAll(mid, ws), 200, PrintedKey(prefix, id, secret))
  }

  /** Where a planned account gets to. */
  function Keyed(prefix: string, db: Tables, p: Plan, user: string, days: nat, e: Env): Outcome {
    match p
    case Refused(status) => Outcome(db, status, "")
    case Committed(ws, _, _) => WithKey(prefix, db, ApplyAll(db, ws), user, days, e)
  }

  lemma CallbackAnswered(prefix: string, db: Tables, job: Job)
    requires job.req.Callback?
    ensures Serve(prefix, db, job)
            == match Refusal(job.req)
               case Some(status) => Outcome(db, status, "")
               case None => Answered(prefix, db, db, PlanLogin(db, LoginOf(job.req, Lifetime(job.req.expires)), job.e))
  {
    hide Serve, PlanLogin;
    L.CallbackServed(prefix, db, job);
  }

  lemma KeyPlanned(prefix: string, before: Tables, mid: Tables, user: string, days: nat, e: Env)
    requires e.faults == {}
    ensures WithKey(prefix, before, mid, user, days, e)
            == Answered(prefix, before, mid, PlanLoginKey(mid, user, days, e))
  {
    hide Sample, LoginText, OAUTH_CHARSET, ExpiryOf, Expiry, Apply, Truncated, Rekeyed, ApplyAll;
    LoginTextIs(8, e.bytes);
    var id := LoginText(8, e.bytes);
    LoginTextIs(32, id.rest);
    var secret := LoginText(32, id.rest);
    if id.text.Some? && secret.text.Some? {
      RekeyedIs(mid, user, id.text.value, secret.text.value, days, e.later, e.now);
    }
  }

  /** The account's part of the transaction and then the key's. */
  lemma LoginPlanned(prefix: string, db: Tables, l: Login, e: Env)
    requires e.faults == {}
    ensures var found := FindIdentity(db, l.provider, l.providerId);
            var first := if found.Some? then PlanReturn(db, found.value, l, e) else PlanSignup(db, l, e);
            Answered(prefix, db, db, PlanLogin(db, l, e)) == Keyed(prefix, db, first, LoginId(db, l, e), l.days, e)
  {
    hide PlanReturn, PlanSignup, PlanLoginKey, ApplyAll, WithKey;
    var found := FindIdentity(db, l.provider, l.providerId);
    var first := if found.Some? then PlanReturn(db, found.value, l, e) else PlanSignup(db, l, e);
    if first.Committed? {
      var mid := ApplyAll(db, first.writes);
      KeyPlanned(prefix, db, mid, LoginId(db, l, e), l.days, e);
      var second := PlanLoginKey(mid, LoginId(db, l, e), l.days, e);
      if second.Committed? { ApplyConcat(db, first.writes, second.writes); }
    }
  }

  // ---- Somebody with an account ----

  ghost predicate OthersHave(db: Tables, id: string, email: string) {
    exists i :: i in db.users && i != id && db.users[i].email == email
  }

  /** The profile as the provider gives it, except that a user name somebody else has is not taken over. */
  ghost function Seen(db: Tables, r: Request, id: string, now: nat): Tables
    requires r.Callback? && id in db.users
  {
    var u := db.users[id];
    db.(users := db.users[id := u.(
      username := if exists i :: i in db.users && i != id && db.users[i].username == BaseName(r) then u.username
                  else BaseName(r),
      email := r.user.email,
      updatedAt := Second(now))])
  }

  lemma ReturningAnswer(prefix: string, db: Tables, job: Job, id: string)
    requires job.req.Callback? && job.e.faults == {} && UniqueUsers(db.users) && HasAccount(db, job.req, id)
    ensures var r, e := job.req, job.e;
            Serve(prefix, db, job)
            == match Refusal(r)
               case Some(status) => Outcome(db, status, "")
               case None =>
                 if db.users[id].status == Blocked then Outcome(db, 403, "")
                 else if OthersHave(db, id, r.user.email) then Outcome(db, 409, "")
                 else WithKey(prefix, db, Seen(db, r, id, e.now), id, Lifetime(r.expires), e)
  {
    hide Serve, PlanLogin, PlanReturn, PlanSignup, WithKey, Seen, OthersHave, ApplyAll;
    var r, e := job.req, job.e;
    CallbackAnswered(prefix, db, job);
    if Refusal(r) == None {
      var l := LoginOf(r, Lifetime(r.expires));
      IdentityFound(db, r, id);
      LoginPlanned(prefix, db, l, e);
      ReturnPlanned(db, r, id, e);
    }
  }

  lemma IdentityFound(db: Tables, r: Request, id: string)
    requires r.Callback? && UniqueUsers(db.users) && HasAccount(db, r, id)
    ensures FindIdentity(db, r.provider, r.user.providerId) == Some(id)
  {
    assert HasIdentity(db, id, r.provider, r.user.providerId);
  }

  lemma ReturnPlanned(db: Tables, r: Request, id: string, e: Env)
    requires r.Callback? && e.faults == {} && id in db.users && Refusal(r) == None
    ensures var p := PlanReturn(db, id, LoginOf(r, Lifetime(r.expires)), e);
            if db.users[id].status == Blocked then p == Refused(403)
            else if OthersHave(db, id, r.user.email) then p == Refused(409)
            else p.Committed? && ApplyAll(db, p.writes) == Seen(db, r, id, e.now)
  {
    hide ApplyAll, Second, Truncated;
    SecondIsTruncated(e.now);
    var p := PlanReturn(db, id, LoginOf(r, Lifetime(r.expires)), e);
    if p.Committed? {
      assert p.writes == [p.writes[0]];
      ApplyOne(db, p.writes[0]);
    }
  }

  // ---- A newcomer ----

  lemma NameListIs(base: string, n: nat)
    requires n < 10
    ensures Candidate(base, n) == NameList(base)[n]
  {
    if n == 9 { assert Dec(10) == Dec(1) + [Digit(0)] == "10"; }
  }

  lemma RoleIs(db: Tables, email: string)
    ensures NewRole(db, email) == if Designated(db, email) then Administrator else RegularUser
  {
    hide EqualFold, SameButForCase;
    if db.adminEmail.Some? { EqualFoldMeaning(db.adminEmail.value, email); }
    var admins := Admins(db.users);
    if admins == {} {
      forall i | i in db.users ensures db.users[i].role != Administrator { assert i !in admins; }
    }
  }

  ghost predicate Clash(db: Tables, r: Request, uuid: string)
    requires r.Callback?
  {
    uuid in db.users || exists i :: i in db.users && db.users[i].email == r.user.email
  }

  /** The new account under the first unused name, then the hook, then its key. */
  ghost function SignupOutcome(prefix: string, db: Tables, r: Request, e: Env, n: nat): Outcome
    requires r.Callback? && n < 10 && Refusal(r) == None
  {
    match e.hook(db.(users := db.users[e.uuid := Newcomer(db, r, NameList(BaseName(r))[n], e.now)]), e.uuid)
    case HookOk(mid) => WithKey(prefix, db, mid, e.uuid, Lifetime(r.expires), e)
    case HookFailed(conflict, _) => Outcome(db, if conflict then 409 else 500, "")
  }

  lemma SignupAnswer(prefix: string, db: Tables, job: Job)
    requires job.req.Callback? && job.e.faults == {} && forall id :: !HasAccount(db, job.req, id)
    ensures var r, e := job.req, job.e; var o := Serve(prefix, db, job);
            match Refusal(r)
            case Some(status) => o == Outcome(db, status, "")
            case None =>
              if Clash(db, r, e.uuid) then o == Outcome(db, 409, "")
              else if forall n :: !FirstName(db.users, BaseName(r), n) then o == Outcome(db, 409, "")
              else exists n :: FirstName(db.users, BaseName(r), n) && o == SignupOutcome(prefix, db, r, e, n)
  {
    hide Serve, PlanLogin, PlanReturn, PlanSignup, WithKey, ApplyAll, FirstName, Clash, SignupOutcome;
    var r, e := job.req, job.e;
    CallbackAnswered(prefix, db, job);
    if Refusal(r) == None {
      var l := LoginOf(r, Lifetime(r.expires));
      forall id ensures !HasIdentity(db, id, r.provider, r.user.providerId) { assert !HasAccount(db, r, id); }
      LoginPlanned(prefix, db, l, e);
      SignupPlanned(prefix, db, r, e);
    }
  }

  lemma SignupPlanned(prefix: string, db: Tables, r: Request, e: Env)
    requires r.Callback? && e.faults == {} && Refusal(r) == None && forall id :: !HasAccount(db, r, id)
    ensures var l := LoginOf(r, Lifetime(r.expires));
            var o := Keyed(prefix, db, PlanSignup(db, l, e), e.uuid, l.days, e);
            if Clash(db, r, e.uuid) then o == Outcome(db, 409, "")
            else if forall n :: !FirstName(db.users, BaseName(r), n) then o == Outcome(db, 409, "")
            else exists n :: FirstName(db.users, BaseName(r), n) && o == SignupOutcome(prefix, db, r, e, n)
  {
    hide PlanInsert, WithKey, ApplyAll, FirstName, Clash, Designated, NewRole, NewAccount, NameList;
    var l := LoginOf(r, Lifetime(r.expires));
    var role := NewRole(db, l.email);
    var p, q := PlanSignup(db, l, e), PlanInsert(db, l, role, e, 0);
    InsertPlanned(db, r, e);
    if q.Committed? {
      var n: nat :| n < 10 && InsertedAs(db, r, e, n, q);
      var u := Newcomer(db, r, NameList(BaseName(r))[n], e.now);
      SignupApplied(db, e.uuid, u, e.hook);
      assert p.Committed? ==> p.writes == [NewUser(e.uuid, u), RunHook(e.hook, e.uuid)];
    }
  }

  lemma SignupApplied(db: Tables, id: string, u: User, hook: Hook)
    ensures var mid := db.(users := db.users[id := u]);
            && ApplyAll(db, [NewUser(id, u)]) == mid
            && (hook(mid, id).HookOk? ==> ApplyAll(db, [NewUser(id, u), RunHook(hook, id)]) == hook(mid, id).db)
  {
    ApplyOne(db, NewUser(id, u));
    ApplyConcat(db, [NewUser(id, u)], [RunHook(hook, id)]);
    ApplyOne(Apply(db, NewUser(id, u)), RunHook(hook, id));
    assert [NewUser(id, u)] + [RunHook(hook, id)] == [NewUser(id, u), RunHook(hook, id)];
  }

  ghost predicate InsertedAs(db: Tables, r: Request, e: Env, n: nat, p: Plan)
    requires r.Callback? && n < 10
  {
    && FirstName(db.users, BaseName(r), n)
    && p.Committed? && p.writes == [NewUser(e.uuid, Newcomer(db, r, NameList(BaseName(r))[n], e.now))]
  }

  lemma InsertPlanned(db: Tables, r: Request, e: Env)
    requires r.Callback? && e.faults == {} && Refusal(r) == None && forall id :: !HasAccount(db, r, id)
    ensures var l := LoginOf(r, Lifetime(r.expires)); var p := PlanInsert(db, l, NewRole(db, l.email), e, 0);
            if Clash(db, r, e.uuid) || (forall n :: !FirstName(db.users, BaseName(r), n)) then p == Refused(409)
            else exists n: nat :: n < 10 && InsertedAs(db, r, e, n, p)
  {
    hide PlanInsert, NewRole, Designated, FirstName, NameList, Clash, L.Insertable, L.FirstFree, Second, Truncated;
    var l := LoginOf(r, Lifetime(r.expires));
    L.InsertFindsFirstFree(db, l, NewRole(db, l.email), e, 0);
    InsertableIs(db, r, e);
    SecondIsTruncated(e.now);
    RoleIs(db, l.email);
    forall n ensures L.FirstFree(db, l.username, 0, n) <==> FirstName(db.users, BaseName(r), n) {
      FirstNameIs(db, BaseName(r), n);
    }
    if !Clash(db, r, e.uuid) && exists n :: FirstName(db.users, BaseName(r), n) {
      var n :| FirstName(db.users, BaseName(r), n);
      assert L.FirstFree(db, l.username, 0, n);
      FirstNameBound(db.users, BaseName(r), n);
      NameListIs(BaseName(r), n);
      assert InsertedAs(db, r, e, n, PlanInsert(db, l, NewRole(db, l.email), e, 0));
    }
  }

  lemma FirstNameBound(users: map<string, User>, base: string, n: nat)
    ensures FirstName(users, base, n) ==> n < 10
  {
  }

  lemma InsertableIs(db: Tables, r: Request, e: Env)
    requires r.Callback? && e.faults == {} && Refusal(r) == None && forall id :: !HasAccount(db, r, id)
    ensures L.Insertable(db, LoginOf(r, Lifetime(r.expires)), e) <==> !Clash(db, r, e.uuid)
  {
    if IdentityTaken(db.users, r.provider, r.user.providerId) {
      var i :| i in db.users && db.users[i].provider == r.provider && db.users[i].providerId == r.user.providerId;
      assert HasAccount(db, r, i);
    }
  }

  lemma FirstNameIs(db: Tables, base: string, n: nat)
    ensures L.FirstFree(db, base, 0, n) <==> FirstName(db.users, base, n)
  {
    hide Candidate, NameList, L.Free, Unused;
    if n < 10 {
      forall j | 0 <= j <= n ensures L.Free(db, Candidate(base, j)) <==> Unused(db.users, NameList(base)[j]) {
        NameListIs(base, j);
        FreeIsUnused(db, Candidate(base, j));
      }
    }
  }

  lemma FreeIsUnused(db: Tables, name: string)
    ensures L.Free(db, name) <==> Unused(db.users, name)
  {
  }

  // ---- The first administrator ----

  /** Whatever else happens, a login that succeeds for an identity without an account gives the new account the role
      of administrator exactly when its address is the designated one and nobody has that role. */
  lemma NewcomerRole(prefix: string, db: Tables, job: Job)
    requires job.req.Callback? && Serve(prefix, db, job).status == 200 && LeavesUsers(job.e.hook)
    requires forall id :: !HasAccount(db, job.req, id)
    ensures var after := Serve(prefix, db, job).db.users; var id := job.e.uuid;
            && id !in db.users && id in after && after == db.users[id := after[id]]
            && after[id].role == if Designated(db, job.req.user.email) then Administrator else RegularUser
  {
    hide Serve, Designated, WithKey, Sample, Unused, NameList;
    var r, calm := job.req, job.(e := job.e.(faults := {}));
    FaultsOnlyFail(prefix, db, job);
    SignupAnswer(prefix, db, calm);
    assert Refusal(r) == None;
    var n: nat :| n < 10 && FirstName(db.users, BaseName(r), n)
                  && Serve(prefix, db, calm) == SignupOutcome(prefix, db, r, calm.e, n);
    var u := Newcomer(db, r, NameList(BaseName(r))[n], job.e.now);
    var mid := job.e.hook(db.(users := db.users[job.e.uuid := u]), job.e.uuid).db;
    KeyLeavesUsers(prefix, db, mid, job.e.uuid, Lifetime(r.expires), calm.e);
  }

  lemma KeyLeavesUsers(prefix: string, before: Tables, mid: Tables, user: string, days: nat, e: Env)
    ensures var o := WithKey(prefix, before, mid, user, days, e); o.status == 200 ==> o.db.users == mid.users
  {
    hide LoginText;
  }
}
