/**
 The schema's constraints over whole runs: every write a handler commits was
 accepted against the tables it was applied to, so uniqueness and foreign keys
 survive any interleaving, and a deleted user is mentioned nowhere afterwards.
 */
module Constraints {
  import opened Wrappers
  import opened Auth
  import opened Permissions
  import opened Requests
  import opened Runs
  import opened Sampling
  import opened Schema
  import opened Shapes
  import opened Transactions

  /** A hook runs inside the transaction, where SQLite checks its writes as well. */
  ghost predicate KeepsConsistent(hook: Hook) {
    forall db, id :: Consistent(db) && hook(db, id).HookOk? ==> Consistent(hook(db, id).db)
  }

  /** Each write of a list is accepted by the tables the earlier ones leave. */
  ghost predicate AllAccepted(db: Tables, ws: seq<Write>, usernameFirst: bool)
    decreases |ws|
  {
    ws != [] ==> && Check(db, ws[0], usernameFirst) == Accepted
                 && AllAccepted(Apply(db, ws[0]), ws[1..], usernameFirst)
  }

  lemma {:induction false} AcceptedRun(db: Tables, ws: seq<Write>, usernameFirst: bool)
    requires Consistent(db) && AllAccepted(db, ws, usernameFirst)
    requires forall i :: 0 <= i < |ws| && ws[i].RunHook? ==> KeepsConsistent(ws[i].hook)
    ensures Consistent(ApplyAll(db, ws))
    decreases |ws|
  {
    hide Consistent, Check, Apply;
    if ws != [] {
      if ws[0].RunHook? { assert KeepsConsistent(ws[0].hook); }
      AcceptedKeepsConsistent(db, ws[0], usernameFirst);
      AcceptedRun(Apply(db, ws[0]), ws[1..], usernameFirst);
    }
  }

  lemma AcceptedOne(db: Tables, w: Write, usernameFirst: bool)
    requires Check(db, w, usernameFirst) == Accepted
    ensures AllAccepted(db, [w], usernameFirst)
  {
    hide Check, Apply;
    assert AllAccepted(Apply(db, w), [w][1..], usernameFirst);
  }

  lemma {:induction false} AcceptedConcat(db: Tables, a: seq<Write>, b: seq<Write>, usernameFirst: bool)
    requires AllAccepted(db, a, usernameFirst) && AllAccepted(ApplyAll(db, a), b, usernameFirst)
    ensures AllAccepted(db, a + b, usernameFirst)
    decreases |a|
  {
    hide Check, Apply;
    if a == [] {
      assert a + b == b;
    } else {
      AcceptedConcat(Apply(db, a[0]), a[1..], b, usernameFirst);
      assert (a + b)[1..] == a[1..] + b;
    }
  }

  lemma {:induction false} UnconditionalAccepted(db: Tables, ws: seq<Write>, usernameFirst: bool)
    requires forall i :: 0 <= i < |ws| ==> Unconditional(ws[i])
    ensures AllAccepted(db, ws, usernameFirst)
    decreases |ws|
  {
    hide Apply;
    if ws != [] { UnconditionalAccepted(Apply(db, ws[0]), ws[1..], usernameFirst); }
  }

  // ---- The transactions ----

  lemma HookedAccepted(db: Tables, ws: seq<Write>, e: Env, id: string)
    requires AllAccepted(db, ws, e.usernameFirst)
    ensures AllAccepted(db, ws + [RunHook(e.hook, id)], e.usernameFirst)
  {
    hide AllAccepted;
    AcceptedOne(ApplyAll(db, ws), RunHook(e.hook, id), e.usernameFirst);
    AcceptedConcat(db, ws, [RunHook(e.hook, id)], e.usernameFirst);
  }

  lemma CreateAccepted(db: Tables, u: User, e: Env)
    ensures var p := PlanCreateUser(db, u, e); p.Committed? ==> AllAccepted(db, p.writes, e.usernameFirst)
  {
    hide AllAccepted, Check;
    var w := NewUser(e.uuid, u);
    if Check(db, w, e.usernameFirst) == Accepted {
      AcceptedOne(db, w, e.usernameFirst);
      HookedAccepted(db, [w], e, e.uuid);
      assert [w] + [RunHook(e.hook, e.uuid)] == [w, RunHook(e.hook, e.uuid)];
    }
  }

  lemma {:induction false} InsertAccepted(db: Tables, l: Login, role: Role, e: Env, attempt: nat)
    requires attempt < MAX_USERNAME_ATTEMPTS
    ensures var p := PlanInsert(db, l, role, e, attempt); p.Committed? ==> AllAccepted(db, p.writes, e.usernameFirst)
    decreases MAX_USERNAME_ATTEMPTS - attempt
  {
    hide AllAccepted, Check, Candidate;
    var w := NewUser(e.uuid, NewAccount(l, Candidate(l.username, attempt), role, Truncated(e.now)));
    if Check(db, w, e.usernameFirst) == Accepted {
      AcceptedOne(db, w, e.usernameFirst);
    } else if attempt < MAX_USERNAME_ATTEMPTS - 1 {
      InsertAccepted(db, l, role, e, attempt + 1);
    }
  }

  lemma SignupAccepted(db: Tables, l: Login, e: Env)
    ensures var p := PlanSignup(db, l, e); p.Committed? ==> AllAccepted(db, p.writes, e.usernameFirst)
  {
    hide AllAccepted, PlanInsert, NewRole;
    var p := PlanInsert(db, l, NewRole(db, l.email), e, 0);
    InsertAccepted(db, l, NewRole(db, l.email), e, 0);
    if p.Committed? { HookedAccepted(db, p.writes, e, e.uuid); }
  }

  lemma ReturnAccepted(db: Tables, id: string, l: Login, e: Env)
    requires id in db.users
    ensures var p := PlanReturn(db, id, l, e); p.Committed? ==> AllAccepted(db, p.writes, e.usernameFirst)
  {
    hide AllAccepted, Check;
    var p := PlanReturn(db, id, l, e);
    if p.Committed? { AcceptedOne(db, p.writes[0], e.usernameFirst); }
  }

  lemma LoginKeyAccepted(db: Tables, user: string, days: nat, e: Env)
    ensures var p := PlanLoginKey(db, user, days, e); p.Committed? ==> AllAccepted(db, p.writes, e.usernameFirst)
  {
    hide AllAccepted, Sample, ExpiryOf;
    var p := PlanLoginKey(db, user, days, e);
    if p.Committed? {
      var revoke := RevokeKeysOf(user, Truncated(e.now));
      AcceptedOne(db, revoke, e.usernameFirst);
      ApplyOne(db, revoke);
      AcceptedOne(Apply(db, revoke), p.writes[1], e.usernameFirst);
      AcceptedConcat(db, [revoke], [p.writes[1]], e.usernameFirst);
      assert p.writes == [revoke] + [p.writes[1]];
    }
  }

  lemma LoginAccepted(db: Tables, l: Login, e: Env)
    ensures var p := PlanLogin(db, l, e); p.Committed? ==> AllAccepted(db, p.writes, e.usernameFirst)
  {
    hide AllAccepted, PlanSignup, PlanReturn, PlanLoginKey;
    var p := PlanLogin(db, l, e);
    if p.Committed? {
      var found := FindIdentity(db, l.provider, l.providerId);
      var first := if found.Some? then PlanReturn(db, found.value, l, e) else PlanSignup(db, l, e);
      if found.Some? { ReturnAccepted(db, found.value, l, e); } else { SignupAccepted(db, l, e); }
      var mid := ApplyAll(db, first.writes);
      LoginKeyAccepted(mid, LoginId(db, l, e), l.days, e);
      AcceptedConcat(db, first.writes, PlanLoginKey(mid, LoginId(db, l, e), l.days, e).writes, e.usernameFirst);
    }
  }

  lemma {:induction false} NewKeyAccepted(db: Tables, user: string, days: nat, e: Env, stream: seq<byte>, attempts: nat)
    ensures var p := PlanNewKey(db, user, days, e, stream, attempts);
            p.Committed? ==> AllAccepted(db, p.writes, e.usernameFirst)
    decreases attempts
  {
    hide AllAccepted, Sample, Check, ExpiryOf;
    var p := PlanNewKey(db, user, days, e, stream, attempts);
    if p.Committed? {
      var id := Sample(Letters(KEYS_CHARSET), ID_LENGTH, stream);
      var secret := Sample(Letters(KEYS_CHARSET), SECRET_LENGTH, id.rest);
      var w := NewKey(id.text.value,
                      ApiKey(user, Sha256(secret.text.value), days, ExpiryOf(e.now, days), None, Truncated(e.now)));
      if Check(db, w, e.usernameFirst) == Accepted {
        AcceptedOne(db, w, e.usernameFirst);
      } else {
        NewKeyAccepted(db, user, days, e, secret.rest, attempts - 1);
      }
    }
  }

  lemma GenerateAccepted(db: Tables, user: string, days: int, e: Env)
    ensures var p := PlanGenerate(db, user, days, e); p.Committed? ==> AllAccepted(db, p.writes, e.usernameFirst)
  {
    hide AllAccepted, PlanNewKey;
    var p := PlanGenerate(db, user, days, e);
    if p.Committed? {
      var revoke := RevokeKeysOf(user, Truncated(e.now));
      var inner := PlanNewKey(Apply(db, revoke), user, days, e, e.bytes, MAX_INSERT_ATTEMPTS);
      AcceptedOne(db, revoke, e.usernameFirst);
      ApplyOne(db, revoke);
      NewKeyAccepted(Apply(db, revoke), user, days, e, e.bytes, MAX_INSERT_ATTEMPTS);
      AcceptedConcat(db, [revoke], inner.writes, e.usernameFirst);
    }
  }

  lemma DeleteAccepted(db: Tables, id: string, wasActiveAdmin: bool, e: Env)
    ensures var p := PlanDelete(db, id, wasActiveAdmin, e); p.Committed? ==> AllAccepted(db, p.writes, e.usernameFirst)
  {
    hide AllAccepted, ApplyAll;
    UnconditionalAccepted(db, Purge(id), e.usernameFirst);
    HookedAccepted(db, Purge(id), e, id);
  }

  // ---- Handlers ----

  lemma CallbackAccepted(prefix: string, db: Tables, req: Request, e: Env)
    requires Public(req)
    ensures req.Callback? ==> AllAccepted(db, StepCallback(prefix, db, req, e).writes, e.usernameFirst)
    ensures req.IssueKey? ==> AllAccepted(db, StepIssue(prefix, db, req, e).writes, e.usernameFirst)
  {
    hide PlanLogin, PlanGenerate;
    if req.Callback? && CallbackStatus(req) == 200 {
      LoginAccepted(db, LoginOf(req, DaysOf(req.expires)), e);
    }
    if req.IssueKey? { GenerateAccepted(db, req.id, req.days, e); }
  }

  lemma CreateUserAccepted(db: Tables, info: AuthInfo, req: Request, e: Env)
    requires req.CreateUser?
    ensures AllAccepted(db, StepCreateUser(db, info, req, e).writes, e.usernameFirst)
  {
    hide PlanCreateUser;
    var at := Truncated(e.now);
    var u := User(req.username, req.email, Some(""), RegularUser, Active, req.provider, req.providerId, at, at);
    CreateAccepted(db, u, e);
  }

  lemma DeletionAccepted(db: Tables, info: AuthInfo, req: Request, pc: Pc, e: Env)
    requires req.DeleteUser? && Stage(req, pc) && !pc.Enter?
    ensures AllAccepted(db, StepDelete(db, info, req, pc, e).writes, e.usernameFirst)
  {
    hide PlanDelete;
    if pc.Approved? { DeleteAccepted(db, pc.id, IsActiveAdmin(pc.row), e); }
  }

  lemma DeleteOrgAccepted(db: Tables, info: AuthInfo, req: Request, pc: Pc, e: Env)
    requires req.DeleteOrg? && Stage(req, pc) && !pc.Enter?
    ensures AllAccepted(db, StepDeleteOrg(db, info, req, pc, e).writes, e.usernameFirst)
  {
    hide AllAccepted;
    UnconditionalAccepted(db, [], e.usernameFirst);
    AcceptedOne(db, DropOrg(pc.id), e.usernameFirst);
    HookedAccepted(db, [DropOrg(pc.id)], e, pc.id);
    assert [DropOrg(pc.id)] + [RunHook(e.hook, pc.id)] == [DropOrg(pc.id), RunHook(e.hook, pc.id)];
  }

  /** A single write behind a check. */
  lemma CheckedAccepted(db: Tables, n: Next, usernameFirst: bool)
    requires n.writes == [] || (|n.writes| == 1 && Check(db, n.writes[0], usernameFirst) == Accepted )
    ensures AllAccepted(db, n.writes, usernameFirst)
  {
    hide Check, AllAccepted;
    UnconditionalAccepted(db, [], usernameFirst);
    if n.writes != [] {
      assert n.writes == [n.writes[0]];
      AcceptedOne(db, n.writes[0], usernameFirst);
    }
  }

  lemma CreatePatAccepted(prefix: string, registry: set<string>, db: Tables, info: AuthInfo, req: Request, pc: Pc, e: Env)
    requires req.CreatePat? && Stage(req, pc)
    ensures AllAccepted(db, StepCreatePat(prefix, registry, db, info, req, pc, e).writes, e.usernameFirst)
  {
    hide AllAccepted, Sample, Check, Acceptable, MayGrant, ExpiryOf;
    CheckedAccepted(db, StepCreatePat(prefix, registry, db, info, req, pc, e), e.usernameFirst);
  }

  lemma CreateOrgAccepted(db: Tables, info: AuthInfo, req: Request, e: Env)
    requires req.CreateOrg?
    ensures AllAccepted(db, StepCreateOrg(db, info, req, e).writes, e.usernameFirst)
  {
    hide AllAccepted, Check, ValidSlug;
    CheckedAccepted(db, StepCreateOrg(db, info, req, e), e.usernameFirst);
  }

  lemma OrgAccepted(db: Tables, info: AuthInfo, req: Request, pc: Pc, e: Env)
    requires EditsOrg(req) && Stage(req, pc) && !pc.Enter?
    ensures AllAccepted(db, StepOrg(db, info, req, pc, e).writes, e.usernameFirst)
  {
    hide AllAccepted, Check;
    CheckedAccepted(db, StepOrg(db, info, req, pc, e), e.usernameFirst);
  }

  lemma MemberAccepted(db: Tables, info: AuthInfo, req: Request, pc: Pc, e: Env)
    requires (req.AddMember? || req.RemoveMember?) && Stage(req, pc) && !pc.Enter?
    ensures AllAccepted(db, StepMember(db, info, req, pc, e).writes, e.usernameFirst)
  {
    hide AllAccepted, UserSelector, ResolveUser;
    CheckedAccepted(db, StepMember(db, info, req, pc, e), e.usernameFirst);
  }

  /** Requests all of whose writes are unconditional. */
  predicate Unconstrained(req: Request) {
    !req.CreateUser? && !req.DeleteUser? && !req.DeleteOrg? && !Public(req) && !req.CreatePat? && !req.CreateOrg?
    && !EditsOrg(req) && !req.AddMember? && !req.RemoveMember?
  }

  lemma UnconstrainedAccepted(db: Tables, info: AuthInfo, req: Request, pc: Pc, n: Next, usernameFirst: bool)
    requires Unconstrained(req) && Shape(info, req, pc, n)
    ensures AllAccepted(db, n.writes, usernameFirst)
  {
    forall i | 0 <= i < |n.writes| ensures Unconditional(n.writes[i]) {
      assert Fits(req, n.writes[i]);
    }
    UnconditionalAccepted(db, n.writes, usernameFirst);
  }

  lemma HandlerAccepted(prefix: string, registry: set<string>, db: Tables, info: AuthInfo, req: Request, pc: Pc, e: Env)
    requires Stage(req, pc)
    ensures AllAccepted(db, StepHandler(prefix, registry, db, info, req, pc, e).writes, e.usernameFirst)
  {
    hide AllAccepted, EnterAdmin, StepCreateUser, StepUpdateUser, StepDelete, StepLifecycle,
      StepAdminRevoke, StepProfile, StepRefresh, StepRevokeKey, StepCallback, StepIssue, StepDeleteOrg, StepOrg,
      StepCreateOrg, StepMember, StepCreatePat, StepRevokePat, StepPerms, Shape;
    if pc.Enter? && HasSelector(req) {
      EnterReads(db, info, req, e);
      UnconditionalAccepted(db, [], e.usernameFirst);
    }
    else if req.CreateUser? { CreateUserAccepted(db, info, req, e); }
    else if req.DeleteUser? { DeletionAccepted(db, info, req, pc, e); }
    else if req.DeleteOrg? { DeleteOrgAccepted(db, info, req, pc, e); }
    else if Public(req) { CallbackAccepted(prefix, db, req, e); }
    else if req.CreatePat? { CreatePatAccepted(prefix, registry, db, info, req, pc, e); }
    else if req.CreateOrg? { CreateOrgAccepted(db, info, req, e); }
    else if EditsOrg(req) { OrgAccepted(db, info, req, pc, e); }
    else if req.AddMember? || req.RemoveMember? { MemberAccepted(db, info, req, pc, e); }
    else {
      HandlerShape(prefix, registry, db, info, req, pc, e);
      UnconstrainedAccepted(db, info, req, pc, StepHandler(prefix, registry, db, info, req, pc, e), e.usernameFirst);
    }
  }

  /** Every statement commits only what SQLite accepts. */
  lemma StepAccepted(prefix: string, registry: set<string>, db: Tables, t: Thread, e: Env)
    ensures AllAccepted(db, Step(prefix, registry, db, t, e).writes, e.usernameFirst)
  {
    hide AllAccepted, StepHandler, CheckCredential, CheckOwner;
    if t.At? && Stage(t.req, t.pc) {
      HandlerAccepted(prefix, registry, db, t.info, t.req, t.pc, e);
    } else {
      UnconditionalAccepted(db, [], e.usernameFirst);
    }
  }

  lemma StepKeepsConsistent(prefix: string, registry: set<string>, db: Tables, t: Thread, e: Env)
    requires Consistent(db) && KeepsConsistent(e.hook)
    ensures Consistent(ApplyAll(db, Step(prefix, registry, db, t, e).writes))
  {
    hide KeepsConsistent, AllAccepted, Step, Consistent;
    StepAccepted(prefix, registry, db, t, e);
    StepHooks(prefix, registry, db, t, e);
    AcceptedRun(db, Step(prefix, registry, db, t, e).writes, e.usernameFirst);
  }

  /** Uniqueness and foreign keys hold after every run, however the statements interleave. */
  lemma {:induction false} EveryRunConsistent(prefix: string, s: System, evs: seq<Event>)
    requires Consistent(s.db)
    requires forall i :: 0 <= i < |evs| && evs[i].Advance? ==> KeepsConsistent(evs[i].e.hook)
    ensures Consistent(Run(prefix, s, evs).db)
    decreases |evs|
  {
    hide Step, Consistent, KeepsConsistent, Registered;
    if evs != [] {
      var ev := evs[0];
      if ev.Advance? && ev.tid in s.threads {
        StepKeepsConsistent(prefix, s.registry, s.db, s.threads[ev.tid], ev.e);
      }
      EveryRunConsistent(prefix, Occur(prefix, s, ev), evs[1..]);
    }
  }

  lemma {:induction false} FinishConsistent(prefix: string, registry: set<string>, db: Tables, t: Thread, e: Env)
    requires Consistent(db) && KeepsConsistent(e.hook)
    ensures Consistent(Finish(prefix, registry, db, t, e).db)
    decreases Rank(t)
  {
    hide Step, Consistent;
    if !t.Done? {
      var n := Step(prefix, registry, db, t, e);
      StepKeepsConsistent(prefix, registry, db, t, e);
      StepShape(prefix, registry, db, t, e);
      FinishConsistent(prefix, registry, ApplyAll(db, n.writes), n.thread, e);
    }
  }

  // ---- Deletion leaves nothing behind ----

  /** The id occurs in no table, not even in orgs.owner_id, which no foreign key protects. */
  ghost predicate Unmentioned(db: Tables, id: string) {
    && id !in db.users
    && (forall k :: k in db.keys ==> db.keys[k].user != id)
    && (forall k :: k in db.pats ==> db.pats[k].user != id)
    && (forall m :: m in db.members ==> m.1 != id)
    && (forall o :: o in db.orgs ==> db.orgs[o].owner != Some(id))
  }

  /** What does not concern the id is as it was. */
  ghost predicate OthersKept(before: Tables, after: Tables, id: string) {
    && (forall u :: u != id ==> (u in after.users <==> u in before.users)
                                && (u in before.users ==> after.users[u] == before.users[u]))
    && (forall k :: k in before.keys && before.keys[k].user != id ==> k in after.keys && after.keys[k] == before.keys[k])
    && (forall k :: k in before.pats && before.pats[k].user != id ==> k in after.pats && after.pats[k] == before.pats[k])
    && (forall m :: m in before.members && m.1 != id ==> m in after.members && after.members[m] == before.members[m])
    && (forall o :: o in before.orgs ==> && o in after.orgs
                                         && after.orgs[o] == if before.orgs[o].owner == Some(id)
                                                             then before.orgs[o].(owner := None) else before.orgs[o])
    && after.keys.Keys <= before.keys.Keys && after.pats.Keys <= before.pats.Keys
    && after.members.Keys <= before.members.Keys && after.orgs.Keys == before.orgs.Keys
    && after.adminEmail == before.adminEmail && after.adminHash == before.adminHash
  }

  lemma PurgeMeaning(db: Tables, id: string)
    ensures Unmentioned(ApplyAll(db, Purge(id)), id) && OthersKept(db, ApplyAll(db, Purge(id)), id)
  {
    PurgeUnfolds(db, id);
  }

  lemma PurgeUnfolds(db: Tables, id: string)
    ensures ApplyAll(db, Purge(id))
            == db.(users := db.users - {id}, keys := KeysNotOf(db.keys, id), pats := PatsNotOf(db.pats, id),
                   members := MembershipsNotOf(db.members, id), orgs := Unowned(db.orgs, id))
  {
    hide ApplyAll, KeysNotOf, PatsNotOf, MembershipsNotOf, Unowned;
    ApplyFive(db, ClearOwner(id), DropKeysOf(id), DropPatsOf(id), DropMembershipsOf(id), DropUser(id));
    DroppingTwice(db, id);
  }

  /** The cascading deletes find nothing left to delete. */
  lemma DroppingTwice(db: Tables, id: string)
    ensures KeysNotOf(KeysNotOf(db.keys, id), id) == KeysNotOf(db.keys, id)
    ensures PatsNotOf(PatsNotOf(db.pats, id), id) == PatsNotOf(db.pats, id)
    ensures MembershipsNotOf(MembershipsNotOf(db.members, id), id) == MembershipsNotOf(db.members, id)
  {
  }

  /** Neither the veto nor a failing hook refuses with the status that announces success. */
  ghost predicate RefusesOpenly(e: Env) {
    e.veto != Some(204)
    && forall db: Tables, id :: e.hook(db, id).HookFailed? ==> e.hook(db, id).status != Some(204)
  }

  lemma RefusalShows(db: Tables, id: string, wasActiveAdmin: bool, e: Env)
    ensures var p := PlanDelete(db, id, wasActiveAdmin, e); p.Refused? && RefusesOpenly(e) ==> p.status != 204
  {
    hide Purge, ApplyAll, ActiveAdmins;
  }

  /** A deletion's transaction answers 204 exactly when it commits. Then the state handed to the hook
      mentions the id nowhere and differs from the old one in nothing else, and what the hook makes of it is
      the final state. */
  lemma DeletionIsClean(db: Tables, info: AuthInfo, req: Request, pc: Pc, e: Env)
    requires req.DeleteUser? && pc.Approved?
    ensures var n := StepDelete(db, info, req, pc, e);
            && n.thread.Done?
            && (n.writes == [] && RefusesOpenly(e) ==> n.thread.status != 204)
            && (n.writes != [] ==>
                  && n.thread == Done(204, "") && pc.id in db.users
                  && exists clean :: && Unmentioned(clean, pc.id) && OthersKept(db, clean, pc.id)
                                     && e.hook(clean, pc.id).HookOk? && ApplyAll(db, n.writes) == e.hook(clean, pc.id).db)
  {
    hide Purge, Unmentioned, OthersKept, ApplyAll, RefusesOpenly, ActiveAdmins;
    var n := StepDelete(db, info, req, pc, e);
    RefusalShows(db, pc.id, IsActiveAdmin(pc.row), e);
    if n.writes != [] {
      var clean := ApplyAll(db, Purge(pc.id));
      PurgeMeaning(db, pc.id);
      ApplyConcat(db, Purge(pc.id), [RunHook(e.hook, pc.id)]);
      ApplyOne(clean, RunHook(e.hook, pc.id));
    }
  }
}
