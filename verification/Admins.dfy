/**
 The last-administrator guard. Deleting and demoting keep at least one active
 administrator under every interleaving, because nothing else in flight can turn a
 regular or blocked account into an active administrator.
 */
module Admins {
  import opened Wrappers
  import opened Auth
  import opened Permissions
  import opened Requests
  import opened Runs
  import opened Schema
  import opened Serving
  import opened Shapes
  import opened Text
  import opened Transactions

  /** Requests that can raise an account to active administrator. */
  predicate Raises(req: Request) { req.Promote? || req.Unblock? }

  // ---- Writes ----

  predicate KeepsRoles(w: Write) {
    !w.NewUser? && !w.SetRole? && !w.SetStatus? && !w.DropUser? && !w.RunHook?
  }

  lemma RolesKept(db: Tables, w: Write)
    requires KeepsRoles(w)
    ensures ActiveAdmins(Apply(db, w).users) == ActiveAdmins(db.users)
    ensures Apply(db, w).users.Keys == db.users.Keys
  {
    hide KeysNotOf, PatsNotOf, MembershipsNotOf, RevokedAll, Unowned;
  }

  lemma {:induction false} AllRolesKept(db: Tables, ws: seq<Write>)
    requires forall i :: 0 <= i < |ws| ==> KeepsRoles(ws[i])
    ensures ActiveAdmins(ApplyAll(db, ws).users) == ActiveAdmins(db.users)
    ensures ApplyAll(db, ws).users.Keys == db.users.Keys
    decreases |ws|
  {
    if ws != [] {
      RolesKept(db, ws[0]);
      AllRolesKept(Apply(db, ws[0]), ws[1..]);
    }
  }

  lemma WithoutOne<T>(s: set<T>, x: T)
    requires |s| > 1
    ensures s - {x} != {}
  {
    assert |s - {x}| >= |s| - 1;
  }

  /** A new account outside of bootstrap is a regular user. */
  lemma NewUserKeepsAdmins(db: Tables, id: string, u: User)
    requires id !in db.users && u.role == RegularUser
    ensures ActiveAdmins(Apply(db, NewUser(id, u)).users) == ActiveAdmins(db.users)
  {
  }

  lemma HookKeepsUsers(db: Tables, hook: Hook, id: string)
    requires LeavesUsers(hook)
    ensures Apply(db, RunHook(hook, id)).users == db.users
  {
  }

  // ---- Transactions ----

  lemma AcceptedIsFresh(db: Tables, id: string, u: User, usernameFirst: bool)
    requires Check(db, NewUser(id, u), usernameFirst) == Accepted
    ensures id !in db.users
  {
  }

  lemma CreateKeepsAdmins(db: Tables, u: User, e: Env)
    requires LeavesUsers(e.hook) && u.role == RegularUser
    ensures var p := PlanCreateUser(db, u, e);
            p.Committed? ==> ActiveAdmins(ApplyAll(db, p.writes).users) == ActiveAdmins(db.users)
  {
    hide LeavesUsers, ActiveAdmins, UsernameTaken, EmailTaken, IdentityTaken;
    var p := PlanCreateUser(db, u, e);
    if p.Committed? {
      var w := NewUser(e.uuid, u);
      assert p.writes == [w] + [RunHook(e.hook, e.uuid)];
      AcceptedIsFresh(db, e.uuid, u, e.usernameFirst);
      ApplyConcat(db, [w], [RunHook(e.hook, e.uuid)]);
      ApplyOne(db, w);
      ApplyOne(Apply(db, w), RunHook(e.hook, e.uuid));
      HookKeepsUsers(Apply(db, w), e.hook, e.uuid);
      NewUserKeepsAdmins(db, e.uuid, u);
    }
  }

  lemma {:induction false} InsertKeepsAdmins(db: Tables, l: Login, role: Role, e: Env, attempt: nat)
    requires attempt < MAX_USERNAME_ATTEMPTS && role == RegularUser
    ensures var p := PlanInsert(db, l, role, e, attempt);
            p.Committed? ==> ActiveAdmins(ApplyAll(db, p.writes).users) == ActiveAdmins(db.users)
    decreases MAX_USERNAME_ATTEMPTS - attempt
  {
    hide ActiveAdmins, UsernameTaken, EmailTaken, IdentityTaken, Candidate, ApplyAll;
    var u := NewAccount(l, Candidate(l.username, attempt), role, Truncated(e.now));
    if Check(db, NewUser(e.uuid, u), e.usernameFirst) == Accepted {
      NewUserKeepsAdmins(db, e.uuid, u);
      ApplyOne(db, NewUser(e.uuid, u));
    } else if attempt < MAX_USERNAME_ATTEMPTS - 1 {
      InsertKeepsAdmins(db, l, role, e, attempt + 1);
    }
  }

  /** While there is an administrator, login never makes another one. */
  lemma SignupKeepsAdmins(db: Tables, l: Login, e: Env)
    requires LeavesUsers(e.hook) && Admins(db.users) != {}
    ensures var p := PlanSignup(db, l, e);
            p.Committed? ==> ActiveAdmins(ApplyAll(db, p.writes).users) == ActiveAdmins(db.users)
  {
    hide PlanInsert, LeavesUsers, ActiveAdmins, ApplyAll, EqualFold;
    var p := PlanSignup(db, l, e);
    if p.Committed? {
      var inner := PlanInsert(db, l, RegularUser, e, 0);
      InsertKeepsAdmins(db, l, RegularUser, e, 0);
      var mid := ApplyAll(db, inner.writes);
      ApplyConcat(db, inner.writes, [RunHook(e.hook, e.uuid)]);
      ApplyOne(mid, RunHook(e.hook, e.uuid));
      HookKeepsUsers(mid, e.hook, e.uuid);
    }
  }

  lemma LoginKeepsAdmins(db: Tables, l: Login, e: Env)
    requires LeavesUsers(e.hook) && Admins(db.users) != {}
    ensures var p := PlanLogin(db, l, e);
            p.Committed? ==> ActiveAdmins(ApplyAll(db, p.writes).users) == ActiveAdmins(db.users)
  {
    hide PlanSignup, PlanInsert, LeavesUsers, ActiveAdmins, ApplyAll, EqualFold, Check;
    var p := PlanLogin(db, l, e);
    if p.Committed? {
      var found := FindIdentity(db, l.provider, l.providerId);
      var first := if found.Some? then PlanReturn(db, found.value, l, e) else PlanSignup(db, l, e);
      var mid := ApplyAll(db, first.writes);
      var second := PlanLoginKey(mid, LoginId(db, l, e), l.days, e);
      ApplyConcat(db, first.writes, second.writes);
      AllRolesKept(mid, second.writes);
      if found.Some? {
        AllRolesKept(db, first.writes);
      } else {
        SignupKeepsAdmins(db, l, e);
      }
    }
  }

  lemma PurgeEffect(db: Tables, id: string)
    ensures ApplyAll(db, Purge(id)).users == db.users - {id}
  {
    var front := [ClearOwner(id), DropKeysOf(id), DropPatsOf(id), DropMembershipsOf(id)];
    assert Purge(id) == front + [DropUser(id)];
    ApplyConcat(db, front, [DropUser(id)]);
    ApplyOne(ApplyAll(db, front), DropUser(id));
    PrefixKeepsUsers(db, front);
  }

  lemma {:induction false} PrefixKeepsUsers(db: Tables, ws: seq<Write>)
    requires forall i :: 0 <= i < |ws| ==>
               ws[i].ClearOwner? || ws[i].DropKeysOf? || ws[i].DropPatsOf? || ws[i].DropMembershipsOf?
    ensures ApplyAll(db, ws).users == db.users
    decreases |ws|
  {
    if ws != [] { PrefixKeepsUsers(Apply(db, ws[0]), ws[1..]); }
  }

  /** What a committed deletion does to the administrators. */
  lemma DeleteEffect(db: Tables, id: string, wasActiveAdmin: bool, e: Env)
    requires LeavesUsers(e.hook)
    ensures var p := PlanDelete(db, id, wasActiveAdmin, e);
            p.Committed? ==> && ActiveAdmins(ApplyAll(db, p.writes).users) == ActiveAdmins(db.users) - {id}
                             && (wasActiveAdmin ==> |ActiveAdmins(db.users)| > 1)
  {
    hide LeavesUsers, ApplyAll, Purge;
    var p := PlanDelete(db, id, wasActiveAdmin, e);
    if p.Committed? {
      var mid := ApplyAll(db, Purge(id));
      ApplyConcat(db, Purge(id), [RunHook(e.hook, id)]);
      ApplyOne(mid, RunHook(e.hook, id));
      HookKeepsUsers(mid, e.hook, id);
      PurgeEffect(db, id);
    }
  }

  // ---- The invariant ----

  /** A deletion past its first read that took its target for something other than an active administrator
      is still right about that. */
  predicate Foresees(db: Tables, t: Thread) {
    t.At? && t.req.DeleteUser? && (t.pc.Snapshot? || t.pc.Approved?) && !IsActiveAdmin(t.pc.row)
    ==> t.pc.id !in ActiveAdmins(db.users)
  }

  /** What one statement does to the administrators and to its own thread. */
  ghost predicate Safe(db: Tables, req: Request, n: Next) {
    var after := ApplyAll(db, n.writes);
    && ActiveAdmins(after.users) != {}
    && (!Raises(req) ==> ActiveAdmins(after.users) <= ActiveAdmins(db.users))
    && Foresees(after, n.thread)
  }

  lemma CallbackSafe(prefix: string, db: Tables, req: Request, e: Env)
    requires req.Callback? && LeavesUsers(e.hook) && ActiveAdmins(db.users) != {}
    ensures Safe(db, req, StepCallback(prefix, db, req, e))
  {
    hide PlanLogin, LeavesUsers;
    assert exists i :: i in ActiveAdmins(db.users) && i in Admins(db.users);
    if CallbackStatus(req) == 200 {
      LoginKeepsAdmins(db, LoginOf(req, DaysOf(req.expires)), e);
    }
  }

  lemma CreateUserSafe(db: Tables, info: AuthInfo, req: Request, e: Env)
    requires req.CreateUser? && LeavesUsers(e.hook) && ActiveAdmins(db.users) != {}
    ensures Safe(db, req, StepCreateUser(db, info, req, e))
  {
    hide PlanCreateUser, LeavesUsers;
    var at := Truncated(e.now);
    var u := User(req.username, req.email, Some(""), RegularUser, Active, req.provider, req.providerId, at, at);
    CreateKeepsAdmins(db, u, e);
  }

  lemma DeleteSafe(db: Tables, info: AuthInfo, req: Request, pc: Pc, e: Env)
    requires req.DeleteUser? && Stage(req, pc) && !pc.Enter?
    requires LeavesUsers(e.hook) && ActiveAdmins(db.users) != {} && Foresees(db, At(info, req, pc))
    ensures Safe(db, req, StepDelete(db, info, req, pc, e))
  {
    hide PlanDelete, LeavesUsers;
    if pc.Approved? {
      DeleteEffect(db, pc.id, IsActiveAdmin(pc.row), e);
      if IsActiveAdmin(pc.row) && |ActiveAdmins(db.users)| > 1 { WithoutOne(ActiveAdmins(db.users), pc.id); }
    }
  }

  lemma LifecycleSafe(db: Tables, info: AuthInfo, req: Request, pc: Pc, e: Env)
    requires Lifecycle(req) && !req.Block? && Stage(req, pc) && !pc.Enter?
    requires ActiveAdmins(db.users) != {}
    ensures Safe(db, req, StepLifecycle(db, info, req, pc, e))
  {
    var n := StepLifecycle(db, info, req, pc, e);
    if n.writes != [] {
      var w := n.writes[0];
      assert n.writes == [w];
      ApplyOne(db, w);
      var before, after := ActiveAdmins(db.users), ActiveAdmins(Apply(db, w).users);
      if req.Demote? {
        assert after == before - {pc.id};
        WithoutOne(before, pc.id);
      } else {
        assert before <= after;
      }
    }
  }

  /** Requests that write no role, status or account and run no hook. */
  lemma QuietSafe(db: Tables, info: AuthInfo, req: Request, pc: Pc, n: Next)
    requires !req.CreateUser? && !req.DeleteUser? && !Lifecycle(req) && !req.Callback? && !req.DeleteOrg?
    requires Shape(info, req, pc, n) && ActiveAdmins(db.users) != {}
    ensures Safe(db, req, n)
  {
    forall i | 0 <= i < |n.writes| ensures KeepsRoles(n.writes[i]) {
      assert Fits(req, n.writes[i]);
    }
    AllRolesKept(db, n.writes);
  }

  lemma DeleteOrgSafe(db: Tables, info: AuthInfo, req: Request, pc: Pc, e: Env)
    requires req.DeleteOrg? && Stage(req, pc) && !pc.Enter?
    requires LeavesUsers(e.hook) && ActiveAdmins(db.users) != {}
    ensures Safe(db, req, StepDeleteOrg(db, info, req, pc, e))
  {
    hide LeavesUsers;
    var n := StepDeleteOrg(db, info, req, pc, e);
    if n.writes != [] {
      var w := DropOrg(pc.id);
      assert n.writes == [w] + [RunHook(e.hook, pc.id)];
      ApplyConcat(db, [w], [RunHook(e.hook, pc.id)]);
      ApplyOne(db, w);
      ApplyOne(Apply(db, w), RunHook(e.hook, pc.id));
      HookKeepsUsers(Apply(db, w), e.hook, pc.id);
    }
  }

  lemma EnterSafe(db: Tables, info: AuthInfo, req: Request, e: Env)
    requires HasSelector(req) && ActiveAdmins(db.users) != {}
    ensures Safe(db, req, EnterAdmin(db, info, req, e))
  {
    hide UserSelector, OrgSelector, ResolveUser, ResolveOrg, ActiveAdmins;
  }

  lemma HandlerSafe(prefix: string, registry: set<string>, db: Tables, info: AuthInfo, req: Request, pc: Pc, e: Env)
    requires Stage(req, pc) && !req.Block?
    requires LeavesUsers(e.hook) && ActiveAdmins(db.users) != {} && Foresees(db, At(info, req, pc))
    ensures Safe(db, req, StepHandler(prefix, registry, db, info, req, pc, e))
  {
    hide LeavesUsers, ActiveAdmins, Safe, StepPats, EnterAdmin, StepCreateUser, StepUpdateUser, StepDelete, StepLifecycle,
      StepAdminRevoke, StepProfile, StepRefresh, StepRevokeKey, StepCallback, StepIssue, StepDeleteOrg, StepOrg,
      StepCreateOrg, StepMember, Foresees, Shape;
    if pc.Enter? && HasSelector(req) {
      EnterSafe(db, info, req, e);
    } else if req.CreateUser? {
      CreateUserSafe(db, info, req, e);
    } else if req.DeleteUser? {
      DeleteSafe(db, info, req, pc, e);
    } else if Lifecycle(req) {
      LifecycleSafe(db, info, req, pc, e);
    } else if req.Callback? {
      CallbackSafe(prefix, db, req, e);
    } else if req.DeleteOrg? {
      DeleteOrgSafe(db, info, req, pc, e);
    } else {
      HandlerShape(prefix, registry, db, info, req, pc, e);
      QuietSafe(db, info, req, pc, StepHandler(prefix, registry, db, info, req, pc, e));
    }
  }

  /** One statement of any request but Block. */
  lemma StepSafe(prefix: string, registry: set<string>, db: Tables, t: Thread, e: Env)
    requires !t.Done? && !t.req.Block?
    requires LeavesUsers(e.hook) && ActiveAdmins(db.users) != {} && Foresees(db, t)
    ensures Safe(db, t.req, Step(prefix, registry, db, t, e))
  {
    hide LeavesUsers, ActiveAdmins, StepHandler, CheckCredential, CheckOwner;
    if t.At? && Stage(t.req, t.pc) {
      HandlerSafe(prefix, registry, db, t.info, t.req, t.pc, e);
    }
  }

  // ---- Interleaved runs ----

  predicate Tame(req: Request) { !Raises(req) && !req.Block? }

  ghost predicate Guarded(s: System) {
    && ActiveAdmins(s.db.users) != {}
    && forall tid :: tid in s.threads && !s.threads[tid].Done? ==>
         Tame(s.threads[tid].req) && Foresees(s.db, s.threads[tid])
  }

  /** A launched request is tame and a step's hook leaves the users table alone. */
  ghost predicate TameEvent(ev: Event) {
    && (ev.Launch? ==> Tame(ev.req))
    && (ev.Advance? ==> LeavesUsers(ev.e.hook))
  }

  lemma OccurGuarded(prefix: string, s: System, ev: Event)
    requires Guarded(s) && TameEvent(ev)
    ensures Guarded(Occur(prefix, s, ev))
    ensures ActiveAdmins(Occur(prefix, s, ev).db.users) <= ActiveAdmins(s.db.users)
  {
    hide Step, LeavesUsers, ActiveAdmins, IsActiveAdmin, Registered;
    if ev.Advance? && ev.tid in s.threads && !s.threads[ev.tid].Done? {
      StepSafe(prefix, s.registry, s.db, s.threads[ev.tid], ev.e);
      StepShape(prefix, s.registry, s.db, s.threads[ev.tid], ev.e);
    } else if ev.Advance? && ev.tid in s.threads {
      DoneStays(prefix, s.registry, s.db, s.threads[ev.tid], ev.e);
    }
  }

  /** Every interleaving of any requests other than promote, unblock and block keeps an active
      administrator, and creates none. */
  lemma {:induction false} AdminSurvives(prefix: string, s: System, evs: seq<Event>)
    requires Guarded(s) && forall i :: 0 <= i < |evs| ==> TameEvent(evs[i])
    ensures ActiveAdmins(Run(prefix, s, evs).db.users) != {}
    ensures ActiveAdmins(Run(prefix, s, evs).db.users) <= ActiveAdmins(s.db.users)
    decreases |evs|
  {
    hide Step, LeavesUsers, ActiveAdmins, Occur;
    if evs != [] {
      OccurGuarded(prefix, s, evs[0]);
      AdminSurvives(prefix, Occur(prefix, s, evs[0]), evs[1..]);
    }
  }

  // ---- Atomic runs ----

  lemma {:induction false} FinishKeepsAdmin(prefix: string, registry: set<string>, db: Tables, t: Thread, e: Env)
    requires t.Done? || (!t.req.Block? && Foresees(db, t))
    requires LeavesUsers(e.hook) && ActiveAdmins(db.users) != {}
    ensures ActiveAdmins(Finish(prefix, registry, db, t, e).db.users) != {}
    decreases Rank(t)
  {
    hide Step, LeavesUsers, ActiveAdmins, IsActiveAdmin;
    if !t.Done? {
      var n := Step(prefix, registry, db, t, e);
      StepSafe(prefix, registry, db, t, e);
      StepShape(prefix, registry, db, t, e);
      FinishKeepsAdmin(prefix, registry, ApplyAll(db, n.writes), n.thread, e);
    }
  }

  /** Served one at a time, all requests but block keep an active administrator. */
  lemma {:induction false} AdminSurvivesServing(prefix: string, db: Tables, jobs: seq<Job>)
    requires ActiveAdmins(db.users) != {}
    requires forall i :: 0 <= i < |jobs| ==> !jobs[i].req.Block? && LeavesUsers(jobs[i].e.hook)
    ensures ActiveAdmins(ServeAll(prefix, db, jobs).users) != {}
    decreases |jobs|
  {
    hide Finish, LeavesUsers, ActiveAdmins;
    if jobs != [] {
      var job := jobs[0];
      FinishKeepsAdmin(prefix, job.registry, db, Launched(job.token, job.req), job.e);
      AdminSurvivesServing(prefix, Serve(prefix, db, job).db, jobs[1..]);
    }
  }

  // ---- The exact limits of the guard ----

  /** Block has no guard: its update leaves an active administrator exactly when its target is not the only one. */
  lemma BlockKeepsAdminIff(db: Tables, info: AuthInfo, req: Request, pc: Pc, e: Env)
    requires req.Block? && pc.Snapshot? && Update !in e.faults && ActiveAdmins(db.users) != {}
    ensures ActiveAdmins(ApplyAll(db, StepLifecycle(db, info, req, pc, e).writes).users) != {}
            <==> ActiveAdmins(db.users) != {pc.id}
  {
    var w := SetStatus(pc.id, Blocked, Truncated(e.now));
    ApplyOne(db, w);
    assert ActiveAdmins(Apply(db, w).users) == ActiveAdmins(db.users) - {pc.id};
  }

  /** Deletion trusts the row it read before its transaction. A committed one leaves an active
      administrator exactly when that row was one or the target is not the only one now. */
  lemma DeleteKeepsAdminIff(db: Tables, info: AuthInfo, req: Request, pc: Pc, e: Env)
    requires req.DeleteUser? && pc.Approved? && LeavesUsers(e.hook) && ActiveAdmins(db.users) != {}
    requires StepDelete(db, info, req, pc, e).writes != []
    ensures ActiveAdmins(ApplyAll(db, StepDelete(db, info, req, pc, e).writes).users) != {}
            <==> IsActiveAdmin(pc.row) || ActiveAdmins(db.users) != {pc.id}
  {
    hide PlanDelete, LeavesUsers;
    DeleteEffect(db, pc.id, IsActiveAdmin(pc.row), e);
    if IsActiveAdmin(pc.row) { WithoutOne(ActiveAdmins(db.users), pc.id); }
    assert ActiveAdmins(db.users) - {pc.id} == {} <==> ActiveAdmins(db.users) <= {pc.id};
  }

  // ---- The guard's limits over whole runs ----

  /** The two ways to lose the last active administrator: blocking it, and deleting it on the strength of a
      row, read earlier, that was not an active administrator's. Both show before the statement runs. */
  ghost predicate Fatal(prefix: string, s: System, ev: Event) {
    && ev.Advance? && ev.tid in s.threads && s.threads[ev.tid].At?
    && var t := s.threads[ev.tid];
       && Step(prefix, s.registry, s.db, t, ev.e).writes != []
       && ((t.req.Block? && t.pc.Snapshot? && ActiveAdmins(s.db.users) == {t.pc.id})
           || (t.req.DeleteUser? && t.pc.Approved? && !IsActiveAdmin(t.pc.row) && ActiveAdmins(s.db.users) == {t.pc.id}))
  }

  lemma BlockStep(prefix: string, registry: set<string>, db: Tables, t: Thread, e: Env)
    requires t.At? && t.req.Block?
    ensures var n := Step(prefix, registry, db, t, e);
            n.writes != [] ==> t.pc.Snapshot? && Update !in e.faults && n == StepLifecycle(db, t.info, t.req, t.pc, e)
  {
    hide StepPats, StepOrgs, StepKeys, EnterAdmin, StepCreateUser, StepUpdateUser, StepDelete, StepAdminRevoke, StepProfile,
      ActiveAdmins;
    if t.pc.Enter? { EnterReads(db, t.info, t.req, e); }
  }

  lemma DeletionStep(prefix: string, registry: set<string>, db: Tables, t: Thread, e: Env)
    requires t.At? && t.req.DeleteUser?
    ensures var n := Step(prefix, registry, db, t, e);
            n.writes != [] ==> t.pc.Approved? && n == StepDelete(db, t.info, t.req, t.pc, e)
  {
    hide StepPats, StepOrgs, StepKeys, EnterAdmin, StepCreateUser, StepUpdateUser, StepLifecycle, StepAdminRevoke,
      StepProfile, ActiveAdmins, PlanDelete;
    if t.pc.Enter? { EnterReads(db, t.info, t.req, e); }
  }

  /** One event of any run, promote, unblock and block included. */
  lemma OnlyFatalEventsLoseTheLast(prefix: string, s: System, ev: Event)
    requires ActiveAdmins(s.db.users) != {} && (ev.Advance? ==> LeavesUsers(ev.e.hook))
    ensures ActiveAdmins(Occur(prefix, s, ev).db.users) == {} <==> Fatal(prefix, s, ev)
  {
    hide Step, LeavesUsers, ActiveAdmins, StepLifecycle, StepDelete, Registered;
    if ev.Advance? && ev.tid in s.threads {
      var t := s.threads[ev.tid];
      var n := Step(prefix, s.registry, s.db, t, ev.e);
      if t.Done? {
        DoneStays(prefix, s.registry, s.db, t, ev.e);
      } else if n.writes == [] {
      } else if t.At? && t.req.Block? {
        BlockStep(prefix, s.registry, s.db, t, ev.e);
        BlockKeepsAdminIff(s.db, t.info, t.req, t.pc, ev.e);
      } else if t.At? && t.req.DeleteUser? {
        DeletionStep(prefix, s.registry, s.db, t, ev.e);
        DeleteKeepsAdminIff(s.db, t.info, t.req, t.pc, ev.e);
      } else if t.At? {
        StepSafe(prefix, s.registry, s.db, t, ev.e);
      } else {
        BeforeHandlers(prefix, s.registry, s.db, t, ev.e);
      }
    }
  }

  lemma BeforeHandlers(prefix: string, registry: set<string>, db: Tables, t: Thread, e: Env)
    requires t.Start? || t.Owner?
    ensures Step(prefix, registry, db, t, e).writes == []
  {
    hide CheckCredential, CheckOwner;
  }

  /** There is an active administrator now and after every event. */
  ghost predicate AlwaysAdministered(prefix: string, s: System, evs: seq<Event>)
    decreases |evs|
  {
    ActiveAdmins(s.db.users) != {} && (evs != [] ==> AlwaysAdministered(prefix, Occur(prefix, s, evs[0]), evs[1..]))
  }

  ghost predicate NoneFatal(prefix: string, s: System, evs: seq<Event>)
    decreases |evs|
  {
    evs != [] ==> !Fatal(prefix, s, evs[0]) && NoneFatal(prefix, Occur(prefix, s, evs[0]), evs[1..])
  }

  /** The exact condition, over every request kind and every interleaving: there is an active administrator
      at every point of a run exactly when no event of it is fatal. */
  lemma {:induction false} AdministeredExactlyWhen(prefix: string, s: System, evs: seq<Event>)
    requires ActiveAdmins(s.db.users) != {}
    requires forall i :: 0 <= i < |evs| && evs[i].Advance? ==> LeavesUsers(evs[i].e.hook)
    ensures AlwaysAdministered(prefix, s, evs) <==> NoneFatal(prefix, s, evs)
    decreases |evs|
  {
    hide Occur, LeavesUsers, ActiveAdmins, Fatal;
    if evs != [] {
      OnlyFatalEventsLoseTheLast(prefix, s, evs[0]);
      var next := Occur(prefix, s, evs[0]);
      if ActiveAdmins(next.db.users) != {} { AdministeredExactlyWhen(prefix, next, evs[1..]); }
    }
  }
}
