/**
 What each request on users is answered, and what it leaves, when no statement fails:
 exactly, for every caller and every state.
 */
module AnswersUsers {
  import opened Wrappers
  import opened Auth
  import opened Constraints
  import opened Requests
  import opened Runs
  import opened Schema
  import opened Serving
  import opened Terms
  import opened Transactions

  // ---- Admin routes ----

  predicate AdminRoute(req: Request) { req.CreateUser? || req.CreateOrg? || OnUser(req) || OnOrg(req) }

  /** Anyone but an administrator is refused on every admin route. */
  lemma AdminsOnly(prefix: string, db: Tables, job: Job, info: AuthInfo)
    requires AdminRoute(job.req) && job.e.faults == {} && Caller(prefix, db, job, info) && !Administers(db, info)
    ensures Serve(prefix, db, job) == Outcome(db, 403, "")
  {
    hide Step, Finish, StepPats, StepKeys, PlanCreateUser, Check, ValidSlug, ResolveUser, ResolveOrg, UserSelector,
      OrgSelector, ValidateCredential;
    Admitted(prefix, db, job, info);
    CallerRows(prefix, db, job, info);
    Goes(prefix, job.registry, db, info, job.req, Enter, job.e);
  }

  /** An administrator's request goes on to the user the selector names. */
  lemma ReachesUser(prefix: string, db: Tables, job: Job, info: AuthInfo, id: string)
    requires OnUser(job.req) && job.e.faults == {} && Caller(prefix, db, job, info) && Administers(db, info)
    requires UniqueUsers(db.users) && Names(db, job.req.sel, id)
    ensures Serve(prefix, db, job) == Finish(prefix, job.registry, db, At(info, job.req, Target(id)), job.e)
  {
    hide Step, Finish, StepAccounts, StepPats, StepOrgs, StepKeys, ResolveUser, ResolveOrg, UserSelector, OrgSelector,
      ValidateCredential, IsUuid;
    Admitted(prefix, db, job, info);
    CallerRows(prefix, db, job, info);
    Goes(prefix, job.registry, db, info, job.req, Enter, job.e);
    NamedIsResolved(db, job.req.sel, id);
  }

  /** A selector that names nobody is answered 404. */
  lemma NobodyThere(prefix: string, db: Tables, job: Job, info: AuthInfo)
    requires OnUser(job.req) && job.e.faults == {} && Caller(prefix, db, job, info) && Administers(db, info)
    requires forall id :: !Names(db, job.req.sel, id)
    ensures Serve(prefix, db, job) == Outcome(db, 404, "")
  {
    hide Step, Finish, StepAccounts, StepPats, StepOrgs, StepKeys, ResolveUser, ResolveOrg, UserSelector, OrgSelector,
      ValidateCredential, Names;
    Admitted(prefix, db, job, info);
    CallerRows(prefix, db, job, info);
    Goes(prefix, job.registry, db, info, job.req, Enter, job.e);
    NobodyIsResolved(db, job.req.sel);
  }

  /** A user deleted between its selector's resolution and the reading of its row is not found. */
  lemma GoneMeanwhile(prefix: string, registry: set<string>, db: Tables, info: AuthInfo, req: Request, id: string, e: Env)
    requires (req.UpdateUser? || req.DeleteUser? || Lifecycle(req)) && e.faults == {} && id !in db.users
    ensures Finish(prefix, registry, db, At(info, req, Target(id)), e)
            == Outcome(db, if req.UpdateUser? && req.fullName == None then 400 else 404, "")
  {
    hide Step, Finish, StepPats, StepKeys, StepOrgs, EnterAdmin, StepCreateUser, StepProfile, StepAdminRevoke, ActiveAdmins,
      PlanDelete;
    Goes(prefix, registry, db, info, req, Target(id), e);
  }

  // ---- Creation ----

  /** Somebody has the username, the email or the identity. */
  ghost predicate AccountClash(db: Tables, r: Request)
    requires r.CreateUser?
  {
    exists i :: i in db.users
      && (db.users[i].username == r.username || db.users[i].email == r.email
          || (db.users[i].provider == r.provider && db.users[i].providerId == r.providerId))
  }

  function Created(r: Request, now: nat): User
    requires r.CreateUser?
  {
    User(r.username, r.email, Some(""), RegularUser, Active, r.provider, r.providerId, Second(now), Second(now))
  }

  /** What an insert and its hook come to. */
  function Hooked(db: Tables, hooked: HookResult, success: nat): Outcome {
    match hooked case HookOk(after) => Outcome(after, success, "") case HookFailed(_, _) => Outcome(db, 500, "")
  }

  lemma CreateUserAnswer(prefix: string, db: Tables, job: Job, info: AuthInfo)
    requires job.req.CreateUser? && job.e.faults == {} && Caller(prefix, db, job, info) && Administers(db, info)
    ensures var o := Serve(prefix, db, job); var r := job.req; var id := job.e.uuid;
            if r.username == "" || r.email == "" || r.provider == "" || r.providerId == "" then o == Outcome(db, 400, "")
            else if id in db.users then o.db == db && (o.status == 409 || o.status == 500)
            else if AccountClash(db, r) then o == Outcome(db, 409, "")
            else o == Hooked(db, job.e.hook(db.(users := db.users[id := Created(r, job.e.now)]), id), 201)
  {
    hide Step, Finish, StepPats, StepKeys, StepOrgs, EnterAdmin, ValidateCredential, Check, Apply, ApplyAll;
    var r, e := job.req, job.e;
    Admitted(prefix, db, job, info);
    CallerRows(prefix, db, job, info);
    Goes(prefix, job.registry, db, info, r, Enter, e);
    SecondIsTruncated(e.now);
    var u := Created(r, e.now);
    CreateVerdict(db, r, e.uuid, e.now, e.usernameFirst);
    CreateApplies(db, e.uuid, u, e.hook);
  }

  lemma CreateVerdict(db: Tables, r: Request, id: string, now: nat, usernameFirst: bool)
    requires r.CreateUser?
    ensures var v := Check(db, NewUser(id, Created(r, now)), usernameFirst);
            && (id in db.users ==> v != Accepted)
            && (id !in db.users ==> v == if !AccountClash(db, r) then Accepted
                                         else if v == DupUsername then DupUsername else DupOther)
  {
  }

  lemma CreateApplies(db: Tables, id: string, u: User, hook: Hook)
    ensures Apply(db, NewUser(id, u)) == db.(users := db.users[id := u])
    ensures hook(db.(users := db.users[id := u]), id).HookOk? ==>
              ApplyAll(db, [NewUser(id, u), RunHook(hook, id)]) == hook(db.(users := db.users[id := u]), id).db
  {
    ApplyConcat(db, [NewUser(id, u)], [RunHook(hook, id)]);
    ApplyOne(db, NewUser(id, u));
    ApplyOne(Apply(db, NewUser(id, u)), RunHook(hook, id));
    assert [NewUser(id, u)] + [RunHook(hook, id)] == [NewUser(id, u), RunHook(hook, id)];
  }

  // ---- Names ----

  function Renamed(db: Tables, id: string, name: string, now: nat): Tables
    requires id in db.users
  {
    db.(users := db.users[id := db.users[id].(fullName := Some(name), updatedAt := Second(now))])
  }

  /** The last statements of both, whatever has become of the row since it was found. */
  lemma SaveName(prefix: string, registry: set<string>, db: Tables, info: AuthInfo, req: Request, id: string, e: Env)
    requires (req.UpdateUser? || req.UpdateProfile?) && req.fullName.Some? && e.faults == {}
    ensures Finish(prefix, registry, db, At(info, req, Found(id)), e)
            == if id in db.users then Outcome(Renamed(db, id, req.fullName.value, e.now), 200, "") else Outcome(db, 500, "")
  {
    hide Step, Finish, StepPats, StepKeys, StepOrgs, EnterAdmin, StepCreateUser, StepDelete, StepLifecycle, StepAdminRevoke;
    SecondIsTruncated(e.now);
    var after := if id in db.users then Renamed(db, id, req.fullName.value, e.now) else db;
    Goes(prefix, registry, db, info, req, Found(id), e);
    Goes(prefix, registry, after, info, req, Refetching(id), e);
  }

  lemma UpdateUserAnswer(prefix: string, db: Tables, job: Job, info: AuthInfo, id: string)
    requires job.req.UpdateUser? && job.e.faults == {} && Caller(prefix, db, job, info) && Administers(db, info)
    requires UniqueUsers(db.users) && Names(db, job.req.sel, id)
    ensures Serve(prefix, db, job)
            == if job.req.fullName == None then Outcome(db, 400, "")
               else Outcome(Renamed(db, id, job.req.fullName.value, job.e.now), 200, "")
  {
    hide Step, Finish, StepPats, StepKeys, StepOrgs, EnterAdmin, StepCreateUser, StepDelete, StepLifecycle, StepAdminRevoke,
      ValidateCredential, IsUuid, UniqueUsers;
    ReachesUser(prefix, db, job, info, id);
    Goes(prefix, job.registry, db, info, job.req, Target(id), job.e);
    if job.req.fullName.Some? { SaveName(prefix, job.registry, db, info, job.req, id, job.e); }
  }

  lemma UpdateProfileAnswer(prefix: string, db: Tables, job: Job, info: AuthInfo)
    requires job.req.UpdateProfile? && job.e.faults == {} && Caller(prefix, db, job, info)
    ensures var id := CallerId(info);
            Serve(prefix, db, job)
            == if Lacks(db, info, "users:read") then Outcome(db, 403, "")
               else if job.req.fullName == None then Outcome(db, 400, "")
               else if id !in db.users then Outcome(db, 404, "")
               else Outcome(Renamed(db, id, job.req.fullName.value, job.e.now), 200, "")
  {
    hide Step, Finish, StepPats, StepKeys, StepOrgs, EnterAdmin, StepCreateUser, StepDelete, StepLifecycle, StepAdminRevoke,
      ValidateCredential, HasPermission;
    var id := CallerId(info);
    Admitted(prefix, db, job, info);
    CallerRows(prefix, db, job, info);
    Goes(prefix, job.registry, db, info, job.req, Enter, job.e);
    if job.req.fullName.Some? && id in db.users { SaveName(prefix, job.registry, db, info, job.req, id, job.e); }
  }

  // ---- Deletion ----

  predicate Administering(u: User) { u.role == Administrator && u.status == Active }

  ghost predicate AnotherAdministers(db: Tables, id: string) {
    exists j :: j in db.users && j != id && Administering(db.users[j])
  }

  ghost predicate TwoAdminister(db: Tables) {
    exists i, j :: i in db.users && j in db.users && i != j && Administering(db.users[i]) && Administering(db.users[j])
  }

  lemma TwoCounted(db: Tables)
    ensures |ActiveAdmins(db.users)| > 1 <==> TwoAdminister(db)
  {
    var s := ActiveAdmins(db.users);
    if |s| > 1 {
      var i :| i in s;
      var rest := s - {i};
      assert |rest| > 0;
      var j :| j in rest;
      assert i in db.users && j in db.users && Administering(db.users[i]) && Administering(db.users[j]);
    }
    if TwoAdminister(db) {
      var i, j :| i in db.users && j in db.users && i != j && Administering(db.users[i]) && Administering(db.users[j]);
      assert s == {i, j} + (s - {i, j});
      assert |{i, j}| == 2;
    }
  }

  lemma AnotherIsTwo(db: Tables, id: string)
    requires id in db.users && Administering(db.users[id])
    ensures TwoAdminister(db) <==> AnotherAdministers(db, id)
  {
  }

  /** The answer to a deletion by what the guard, the veto and the hook say. */
  ghost predicate DeletionAnswer(db: Tables, id: string, e: Env, o: Outcome)
    requires id in db.users
  {
    if Administering(db.users[id]) && !AnotherAdministers(db, id) then o == Outcome(db, 409, "")
    else if e.veto.Some? then o == Outcome(db, e.veto.value, "")
    else exists clean :: Unmentioned(clean, id) && OthersKept(db, clean, id)
           && o == match e.hook(clean, id)
                   case HookOk(after) => Outcome(after, 204, "")
                   case HookFailed(_, status) => Outcome(db, if status.Some? then status.value else 500, "")
  }

  /** The transaction, whatever has become of the row since it was read: it counts again, but only if the row was an
      active administrator's then. */
  lemma DeletionCommits(prefix: string, registry: set<string>, db: Tables, info: AuthInfo, req: Request, id: string,
                        row: User, e: Env)
    requires req.DeleteUser? && e.faults == {}
    ensures var o := Finish(prefix, registry, db, At(info, req, Approved(id, row)), e);
            if Administering(row) && !TwoAdminister(db) then o == Outcome(db, 409, "")
            else if id !in db.users then o == Outcome(db, 404, "")
            else exists clean :: Unmentioned(clean, id) && OthersKept(db, clean, id)
                   && o == match e.hook(clean, id)
                           case HookOk(after) => Outcome(after, 204, "")
                           case HookFailed(_, status) => Outcome(db, if status.Some? then status.value else 500, "")
  {
    hide Step, Finish, StepPats, StepKeys, StepOrgs, EnterAdmin, StepCreateUser, StepUpdateUser, StepProfile, StepLifecycle,
      StepAdminRevoke, ActiveAdmins, Purge, ApplyAll, Unmentioned, OthersKept, TwoAdminister;
    TwoCounted(db);
    Goes(prefix, registry, db, info, req, Approved(id, row), e);
    var clean := ApplyAll(db, Purge(id));
    PurgeMeaning(db, id);
    ApplyConcat(db, Purge(id), [RunHook(e.hook, id)]);
    ApplyOne(clean, RunHook(e.hook, id));
  }

  /** The guard before the transaction. */
  lemma DeletionGuarded(prefix: string, registry: set<string>, db: Tables, info: AuthInfo, req: Request, id: string,
                        row: User, e: Env)
    requires req.DeleteUser? && e.faults == {}
    ensures Finish(prefix, registry, db, At(info, req, Snapshot(id, row)), e)
            == if Administering(row) && !TwoAdminister(db) then Outcome(db, 409, "")
               else if e.veto.Some? then Outcome(db, e.veto.value, "")
               else Finish(prefix, registry, db, At(info, req, Approved(id, row)), e)
  {
    hide Step, Finish, StepPats, StepKeys, StepOrgs, EnterAdmin, StepCreateUser, StepUpdateUser, StepProfile, StepLifecycle,
      StepAdminRevoke, ActiveAdmins, PlanDelete, TwoAdminister;
    TwoCounted(db);
    Goes(prefix, registry, db, info, req, Snapshot(id, row), e);
  }

  /** The named user is deleted exactly unless it is the only active administrator, or the deployment's hooks
      object. */
  lemma DeleteUserAnswer(prefix: string, db: Tables, job: Job, info: AuthInfo, id: string)
    requires job.req.DeleteUser? && job.e.faults == {} && Caller(prefix, db, job, info) && Administers(db, info)
    requires UniqueUsers(db.users) && Names(db, job.req.sel, id)
    ensures DeletionAnswer(db, id, job.e, Serve(prefix, db, job))
  {
    hide Step, Finish, StepPats, StepKeys, StepOrgs, EnterAdmin, StepCreateUser, StepUpdateUser, StepProfile, StepLifecycle,
      StepAdminRevoke, ValidateCredential, IsUuid, UniqueUsers, Unmentioned, OthersKept, AnotherAdministers, TwoAdminister,
      PlanDelete;
    var e, row := job.e, db.users[id];
    ReachesUser(prefix, db, job, info, id);
    Goes(prefix, job.registry, db, info, job.req, Target(id), e);
    if Administering(row) { AnotherIsTwo(db, id); }
    DeletionGuarded(prefix, job.registry, db, info, job.req, id, row, e);
    DeletionCommits(prefix, job.registry, db, info, job.req, id, row, e);
  }

  // ---- Promote, demote, block, unblock ----

  /** The one column set, and the update time. */
  function Changed(db: Tables, req: Request, id: string, now: nat): Tables
    requires Lifecycle(req) && id in db.users
  {
    var u := db.users[id].(updatedAt := Second(now));
    db.(users := db.users[id := match req
                                case Promote(_) => u.(role := Administrator)
                                case Demote(_) => u.(role := RegularUser)
                                case Block(_) => u.(status := Blocked)
                                case Unblock(_) => u.(status := Active)])
  }

  /** Each sets its column and the update time, answers 200 at once if the column is as wanted, and only demotion
      has a guard: there must be two active administrators. */
  ghost function LifecycleAnswer(db: Tables, req: Request, id: string, now: nat): Outcome
    requires Lifecycle(req) && id in db.users
  {
    var u := db.users[id];
    var changed := Outcome(Changed(db, req, id, now), 200, "");
    match req
    case Promote(_) => if u.role == Administrator then Outcome(db, 200, "") else changed
    case Demote(_) =>
      if u.role == RegularUser then Outcome(db, 200, "") else if TwoAdminister(db) then changed else Outcome(db, 409, "")
    case Block(_) => if u.status == Blocked then Outcome(db, 200, "") else changed
    case Unblock(_) => if u.status == Active then Outcome(db, 200, "") else changed
  }

  /** The last statement, whatever has become of the row since it was read: only demotion looks again. */
  lemma ChangeWritten(prefix: string, registry: set<string>, db: Tables, info: AuthInfo, req: Request, id: string,
                      row: User, e: Env)
    requires Lifecycle(req) && e.faults == {}
    ensures Finish(prefix, registry, db, At(info, req, Snapshot(id, row)), e)
            == if req.Demote? then
                 if id in db.users && db.users[id].role == Administrator && TwoAdminister(db) then
                   Outcome(Changed(db, req, id, e.now), 200, "")
                 else Outcome(db, 409, "")
               else Outcome(if id in db.users then Changed(db, req, id, e.now) else db, 200, "")
  {
    hide Step, Finish, StepPats, StepKeys, StepOrgs, EnterAdmin, StepCreateUser, StepUpdateUser, StepProfile, StepDelete,
      StepAdminRevoke, ActiveAdmins, TwoAdminister;
    TwoCounted(db);
    SecondIsTruncated(e.now);
    Goes(prefix, registry, db, info, req, Snapshot(id, row), e);
  }

  lemma ChangeAnswer(prefix: string, db: Tables, job: Job, info: AuthInfo, id: string)
    requires Lifecycle(job.req) && job.e.faults == {} && Caller(prefix, db, job, info) && Administers(db, info)
    requires UniqueUsers(db.users) && Names(db, job.req.sel, id)
    ensures Serve(prefix, db, job) == LifecycleAnswer(db, job.req, id, job.e.now)
  {
    hide Step, Finish, StepPats, StepKeys, StepOrgs, EnterAdmin, StepCreateUser, StepUpdateUser, StepProfile, StepDelete,
      StepAdminRevoke, ValidateCredential, IsUuid, UniqueUsers, ActiveAdmins, TwoAdminister, Apply;
    ReachesUser(prefix, db, job, info, id);
    Goes(prefix, job.registry, db, info, job.req, Target(id), job.e);
    if !AlreadySo(job.req, db.users[id]) {
      ChangeWritten(prefix, job.registry, db, info, job.req, id, db.users[id], job.e);
    }
  }

  // ---- Revocation by an administrator ----

  function KeyRevoked(db: Tables, k: string, now: nat): Tables
    requires k in db.keys
  {
    db.(keys := db.keys[k := db.keys[k].(revokedAt := Some(Second(now)))])
  }

  function TokenRevoked(db: Tables, k: string, now: nat): Tables
    requires k in db.pats
  {
    db.(pats := db.pats[k := db.pats[k].(revokedAt := Some(Second(now)))])
  }

  /** The last statement of both, whatever has become of the row since it was read: it does not look at an earlier
      revocation. */
  lemma RevocationWritten(prefix: string, registry: set<string>, db: Tables, info: AuthInfo, req: Request, id: string,
                          e: Env)
    requires AdminRevoke(req) && e.faults == {}
    ensures Finish(prefix, registry, db, At(info, req, Found(id)), e)
            == if req.RevokeUserKey? then
                 var k := req.keyId;
                 Outcome(if k in db.keys && db.keys[k].user == id then KeyRevoked(db, k, e.now) else db, 204, "")
               else
                 var k := req.tokenId;
                 Outcome(if k in db.pats && db.pats[k].user == id then TokenRevoked(db, k, e.now) else db, 204, "")
  {
    hide Step, Finish, StepPats, StepKeys, StepOrgs, EnterAdmin, StepCreateUser, StepUpdateUser, StepProfile, StepDelete,
      StepLifecycle;
    SecondIsTruncated(e.now);
    Goes(prefix, registry, db, info, req, Found(id), e);
  }

  lemma RevokeUserKeyAnswer(prefix: string, db: Tables, job: Job, info: AuthInfo, id: string)
    requires job.req.RevokeUserKey? && job.e.faults == {} && Caller(prefix, db, job, info) && Administers(db, info)
    requires UniqueUsers(db.users) && Names(db, job.req.sel, id)
    ensures var k := job.req.keyId;
            Serve(prefix, db, job)
            == if k !in db.keys || db.keys[k].user != id then Outcome(db, 404, "")
               else if db.keys[k].revokedAt.Some? then Outcome(db, 204, "")
               else Outcome(KeyRevoked(db, k, job.e.now), 204, "")
  {
    hide Step, Finish, StepPats, StepKeys, StepOrgs, EnterAdmin, StepCreateUser, StepUpdateUser, StepProfile, StepDelete,
      StepLifecycle, ValidateCredential, IsUuid, UniqueUsers;
    ReachesUser(prefix, db, job, info, id);
    Goes(prefix, job.registry, db, info, job.req, Target(id), job.e);
    RevocationWritten(prefix, job.registry, db, info, job.req, id, job.e);
  }

  lemma RevokeUserTokenAnswer(prefix: string, db: Tables, job: Job, info: AuthInfo, id: string)
    requires job.req.RevokeUserToken? && job.e.faults == {} && Caller(prefix, db, job, info) && Administers(db, info)
    requires UniqueUsers(db.users) && Names(db, job.req.sel, id)
    ensures var k := job.req.tokenId;
            Serve(prefix, db, job)
            == if k !in db.pats || db.pats[k].user != id then Outcome(db, 404, "")
               else if db.pats[k].revokedAt.Some? then Outcome(db, 204, "")
               else Outcome(TokenRevoked(db, k, job.e.now), 204, "")
  {
    hide Step, Finish, StepPats, StepKeys, StepOrgs, EnterAdmin, StepCreateUser, StepUpdateUser, StepProfile, StepDelete,
      StepLifecycle, ValidateCredential, IsUuid, UniqueUsers;
    ReachesUser(prefix, db, job, info, id);
    Goes(prefix, job.registry, db, info, job.req, Target(id), job.e);
    RevocationWritten(prefix, job.registry, db, info, job.req, id, job.e);
  }
}
