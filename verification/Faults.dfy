/**
 Failing statements. Whichever statements of a request fail with an I/O error, the request
 either ends exactly as it does when none fails, or it is answered 500 and leaves the tables
 as they were, or with its one write done and only the row for the response unread.
 */
module Faults {
  import opened Auth
  import opened Requests
  import opened Runs
  import opened Sampling
  import opened Schema
  import opened Serving
  import opened Shapes
  import opened Text
  import opened Wrappers
  import opened Transactions

  /** The same environment with nothing failing. */
  function Calm(e: Env): Env { e.(faults := {}) }

  ghost predicate FailsOnly(n: Next, calm: Next) { n == calm || n == Reply(500) }

  // ---- Transactions ----

  ghost predicate PlanFailsOnly(p: Plan, calm: Plan) { p == calm || p == Refused(500) }

  lemma {:induction false} NewKeyFaults(db: Tables, user: string, days: nat, e: Env, stream: seq<byte>, attempts: nat)
    ensures PlanFailsOnly(PlanNewKey(db, user, days, e, stream, attempts),
                          PlanNewKey(db, user, days, Calm(e), stream, attempts))
    decreases attempts
  {
    hide Sample, Check, ExpiryOf;
    if attempts > 0 {
      var id := Sample(Letters(KEYS_CHARSET), ID_LENGTH, stream);
      NewKeyFaults(db, user, days, e, Sample(Letters(KEYS_CHARSET), SECRET_LENGTH, id.rest).rest, attempts - 1);
    }
  }

  lemma GenerateFaults(db: Tables, user: string, days: int, e: Env)
    ensures PlanFailsOnly(PlanGenerate(db, user, days, e), PlanGenerate(db, user, days, Calm(e)))
  {
    hide PlanNewKey, Apply;
    if ValidDays(days) {
      NewKeyFaults(Apply(db, RevokeKeysOf(user, Truncated(e.now))), user, days, e, e.bytes, MAX_INSERT_ATTEMPTS);
    }
  }

  lemma {:induction false} InsertFaults(db: Tables, l: Login, role: Role, e: Env, attempt: nat)
    requires attempt < MAX_USERNAME_ATTEMPTS
    ensures PlanFailsOnly(PlanInsert(db, l, role, e, attempt), PlanInsert(db, l, role, Calm(e), attempt))
    decreases MAX_USERNAME_ATTEMPTS - attempt
  {
    hide Check, Candidate;
    if attempt < MAX_USERNAME_ATTEMPTS - 1 { InsertFaults(db, l, role, e, attempt + 1); }
  }

  lemma SignupFaults(db: Tables, l: Login, e: Env)
    ensures PlanFailsOnly(PlanSignup(db, l, e), PlanSignup(db, l, Calm(e)))
  {
    hide PlanInsert, NewRole, EqualFold, ApplyAll;
    InsertFaults(db, l, NewRole(db, l.email), e, 0);
  }

  lemma LoginKeyFaults(db: Tables, user: string, days: nat, e: Env)
    ensures PlanFailsOnly(PlanLoginKey(db, user, days, e), PlanLoginKey(db, user, days, Calm(e)))
  {
    hide Sample, Check, ExpiryOf, Apply;
  }

  lemma LoginFaults(db: Tables, l: Login, e: Env)
    ensures PlanFailsOnly(PlanLogin(db, l, e), PlanLogin(db, l, Calm(e)))
  {
    hide PlanSignup, PlanReturn, PlanLoginKey, ApplyAll;
    var found := FindIdentity(db, l.provider, l.providerId);
    SignupFaults(db, l, e);
    if found.Some? { ReturnFaults(db, found.value, l, e); }
    var first := if found.Some? then PlanReturn(db, found.value, l, e) else PlanSignup(db, l, e);
    if first.Committed? { LoginKeyFaults(ApplyAll(db, first.writes), LoginId(db, l, e), l.days, e); }
    assert LoginId(db, l, e) == LoginId(db, l, Calm(e));
  }

  lemma ReturnFaults(db: Tables, id: string, l: Login, e: Env)
    requires id in db.users
    ensures PlanFailsOnly(PlanReturn(db, id, l, e), PlanReturn(db, id, l, Calm(e)))
  {
    hide Check;
  }

  lemma DeleteFaults(db: Tables, id: string, wasActiveAdmin: bool, e: Env)
    ensures PlanFailsOnly(PlanDelete(db, id, wasActiveAdmin, e), PlanDelete(db, id, wasActiveAdmin, Calm(e)))
  {
    hide ActiveAdmins, ApplyAll, Purge;
  }

  lemma CreateFaults(db: Tables, u: User, e: Env)
    ensures PlanFailsOnly(PlanCreateUser(db, u, e), PlanCreateUser(db, u, Calm(e)))
  {
    hide Check, Apply;
  }

  // ---- Handlers ----

  lemma CreateUserFaults(db: Tables, info: AuthInfo, req: Request, e: Env)
    requires req.CreateUser?
    ensures FailsOnly(StepCreateUser(db, info, req, e), StepCreateUser(db, info, req, Calm(e)))
  {
    hide PlanCreateUser, IsAdmin;
    var at := Truncated(e.now);
    var u := User(req.username, req.email, Some(""), RegularUser, Active, req.provider, req.providerId, at, at);
    CreateFaults(db, u, e);
  }

  lemma DeletionFaults(db: Tables, info: AuthInfo, req: Request, pc: Pc, e: Env)
    requires req.DeleteUser? && Stage(req, pc) && !pc.Enter?
    ensures FailsOnly(StepDelete(db, info, req, pc, e), StepDelete(db, info, req, pc, Calm(e)))
  {
    hide PlanDelete, ActiveAdmins;
    if pc.Approved? { DeleteFaults(db, pc.id, IsActiveAdmin(pc.row), e); }
  }

  lemma NameFaults(db: Tables, info: AuthInfo, req: Request, pc: Pc, e: Env)
    requires Stage(req, pc)
    ensures req.UpdateUser? && !pc.Enter? ==>
              FailsOnly(StepUpdateUser(db, info, req, pc, e), StepUpdateUser(db, info, req, pc, Calm(e)))
    ensures req.UpdateProfile? ==> FailsOnly(StepProfile(db, info, req, pc, e), StepProfile(db, info, req, pc, Calm(e)))
  {
    hide HasPermission;
  }

  lemma ChangeFaults(db: Tables, info: AuthInfo, req: Request, pc: Pc, e: Env)
    requires Stage(req, pc) && !pc.Enter?
    ensures Lifecycle(req) ==>
              FailsOnly(StepLifecycle(db, info, req, pc, e), StepLifecycle(db, info, req, pc, Calm(e)))
    ensures AdminRevoke(req) ==>
              FailsOnly(StepAdminRevoke(db, info, req, pc, e), StepAdminRevoke(db, info, req, pc, Calm(e)))
  {
    hide ActiveAdmins, AlreadySo;
  }

  lemma AccountsFaults(db: Tables, info: AuthInfo, req: Request, pc: Pc, e: Env)
    requires OnAccounts(req) && Stage(req, pc) && !(pc.Enter? && HasSelector(req))
    ensures FailsOnly(StepAccounts(db, info, req, pc, e), StepAccounts(db, info, req, pc, Calm(e)))
  {
    hide StepCreateUser, StepUpdateUser, StepDelete, StepLifecycle, StepAdminRevoke, StepProfile, FailsOnly;
    if req.CreateUser? { CreateUserFaults(db, info, req, e); }
    else if req.DeleteUser? { DeletionFaults(db, info, req, pc, e); }
    else if req.UpdateUser? || req.UpdateProfile? { NameFaults(db, info, req, pc, e); }
    else { ChangeFaults(db, info, req, pc, e); }
  }

  lemma PatsFaults(prefix: string, registry: set<string>, db: Tables, info: AuthInfo, req: Request, pc: Pc, e: Env)
    requires OnPats(req) && Stage(req, pc)
    ensures FailsOnly(StepPats(prefix, registry, db, info, req, pc, e),
                      StepPats(prefix, registry, db, info, req, pc, Calm(e)))
  {
    hide Sample, Check, ExpiryOf, HasPermission;
  }

  lemma OrgsFaults(db: Tables, info: AuthInfo, req: Request, pc: Pc, e: Env)
    requires (req.CreateOrg? || OnOrg(req)) && Stage(req, pc) && !(pc.Enter? && HasSelector(req))
    ensures FailsOnly(StepOrgs(db, info, req, pc, e), StepOrgs(db, info, req, pc, Calm(e)))
  {
    hide Check, ResolveUser, UserSelector, TrimSpace, ValidSlug, Apply, IsAdmin;
  }

  lemma KeysFaults(prefix: string, db: Tables, info: AuthInfo, req: Request, pc: Pc, e: Env)
    requires (req.RefreshOwnKey? || req.RevokeOwnKey? || Public(req)) && Stage(req, pc)
    ensures FailsOnly(StepKeys(prefix, db, info, req, pc, e), StepKeys(prefix, db, info, req, pc, Calm(e)))
  {
    hide Sample, ExpiryOf, HasPermission, PlanLogin, PlanGenerate;
    if req.Callback? && ValidDays(DaysOf(req.expires)) { LoginFaults(db, LoginOf(req, DaysOf(req.expires)), e); }
    if req.IssueKey? { GenerateFaults(db, req.id, req.days, e); }
  }

  lemma StepFaults(prefix: string, registry: set<string>, db: Tables, t: Thread, e: Env)
    ensures FailsOnly(Step(prefix, registry, db, t, e), Step(prefix, registry, db, t, Calm(e)))
  {
    hide StepAccounts, StepPats, StepOrgs, StepKeys, CheckCredential, CheckOwner, ResolveUser, UserSelector, ResolveOrg,
      OrgSelector;
    if t.At? && Stage(t.req, t.pc) {
      if t.pc.Enter? && HasSelector(t.req) {
      } else if OnAccounts(t.req) {
        AccountsFaults(db, t.info, t.req, t.pc, e);
      } else if OnPats(t.req) {
        PatsFaults(prefix, registry, db, t.info, t.req, t.pc, e);
      } else if t.req.CreateOrg? || OnOrg(t.req) {
        OrgsFaults(db, t.info, t.req, t.pc, e);
      } else {
        KeysFaults(prefix, db, t.info, t.req, t.pc, e);
      }
    }
  }

  // ---- Whole requests ----

  lemma {:induction false} FinishFaults(prefix: string, registry: set<string>, db: Tables, t: Thread, e: Env)
    requires Fresh(db, t)
    ensures var o := Finish(prefix, registry, db, t, e); var calm := Finish(prefix, registry, db, t, Calm(e));
            o == calm || (o.status == 500 && o.credential == "" && (o.db == db || o.db == calm.db))
    decreases Rank(t)
  {
    hide Step, Fresh;
    if !t.Done? {
      var n := Step(prefix, registry, db, t, e);
      StepFaults(prefix, registry, db, t, e);
      Proceed(prefix, registry, db, t, e);
      if n == Step(prefix, registry, db, t, Calm(e)) {
        Proceed(prefix, registry, db, t, Calm(e));
        StepShape(prefix, registry, db, t, e);
        StepFresh(prefix, registry, db, t, e);
        if n.writes == [] {
          FinishFaults(prefix, registry, db, n.thread, e);
        } else {
          SettledFinish(prefix, registry, ApplyAll(db, n.writes), n.thread, Calm(e));
          AfterWrite(prefix, registry, ApplyAll(db, n.writes), n.thread, e);
        }
      }
    }
  }

  lemma AfterWrite(prefix: string, registry: set<string>, db: Tables, t: Thread, e: Env)
    requires Settled(t)
    ensures var o := Finish(prefix, registry, db, t, e); var calm := Finish(prefix, registry, db, t, Calm(e));
            o == calm || o == Outcome(db, 500, "")
  {
    hide Step;
    if !t.Done? {
      SettledReads(prefix, registry, db, t, e);
      StepFaults(prefix, registry, db, t, e);
      Proceed(prefix, registry, db, t, e);
      Proceed(prefix, registry, db, t, Calm(e));
    }
  }

  /** The law of failing statements. */
  lemma FaultsOnlyFail(prefix: string, db: Tables, job: Job)
    ensures var o := Serve(prefix, db, job); var calm := Serve(prefix, db, job.(e := job.e.(faults := {})));
            o == calm || (o.status == 500 && o.credential == "" && (o.db == db || o.db == calm.db))
  {
    hide Finish, Fresh;
    LaunchedFresh(db, job.token, job.req);
    FinishFaults(prefix, job.registry, db, Launched(job.token, job.req), job.e);
  }
}
