/**
 What every statement of every request has in common: the thread keeps its
 credential and request and comes nearer to its response, and the writes are of the
 few kinds that belong to the request.
 */
module Shapes {
  import opened Auth
  import opened Permissions
  import opened Requests
  import opened Sampling
  import opened Schema
  import opened Text
  import opened Transactions

  /** How far a stage is from the response. */
  function PcRank(pc: Pc): nat {
    match pc
    case Enter => 40
    case Target(_) => 30
    case Snapshot(_, _) => 20
    case Inserting(_, _, _, _, attempt) => if attempt >= MAX_PAT_ATTEMPTS then 3 else 10 - attempt
    case Refetching(_) => 1
    case Missed => 1
    case _ => 10
  }

  function Rank(t: Thread): nat {
    match t
    case Start(_, _) => 50
    case Owner(_, _) => 49
    case Done(_, _) => 0
    case At(_, _, pc) => PcRank(pc)
  }

  /** The kinds of write each request can issue. */
  predicate Fits(req: Request, w: Write) {
    match req
    case CreateUser(_, _, _, _) => w.NewUser? || w.RunHook?
    case UpdateUser(_, _) => w.SetFullName?
    case DeleteUser(_) => w.ClearOwner? || w.DropKeysOf? || w.DropPatsOf? || w.DropMembershipsOf? || w.DropUser?
                          || w.RunHook?
    case Promote(_) => w.SetRole?
    case Demote(_) => w.SetRole?
    case Block(_) => w.SetStatus?
    case Unblock(_) => w.SetStatus?
    case RevokeUserKey(_, _) => w.RevokeKey?
    case RevokeUserToken(_, _) => w.RevokePat?
    case UpdateProfile(_) => w.SetFullName?
    case RefreshOwnKey(_) => w.RefreshKey?
    case RevokeOwnKey(_) => w.RevokeKey?
    case CreatePat(_, _, _) => w.NewPat?
    case RevokeOwnPat(_) => w.RevokePat?
    case ReplacePerms(_, _) => w.SetPerms?
    case AddPerms(_, _) => w.SetPerms?
    case RemovePerms(_, _) => w.SetPerms?
    case CreateOrg(_, _, _, _) => w.NewOrg?
    case UpdateOrg(_, _, _) => w.SetOrg?
    case DeleteOrg(_) => w.DropOrg? || w.RunHook?
    case BlockOrg(_) => w.SetOrg?
    case UnblockOrg(_) => w.SetOrg?
    case AddMember(_, _) => w.NewMember?
    case RemoveMember(_, _) => w.DropMember?
    case Callback(_, _, _) => w.NewUser? || w.LoginUser? || w.RunHook? || w.RevokeKeysOf? || w.NewKey?
    case IssueKey(_, _) => w.RevokeKeysOf? || w.NewKey?
  }

  ghost predicate AllFit(req: Request, ws: seq<Write>) {
    forall i :: 0 <= i < |ws| ==> Fits(req, ws[i])
  }

  ghost predicate Shape(info: AuthInfo, req: Request, pc: Pc, n: Next) {
    && (n.thread.Done? || (n.thread.At? && n.thread.info == info && n.thread.req == req
                           && Stage(req, n.thread.pc) && PcRank(n.thread.pc) < PcRank(pc)))
    && AllFit(req, n.writes)
  }

  lemma CreateUserShape(db: Tables, info: AuthInfo, req: Request, pc: Pc, e: Env)
    requires req.CreateUser?
    ensures Shape(info, req, pc, StepCreateUser(db, info, req, e))
  {
  }

  lemma UpdateUserShape(db: Tables, info: AuthInfo, req: Request, pc: Pc, e: Env)
    requires req.UpdateUser? && Stage(req, pc) && !pc.Enter?
    ensures Shape(info, req, pc, StepUpdateUser(db, info, req, pc, e))
  {
  }

  lemma ProfileShape(db: Tables, info: AuthInfo, req: Request, pc: Pc, e: Env)
    requires req.UpdateProfile? && Stage(req, pc)
    ensures Shape(info, req, pc, StepProfile(db, info, req, pc, e))
  {
  }

  lemma DeleteShape(db: Tables, info: AuthInfo, req: Request, pc: Pc, e: Env)
    requires req.DeleteUser? && Stage(req, pc) && !pc.Enter?
    ensures Shape(info, req, pc, StepDelete(db, info, req, pc, e))
  {
  }

  lemma LifecycleShape(db: Tables, info: AuthInfo, req: Request, pc: Pc, e: Env)
    requires Lifecycle(req) && Stage(req, pc) && !pc.Enter?
    ensures Shape(info, req, pc, StepLifecycle(db, info, req, pc, e))
  {
  }

  lemma AdminRevokeShape(db: Tables, info: AuthInfo, req: Request, pc: Pc, e: Env)
    requires AdminRevoke(req) && Stage(req, pc) && !pc.Enter?
    ensures Shape(info, req, pc, StepAdminRevoke(db, info, req, pc, e))
  {
  }

  lemma OwnKeyShape(prefix: string, db: Tables, info: AuthInfo, req: Request, pc: Pc, e: Env)
    requires (req.RefreshOwnKey? || req.RevokeOwnKey?) && Stage(req, pc)
    ensures req.RefreshOwnKey? ==> Shape(info, req, pc, StepRefresh(prefix, db, info, req, pc, e))
    ensures req.RevokeOwnKey? ==> Shape(info, req, pc, StepRevokeKey(db, info, req, pc, e))
  {
    hide Sample, ExpiryOf, HasPermission;
  }

  lemma CreatePatShape(prefix: string, registry: set<string>, db: Tables, info: AuthInfo, req: Request, pc: Pc, e: Env)
    requires req.CreatePat? && Stage(req, pc)
    ensures Shape(info, req, pc, StepCreatePat(prefix, registry, db, info, req, pc, e))
  {
    hide Acceptable, MayGrant, Sample, ExpiryOf, Check;
  }

  lemma RevokePatShape(db: Tables, info: AuthInfo, req: Request, pc: Pc, e: Env)
    requires req.RevokeOwnPat? && Stage(req, pc)
    ensures Shape(info, req, pc, StepRevokePat(db, info, req, pc, e))
  {
  }

  lemma PermsShape(registry: set<string>, db: Tables, info: AuthInfo, req: Request, pc: Pc, e: Env)
    requires EditsPerms(req) && Stage(req, pc)
    ensures Shape(info, req, pc, StepPerms(registry, db, info, req, pc, e))
  {
    hide Acceptable, MayGrant, Merge, Remaining;
  }

  lemma CreateOrgShape(db: Tables, info: AuthInfo, req: Request, pc: Pc, e: Env)
    requires req.CreateOrg?
    ensures Shape(info, req, pc, StepCreateOrg(db, info, req, e))
  {
  }

  lemma DeleteOrgShape(db: Tables, info: AuthInfo, req: Request, pc: Pc, e: Env)
    requires req.DeleteOrg? && Stage(req, pc) && !pc.Enter?
    ensures Shape(info, req, pc, StepDeleteOrg(db, info, req, pc, e))
  {
  }

  lemma OrgShape(db: Tables, info: AuthInfo, req: Request, pc: Pc, e: Env)
    requires EditsOrg(req) && Stage(req, pc) && !pc.Enter?
    ensures Shape(info, req, pc, StepOrg(db, info, req, pc, e))
  {
    hide Check, TrimSpace;
  }

  lemma MemberShape(db: Tables, info: AuthInfo, req: Request, pc: Pc, e: Env)
    requires (req.AddMember? || req.RemoveMember?) && Stage(req, pc) && !pc.Enter?
    ensures Shape(info, req, pc, StepMember(db, info, req, pc, e))
  {
    hide IsUuid, UserSelector, ResolveUser;
  }

  lemma {:induction false} NewKeyShape(db: Tables, user: string, days: nat, e: Env, stream: seq<byte>, attempts: nat)
    ensures var p := PlanNewKey(db, user, days, e, stream, attempts);
            p.Committed? ==> |p.writes| == 1 && p.writes[0].NewKey?
    decreases attempts
  {
    if attempts > 0 {
      var id := Sample(Letters(KEYS_CHARSET), ID_LENGTH, stream);
      if id.text.Some? {
        NewKeyShape(db, user, days, e, Sample(Letters(KEYS_CHARSET), SECRET_LENGTH, id.rest).rest, attempts - 1);
      }
    }
  }

  lemma {:induction false} InsertShape(db: Tables, l: Login, role: Role, e: Env, attempt: nat)
    requires attempt < MAX_USERNAME_ATTEMPTS
    ensures var p := PlanInsert(db, l, role, e, attempt);
            p.Committed? ==> |p.writes| == 1 && p.writes[0].NewUser?
    decreases MAX_USERNAME_ATTEMPTS - attempt
  {
    if attempt < MAX_USERNAME_ATTEMPTS - 1 { InsertShape(db, l, role, e, attempt + 1); }
  }

  lemma GenerateShape(db: Tables, user: string, days: int, e: Env)
    ensures var p := PlanGenerate(db, user, days, e); p.Committed? ==> LoginWrites(p.writes)
    ensures var p := PlanGenerate(db, user, days, e);
            p.Committed? ==> forall i :: 0 <= i < |p.writes| ==> p.writes[i].RevokeKeysOf? || p.writes[i].NewKey?
  {
    if ValidDays(days) {
      NewKeyShape(Apply(db, RevokeKeysOf(user, Truncated(e.now))), user, days, e, e.bytes, MAX_INSERT_ATTEMPTS);
    }
  }

  ghost predicate LoginWrites(ws: seq<Write>) {
    forall i :: 0 <= i < |ws| ==>
      ws[i].NewUser? || ws[i].LoginUser? || ws[i].RunHook? || ws[i].RevokeKeysOf? || ws[i].NewKey?
  }

  lemma LoginShape(db: Tables, l: Login, e: Env)
    ensures var p := PlanLogin(db, l, e); p.Committed? ==> LoginWrites(p.writes)
  {
    InsertShape(db, l, NewRole(db, l.email), e, 0);
    var found := FindIdentity(db, l.provider, l.providerId);
    var first := if found.Some? then PlanReturn(db, found.value, l, e) else PlanSignup(db, l, e);
    if first.Committed? {
      assert LoginWrites(first.writes);
      var second := PlanLoginKey(ApplyAll(db, first.writes), LoginId(db, l, e), l.days, e);
      if second.Committed? { assert LoginWrites(second.writes); }
    }
  }

  lemma AnswerShape(prefix: string, info: AuthInfo, req: Request, p: Plan)
    requires Public(req)
    requires p.Committed? ==> LoginWrites(p.writes)
    requires p.Committed? && req.IssueKey? ==>
               forall i :: 0 <= i < |p.writes| ==> p.writes[i].RevokeKeysOf? || p.writes[i].NewKey?
    ensures Shape(info, req, Enter, Answer(prefix, p))
  {
  }

  lemma EnterShape(db: Tables, info: AuthInfo, req: Request, e: Env)
    requires HasSelector(req)
    ensures Shape(info, req, Enter, EnterAdmin(db, info, req, e))
  {
  }

  lemma AccountsShape(db: Tables, info: AuthInfo, req: Request, pc: Pc, e: Env)
    requires OnAccounts(req) && Stage(req, pc) && !(pc.Enter? && HasSelector(req))
    ensures Shape(info, req, pc, StepAccounts(db, info, req, pc, e))
  {
    hide StepCreateUser, StepUpdateUser, StepDelete, StepLifecycle, StepAdminRevoke, StepProfile, Shape;
    if req.CreateUser? { CreateUserShape(db, info, req, pc, e); }
    else if req.UpdateUser? { UpdateUserShape(db, info, req, pc, e); }
    else if req.DeleteUser? { DeleteShape(db, info, req, pc, e); }
    else if Lifecycle(req) { LifecycleShape(db, info, req, pc, e); }
    else if AdminRevoke(req) { AdminRevokeShape(db, info, req, pc, e); }
    else { ProfileShape(db, info, req, pc, e); }
  }

  lemma PatsShape(prefix: string, registry: set<string>, db: Tables, info: AuthInfo, req: Request, pc: Pc, e: Env)
    requires OnPats(req) && Stage(req, pc)
    ensures Shape(info, req, pc, StepPats(prefix, registry, db, info, req, pc, e))
  {
    hide StepCreatePat, StepRevokePat, StepPerms, Shape;
    if req.CreatePat? { CreatePatShape(prefix, registry, db, info, req, pc, e); }
    else if req.RevokeOwnPat? { RevokePatShape(db, info, req, pc, e); }
    else { PermsShape(registry, db, info, req, pc, e); }
  }

  lemma OrgsShape(db: Tables, info: AuthInfo, req: Request, pc: Pc, e: Env)
    requires (req.CreateOrg? || OnOrg(req)) && Stage(req, pc) && !(pc.Enter? && HasSelector(req))
    ensures Shape(info, req, pc, StepOrgs(db, info, req, pc, e))
  {
    hide StepCreateOrg, StepDeleteOrg, StepOrg, StepMember, Shape;
    if req.CreateOrg? { CreateOrgShape(db, info, req, pc, e); }
    else if req.DeleteOrg? { DeleteOrgShape(db, info, req, pc, e); }
    else if EditsOrg(req) { OrgShape(db, info, req, pc, e); }
    else { MemberShape(db, info, req, pc, e); }
  }

  lemma KeysShape(prefix: string, db: Tables, info: AuthInfo, req: Request, pc: Pc, e: Env)
    requires (req.RefreshOwnKey? || req.RevokeOwnKey? || Public(req)) && Stage(req, pc)
    ensures Shape(info, req, pc, StepKeys(prefix, db, info, req, pc, e))
  {
    if !Public(req) {
      OwnKeyShape(prefix, db, info, req, pc, e);
    } else if req.Callback? {
      var l := LoginOf(req, if ValidDays(DaysOf(req.expires)) then DaysOf(req.expires) else 0);
      LoginShape(db, l, e);
      AnswerShape(prefix, info, req, PlanLogin(db, l, e));
    } else {
      GenerateShape(db, req.id, req.days, e);
      AnswerShape(prefix, info, req, PlanGenerate(db, req.id, req.days, e));
    }
  }

  lemma HandlerShape(prefix: string, registry: set<string>, db: Tables, info: AuthInfo, req: Request, pc: Pc, e: Env)
    requires Stage(req, pc)
    ensures Shape(info, req, pc, StepHandler(prefix, registry, db, info, req, pc, e))
  {
    hide StepAccounts, StepPats, StepOrgs, StepKeys, EnterAdmin;
    if pc.Enter? && HasSelector(req) { EnterShape(db, info, req, e); }
    else if OnAccounts(req) { AccountsShape(db, info, req, pc, e); }
    else if OnPats(req) { PatsShape(prefix, registry, db, info, req, pc, e); }
    else if req.CreateOrg? || OnOrg(req) { OrgsShape(db, info, req, pc, e); }
    else { KeysShape(prefix, db, info, req, pc, e); }
  }

  /** Every statement brings the response nearer, keeps the request, and writes only what fits it. */
  lemma StepShape(prefix: string, registry: set<string>, db: Tables, t: Thread, e: Env)
    requires !t.Done?
    ensures var n := Step(prefix, registry, db, t, e);
            && Rank(n.thread) < Rank(t)
            && (n.thread.Done? || n.thread.req == t.req)
            && AllFit(t.req, n.writes)
            && (t.At? && !n.thread.Done? ==> n.thread.At? && n.thread.info == t.info)
  {
    if t.At? && Stage(t.req, t.pc) {
      HandlerShape(prefix, registry, db, t.info, t.req, t.pc, e);
    }
  }

  // ---- Hooks ----

  /** The only hook a statement runs is the one its environment supplies. */
  ghost predicate OwnHook(ws: seq<Write>, e: Env) {
    forall i :: 0 <= i < |ws| && ws[i].RunHook? ==> ws[i].hook == e.hook
  }

  lemma LoginHooks(db: Tables, l: Login, e: Env)
    ensures var p := PlanLogin(db, l, e); p.Committed? ==> OwnHook(p.writes, e)
  {
    hide Check, PlanInsert, Sample, ExpiryOf, NewRole;
    InsertShape(db, l, NewRole(db, l.email), e, 0);
    var found := FindIdentity(db, l.provider, l.providerId);
    var first := if found.Some? then PlanReturn(db, found.value, l, e) else PlanSignup(db, l, e);
    if first.Committed? {
      assert OwnHook(first.writes, e);
      var second := PlanLoginKey(ApplyAll(db, first.writes), LoginId(db, l, e), l.days, e);
      if second.Committed? { assert OwnHook(second.writes, e); }
    }
  }

  lemma PublicHooks(prefix: string, db: Tables, req: Request, e: Env)
    requires Public(req)
    ensures req.Callback? ==> OwnHook(StepCallback(prefix, db, req, e).writes, e)
    ensures req.IssueKey? ==> OwnHook(StepIssue(prefix, db, req, e).writes, e)
  {
    hide PlanLogin, PlanGenerate;
    if req.Callback? && CallbackStatus(req) == 200 { LoginHooks(db, LoginOf(req, DaysOf(req.expires)), e); }
    if req.IssueKey? { GenerateShape(db, req.id, req.days, e); }
  }

  lemma AccountHooks(db: Tables, info: AuthInfo, req: Request, pc: Pc, e: Env)
    requires Stage(req, pc)
    ensures req.CreateUser? ==> OwnHook(StepCreateUser(db, info, req, e).writes, e)
    ensures req.DeleteUser? && !pc.Enter? ==> OwnHook(StepDelete(db, info, req, pc, e).writes, e)
    ensures req.DeleteOrg? && !pc.Enter? ==> OwnHook(StepDeleteOrg(db, info, req, pc, e).writes, e)
  {
    hide Check, ApplyAll, Apply, ActiveAdmins;
  }

  /** Requests with no hook of their own. */
  lemma NoHook(req: Request, ws: seq<Write>, e: Env)
    requires AllFit(req, ws) && !req.CreateUser? && !req.DeleteUser? && !req.DeleteOrg? && !req.Callback?
    ensures OwnHook(ws, e)
  {
    forall i | 0 <= i < |ws| ensures !ws[i].RunHook? { assert Fits(req, ws[i]); }
  }

  lemma HandlerHooks(prefix: string, registry: set<string>, db: Tables, info: AuthInfo, req: Request, pc: Pc, e: Env)
    requires Stage(req, pc)
    ensures OwnHook(StepHandler(prefix, registry, db, info, req, pc, e).writes, e)
  {
    hide EnterAdmin, StepCreateUser, StepDelete, StepLifecycle, StepProfile, StepAdminRevoke, StepUpdateUser, StepPats,
      StepDeleteOrg, StepCreateOrg, StepOrg, StepMember, StepRefresh, StepRevokeKey, StepCallback, StepIssue, Fits;
    var n := StepHandler(prefix, registry, db, info, req, pc, e);
    if pc.Enter? && HasSelector(req) {
      EnterReads(db, info, req, e);
    } else if req.CreateUser? || req.DeleteUser? || req.DeleteOrg? {
      AccountHooks(db, info, req, pc, e);
    } else if req.Callback? {
      PublicHooks(prefix, db, req, e);
    } else {
      HandlerShape(prefix, registry, db, info, req, pc, e);
      NoHook(req, n.writes, e);
    }
  }

  lemma EnterReads(db: Tables, info: AuthInfo, req: Request, e: Env)
    requires HasSelector(req)
    ensures EnterAdmin(db, info, req, e).writes == []
  {
    hide UserSelector, OrgSelector, ResolveUser, ResolveOrg;
  }

  lemma StepHooks(prefix: string, registry: set<string>, db: Tables, t: Thread, e: Env)
    ensures OwnHook(Step(prefix, registry, db, t, e).writes, e)
  {
    hide StepHandler, CheckCredential, CheckOwner;
    if t.At? && Stage(t.req, t.pc) { HandlerHooks(prefix, registry, db, t.info, t.req, t.pc, e); }
  }
}
