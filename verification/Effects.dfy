/**
 What a served request does to the row its selector names: the column asked for and
 the update time, and nothing else anywhere.
 */
module Effects {
  import opened Wrappers
  import opened Auth
  import opened Constraints
  import opened Requests
  import opened Runs
  import opened Schema
  import opened Serving
  import opened Shapes
  import opened Text
  import opened Transactions

  predicate Targeting(req: Request) { Lifecycle(req) || EditsOrg(req) || req.AddMember? || req.RemoveMember? }

  /** The tables after a success, in terms of the tables before. */
  ghost predicate Effected(before: Tables, after: Tables, req: Request, at: nat)
    requires Targeting(req)
  {
    if Lifecycle(req) then
      var id := ResolveUser(before, UserSelector(req.sel));
      id.Some? && id.value in before.users && UserChanged(before, after, req, id.value, at)
    else
      var id := ResolveOrg(before, OrgSelector(req.sel));
      && id.Some? && id.value in before.orgs
      && if EditsOrg(req) then OrgChanged(before, after, req, id.value, at)
         else
           var user := ResolveUser(before, UserSelector(req.userSel));
           user.Some? && MemberChanged(before, after, req.AddMember?, (id.value, user.value), at)
  }

  predicate UserChanged(before: Tables, after: Tables, req: Request, id: string, at: nat)
    requires Lifecycle(req) && id in before.users
  {
    var u := before.users[id];
    if AlreadySo(req, u) then after == before
    else if req.Promote? then after == WithRow(before, id, u.(role := Administrator, updatedAt := at))
    else if req.Demote? then
      after == WithRow(before, id, u.(role := RegularUser, updatedAt := at)) && |ActiveAdmins(before.users)| > 1
    else after == WithRow(before, id, u.(status := if req.Block? then Blocked else Active, updatedAt := at))
  }

  predicate OrgChanged(before: Tables, after: Tables, req: Request, id: string, at: nat)
    requires EditsOrg(req) && id in before.orgs
  {
    var o := before.orgs[id];
    if req.UpdateOrg? then
      && (req.newName.Some? ==> TrimSpace(req.newName.value) != "")
      && after == WithOrgRow(before, id, o.(name := if req.newName.Some? then TrimSpace(req.newName.value) else o.name,
                                            url := if req.newUrl.Some? then req.newUrl.value else o.url,
                                            updatedAt := at))
    else
      var wanted := if req.BlockOrg? then Blocked else Active;
      after == if o.status == wanted then before else WithOrgRow(before, id, o.(status := wanted, updatedAt := at))
  }

  predicate MemberChanged(before: Tables, after: Tables, added: bool, pair: (string, string), at: nat) {
    if added then after == if pair in before.members then before else before.(members := before.members[pair := at])
    else pair in before.members && after == before.(members := before.members - {pair})
  }

  function WithRow(db: Tables, id: string, u: User): Tables { db.(users := db.users[id := u]) }

  function WithOrgRow(db: Tables, id: string, o: Org): Tables { db.(orgs := db.orgs[id := o]) }

  function Success(req: Request): nat { if req.AddMember? || req.RemoveMember? then 204 else 200 }

  // ---- The target is the one the selector names ----

  ghost predicate Targets(db: Tables, t: Thread) {
    t.At? && Targeting(t.req) ==>
      match t.pc
      case Target(id) => if Lifecycle(t.req) then NamesUser(db, t.req.sel, id) else NamesOrg(db, t.req.sel, id)
      case Snapshot(id, _) => Lifecycle(t.req) ==> NamesUser(db, t.req.sel, id)
      case Found(id) => EditsOrg(t.req) ==> NamesOrg(db, t.req.sel, id)
      case Pair(orgId, id) =>
        t.req.AddMember? || t.req.RemoveMember? ==> NamesOrg(db, t.req.sel, orgId) && NamesUser(db, t.req.userSel, id)
      case _ => true
  }

  ghost predicate NamesUser(db: Tables, sel: string, id: string) { ResolveUser(db, UserSelector(sel)) == Some(id) }

  ghost predicate NamesOrg(db: Tables, sel: string, id: string) { ResolveOrg(db, OrgSelector(sel)) == Some(id) }

  /** A snapshot is taken only of a row that is not yet as asked. */
  predicate Pending(t: Thread) {
    t.At? && Lifecycle(t.req) && t.pc.Snapshot? ==> !AlreadySo(t.req, t.pc.row)
  }

  predicate OrgPending(db: Tables, t: Thread) {
    t.At? && EditsOrg(t.req) && t.pc.Found? && t.pc.id in db.orgs ==>
      && (t.req.BlockOrg? ==> db.orgs[t.pc.id].status != Blocked)
      && (t.req.UnblockOrg? ==> db.orgs[t.pc.id].status != Active)
      && (t.req.UpdateOrg? && t.req.newName.Some? ==> TrimSpace(t.req.newName.value) != "")
  }

  ghost predicate Ready(db: Tables, t: Thread) { Fresh(db, t) && Targets(db, t) && Pending(t) && OrgPending(db, t) }

  /** One statement: it writes what is asked, or answers success because it is so already, or goes on. */
  ghost predicate Progress(db: Tables, req: Request, n: Next, at: nat)
    requires Targeting(req)
  {
    if n.writes != [] then
      && Effected(db, ApplyAll(db, n.writes), req, at)
      && if n.thread.Done? then n.thread.status == Success(req)
         else n.thread.At? && EditsOrg(n.thread.req) && n.thread.req == req && n.thread.pc.Refetching?
    else
      && Targets(db, n.thread) && Pending(n.thread) && OrgPending(db, n.thread)
      && (n.thread.Done? || !Settled(n.thread))
      && (n.thread.Done? && n.thread.status == Success(req) ==> Effected(db, db, req, at))
  }

  lemma NamedOrgExists(db: Tables, sel: string, id: string)
    requires NamesOrg(db, sel, id)
    ensures id in db.orgs
  {
    hide OrgSelector;
  }

  lemma LifecycleProgress(db: Tables, info: AuthInfo, req: Request, pc: Pc, e: Env)
    requires Lifecycle(req) && Stage(req, pc) && !pc.Enter? && Ready(db, At(info, req, pc))
    ensures Progress(db, req, StepLifecycle(db, info, req, pc, e), Truncated(e.now))
  {
    hide ResolveUser, UserSelector, ResolveOrg, OrgSelector, ActiveAdmins, ApplyAll;
    var n := StepLifecycle(db, info, req, pc, e);
    if n.writes != [] {
      assert n.writes == [n.writes[0]];
      ApplyOne(db, n.writes[0]);
    }
  }

  lemma OrgRowWritten(db: Tables, req: Request, id: string, at: nat)
    requires EditsOrg(req) && id in db.orgs && OrgPending(db, At(NoAuth, req, Found(id)))
    ensures OrgChanged(db, Apply(db, OrgUpdate(req, id, at)), req, id, at)
  {
    hide TrimSpace;
  }

  lemma OrgRowStays(db: Tables, req: Request, id: string, at: nat)
    requires EditsOrg(req) && id in db.orgs
    ensures req.BlockOrg? && db.orgs[id].status == Blocked ==> OrgChanged(db, db, req, id, at)
    ensures req.UnblockOrg? && db.orgs[id].status == Active ==> OrgChanged(db, db, req, id, at)
  {
  }

  lemma OrgProgress(db: Tables, info: AuthInfo, req: Request, pc: Pc, e: Env)
    requires EditsOrg(req) && Stage(req, pc) && !pc.Enter? && !pc.Refetching? && Ready(db, At(info, req, pc))
    ensures Progress(db, req, StepOrg(db, info, req, pc, e), Truncated(e.now))
  {
    hide ResolveUser, UserSelector, ResolveOrg, OrgSelector, ActiveAdmins, ApplyAll, TrimSpace, Check, Apply, OrgUpdate,
      OrgChanged;
    NamedOrgExists(db, req.sel, pc.id);
    OrgRowStays(db, req, pc.id, Truncated(e.now));
    if OrgPending(db, At(info, req, Found(pc.id))) { OrgRowWritten(db, req, pc.id, Truncated(e.now)); }
    var n := StepOrg(db, info, req, pc, e);
    if n.writes != [] {
      assert n.writes == [n.writes[0]];
      ApplyOne(db, n.writes[0]);
    }
  }

  lemma MemberVerdict(db: Tables, orgId: string, id: string, at: nat, usernameFirst: bool)
    ensures Check(db, NewMember(orgId, id, at), usernameFirst) == DupId <==> (orgId, id) in db.members
  {
  }

  lemma MemberWritten(db: Tables, orgId: string, id: string, at: nat)
    ensures (orgId, id) in db.members ==> MemberChanged(db, db, true, (orgId, id), at)
    ensures (orgId, id) !in db.members ==> MemberChanged(db, Apply(db, NewMember(orgId, id, at)), true, (orgId, id), at)
    ensures (orgId, id) in db.members ==> MemberChanged(db, Apply(db, DropMember(orgId, id)), false, (orgId, id), at)
  {
  }

  lemma MemberProgress(db: Tables, info: AuthInfo, req: Request, pc: Pc, e: Env)
    requires (req.AddMember? || req.RemoveMember?) && Stage(req, pc) && !pc.Enter? && Ready(db, At(info, req, pc))
    ensures Progress(db, req, StepMember(db, info, req, pc, e), Truncated(e.now))
  {
    hide ResolveUser, UserSelector, ResolveOrg, OrgSelector, ActiveAdmins, ApplyAll, TrimSpace, Check, OrgChanged,
      UserChanged, MemberChanged, Apply;
    if pc.Pair? {
      NamedOrgExists(db, req.sel, pc.orgId);
      MemberVerdict(db, pc.orgId, pc.memberId, Truncated(e.now), e.usernameFirst);
      MemberWritten(db, pc.orgId, pc.memberId, Truncated(e.now));
    }
    var n := StepMember(db, info, req, pc, e);
    if n.writes != [] {
      assert n.writes == [n.writes[0]];
      ApplyOne(db, n.writes[0]);
    }
  }

  lemma EnterProgress(db: Tables, info: AuthInfo, req: Request, e: Env)
    requires Targeting(req)
    ensures Progress(db, req, EnterAdmin(db, info, req, e), Truncated(e.now))
  {
    hide ResolveUser, UserSelector, ResolveOrg, OrgSelector, Effected;
  }

  lemma StepProgress(prefix: string, registry: set<string>, db: Tables, t: Thread, e: Env)
    requires !t.Done? && Targeting(t.req) && !Settled(t) && Ready(db, t)
    ensures Progress(db, t.req, Step(prefix, registry, db, t, e), Truncated(e.now))
  {
    hide Effected, EnterAdmin, StepLifecycle, StepOrg, StepMember, CheckCredential, CheckOwner, Ready, Fresh;
    if t.At? && Stage(t.req, t.pc) {
      if t.pc.Enter? { EnterProgress(db, t.info, t.req, e); }
      else if Lifecycle(t.req) { LifecycleProgress(db, t.info, t.req, t.pc, e); }
      else if EditsOrg(t.req) { OrgProgress(db, t.info, t.req, t.pc, e); }
      else { MemberProgress(db, t.info, t.req, t.pc, e); }
    }
  }

  // ---- Whole requests ----

  lemma {:induction false} WriterReady(prefix: string, registry: set<string>, db: Tables, t: Thread, e: Env)
    requires !t.Done? && Targeting(t.req) && !Settled(t) && Ready(db, t)
    ensures var w := Writer(prefix, registry, db, t, e);
            if w.Done? then w.status == Success(t.req) ==> Effected(db, db, t.req, Truncated(e.now))
            else w.req == t.req && !Settled(w) && Ready(db, w)
    decreases Rank(t)
  {
    hide Step, Effected, Fresh, Targets, Pending, OrgPending;
    var n := Step(prefix, registry, db, t, e);
    StepProgress(prefix, registry, db, t, e);
    StepShape(prefix, registry, db, t, e);
    StepFresh(prefix, registry, db, t, e);
    if n.writes == [] {
      assert ApplyAll(db, n.writes) == db;
      if !n.thread.Done? { WriterReady(prefix, registry, db, n.thread, e); }
    }
  }

  /** A success has exactly the effect asked for, on the row the selector names; any other answer leaves every
      table alone, but for an organization edit whose row could not be read back. */
  lemma ServedAsAsked(prefix: string, db: Tables, job: Job)
    requires Targeting(job.req)
    ensures var o := Serve(prefix, db, job);
            && (o.status == Success(job.req) ==> Effected(db, o.db, job.req, Truncated(job.e.now)))
            && (o.status != Success(job.req) && !(EditsOrg(job.req) && o.status == INTERNAL) ==> o.db == db)
  {
    hide Step, Finish, Writer, Effected, Fresh, Targets, Pending, OrgPending;
    var t := Launched(job.token, job.req);
    LaunchedFresh(db, job.token, job.req);
    LaunchedReady(db, job.token, job.req);
    FinishIsOneStep(prefix, job.registry, db, t, job.e);
    WriterReady(prefix, job.registry, db, t, job.e);
    var w := Writer(prefix, job.registry, db, t, job.e);
    if !w.Done? {
      StepProgress(prefix, job.registry, db, w, job.e);
      RefetchAnswers(prefix, job.registry, db, t, job.e);
    }
  }

  lemma LaunchedReady(db: Tables, token: string, req: Request)
    requires Targeting(req)
    ensures Ready(db, Launched(token, req)) && !Settled(Launched(token, req))
  {
  }

  /** After the write the answer is success, or the row could not be read back. */
  lemma {:induction false} RefetchAnswers(prefix: string, registry: set<string>, db: Tables, t: Thread, e: Env)
    requires !t.Done? && Targeting(t.req) && !Settled(t) && Ready(db, t) && !Writer(prefix, registry, db, t, e).Done?
    ensures var o := Finish(prefix, registry, db, t, e); o.status == Success(t.req) || o.status == INTERNAL
    decreases Rank(t)
  {
    hide Step, Fresh, Targets, Pending, OrgPending, Effected;
    var n := Step(prefix, registry, db, t, e);
    StepProgress(prefix, registry, db, t, e);
    StepShape(prefix, registry, db, t, e);
    StepFresh(prefix, registry, db, t, e);
    if n.writes == [] {
      assert ApplyAll(db, n.writes) == db;
      RefetchAnswers(prefix, registry, db, n.thread, e);
    } else if n.thread.Done? {
      SettledFinish(prefix, registry, ApplyAll(db, n.writes), n.thread, e);
    } else {
      RefetchAnswer(prefix, registry, ApplyAll(db, n.writes), n.thread, e);
    }
  }

  lemma RefetchAnswer(prefix: string, registry: set<string>, db: Tables, t: Thread, e: Env)
    requires t.At? && t.pc.Refetching? && EditsOrg(t.req)
    ensures var o := Finish(prefix, registry, db, t, e); o.status == 200 || o.status == INTERNAL
  {
    hide StepAccounts, StepPats, StepKeys, StepCreateOrg, StepDeleteOrg, StepMember, EnterAdmin;
    var n := Step(prefix, registry, db, t, e);
    assert n.writes == [] && n.thread.Done?;
    assert ApplyAll(db, n.writes) == db;
    SettledFinish(prefix, registry, db, n.thread, e);
  }

  // ---- Deletion ----

  /** A deletion in flight is about the user its selector names. */
  ghost predicate Condemns(db: Tables, t: Thread) {
    t.At? && t.req.DeleteUser? && (t.pc.Target? || t.pc.Snapshot? || t.pc.Approved?) ==> NamesUser(db, t.req.sel, t.pc.id)
  }

  /** It is at its transaction, and that commits. */
  ghost predicate Executes(prefix: string, registry: set<string>, db: Tables, t: Thread, e: Env) {
    && t.At? && t.req.DeleteUser? && t.pc.Approved? && Condemns(db, t)
    && var n := Step(prefix, registry, db, t, e); n.writes != [] && n == StepDelete(db, t.info, t.req, t.pc, e)
  }

  lemma DeleteStep(prefix: string, registry: set<string>, db: Tables, t: Thread, e: Env)
    requires !t.Done? && t.req.DeleteUser? && Condemns(db, t)
    ensures var n := Step(prefix, registry, db, t, e);
            if n.writes == [] then
              Condemns(db, n.thread) && (n.thread.Done? && RefusesOpenly(e) ==> n.thread.status != 204)
            else Executes(prefix, registry, db, t, e)
  {
    hide StepOrgs, StepPats, StepKeys, StepCreateUser, StepUpdateUser, StepLifecycle, StepAdminRevoke, StepProfile,
      ResolveUser, UserSelector, ResolveOrg, OrgSelector, CheckCredential, CheckOwner, PlanDelete, ActiveAdmins;
    if t.At? && t.pc.Approved? { DeletionIsClean(db, t.info, t.req, t.pc, e); }
  }

  lemma {:induction false} WriterCondemns(prefix: string, registry: set<string>, db: Tables, t: Thread, e: Env)
    requires !t.Done? && t.req.DeleteUser? && Condemns(db, t)
    ensures var w := Writer(prefix, registry, db, t, e);
            if w.Done? then RefusesOpenly(e) ==> w.status != 204
            else w.req == t.req && Executes(prefix, registry, db, w, e)
    decreases Rank(t)
  {
    hide Step, StepDelete, NamesUser, RefusesOpenly;
    DeleteStep(prefix, registry, db, t, e);
    StepShape(prefix, registry, db, t, e);
    var n := Step(prefix, registry, db, t, e);
    if n.writes == [] && !n.thread.Done? { WriterCondemns(prefix, registry, db, n.thread, e); }
  }

  /** What the hook makes of tables in which the named user's id occurs nowhere and all else is as it was. */
  ghost predicate Deleted(before: Tables, after: Tables, sel: string, hook: Hook) {
    exists id, clean ::
      && NamesUser(before, sel, id) && id in before.users
      && Unmentioned(clean, id) && OthersKept(before, clean, id)
      && hook(clean, id).HookOk? && after == hook(clean, id).db
  }

  /** Deleting a user: 204 means the named user is gone from every table, any other answer that nothing
      changed. */
  lemma DeletionServed(prefix: string, db: Tables, job: Job)
    requires job.req.DeleteUser?
    ensures var o := Serve(prefix, db, job);
            && (o.status == 204 && RefusesOpenly(job.e) ==> Deleted(db, o.db, job.req.sel, job.e.hook))
            && (o.status != 204 ==> o.db == db)
  {
    hide Step, Finish, Writer, Fresh, StepDelete, Unmentioned, OthersKept, NamesUser, RefusesOpenly;
    var t := Launched(job.token, job.req);
    LaunchedFresh(db, job.token, job.req);
    FinishIsOneStep(prefix, job.registry, db, t, job.e);
    WriterCondemns(prefix, job.registry, db, t, job.e);
    var w := Writer(prefix, job.registry, db, t, job.e);
    if !w.Done? { DeletionIsClean(db, w.info, w.req, w.pc, job.e); }
  }
}
