/**
 The atomic grain. When nothing runs in between, what a handler read earlier is still
 true when it writes, and it writes in a single statement or transaction; so serving a
 request is one Step from an up-to-date thread, followed by the response.
 */
module Serving {
  import opened Wrappers
  import opened Auth
  import opened Permissions
  import opened Requests
  import opened Runs
  import opened Sampling
  import opened Schema
  import opened Shapes
  import opened Tokens
  import opened Transactions

  predicate LiveKeyOf(db: Tables, keyId: string, id: string) {
    KeyOf(db.keys, keyId, id) && db.keys[keyId].revokedAt == None
  }

  predicate LivePatOf(db: Tables, tokenId: string, id: string) {
    PatOf(db.pats, tokenId, id) && db.pats[tokenId].revokedAt == None
  }

  /** What the thread has read is what the tables say. */
  predicate Fresh(db: Tables, t: Thread) {
    t.At? && Stage(t.req, t.pc) ==>
      match t.pc
      case KeyRead(key) => LiveKeyOf(db, t.req.keyId, UserOf(t.info)) && db.keys[t.req.keyId] == key
      case PatRead(pat) => LivePatOf(db, t.req.tokenId, UserOf(t.info)) && db.pats[t.req.tokenId] == pat
      case Snapshot(id, row) => id in db.users && db.users[id] == row
      case Approved(id, row) => id in db.users && db.users[id] == row
      case Found(id) => && (t.req.RevokeUserKey? ==> LiveKeyOf(db, t.req.keyId, id))
                        && (t.req.RevokeUserToken? ==> LivePatOf(db, t.req.tokenId, id))
      case _ => true
  }

  /** The write is done; at most the row for the response remains to be read. */
  predicate Settled(t: Thread) { t.Done? || (t.At? && t.pc.Refetching?) }

  ghost predicate Sound(db: Tables, n: Next) {
    Fresh(db, n.thread) && (n.writes != [] ==> Settled(n.thread))
  }

  lemma AccountsFresh(db: Tables, info: AuthInfo, req: Request, pc: Pc, e: Env)
    requires OnAccounts(req) && Stage(req, pc) && !(pc.Enter? && HasSelector(req)) && Fresh(db, At(info, req, pc))
    ensures Sound(db, StepAccounts(db, info, req, pc, e))
  {
    hide PlanCreateUser, PlanDelete, ActiveAdmins, HasPermission;
  }

  lemma PatsFresh(prefix: string, registry: set<string>, db: Tables, info: AuthInfo, req: Request, pc: Pc, e: Env)
    requires OnPats(req) && Stage(req, pc) && Fresh(db, At(info, req, pc))
    ensures Sound(db, StepPats(prefix, registry, db, info, req, pc, e))
  {
    hide Sample, Check, Acceptable, MayGrant, Merge, Remaining, ExpiryOf, FormatPat;
  }

  lemma OrgsFresh(db: Tables, info: AuthInfo, req: Request, pc: Pc, e: Env)
    requires (req.CreateOrg? || OnOrg(req)) && Stage(req, pc) && !(pc.Enter? && HasSelector(req))
    ensures Sound(db, StepOrgs(db, info, req, pc, e))
  {
    hide Check, ResolveUser, UserSelector, ValidSlug;
  }

  lemma KeysFresh(prefix: string, db: Tables, info: AuthInfo, req: Request, pc: Pc, e: Env)
    requires (req.RefreshOwnKey? || req.RevokeOwnKey? || Public(req)) && Stage(req, pc)
    ensures Sound(db, StepKeys(prefix, db, info, req, pc, e))
  {
    hide Sample, PlanLogin, PlanGenerate, ExpiryOf;
  }

  lemma StepFresh(prefix: string, registry: set<string>, db: Tables, t: Thread, e: Env)
    requires Fresh(db, t)
    ensures Sound(db, Step(prefix, registry, db, t, e))
  {
    hide StepAccounts, StepPats, StepOrgs, StepKeys, CheckCredential, CheckOwner;
    if t.At? && Stage(t.req, t.pc) {
      if t.pc.Enter? && HasSelector(t.req) {
      } else if OnAccounts(t.req) {
        AccountsFresh(db, t.info, t.req, t.pc, e);
      } else if OnPats(t.req) {
        PatsFresh(prefix, registry, db, t.info, t.req, t.pc, e);
      } else if t.req.CreateOrg? || OnOrg(t.req) {
        OrgsFresh(db, t.info, t.req, t.pc, e);
      } else {
        KeysFresh(prefix, db, t.info, t.req, t.pc, e);
      }
    }
  }

  lemma SettledReads(prefix: string, registry: set<string>, db: Tables, t: Thread, e: Env)
    requires Settled(t)
    ensures Step(prefix, registry, db, t, e).writes == [] && Step(prefix, registry, db, t, e).thread.Done?
  {
    hide EnterAdmin, StepKeys, StepPerms, StepCreatePat, StepDelete, StepLifecycle, StepAdminRevoke, StepCreateUser,
      StepDeleteOrg, StepMember, StepCreateOrg, HasPermission;
  }

  /** The thread on the point of writing, or the response if the request writes nothing. */
  ghost function Writer(prefix: string, registry: set<string>, db: Tables, t: Thread, e: Env): Thread
    decreases Rank(t)
  {
    if t.Done? then t
    else
      var n := Step(prefix, registry, db, t, e);
      StepShape(prefix, registry, db, t, e);
      if n.writes != [] then t else Writer(prefix, registry, db, n.thread, e)
  }

  lemma {:induction false} SettledFinish(prefix: string, registry: set<string>, db: Tables, t: Thread, e: Env)
    requires Settled(t)
    ensures Finish(prefix, registry, db, t, e).db == db
    ensures t.Done? ==> Finish(prefix, registry, db, t, e) == Outcome(db, t.status, t.credential)
  {
    hide Step;
    if !t.Done? {
      SettledReads(prefix, registry, db, t, e);
      var n := Step(prefix, registry, db, t, e);
      assert ApplyAll(db, n.writes) == db;
    }
  }

  /** Serving a request applies the writes of one Step, taken from a thread that is up to date. */
  lemma {:induction false} FinishIsOneStep(prefix: string, registry: set<string>, db: Tables, t: Thread, e: Env)
    requires Fresh(db, t)
    ensures var w := Writer(prefix, registry, db, t, e);
            var n := Step(prefix, registry, db, w, e);
            var o := Finish(prefix, registry, db, t, e);
            && Fresh(db, w)
            && o.db == ApplyAll(db, n.writes)
            && (w.Done? ==> o.db == db && o.status == w.status && o.credential == w.credential)
            && (!w.Done? ==> n.writes != [] && !t.Done? && w.req == t.req && Settled(n.thread))
            && (n.thread.Done? ==> o.status == n.thread.status && o.credential == n.thread.credential)
    decreases Rank(t)
  {
    hide Step, Fresh;
    if t.Done? {
      DoneStays(prefix, registry, db, t, e);
      assert ApplyAll(db, []) == db;
    } else {
      var n := Step(prefix, registry, db, t, e);
      StepShape(prefix, registry, db, t, e);
      StepFresh(prefix, registry, db, t, e);
      if n.writes == [] {
        assert ApplyAll(db, n.writes) == db;
        FinishIsOneStep(prefix, registry, db, n.thread, e);
      } else {
        SettledFinish(prefix, registry, ApplyAll(db, n.writes), n.thread, e);
      }
    }
  }

  lemma DoneStays(prefix: string, registry: set<string>, db: Tables, t: Thread, e: Env)
    requires t.Done?
    ensures Step(prefix, registry, db, t, e) == Next([], t)
  {
  }

  lemma LaunchedFresh(db: Tables, token: string, req: Request)
    ensures Fresh(db, Launched(token, req)) && !Launched(token, req).Done? && Launched(token, req).req == req
  {
  }

  // ---- Unfolding the machine ----

  lemma Proceed(prefix: string, registry: set<string>, db: Tables, t: Thread, e: Env)
    requires !t.Done?
    ensures var n := Step(prefix, registry, db, t, e); var after := ApplyAll(db, n.writes);
            && Finish(prefix, registry, db, t, e) == Finish(prefix, registry, after, n.thread, e)
            && (n.thread.Done? ==>
                  Finish(prefix, registry, after, n.thread, e) == Outcome(after, n.thread.status, n.thread.credential))
            && (n.writes == [] ==> after == db)
            && (|n.writes| == 1 ==> after == Apply(db, n.writes[0]))
  {
    hide Step, Apply;
    var n := Step(prefix, registry, db, t, e);
    StepShape(prefix, registry, db, t, e);
    if |n.writes| == 1 {
      assert n.writes == [n.writes[0]];
      ApplyOne(db, n.writes[0]);
    }
  }

  /** Which handler a statement belongs to. */
  lemma Dispatch(prefix: string, registry: set<string>, db: Tables, info: AuthInfo, req: Request, pc: Pc, e: Env)
    requires Stage(req, pc)
    ensures var n := Step(prefix, registry, db, At(info, req, pc), e);
            if pc.Enter? && HasSelector(req) then n == EnterAdmin(db, info, req, e)
            else if OnAccounts(req) then n == StepAccounts(db, info, req, pc, e)
            else if OnPats(req) then n == StepPats(prefix, registry, db, info, req, pc, e)
            else if req.CreateOrg? || OnOrg(req) then n == StepOrgs(db, info, req, pc, e)
            else n == StepKeys(prefix, db, info, req, pc, e)
  {
    hide EnterAdmin, StepAccounts, StepPats, StepOrgs, StepKeys;
  }

  /** One statement of a handler. */
  lemma Goes(prefix: string, registry: set<string>, db: Tables, info: AuthInfo, req: Request, pc: Pc, e: Env)
    requires Stage(req, pc)
    ensures var t := At(info, req, pc);
            var n := Step(prefix, registry, db, t, e); var after := ApplyAll(db, n.writes);
            && (if pc.Enter? && HasSelector(req) then n == EnterAdmin(db, info, req, e)
                else if OnAccounts(req) then n == StepAccounts(db, info, req, pc, e)
                else if OnPats(req) then n == StepPats(prefix, registry, db, info, req, pc, e)
                else if req.CreateOrg? || OnOrg(req) then n == StepOrgs(db, info, req, pc, e)
                else n == StepKeys(prefix, db, info, req, pc, e))
            && Finish(prefix, registry, db, t, e) == Finish(prefix, registry, after, n.thread, e)
            && (n.thread.Done? ==>
                  Finish(prefix, registry, db, t, e) == Outcome(after, n.thread.status, n.thread.credential))
            && (n.writes == [] ==> after == db)
            && (|n.writes| == 1 ==> after == Apply(db, n.writes[0]))
  {
    hide Step, Finish, EnterAdmin, StepAccounts, StepPats, StepOrgs, StepKeys;
    Dispatch(prefix, registry, db, info, req, pc, e);
    Proceed(prefix, registry, db, At(info, req, pc), e);
  }
}
