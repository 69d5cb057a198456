/**
 No escalation through personal access tokens: while tokens are created and their
 permissions replaced or added to only by token callers, a user's tokens never come
 to hold a permission that none of that user's live tokens held at the start,
 whatever the interleaving and whichever updates are lost.
 */
module Escalation {
  import opened Wrappers
  import opened Auth
  import opened Permissions
  import opened Requests
  import opened Runs
  import opened Sampling
  import opened Schema
  import opened Shapes
  import opened Tokens
  import opened Transactions

  /** Unrevoked and, for the validator at that instant, not expired. */
  predicate LivePat(p: Pat, now: nat) {
    p.revokedAt == None && (p.expiresAt.Some? ==> now <= p.expiresAt.value)
  }

  /** Every permission some live token of the user holds. */
  function HeldAt(db: Tables, user: string, now: nat): set<string> {
    set k, p | k in db.pats && db.pats[k].user == user && LivePat(db.pats[k], now) && p in db.pats[k].perms :: p
  }

  predicate Within(perms: seq<string>, held: set<string>) { forall p :: p in perms ==> p in held }

  /** Requests that may put a permission on a token. */
  predicate Grants(req: Request) { req.CreatePat? || req.ReplacePerms? || req.AddPerms? }

  predicate ByToken(prefix: string, token: string) { ParseToken(prefix, TrimBearer(token)).PatToken? }

  // ---- The invariant ----

  /** Where a run began: the tokens of then, the instant, and the user whose tokens are watched. */
  datatype Origin = Origin(pats: map<string, Pat>, user: string, held: set<string>, now: nat)

  /** A live token holds nothing new, and one whose list is not its original list holds nothing new either. */
  predicate RowHeld(o: Origin, k: string, p: Pat) {
    && (LivePat(p, o.now) ==> Within(p.perms, o.held))
    && ((k in o.pats && o.pats[k].perms == p.perms) || Within(p.perms, o.held))
  }

  ghost predicate PatsHeld(o: Origin, pats: map<string, Pat>) {
    forall k :: k in pats && pats[k].user == o.user ==> RowHeld(o, k, pats[k])
  }

  predicate InfoHeld(o: Origin, info: AuthInfo, req: Request) {
    && (info.PatAuth? && info.user == o.user ==> Within(info.perms, o.held))
    && (Grants(req) ==> info.PatAuth?)
  }

  /** What a request in flight carries is held too. */
  predicate ThreadHeld(prefix: string, o: Origin, t: Thread) {
    match t
    case Start(token, req) => Grants(req) ==> ByToken(prefix, token)
    case Owner(info, req) => InfoHeld(o, info, req)
    case At(info, req, pc) =>
      && InfoHeld(o, info, req)
      && (UserOf(info) == o.user && pc.PatRead? ==> Within(pc.pat.perms, o.held))
      && (pc.Inserting? ==> pc.pat.user == UserOf(info) && (pc.pat.user == o.user ==> Within(pc.pat.perms, o.held)))
    case Done(_, _) => true
  }

  // ---- Writes ----

  /** A write that puts nothing new on the user's tokens. */
  ghost predicate Clean(o: Origin, w: Write) {
    && (w.NewPat? && w.pat.user == o.user ==> Within(w.pat.perms, o.held))
    && (w.SetPerms? && w.id == o.user ==> Within(w.perms, o.held))
    && (w.RunHook? ==> LeavesPats(w.hook))
  }

  lemma RowStaysHeld(o: Origin, k: string, p: Pat, perms: seq<string>, revokedAt: Option<nat>)
    requires (perms == p.perms && RowHeld(o, k, p)) || Within(perms, o.held)
    requires revokedAt == p.revokedAt || revokedAt.Some?
    ensures RowHeld(o, k, p.(perms := perms, revokedAt := revokedAt))
  {
  }

  lemma PutKeepsHeld(o: Origin, pats: map<string, Pat>, k: string, p: Pat)
    requires PatsHeld(o, pats) && (p.user == o.user ==> RowHeld(o, k, p))
    ensures PatsHeld(o, pats[k := p])
  {
    hide RowHeld;
  }

  lemma DropKeepsHeld(o: Origin, pats: map<string, Pat>, user: string)
    requires PatsHeld(o, pats)
    ensures PatsHeld(o, PatsNotOf(pats, user))
  {
    hide RowHeld;
  }

  lemma CleanKeeps(o: Origin, db: Tables, w: Write)
    requires PatsHeld(o, db.pats) && Clean(o, w)
    ensures PatsHeld(o, Apply(db, w).pats)
  {
    hide Apply, PatsHeld, Clean;
    if TouchesPats(w) { TouchKeeps(o, db, w); } else { PatsUntouchedBy(db, w); }
  }

  lemma TouchKeeps(o: Origin, db: Tables, w: Write)
    requires PatsHeld(o, db.pats) && Clean(o, w) && TouchesPats(w)
    ensures PatsHeld(o, Apply(db, w).pats)
  {
    hide KeysNotOf, MembershipsNotOf, Unowned, RevokedAll, PatsNotOf, PatsHeld, RowHeld, Within;
    match w
    case NewPat(k, pat) =>
      if pat.user == o.user { RowStaysHeld(o, k, pat, pat.perms, pat.revokedAt); }
      PutKeepsHeld(o, db.pats, k, pat);
    case SetPerms(k, id, _, _) => RowWriteKeeps(o, db, w, k, id);
    case RevokePat(k, id, _) => RowWriteKeeps(o, db, w, k, id);
    case DropPatsOf(id) => DropKeepsHeld(o, db.pats, id);
    case DropUser(id) => DropKeepsHeld(o, db.pats, id);
    case _ =>
  }

  lemma RowWriteKeeps(o: Origin, db: Tables, w: Write, k: string, id: string)
    requires PatsHeld(o, db.pats) && Clean(o, w) && (w.SetPerms? || w.RevokePat?) && w.tokenId == k && w.id == id
    ensures PatsHeld(o, Apply(db, w).pats)
  {
    hide RowHeld, Within;
    if PatOf(db.pats, k, id) {
      var after := Apply(db, w).pats[k];
      if id == o.user { RowStaysHeld(o, k, db.pats[k], after.perms, after.revokedAt); }
      PutKeepsHeld(o, db.pats, k, after);
    }
  }

  lemma {:induction false} AllCleanKeep(o: Origin, db: Tables, ws: seq<Write>)
    requires PatsHeld(o, db.pats) && forall i :: 0 <= i < |ws| ==> Clean(o, ws[i])
    ensures PatsHeld(o, ApplyAll(db, ws).pats)
    decreases |ws|
  {
    hide PatsHeld, Clean, Apply;
    if ws != [] {
      CleanKeeps(o, db, ws[0]);
      AllCleanKeep(o, Apply(db, ws[0]), ws[1..]);
    }
  }

  // ---- Statements ----

  ghost predicate Held(prefix: string, o: Origin, n: Next) {
    (forall i :: 0 <= i < |n.writes| ==> Clean(o, n.writes[i])) && ThreadHeld(prefix, o, n.thread)
  }

  lemma CredentialHeld(prefix: string, o: Origin, db: Tables, token: string, req: Request, e: Env)
    requires PatsHeld(o, db.pats) && o.now <= e.now && ThreadHeld(prefix, o, Start(token, req))
    ensures var r := CheckCredential(prefix, db, e.now, token); r.Authenticated? ==> InfoHeld(o, r.info, req)
  {
    hide ParseToken, Within;
  }

  lemma CreatePatHeld(prefix: string, o: Origin, registry: set<string>, db: Tables, info: AuthInfo, req: Request,
                      pc: Pc, e: Env)
    requires req.CreatePat? && Stage(req, pc) && ThreadHeld(prefix, o, At(info, req, pc))
    ensures Held(prefix, o, StepCreatePat(prefix, registry, db, info, req, pc, e))
  {
    hide Sample, Check, Acceptable, ExpiryOf, LeavesPats, ParseToken;
  }

  lemma PermsHeld(prefix: string, o: Origin, registry: set<string>, db: Tables, info: AuthInfo, req: Request,
                  pc: Pc, e: Env)
    requires EditsPerms(req) && Stage(req, pc) && ThreadHeld(prefix, o, At(info, req, pc))
    requires PatsHeld(o, db.pats) && o.now <= e.now
    ensures Held(prefix, o, StepPerms(registry, db, info, req, pc, e))
  {
    hide Acceptable, LeavesPats, ParseToken, Merge, Remaining;
    if pc.PatRead? && req.newPerms.Some? {
      MergeMeaning(pc.pat.perms, req.newPerms.value);
      RemainingMembers(pc.pat.perms, req.newPerms.value);
    }
  }

  /** Every other request neither carries nor writes permissions. */
  lemma OthersHeld(prefix: string, o: Origin, info: AuthInfo, req: Request, pc: Pc, n: Next, e: Env)
    requires !req.CreatePat? && !EditsPerms(req) && InfoHeld(o, info, req) && LeavesPats(e.hook)
    requires Shape(info, req, pc, n) && OwnHook(n.writes, e)
    ensures Held(prefix, o, n)
  {
    hide LeavesPats, Within;
    forall i | 0 <= i < |n.writes| ensures Clean(o, n.writes[i]) {
      assert Fits(req, n.writes[i]);
    }
  }

  lemma HandlerHeld(prefix: string, o: Origin, registry: set<string>, db: Tables, info: AuthInfo, req: Request,
                    pc: Pc, e: Env)
    requires Stage(req, pc) && ThreadHeld(prefix, o, At(info, req, pc))
    requires PatsHeld(o, db.pats) && o.now <= e.now && LeavesPats(e.hook)
    ensures Held(prefix, o, StepHandler(prefix, registry, db, info, req, pc, e))
  {
    hide LeavesPats, Held, StepCreatePat, StepPerms, StepRevokePat, StepAccounts, StepOrgs, StepKeys, EnterAdmin, Shape,
      Within, OwnHook;
    if req.CreatePat? {
      CreatePatHeld(prefix, o, registry, db, info, req, pc, e);
    } else if EditsPerms(req) {
      PermsHeld(prefix, o, registry, db, info, req, pc, e);
    } else {
      HandlerShape(prefix, registry, db, info, req, pc, e);
      HandlerHooks(prefix, registry, db, info, req, pc, e);
      OthersHeld(prefix, o, info, req, pc, StepHandler(prefix, registry, db, info, req, pc, e), e);
    }
  }

  lemma StepHeld(prefix: string, o: Origin, registry: set<string>, db: Tables, t: Thread, e: Env)
    requires ThreadHeld(prefix, o, t) && PatsHeld(o, db.pats) && o.now <= e.now && LeavesPats(e.hook)
    ensures var n := Step(prefix, registry, db, t, e);
            PatsHeld(o, ApplyAll(db, n.writes).pats) && ThreadHeld(prefix, o, n.thread)
  {
    hide LeavesPats, StepHandler, CheckCredential, PatsHeld, Clean, Within, ParseToken;
    var n := Step(prefix, registry, db, t, e);
    if t.Start? {
      CredentialHeld(prefix, o, db, t.token, t.req, e);
    } else if t.At? && Stage(t.req, t.pc) {
      HandlerHeld(prefix, o, registry, db, t.info, t.req, t.pc, e);
    }
    AllCleanKeep(o, db, n.writes);
  }

  // ---- Runs ----

  ghost predicate SystemHeld(prefix: string, o: Origin, s: System) {
    PatsHeld(o, s.db.pats) && forall tid :: tid in s.threads ==> ThreadHeld(prefix, o, s.threads[tid])
  }

  /** Granting requests come with tokens, clocks do not precede the start, hooks leave tokens alone. */
  ghost predicate TokenEvent(prefix: string, ev: Event, start: nat) {
    && (ev.Launch? && Grants(ev.req) ==> ByToken(prefix, ev.token))
    && (ev.Advance? ==> start <= ev.e.now && LeavesPats(ev.e.hook))
  }

  lemma LaunchHeld(prefix: string, o: Origin, token: string, req: Request)
    requires Grants(req) ==> ByToken(prefix, token)
    ensures ThreadHeld(prefix, o, Launched(token, req))
  {
  }

  lemma {:induction false} RunHeld(prefix: string, o: Origin, s: System, evs: seq<Event>)
    requires SystemHeld(prefix, o, s) && forall i :: 0 <= i < |evs| ==> TokenEvent(prefix, evs[i], o.now)
    ensures SystemHeld(prefix, o, Run(prefix, s, evs))
    decreases |evs|
  {
    hide Step, PatsHeld, LeavesPats, Registered, ThreadHeld;
    if evs != [] {
      var ev := evs[0];
      assert TokenEvent(prefix, ev, o.now);
      if ev.Launch? { LaunchHeld(prefix, o, ev.token, ev.req); }
      if ev.Advance? && ev.tid in s.threads {
        StepHeld(prefix, o, s.registry, s.db, s.threads[ev.tid], ev.e);
      }
      RunHeld(prefix, o, Occur(prefix, s, ev), evs[1..]);
    }
  }

  lemma StartHeld(prefix: string, db: Tables, user: string, now: nat)
    ensures PatsHeld(Origin(db.pats, user, HeldAt(db, user, now), now), db.pats)
  {
  }

  /** Under any interleaving, every permission on a token of the user that was not on that very token at
      the start was held by a live token of the user at the start. */
  lemma NoEscalation(prefix: string, db: Tables, registry: set<string>, evs: seq<Event>, user: string, start: nat,
                     k: string, p: string)
    requires forall i :: 0 <= i < |evs| ==> TokenEvent(prefix, evs[i], start)
    requires var end := Run(prefix, System(db, registry, map[]), evs).db;
             k in end.pats && end.pats[k].user == user && p in end.pats[k].perms
    ensures p in HeldAt(db, user, start) || (k in db.pats && p in db.pats[k].perms)
    ensures LivePat(Run(prefix, System(db, registry, map[]), evs).db.pats[k], start) ==> p in HeldAt(db, user, start)
  {
    hide Run, LeavesPats, HeldAt, ParseToken, LivePat;
    var o := Origin(db.pats, user, HeldAt(db, user, start), start);
    StartHeld(prefix, db, user, start);
    RunHeld(prefix, o, System(db, registry, map[]), evs);
  }

  // ---- Atomic handlers ----

  lemma {:induction false} FinishHeld(prefix: string, o: Origin, registry: set<string>, db: Tables, t: Thread, e: Env)
    requires ThreadHeld(prefix, o, t) && PatsHeld(o, db.pats) && o.now <= e.now && LeavesPats(e.hook)
    ensures PatsHeld(o, Finish(prefix, registry, db, t, e).db.pats)
    decreases Rank(t)
  {
    hide Step, PatsHeld, LeavesPats, ThreadHeld;
    if !t.Done? {
      var n := Step(prefix, registry, db, t, e);
      StepHeld(prefix, o, registry, db, t, e);
      StepShape(prefix, registry, db, t, e);
      FinishHeld(prefix, o, registry, ApplyAll(db, n.writes), n.thread, e);
    }
  }

  lemma ServeShrinksHeld(prefix: string, db: Tables, job: Job, user: string, now: nat)
    requires Grants(job.req) ==> ByToken(prefix, job.token)
    requires LeavesPats(job.e.hook) && job.e.now <= now
    ensures HeldAt(Serve(prefix, db, job).db, user, now) <= HeldAt(db, user, job.e.now)
  {
    hide Finish, LeavesPats, ParseToken;
    var o := Origin(db.pats, user, HeldAt(db, user, job.e.now), job.e.now);
    StartHeld(prefix, db, user, job.e.now);
    FinishHeld(prefix, o, job.registry, db, Launched(job.token, job.req), job.e);
  }

  lemma TimeShrinksHeld(db: Tables, user: string, now: nat, later: nat)
    requires now <= later
    ensures HeldAt(db, user, later) <= HeldAt(db, user, now)
  {
  }

  /** Served one at a time under a clock that never runs backwards, the union over live tokens never grows. */
  lemma {:induction false} HeldNeverGrows(prefix: string, db: Tables, jobs: seq<Job>, user: string, start: nat, end: nat)
    requires Clocked(jobs, start) && start <= end && (jobs != [] ==> jobs[|jobs| - 1].e.later <= end)
    requires forall i :: 0 <= i < |jobs| ==>
               (Grants(jobs[i].req) ==> ByToken(prefix, jobs[i].token)) && LeavesPats(jobs[i].e.hook)
    ensures HeldAt(ServeAll(prefix, db, jobs), user, end) <= HeldAt(db, user, start)
    decreases |jobs|
  {
    hide Serve, LeavesPats, ParseToken, HeldAt;
    if jobs == [] {
      TimeShrinksHeld(db, user, start, end);
    } else {
      var job := jobs[0];
      var mid := Serve(prefix, db, job).db;
      TimeShrinksHeld(db, user, start, job.e.now);
      ServeShrinksHeld(prefix, db, job, user, job.e.later);
      assert Clocked(jobs[1..], job.e.later);
      HeldNeverGrows(prefix, mid, jobs[1..], user, job.e.later, end);
    }
  }
}
