/**
 What one user's own credentials can reach: requests authenticated by a user's
 personal access tokens, or by a regular user's API keys, touch nothing of anybody
 else's, whatever the interleaving.
 */
module Isolation {
  import opened Auth
  import opened Permissions
  import opened Requests
  import opened Runs
  import opened Sampling
  import opened Schema
  import opened Shapes
  import opened Tokens
  import opened Transactions

  /** The string names a credential of the user or none at all, is no admin token, and, if it is an API
      key, the user is not an administrator. */
  predicate OwnToken(prefix: string, db: Tables, user: string, token: string) {
    match ParseToken(prefix, TrimBearer(token))
    case AdminToken(_) => false
    case ApiKeyToken(id, _) => (id in db.keys ==> db.keys[id].user == user) && RegularOwner(db, user)
    case PatToken(id, _) => id in db.pats ==> db.pats[id].user == user
    case Unrecognized => true
  }

  predicate RegularOwner(db: Tables, user: string) { user in db.users ==> db.users[user].role == RegularUser }

  // ---- What stays ----

  ghost predicate SameUsers(before: map<string, User>, after: map<string, User>, user: string) {
    && after.Keys == before.Keys
    && forall i :: i in before ==>
         if i == user then
           after[i] == before[i].(fullName := after[i].fullName, updatedAt := after[i].updatedAt)
         else after[i] == before[i]
  }

  ghost predicate SameKeys(before: map<string, ApiKey>, after: map<string, ApiKey>, user: string) {
    && after.Keys == before.Keys
    && forall k :: k in before ==>
         after[k].user == before[k].user && (before[k].user != user ==> after[k] == before[k])
  }

  ghost predicate SamePats(before: map<string, Pat>, after: map<string, Pat>, user: string) {
    && (forall k :: k in before ==>
          k in after && after[k].user == before[k].user && (before[k].user != user ==> after[k] == before[k]))
    && (forall k :: k in after && k !in before ==> after[k].user == user)
  }

  ghost predicate Isolated(before: Tables, after: Tables, user: string) {
    && SameUsers(before.users, after.users, user)
    && SameKeys(before.keys, after.keys, user)
    && SamePats(before.pats, after.pats, user)
    && after.orgs == before.orgs && after.members == before.members
    && after.adminEmail == before.adminEmail && after.adminHash == before.adminHash
  }

  /** A write to the user's own profile, keys and tokens. */
  predicate Own(db: Tables, w: Write, user: string) {
    match w
    case SetFullName(id, _, _) => id == user
    case RevokeKey(_, id, _) => id == user
    case RefreshKey(_, id, _, _, _) => id == user
    case NewPat(k, pat) => k !in db.pats && pat.user == user
    case SetPerms(_, id, _, _) => id == user
    case RevokePat(_, id, _) => id == user
    case _ => false
  }

  lemma OwnWriteIsolated(before: Tables, db: Tables, w: Write, user: string)
    requires Isolated(before, db, user) && Own(db, w, user)
    ensures Isolated(before, Apply(db, w), user)
  {
    hide KeysNotOf, PatsNotOf, MembershipsNotOf, Unowned, RevokedAll;
  }

  // ---- Threads ----

  predicate OwnInfo(before: Tables, info: AuthInfo, user: string) {
    NeedsOwner(info) && info.user == user && (info.KeyAuth? ==> RegularOwner(before, user) && info.role == RegularUser)
  }

  predicate OwnPc(req: Request, pc: Pc, user: string) {
    && (HasSelector(req) || req.CreateUser? || req.CreateOrg? ==> pc.Enter?)
    && (req.UpdateProfile? && pc.Found? ==> pc.id == user)
    && (pc.Inserting? ==> pc.pat.user == user)
  }

  predicate OwnThread(prefix: string, before: Tables, t: Thread, user: string) {
    match t
    case Start(token, req) => OwnToken(prefix, before, user, token) && !Public(req)
    case Owner(info, req) => OwnInfo(before, info, user) && !Public(req)
    case At(info, req, pc) => OwnInfo(before, info, user) && !Public(req) && OwnPc(req, pc, user)
    case Done(_, _) => true
  }

  /** One statement writes at most once, to the user's own things. */
  ghost predicate Contained(prefix: string, before: Tables, db: Tables, n: Next, user: string) {
    && (n.writes == [] || (|n.writes| == 1 && Own(db, n.writes[0], user)))
    && OwnThread(prefix, before, n.thread, user)
  }

  lemma AdminRoutesRefused(prefix: string, registry: set<string>, before: Tables, db: Tables, info: AuthInfo,
                           req: Request, pc: Pc, e: Env, user: string)
    requires Stage(req, pc) && OwnThread(prefix, before, At(info, req, pc), user)
    requires HasSelector(req) || req.CreateUser? || req.CreateOrg?
    ensures StepHandler(prefix, registry, db, info, req, pc, e) == Reply(403)
  {
    hide UserSelector, OrgSelector, ResolveUser, ResolveOrg, StepPats, StepKeys, PlanCreateUser, Check, ValidSlug;
  }

  lemma ProfileContained(prefix: string, before: Tables, db: Tables, info: AuthInfo, req: Request, pc: Pc, e: Env,
                         user: string)
    requires req.UpdateProfile? && OwnThread(prefix, before, At(info, req, pc), user)
    ensures Contained(prefix, before, db, StepProfile(db, info, req, pc, e), user)
  {
  }

  lemma KeysContained(prefix: string, before: Tables, db: Tables, info: AuthInfo, req: Request, pc: Pc, e: Env,
                      user: string)
    requires (req.RefreshOwnKey? || req.RevokeOwnKey?) && OwnThread(prefix, before, At(info, req, pc), user)
    ensures req.RefreshOwnKey? ==> Contained(prefix, before, db, StepRefresh(prefix, db, info, req, pc, e), user)
    ensures req.RevokeOwnKey? ==> Contained(prefix, before, db, StepRevokeKey(db, info, req, pc, e), user)
  {
    hide Sample, ExpiryOf, FormatApiKey;
  }

  lemma CreateContained(prefix: string, registry: set<string>, before: Tables, db: Tables, info: AuthInfo, req: Request,
                        pc: Pc, e: Env, user: string)
    requires req.CreatePat? && OwnThread(prefix, before, At(info, req, pc), user)
    ensures Contained(prefix, before, db, StepCreatePat(prefix, registry, db, info, req, pc, e), user)
  {
    hide Sample, ExpiryOf, FormatPat, Acceptable, MayGrant;
  }

  lemma RevokePatContained(prefix: string, before: Tables, db: Tables, info: AuthInfo, req: Request, pc: Pc, e: Env,
                           user: string)
    requires req.RevokeOwnPat? && OwnThread(prefix, before, At(info, req, pc), user)
    ensures Contained(prefix, before, db, StepRevokePat(db, info, req, pc, e), user)
  {
  }

  lemma PermsContained(prefix: string, registry: set<string>, before: Tables, db: Tables, info: AuthInfo, req: Request,
                       pc: Pc, e: Env, user: string)
    requires EditsPerms(req) && OwnThread(prefix, before, At(info, req, pc), user)
    ensures Contained(prefix, before, db, StepPerms(registry, db, info, req, pc, e), user)
  {
    hide Acceptable, MayGrant, Merge, Remaining;
  }

  lemma HandlerContained(prefix: string, registry: set<string>, before: Tables, db: Tables, info: AuthInfo, req: Request,
                         pc: Pc, e: Env, user: string)
    requires Stage(req, pc) && OwnThread(prefix, before, At(info, req, pc), user)
    ensures Contained(prefix, before, db, StepHandler(prefix, registry, db, info, req, pc, e), user)
  {
    hide EnterAdmin, StepCreateUser, StepUpdateUser, StepDelete, StepLifecycle, StepAdminRevoke, StepProfile, StepCreatePat,
      StepRevokePat, StepPerms, StepOrgs, StepRefresh, StepRevokeKey, StepCallback, StepIssue, Own, OwnInfo;
    if HasSelector(req) || req.CreateUser? || req.CreateOrg? {
      AdminRoutesRefused(prefix, registry, before, db, info, req, pc, e, user);
    }
    else if req.UpdateProfile? { ProfileContained(prefix, before, db, info, req, pc, e, user); }
    else if req.RefreshOwnKey? || req.RevokeOwnKey? { KeysContained(prefix, before, db, info, req, pc, e, user); }
    else if req.CreatePat? { CreateContained(prefix, registry, before, db, info, req, pc, e, user); }
    else if req.RevokeOwnPat? { RevokePatContained(prefix, before, db, info, req, pc, e, user); }
    else { PermsContained(prefix, registry, before, db, info, req, pc, e, user); }
  }

  lemma CredentialContained(prefix: string, before: Tables, db: Tables, token: string, req: Request, e: Env, user: string)
    requires Isolated(before, db, user) && OwnToken(prefix, before, user, token) && !Public(req)
    ensures var r := CheckCredential(prefix, db, e.now, token); r.Authenticated? ==> OwnInfo(before, r.info, user)
  {
    hide ParseToken;
  }

  lemma OwnerContained(before: Tables, db: Tables, info: AuthInfo, user: string)
    requires Isolated(before, db, user) && OwnInfo(before, info, user)
    ensures var r := CheckOwner(db, info); r.Authenticated? ==> OwnInfo(before, r.info, user)
  {
  }

  lemma StepContained(prefix: string, registry: set<string>, before: Tables, db: Tables, t: Thread, e: Env, user: string)
    requires Isolated(before, db, user) && OwnThread(prefix, before, t, user)
    ensures var n := Step(prefix, registry, db, t, e);
            Isolated(before, ApplyAll(db, n.writes), user) && OwnThread(prefix, before, n.thread, user)
  {
    hide StepHandler, CheckCredential, CheckOwner, Isolated, Own, OwnToken, OwnInfo;
    var n := Step(prefix, registry, db, t, e);
    match t {
      case Start(token, req) => CredentialContained(prefix, before, db, token, req, e, user);
      case Owner(info, req) => OwnerContained(before, db, info, user);
      case At(info, req, pc) =>
        if Stage(req, pc) { HandlerContained(prefix, registry, before, db, info, req, pc, e, user); }
      case Done(_, _) =>
    }
    if n.writes != [] {
      assert n.writes == [n.writes[0]];
      ApplyOne(db, n.writes[0]);
      OwnWriteIsolated(before, db, n.writes[0], user);
    }
  }

  // ---- Runs ----

  ghost predicate SystemContained(prefix: string, before: Tables, s: System, user: string) {
    && Isolated(before, s.db, user)
    && forall tid :: tid in s.threads ==> OwnThread(prefix, before, s.threads[tid], user)
  }

  lemma {:induction false} RunContained(prefix: string, before: Tables, s: System, evs: seq<Event>, user: string)
    requires SystemContained(prefix, before, s, user)
    requires forall i :: 0 <= i < |evs| && evs[i].Launch? ==>
               OwnToken(prefix, before, user, evs[i].token) && !Public(evs[i].req)
    ensures SystemContained(prefix, before, Run(prefix, s, evs), user)
    decreases |evs|
  {
    hide Step, Isolated, Registered, OwnToken, OwnInfo, OwnPc;
    if evs != [] {
      var ev := evs[0];
      if ev.Advance? && ev.tid in s.threads {
        StepContained(prefix, s.registry, before, s.db, s.threads[ev.tid], ev.e, user);
      }
      RunContained(prefix, before, Occur(prefix, s, ev), evs[1..], user);
    }
  }

  /** Any interleaved run of requests that all carry one user's own credentials changes nothing but that
      user's keys and tokens and, in the users table, that user's full name and update time. */
  lemma OwnCredentialsReachOwnData(prefix: string, db: Tables, registry: set<string>, evs: seq<Event>, user: string)
    requires forall i :: 0 <= i < |evs| && evs[i].Launch? ==>
               OwnToken(prefix, db, user, evs[i].token) && !Public(evs[i].req)
    ensures Isolated(db, Run(prefix, System(db, registry, map[]), evs).db, user)
  {
    hide Run, OwnToken;
    RunContained(prefix, db, System(db, registry, map[]), evs, user);
  }

  /** The same for whole requests served one after the other. */
  lemma {:induction false} FinishContained(prefix: string, registry: set<string>, before: Tables, db: Tables, t: Thread,
                                           e: Env, user: string)
    requires Isolated(before, db, user) && OwnThread(prefix, before, t, user)
    ensures Isolated(before, Finish(prefix, registry, db, t, e).db, user)
    decreases Rank(t)
  {
    hide Step, Isolated, OwnThread;
    if !t.Done? {
      var n := Step(prefix, registry, db, t, e);
      StepContained(prefix, registry, before, db, t, e, user);
      StepShape(prefix, registry, db, t, e);
      FinishContained(prefix, registry, before, ApplyAll(db, n.writes), n.thread, e, user);
    }
  }
}
