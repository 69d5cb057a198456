/**
 Which requests a personal access token's stored permissions let through, and that
 nothing else about a credential is ever refused for want of a permission.
 */
module PermissionGate {
  import opened AnswersKeys
  import opened AnswersTokens
  import opened AnswersUsers
  import opened Auth
  import opened Permissions
  import opened Requests
  import opened Runs
  import opened Schema
  import opened Terms
  import Transactions

  /** The requests behind a permission. */
  predicate Gated(req: Request) {
    req.CreatePat? || req.RevokeOwnPat? || EditsPerms(req) || req.UpdateProfile? || req.RevokeOwnKey?
  }

  /** What the caller's token must have on it. */
  predicate LetsThrough(perms: seq<string>, req: Request)
    requires Gated(req)
  {
    match req
    case UpdateProfile(_) => "users:read" in perms
    case RevokeOwnKey(_) => "keys:manage" in perms
    case CreatePat(_, _, _) => "tokens:manage" in perms
    case RevokeOwnPat(_) => "tokens:manage" in perms
    case _ => "tokens:write" in perms || "tokens:manage" in perms
  }

  /** A request that is in order but asks for a permission neither the caller's token nor the edited one has. */
  ghost predicate AsksTooMuch(db: Tables, info: AuthInfo, job: Job) {
    match job.req
    case CreatePat(_, perms, _) => ValidCreation(job.req, job.registry) && !Grantable(db, info, [], perms)
    case ReplacePerms(k, list) => ValidEdit(db, info, job) && !Grantable(db, info, db.pats[k].perms, list.value)
    case AddPerms(k, list) =>
      ValidEdit(db, info, job) && list.value != [] && !Grantable(db, info, db.pats[k].perms, list.value)
    case _ => false
  }

  ghost predicate ValidEdit(db: Tables, info: AuthInfo, job: Job)
    requires EditsPerms(job.req)
  {
    && job.req.newPerms.Some? && Own(db, info, job.req.tokenId) && Editable(db, job.req.tokenId, job.e.now)
    && Known(job.req.newPerms.value, false, job.registry)
  }

  /** 403 is the answer exactly when the caller is a token whose row lacks the permission or whose request asks for
      more than it may grant; then nothing changes. An API key and the admin token never get it. */
  lemma GateExact(prefix: string, db: Tables, job: Job, info: AuthInfo)
    requires Gated(job.req) && job.e.faults == {} && Caller(prefix, db, job, info)
    ensures info.PatAuth? ==> info.tokenId in db.pats
    ensures var o := Serve(prefix, db, job);
            && (o.status == 403 ==> o == Outcome(db, 403, ""))
            && (o.status == 403 <==> && info.PatAuth?
                                     && (!LetsThrough(db.pats[info.tokenId].perms, job.req) || AsksTooMuch(db, info, job)))
  {
    hide Serve, ValidateCredential, Known, TokenRevoked, KeyRevoked, Creation, PermsWritten, ListAfter, Renamed;
    CallerRows(prefix, db, job, info);
    match job.req
    case UpdateProfile(_) => UpdateProfileAnswer(prefix, db, job, info);
    case RevokeOwnKey(_) => RevokeKeyAnswer(prefix, db, job, info);
    case CreatePat(_, perms, _) =>
      CreatePatAnswer(prefix, db, job, info);
      CreationIsNoRefusal(prefix, db, info, job.req, job.e);
    case RevokeOwnPat(_) => RevokePatAnswer(prefix, db, job, info);
    case _ => EditPermsAnswer(prefix, db, job, info);
  }

  lemma CreationIsNoRefusal(prefix: string, db: Tables, info: AuthInfo, r: Request, e: Transactions.Env)
    requires r.CreatePat?
    ensures Offered(Lifetime(r.expires)) ==> Creation(prefix, db, info, r, e).status != 403
  {
  }

  /** From the start a token can be given what lets any of these requests through. */
  lemma BuiltinsLetThrough(registry: set<string>, req: Request) returns (p: string)
    requires BUILTINS <= registry && Gated(req)
    ensures Known([p], false, registry) && LetsThrough([p], req)
  {
    hide OneColon;
    p := if req.UpdateProfile? then "users:read" else if req.RevokeOwnKey? then "keys:manage" else "tokens:manage";
    Pair("users", "read", "users:read");
    Pair("keys", "manage", "keys:manage");
    Pair("tokens", "manage", "tokens:manage");
    assert p in BUILTINS;
  }

  lemma Pair(resource: string, action: string, p: string)
    requires p == resource + ":" + action && ':' !in resource && ':' !in action
    ensures OneColon(p)
  {
  }

  /** What is registered, at the start or by any event of a run, stays registered. */
  lemma {:induction false} RegisteredForGood(prefix: string, s: System, evs: seq<Event>, p: string)
    requires p in s.registry || exists i, resource: string, action: string ::
               0 <= i < |evs| && evs[i] == Register(resource, action) && p == resource + ":" + action
               && Identifier(resource) && Identifier(action)
    ensures p in Run(prefix, s, evs).registry
    decreases |evs|
  {
    hide Step, Identifier, ValidIdentifier, ApplyAll;
    if evs != [] {
      if evs[0].Register? { RegisteredExactly(s.registry, evs[0].resource, evs[0].action); }
      RegisteredForGood(prefix, Occur(prefix, s, evs[0]), evs[1..], p);
    }
  }
}
