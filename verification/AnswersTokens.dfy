/**
 What each request on personal access tokens is answered, and what it leaves, when no
 statement fails: exactly, for every caller and every state.
 */
module AnswersTokens {
  import opened Wrappers
  import opened AnswersUsers
  import opened Auth
  import opened Permissions
  import opened Requests
  import opened Runs
  import opened Sampling
  import opened Schema
  import opened Serving
  import opened Terms
  import opened Transactions

  /** The token is the caller's. */
  predicate Own(db: Tables, info: AuthInfo, k: string) { k in db.pats && db.pats[k].user == CallerId(info) }

  // ---- Revocation of one's own ----

  /** 403 exactly for a token without the permission; otherwise a live token of one's own is revoked as of the
      current second, a revoked one is answered 400, and what is not one's own is not found. */
  lemma RevokePatAnswer(prefix: string, db: Tables, job: Job, info: AuthInfo)
    requires job.req.RevokeOwnPat? && job.e.faults == {} && Caller(prefix, db, job, info)
    ensures var k := job.req.tokenId;
            Serve(prefix, db, job)
            == if Lacks(db, info, "tokens:manage") then Outcome(db, 403, "")
               else if !Own(db, info, k) then Outcome(db, 404, "")
               else if db.pats[k].revokedAt.Some? then Outcome(db, 400, "")
               else Outcome(TokenRevoked(db, k, job.e.now), 200, "")
  {
    hide Step, Finish, ValidateCredential, HasPermission, Lacks, UserOf, CallerId;
    Admitted(prefix, db, job, info);
    CallerRows(prefix, db, job, info);
    RevocationTried(prefix, job.registry, db, info, job.req, job.e);
    RevocationMissed(prefix, job.registry, db, info, job.req, job.e);
  }

  /** The conditional update, and the row read back for the answer. */
  lemma RevocationTried(prefix: string, registry: set<string>, db: Tables, info: AuthInfo, r: Request, e: Env)
    requires r.RevokeOwnPat? && e.faults == {} && UserOf(info) == CallerId(info)
    ensures var k := r.tokenId;
            Finish(prefix, registry, db, At(info, r, Enter), e)
            == if !HasPermission(info, "tokens:manage") then Outcome(db, 403, "")
               else if Own(db, info, k) && db.pats[k].revokedAt == None then Outcome(TokenRevoked(db, k, e.now), 200, "")
               else Finish(prefix, registry, db, At(info, r, Missed), e)
  {
    hide Step, Finish, StepAccounts, StepKeys, StepOrgs, EnterAdmin, StepCreatePat, StepPerms, HasPermission, UserOf,
      CallerId, Truncated, Second, Apply;
    Goes(prefix, registry, db, info, r, Enter, e);
    if Own(db, info, r.tokenId) {
      RevokedRow(db, r.tokenId, UserOf(info), e.now);
      RevocationRead(prefix, registry, TokenRevoked(db, r.tokenId, e.now), info, r, e);
    }
  }

  lemma RevokedRow(db: Tables, k: string, id: string, now: nat)
    requires PatOf(db.pats, k, id)
    ensures Apply(db, RevokePat(k, id, Truncated(now))) == TokenRevoked(db, k, now)
  {
    SecondIsTruncated(now);
  }

  lemma RevocationMissed(prefix: string, registry: set<string>, db: Tables, info: AuthInfo, r: Request, e: Env)
    requires r.RevokeOwnPat? && e.faults == {}
    ensures Finish(prefix, registry, db, At(info, r, Missed), e)
            == Outcome(db, if PatOf(db.pats, r.tokenId, UserOf(info)) then 400 else 404, "")
  {
    hide Step, Finish, StepAccounts, StepKeys, StepOrgs, EnterAdmin, StepCreatePat, StepPerms, UserOf;
    Goes(prefix, registry, db, info, r, Missed, e);
  }

  lemma RevocationRead(prefix: string, registry: set<string>, db: Tables, info: AuthInfo, r: Request, e: Env)
    requires r.RevokeOwnPat? && e.faults == {} && PatOf(db.pats, r.tokenId, UserOf(info))
    ensures Finish(prefix, registry, db, At(info, r, Refetching(r.tokenId)), e) == Outcome(db, 200, "")
  {
    hide Step, Finish, StepAccounts, StepKeys, StepOrgs, EnterAdmin, StepCreatePat, StepPerms, UserOf;
    Goes(prefix, registry, db, info, r, Refetching(r.tokenId), e);
  }

  // ---- Creation ----

  /** Entries of the form resource:action, all registered unless that does not matter. */
  ghost predicate Known(list: seq<string>, ignoreUnknown: bool, registry: set<string>) {
    forall i :: 0 <= i < |list| ==> OneColon(list[i]) && (ignoreUnknown || list[i] in registry)
  }

  lemma AcceptableIsKnown(list: seq<string>, ignoreUnknown: bool, registry: set<string>)
    ensures Acceptable(list, ignoreUnknown, registry) <==> Known(list, ignoreUnknown, registry)
  {
    hide WellFormed, OneColon;
    forall i | 0 <= i < |list| ensures WellFormed(list[i]) <==> OneColon(list[i]) { OneColonMeaning(list[i]); }
    assert forall p :: p in list ==> exists i :: 0 <= i < |list| && list[i] == p;
  }

  /** A token grants no more than its own row holds or the edited token has; other credentials anything. */
  predicate Grantable(db: Tables, info: AuthInfo, existing: seq<string>, asked: seq<string>) {
    info.PatAuth? && info.tokenId in db.pats ==>
      forall i :: 0 <= i < |asked| ==> asked[i] in existing || asked[i] in db.pats[info.tokenId].perms
  }

  lemma GrantingIsGrantable(db: Tables, info: AuthInfo, existing: seq<string>, asked: seq<string>)
    requires info.PatAuth? ==> info.tokenId in db.pats && db.pats[info.tokenId].perms == info.perms
    ensures Granting(info, existing, asked) <==> Grantable(db, info, existing, asked)
  {
    assert forall p :: p in asked ==> exists i :: 0 <= i < |asked| && asked[i] == p;
  }

  ghost predicate ValidCreation(r: Request, registry: set<string>)
    requires r.CreatePat?
  {
    0 < |r.name| <= 255 && r.perms != [] && Known(r.perms, false, registry) && Offered(Lifetime(r.expires))
  }

  function NewToken(info: AuthInfo, r: Request, secret: string, now: nat): Pat
    requires r.CreatePat? && Offered(Lifetime(r.expires))
  {
    var days := Lifetime(r.expires);
    Pat(CallerId(info), r.name, Sha256(secret), r.perms, days, Expiry(now, days), None, Second(now))
  }

  /** The first of so many ids, this one and then drawn ones, that no token has. */
  function FirstUnused(pats: map<string, Pat>, id: string, rest: seq<byte>, tries: nat): Option<string>
    decreases tries
  {
    if tries == 0 then None
    else if id !in pats then Some(id)
    else
      var next := TokenText(8, rest);
      if next.text == None then None else FirstUnused(pats, next.text.value, next.rest, tries - 1)
  }

  /** Eight letters for the id, thirty-two for the secret, and more ids if the first are in use. */
  function Creation(prefix: string, db: Tables, info: AuthInfo, r: Request, e: Env): Outcome
    requires r.CreatePat? && Offered(Lifetime(r.expires))
  {
    var id := TokenText(8, e.bytes);
    var secret := TokenText(32, id.rest);
    if id.text == None || secret.text == None || CallerId(info) !in db.users then Outcome(db, 500, "")
    else
      match FirstUnused(db.pats, id.text.value, secret.rest, 3)
      case None => Outcome(db, 500, "")
      case Some(k) => Outcome(db.(pats := db.pats[k := NewToken(info, r, secret.text.value, e.now)]), 201,
                              prefix + "_pat_" + k + "_" + secret.text.value)
  }

  lemma {:induction false} Insertion(prefix: string, registry: set<string>, db: Tables, info: AuthInfo, r: Request,
                                     id: string, pat: Pat, secret: string, rest: seq<byte>, attempt: nat, e: Env)
    requires r.CreatePat? && e.faults == {} && attempt < 3
    ensures Finish(prefix, registry, db, At(info, r, Inserting(id, pat, secret, rest, attempt)), e)
            == if pat.user !in db.users then Outcome(db, 500, "")
               else match FirstUnused(db.pats, id, rest, 3 - attempt)
                    case None => Outcome(db, 500, "")
                    case Some(k) => Outcome(db.(pats := db.pats[k := pat]), 201, prefix + "_pat_" + k + "_" + secret)
    decreases 3 - attempt
  {
    hide Step, Finish, StepAccounts, StepKeys, StepOrgs, EnterAdmin, StepRevokePat, StepPerms, TOKEN_ALPHABET, TokenText,
      Sample, Check, Apply;
    TokenTextIs(8, rest);
    InsertVerdict(db, id, pat, e.usernameFirst);
    Goes(prefix, registry, db, info, r, Inserting(id, pat, secret, rest, attempt), e);
    var next := TokenText(8, rest);
    if attempt < 2 && next.text.Some? && (id in db.pats || pat.user !in db.users) {
      Insertion(prefix, registry, db, info, r, next.text.value, pat, secret, next.rest, attempt + 1, e);
    }
  }

  lemma InsertVerdict(db: Tables, id: string, pat: Pat, usernameFirst: bool)
    ensures Check(db, NewPat(id, pat), usernameFirst) == Accepted <==> id !in db.pats && pat.user in db.users
    ensures Apply(db, NewPat(id, pat)) == db.(pats := db.pats[id := pat])
  {
  }

  lemma CreatePatAnswer(prefix: string, db: Tables, job: Job, info: AuthInfo)
    requires job.req.CreatePat? && job.e.faults == {} && Caller(prefix, db, job, info)
    ensures var r := job.req;
            Serve(prefix, db, job)
            == if Lacks(db, info, "tokens:manage") then Outcome(db, 403, "")
               else if !ValidCreation(r, job.registry) then Outcome(db, 400, "")
               else if !Grantable(db, info, [], r.perms) then Outcome(db, 403, "")
               else Creation(prefix, db, info, r, job.e)
  {
    hide Step, Finish, StepAccounts, StepKeys, StepOrgs, EnterAdmin, StepRevokePat, StepPerms, ValidateCredential,
      HasPermission, Lacks, Acceptable, Known, Granting, Grantable, TOKEN_ALPHABET, TokenText, Sample, ExpiryOf,
      Expiry, Second, Truncated, FirstUnused, Check, Apply, UserOf, CallerId;
    var r, e := job.req, job.e;
    Admitted(prefix, db, job, info);
    CallerRows(prefix, db, job, info);
    AcceptableIsKnown(r.perms, false, job.registry);
    GrantingIsGrantable(db, info, [], r.perms);
    Goes(prefix, job.registry, db, info, r, Enter, e);
    if ValidCreation(r, job.registry) {
      SecondIsTruncated(e.now);
      ExpiryIs(e.now, Lifetime(r.expires));
      var id := TokenText(8, e.bytes);
      TokenTextIs(8, e.bytes);
      TokenTextIs(32, id.rest);
      var secret := TokenText(32, id.rest);
      if id.text.Some? && secret.text.Some? {
        Insertion(prefix, job.registry, db, info, r, id.text.value, NewToken(info, r, secret.text.value, e.now),
                  secret.text.value, secret.rest, 0, e);
      }
    }
  }

  // ---- Editing ----

  /** The list an accepted edit leaves: the new one, the old one with what it lacked appended, or the old one
      without the listed permissions. */
  function ListAfter(r: Request, list: seq<string>): seq<string>
    requires EditsPerms(r) && r.newPerms.Some?
  {
    match r
    case ReplacePerms(_, asked) => asked.value
    case AddPerms(_, asked) => list + Newcomers(list, asked.value, |asked.value|)
    case RemovePerms(_, asked) => Remaining(list, asked.value)
  }

  function PermsWritten(db: Tables, k: string, list: seq<string>, now: nat): Tables
    requires k in db.pats
  {
    db.(pats := db.pats[k := db.pats[k].(perms := list,
                                         revokedAt := if list == [] then Some(Second(now)) else db.pats[k].revokedAt)])
  }

  /** Neither tokens:write nor tokens:manage. */
  predicate MayNotEdit(db: Tables, info: AuthInfo) { Lacks(db, info, "tokens:write") && Lacks(db, info, "tokens:manage") }

  /** A token of the caller's that is neither revoked nor at or past its expiry instant. */
  predicate Editable(db: Tables, k: string, now: nat)
    requires k in db.pats
  {
    db.pats[k].revokedAt == None && (db.pats[k].expiresAt.Some? ==> now < db.pats[k].expiresAt.value)
  }

  ghost function EditAnswer(db: Tables, info: AuthInfo, r: Request, registry: set<string>, now: nat): Outcome
    requires EditsPerms(r)
  {
    var k := r.tokenId;
    if MayNotEdit(db, info) then Outcome(db, 403, "")
    else if r.newPerms == None || (!r.ReplacePerms? && r.newPerms.value == []) then Outcome(db, 400, "")
    else if !Own(db, info, k) then Outcome(db, 404, "")
    else if !Editable(db, k, now) then Outcome(db, 400, "")
    else if !Known(r.newPerms.value, r.RemovePerms?, registry) then Outcome(db, 400, "")
    else if !r.RemovePerms? && !Grantable(db, info, db.pats[k].perms, r.newPerms.value) then Outcome(db, 403, "")
    else Outcome(PermsWritten(db, k, ListAfter(r, db.pats[k].perms), now), 200, "")
  }

  /** The last statement, whatever has become of the row since it was read: the list is made of the one read then, and
      nobody looks at a revocation. */
  lemma EditWritten(prefix: string, registry: set<string>, db: Tables, info: AuthInfo, r: Request, pat: Pat, e: Env)
    requires EditsPerms(r) && e.faults == {} && r.newPerms.Some? && UserOf(info) == CallerId(info)
    ensures var list := r.newPerms.value;
            Finish(prefix, registry, db, At(info, r, PatRead(pat)), e)
            == if !Acceptable(list, r.RemovePerms?, registry) then Outcome(db, 400, "")
               else if !r.RemovePerms? && !Granting(info, pat.perms, list) then Outcome(db, 403, "")
               else if !Own(db, info, r.tokenId) then Outcome(db, 200, "")
               else Outcome(PermsWritten(db, r.tokenId, ListAfter(r, pat.perms), e.now), 200, "")
  {
    hide Step, Finish, StepAccounts, StepKeys, StepOrgs, EnterAdmin, StepRevokePat, StepCreatePat, Acceptable, Granting,
      Merge, Remaining, Newcomers, LookupPat, UserOf, CallerId;
    SecondIsTruncated(e.now);
    MergeIsNewcomers(pat.perms, r.newPerms.value);
    Goes(prefix, registry, db, info, r, PatRead(pat), e);
  }

  lemma EditLooksUp(prefix: string, registry: set<string>, db: Tables, info: AuthInfo, r: Request, e: Env)
    requires EditsPerms(r) && e.faults == {} && UserOf(info) == CallerId(info)
    ensures var k := r.tokenId; var o := Finish(prefix, registry, db, At(info, r, Enter), e);
            if !HasPermission(info, "tokens:write") && !HasPermission(info, "tokens:manage") then o == Outcome(db, 403, "")
            else if r.newPerms == None || (!r.ReplacePerms? && r.newPerms.value == []) then o == Outcome(db, 400, "")
            else if !Own(db, info, k) then o == Outcome(db, 404, "")
            else if !Editable(db, k, e.now) then o == Outcome(db, 400, "")
            else o == Finish(prefix, registry, db, At(info, r, PatRead(db.pats[k])), e)
  {
    hide Step, Finish, StepAccounts, StepKeys, StepOrgs, EnterAdmin, StepRevokePat, StepCreatePat, HasPermission,
      UserOf, CallerId, Acceptable, Granting, Merge, Remaining, WritePerms;
    Goes(prefix, registry, db, info, r, Enter, e);
  }

  lemma EditPermsAnswer(prefix: string, db: Tables, job: Job, info: AuthInfo)
    requires EditsPerms(job.req) && job.e.faults == {} && Caller(prefix, db, job, info)
    ensures Serve(prefix, db, job) == EditAnswer(db, info, job.req, job.registry, job.e.now)
  {
    hide Step, Finish, StepAccounts, StepKeys, StepOrgs, EnterAdmin, StepRevokePat, StepCreatePat, ValidateCredential,
      HasPermission, Lacks, Acceptable, Known, Granting, Grantable, Merge, Remaining, Newcomers, PermsWritten, ListAfter,
      WritePerms;
    var r, e := job.req, job.e;
    Admitted(prefix, db, job, info);
    CallerRows(prefix, db, job, info);
    EditLooksUp(prefix, job.registry, db, info, r, e);
    if r.newPerms.Some? && Own(db, info, r.tokenId) && Editable(db, r.tokenId, e.now) {
      AcceptableIsKnown(r.newPerms.value, r.RemovePerms?, job.registry);
      GrantingIsGrantable(db, info, db.pats[r.tokenId].perms, r.newPerms.value);
      EditWritten(prefix, job.registry, db, info, r, db.pats[r.tokenId], e);
    }
  }
}
