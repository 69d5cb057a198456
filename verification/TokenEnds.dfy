/**
 Revoking a personal access token, with statements failing or not, and for good: after
 the answer its string authenticates in no reachable state, however statements interleave.
 */
module TokenEnds {
  import opened Wrappers
  import opened AnswersTokens
  import opened AnswersUsers
  import opened Auth
  import opened Faults
  import opened Permissions
  import opened Requests
  import opened Runs
  import opened Sampling
  import opened Schema
  import Serving
  import opened Shapes
  import opened Terms
  import opened TokenEffects
  import opened Tokens
  import opened Transactions

  // ---- The answer, whatever fails ----

  /** The bearer string authenticates, permits revoking, and the token is a live one of the caller's. */
  ghost predicate Revocable(prefix: string, db: Tables, job: Job)
    requires job.req.RevokeOwnPat?
  {
    exists info :: && Caller(prefix, db, job, info) && !Lacks(db, info, "tokens:manage")
                   && Own(db, info, job.req.tokenId) && db.pats[job.req.tokenId].revokedAt == None
  }

  /** 200 only for exactly the revocation, 500 for that or nothing, any other status for nothing; and 200 whenever
      no statement fails. */
  lemma RevokePatServed(prefix: string, db: Tables, job: Job)
    requires job.req.RevokeOwnPat?
    ensures var o := Serve(prefix, db, job); var k := job.req.tokenId;
            && (o.status == 200 ==> Revocable(prefix, db, job) && o.db == TokenRevoked(db, k, job.e.now))
            && (o.status == 500 && o.db != db ==> Revocable(prefix, db, job) && o.db == TokenRevoked(db, k, job.e.now))
            && (o.status != 200 && o.status != 500 ==> o.db == db)
            && (Revocable(prefix, db, job) && job.e.faults == {} ==> o.status == 200)
            && o.credential == ""
  {
    hide Serve, ValidateCredential, Lacks, TokenRevoked;
    var calm := job.(e := job.e.(faults := {}));
    FaultsOnlyFail(prefix, db, job);
    var v := ValidateCredential(prefix, db, job.e.now, job.token);
    if v.Authenticated? {
      assert Caller(prefix, db, calm, v.info) && Caller(prefix, db, job, v.info);
      RevokePatAnswer(prefix, db, calm, v.info);
    } else {
      Unauthenticated(prefix, db, calm);
    }
    if job.e.faults == {} { assert calm == job; }
  }

  /** An administrator's request that names this user and a token of theirs. */
  ghost predicate Condemns(prefix: string, db: Tables, job: Job)
    requires job.req.RevokeUserToken?
  {
    && job.req.tokenId in db.pats && Names(db, job.req.sel, db.pats[job.req.tokenId].user)
    && exists info :: Caller(prefix, db, job, info) && Administers(db, info)
  }

  /** The same law for an administrator's revocation: after 204 the token of the named user is revoked, as of now if
      it was live. */
  lemma RevokeUserTokenServed(prefix: string, db: Tables, job: Job)
    requires job.req.RevokeUserToken? && UniqueUsers(db.users)
    ensures var o := Serve(prefix, db, job); var k := job.req.tokenId;
            && (o.status == 204 ==> && Condemns(prefix, db, job)
                                    && o.db == if db.pats[k].revokedAt == None then TokenRevoked(db, k, job.e.now) else db)
            && (o.db != db ==> && Condemns(prefix, db, job) && (o.status == 204 || o.status == 500)
                               && db.pats[k].revokedAt == None && o.db == TokenRevoked(db, k, job.e.now))
            && (Condemns(prefix, db, job) && job.e.faults == {} ==> o.status == 204)
            && o.credential == ""
  {
    hide Serve, ValidateCredential, TokenRevoked, Names, UniqueUsers, Administers;
    var calm := job.(e := job.e.(faults := {}));
    FaultsOnlyFail(prefix, db, job);
    var v := ValidateCredential(prefix, db, job.e.now, job.token);
    if v.Authenticated? {
      assert Caller(prefix, db, calm, v.info) && Caller(prefix, db, job, v.info);
      CondemnedAnswer(prefix, db, calm, v.info);
    } else {
      Unauthenticated(prefix, db, calm);
    }
    if job.e.faults == {} { assert calm == job; }
  }

  lemma CondemnedAnswer(prefix: string, db: Tables, job: Job, info: AuthInfo)
    requires job.req.RevokeUserToken? && job.e.faults == {} && UniqueUsers(db.users) && Caller(prefix, db, job, info)
    ensures var o := Serve(prefix, db, job); var k := job.req.tokenId;
            if Administers(db, info) && k in db.pats && Names(db, job.req.sel, db.pats[k].user) then
              o == Outcome(if db.pats[k].revokedAt == None then TokenRevoked(db, k, job.e.now) else db, 204, "")
            else o.db == db && (o.status == 403 || o.status == 404) && o.credential == ""
  {
    hide Serve, ValidateCredential, TokenRevoked, UniqueUsers, Administers, Names;
    if !Administers(db, info) {
      AdminsOnly(prefix, db, job, info);
    } else if forall id :: !Names(db, job.req.sel, id) {
      NobodyThere(prefix, db, job, info);
    } else {
      var id :| Names(db, job.req.sel, id);
      RevokeUserTokenAnswer(prefix, db, job, info, id);
      NamesOne(db, job.req.sel, id);
    }
  }

  lemma NamesOne(db: Tables, sel: string, id: string)
    requires UniqueUsers(db.users) && Names(db, sel, id)
    ensures forall other :: Names(db, sel, other) ==> other == id
  {
    hide IsUuid;
  }

  // ---- For good ----

  /** No live row answers to the string. */
  predicate Dead(pats: map<string, Pat>, id: string, secret: string) {
    id in pats && pats[id].hash == Sha256(secret) ==> pats[id].revokedAt.Some?
  }

  /** A creation in flight will spell out the secret it inserts. */
  predicate Spells(t: Thread) { t.At? && t.pc.Inserting? ==> t.pc.pat.hash == Sha256(t.pc.secret) }

  ghost predicate KeepsDead(w: Write, id: string, secret: string) {
    && (w.NewPat? ==> w.tokenId != id || w.pat.hash != Sha256(secret))
    && (w.RunHook? ==> LeavesPats(w.hook))
  }

  lemma DeadKept(db: Tables, w: Write, id: string, secret: string)
    requires Dead(db.pats, id, secret) && KeepsDead(w, id, secret)
    ensures Dead(Apply(db, w).pats, id, secret)
  {
    hide KeysNotOf, MembershipsNotOf, MembershipsOutside, Unowned, RevokedAll;
  }

  lemma {:induction false} AllKeepDead(db: Tables, ws: seq<Write>, id: string, secret: string)
    requires Dead(db.pats, id, secret) && forall i :: 0 <= i < |ws| ==> KeepsDead(ws[i], id, secret)
    ensures Dead(ApplyAll(db, ws).pats, id, secret)
    decreases |ws|
  {
    hide Apply, Dead, KeepsDead;
    if ws != [] {
      DeadKept(db, ws[0], id, secret);
      AllKeepDead(Apply(db, ws[0]), ws[1..], id, secret);
    }
  }

  /** A statement of a creation inserts what it spells out in the same breath. */
  lemma CreationSpells(prefix: string, registry: set<string>, db: Tables, t: Thread, e: Env)
    requires !t.Done? && t.req.CreatePat? && Spells(t)
    ensures var n := Step(prefix, registry, db, t, e);
            && Spells(n.thread)
            && (n.writes != [] ==>
                  && t.At? && t.pc.Inserting? && n.writes == [NewPat(t.pc.tokenId, t.pc.pat)]
                  && n.thread == Done(201, FormatPat(prefix, t.pc.tokenId, t.pc.secret)))
  {
    hide StepAccounts, StepOrgs, StepKeys, EnterAdmin, StepPerms, StepRevokePat, CheckCredential, CheckOwner, Sample,
      ExpiryOf, Acceptable, MayGrant, FormatPat, Check;
  }

  lemma OthersSpell(prefix: string, registry: set<string>, db: Tables, t: Thread, e: Env)
    requires !t.Done? && !t.req.CreatePat?
    ensures Spells(Step(prefix, registry, db, t, e).thread)
  {
    hide StepHandler, CheckCredential, CheckOwner;
    if t.At? && Stage(t.req, t.pc) { HandlerShape(prefix, registry, db, t.info, t.req, t.pc, e); }
  }

  /** A statement that does not hand the string out leaves it dead. */
  lemma StepKeepsDead(prefix: string, registry: set<string>, db: Tables, t: Thread, e: Env, id: string, secret: string)
    requires Dead(db.pats, id, secret) && Spells(t) && LeavesPats(e.hook)
    requires var n := Step(prefix, registry, db, t, e);
             !t.Done? && n.thread.Done? ==> n.thread.credential != FormatPat(prefix, id, secret)
    ensures var n := Step(prefix, registry, db, t, e);
            Dead(ApplyAll(db, n.writes).pats, id, secret) && Spells(n.thread)
  {
    hide Step, Dead, LeavesPats, FormatPat;
    var n := Step(prefix, registry, db, t, e);
    if t.Done? {
      assert n == Next([], t) by { Serving.DoneStays(prefix, registry, db, t, e); }
    } else {
      StepShape(prefix, registry, db, t, e);
      StepHooks(prefix, registry, db, t, e);
      if t.req.CreatePat? { CreationSpells(prefix, registry, db, t, e); } else { OthersSpell(prefix, registry, db, t, e); }
      forall i | 0 <= i < |n.writes| ensures KeepsDead(n.writes[i], id, secret) { assert Fits(t.req, n.writes[i]); }
    }
    AllKeepDead(db, n.writes, id, secret);
  }

  /** The random source does not repeat itself: no creation in the run hands the same string out again. */
  ghost predicate NeverHandedOut(prefix: string, s: System, evs: seq<Event>, text: string)
    decreases |evs|
  {
    evs != [] ==>
      var next := Occur(prefix, s, evs[0]);
      && (evs[0].Advance? && evs[0].tid in s.threads && !s.threads[evs[0].tid].Done? ==>
            var t := next.threads[evs[0].tid]; t.Done? ==> t.credential != text)
      && NeverHandedOut(prefix, next, evs[1..], text)
  }

  lemma {:induction false} StaysDead(prefix: string, s: System, evs: seq<Event>, id: string, secret: string)
    requires Dead(s.db.pats, id, secret) && forall tid :: tid in s.threads ==> Spells(s.threads[tid])
    requires forall i :: 0 <= i < |evs| && evs[i].Advance? ==> LeavesPats(evs[i].e.hook)
    requires NeverHandedOut(prefix, s, evs, FormatPat(prefix, id, secret))
    ensures Dead(Run(prefix, s, evs).db.pats, id, secret)
    decreases |evs|
  {
    hide Step, Dead, LeavesPats, Registered, FormatPat;
    if evs != [] {
      var ev := evs[0];
      if ev.Advance? && ev.tid in s.threads {
        StepKeepsDead(prefix, s.registry, s.db, s.threads[ev.tid], ev.e, id, secret);
      }
      StaysDead(prefix, Occur(prefix, s, ev), evs[1..], id, secret);
    }
  }

  /** Once a revocation is answered with success, its token's string never authenticates again, whatever else is in
      flight at that moment and however it all interleaves afterwards, unless it is drawn and handed out anew. */
  lemma RevokedForGood(prefix: string, db: Tables, job: Job, s: System, evs: seq<Event>, secret: string, now: nat)
    requires (job.req.RevokeOwnPat? && Serve(prefix, db, job).status == 200)
             || (job.req.RevokeUserToken? && UniqueUsers(db.users) && Serve(prefix, db, job).status == 204)
    requires s.db == Serve(prefix, db, job).db && forall tid :: tid in s.threads ==> Spells(s.threads[tid])
    requires forall i :: 0 <= i < |evs| && evs[i].Advance? ==> LeavesPats(evs[i].e.hook)
    requires job.req.tokenId != "" && '_' !in job.req.tokenId && secret != "" && !("Bearer " <= prefix)
    requires NeverHandedOut(prefix, s, evs, FormatPat(prefix, job.req.tokenId, secret))
    ensures var text := FormatPat(prefix, job.req.tokenId, secret);
            !ValidateCredential(prefix, Run(prefix, s, evs).db, now, text).Authenticated?
  {
    hide Serve, Run, NeverHandedOut, LeavesPats, ValidateCredential, FormatPat, Revocable, Condemns, UniqueUsers;
    var id := job.req.tokenId;
    if job.req.RevokeOwnPat? { RevokePatServed(prefix, db, job); } else { RevokeUserTokenServed(prefix, db, job); }
    StaysDead(prefix, s, evs, id, secret);
    PrintedPatIsBare(prefix, id, secret);
    PatAuthenticates(prefix, Run(prefix, s, evs).db, now, id, secret);
  }
}
