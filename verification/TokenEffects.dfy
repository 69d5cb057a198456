/**
 Personal access tokens end to end: what creating one stores and what its string is good
 for, and what an edit leaves on the token.
 */
module TokenEffects {
  import opened Wrappers
  import opened Auth
  import opened KeyLife
  import opened Permissions
  import opened Requests
  import opened Runs
  import opened Sampling
  import opened Schema
  import opened Serving
  import opened Shapes
  import opened Tokens
  import opened Transactions

  // ---- Creation ----

  /** The row a creation request asks for. */
  predicate DraftOf(req: Request, secret: string, p: Pat, now: nat)
    requires req.CreatePat?
  {
    && p.name == req.name && p.perms == req.perms && p.hash == Sha256(secret) && p.revokedAt == None
    && p.days == DaysOf(req.expires) && ExpiresAfter(p.expiresAt, now, p.days) && p.createdAt == Truncated(now)
  }

  /** The token about to be inserted is the one the answer will spell out, and the caller may grant it. */
  predicate Drafted(t: Thread, now: nat) {
    t.At? && t.req.CreatePat? && t.pc.Inserting? ==>
      && Generated(t.pc.tokenId, t.pc.secret) && t.pc.pat.user == UserOf(t.info)
      && DraftOf(t.req, t.pc.secret, t.pc.pat, now) && Granting(t.info, [], t.req.perms)
  }

  lemma DrawnToken(stream: seq<byte>)
    ensures var id := Sample(Letters(TOKEN_ALPHABET), ID_LENGTH, stream);
            var secret := Sample(Letters(TOKEN_ALPHABET), SECRET_LENGTH, id.rest);
            && (id.text.Some? ==> GeneratedId(id.text.value))
            && (id.text.Some? && secret.text.Some? ==> Generated(id.text.value, secret.text.value))
  {
    AlphabetsHaveNoUnderscore();
    SampleDrawsFrom(TOKEN_ALPHABET, ID_LENGTH, stream);
    SampleDrawsFrom(TOKEN_ALPHABET, SECRET_LENGTH, Sample(Letters(TOKEN_ALPHABET), ID_LENGTH, stream).rest);
  }

  /** One statement of a creation: it inserts the draft and spells it out, or hands nothing out. */
  ghost predicate Creates(prefix: string, db: Tables, t: Thread, n: Next, now: nat) {
    if n.writes == [] then Drafted(n.thread, now) && (n.thread.Done? ==> n.thread.credential == "")
    else
      && t.At? && t.pc.Inserting? && Drafted(t, now) && t.req.CreatePat?
      && n.writes == [NewPat(t.pc.tokenId, t.pc.pat)] && t.pc.tokenId !in db.pats && t.pc.pat.user in db.users
      && n.thread == Done(201, FormatPat(prefix, t.pc.tokenId, t.pc.secret))
  }

  lemma CreateStep(prefix: string, registry: set<string>, db: Tables, t: Thread, e: Env)
    requires !t.Done? && t.req.CreatePat? && Drafted(t, e.now)
    ensures Creates(prefix, db, t, Step(prefix, registry, db, t, e), e.now)
  {
    hide StepAccounts, StepOrgs, StepKeys, EnterAdmin, StepPerms, StepRevokePat, CheckCredential, CheckOwner, Sample,
      ExpiryOf, ExpiresAfter, Acceptable, MayGrant, Generated, GeneratedId, FormatPat;
    if t.At? {
      if t.pc.Inserting? { DrawnToken(t.pc.rest); SameSecret(t.pc); } else { DrawnToken(e.bytes); }
      if ValidDays(DaysOf(t.req.expires)) { ExpiryRounds(e.now, DaysOf(t.req.expires)); }
    }
  }

  lemma SameSecret(pc: Pc)
    requires pc.Inserting? && Generated(pc.tokenId, pc.secret)
    ensures forall id :: GeneratedId(id) ==> Generated(id, pc.secret)
  {
  }

  lemma {:induction false} WriterCreates(prefix: string, registry: set<string>, db: Tables, t: Thread, e: Env)
    requires !t.Done? && t.req.CreatePat? && Drafted(t, e.now)
    ensures var w := Writer(prefix, registry, db, t, e);
            if w.Done? then w.credential == ""
            else Creates(prefix, db, w, Step(prefix, registry, db, w, e), e.now) && w.req == t.req
    decreases Rank(t)
  {
    hide Step, Drafted;
    CreateStep(prefix, registry, db, t, e);
    StepShape(prefix, registry, db, t, e);
    var n := Step(prefix, registry, db, t, e);
    if n.writes == [] && !n.thread.Done? { WriterCreates(prefix, registry, db, n.thread, e); }
  }

  lemma PrintedPatIsBare(prefix: string, id: string, secret: string)
    requires !("Bearer " <= prefix)
    ensures TrimBearer(FormatPat(prefix, id, secret)) == FormatPat(prefix, id, secret)
  {
    var s := FormatPat(prefix, id, secret);
    assert s[|prefix|] == '_' && '_' !in "Bearer ";
    assert |prefix| >= 7 ==> s[..7] == prefix[..7];
  }

  /** A handed-out token: one new row with exactly the permissions asked for, granted within the caller's
      own if the caller is a token, and a string that authenticates with them while the row is unexpired
      and its owner active. */
  lemma CreatedTokenWorks(prefix: string, db: Tables, job: Job, now: nat) returns (id: string, secret: string, pat: Pat)
    requires job.req.CreatePat? && !("Bearer " <= prefix) && Serve(prefix, db, job).credential != ""
    ensures var o := Serve(prefix, db, job);
            && o.status == 201 && o.credential == FormatPat(prefix, id, secret) && Generated(id, secret)
            && id !in db.pats && o.db == db.(pats := db.pats[id := pat])
            && DraftOf(job.req, secret, pat, job.e.now) && pat.user in db.users
    ensures var o := Serve(prefix, db, job); var v := ValidateCredential(prefix, o.db, now, o.credential);
            && (v.Authenticated? <==> && (pat.expiresAt.Some? ==> now <= pat.expiresAt.value)
                                      && db.users[pat.user].status == Active)
            && (v.Authenticated? ==> v.info == PatAuth(pat.user, db.users[pat.user].role, id, job.req.perms))
  {
    hide Step, Finish, Writer, Fresh, FormatPat, TrimBearer, ValidateCredential, ExpiresAfter;
    var t := Launched(job.token, job.req);
    LaunchedFresh(db, job.token, job.req);
    FinishIsOneStep(prefix, job.registry, db, t, job.e);
    WriterCreates(prefix, job.registry, db, t, job.e);
    var w := Writer(prefix, job.registry, db, t, job.e);
    id, secret, pat := w.pc.tokenId, w.pc.secret, w.pc.pat;
    ApplyOne(db, NewPat(id, pat));
    PrintedPatIsBare(prefix, id, secret);
    PatAuthenticates(prefix, Serve(prefix, db, job).db, now, id, secret);
  }

  // ---- Editing ----

  /** The list an accepted edit leaves. */
  function Edited(req: Request, existing: seq<string>): seq<string>
    requires EditsPerms(req) && req.newPerms.Some?
  {
    if req.ReplacePerms? then req.newPerms.value
    else if req.AddPerms? then Merge(existing, req.newPerms.value)
    else Remaining(existing, req.newPerms.value)
  }

  /** One live row, its list edited, revoked if nothing is left; everything else as before. */
  ghost predicate EditedRow(before: Tables, after: Tables, req: Request, now: nat)
    requires EditsPerms(req)
  {
    && req.newPerms.Some? && req.tokenId in before.pats
    && var p := before.pats[req.tokenId]; var perms := Edited(req, p.perms);
       && p.revokedAt == None
       && after == before.(pats := before.pats[req.tokenId :=
                             p.(perms := perms, revokedAt := if perms == [] then Some(Truncated(now)) else None)])
  }

  lemma EditStep(prefix: string, registry: set<string>, db: Tables, t: Thread, e: Env)
    requires !t.Done? && EditsPerms(t.req) && Fresh(db, t)
    ensures var n := Step(prefix, registry, db, t, e);
            if n.writes == [] then n.thread.Done? ==> n.thread.status != 200
            else EditedRow(db, ApplyAll(db, n.writes), t.req, e.now) && n.thread == Done(200, "")
  {
    hide StepAccounts, StepOrgs, StepKeys, EnterAdmin, StepPerms, StepCreatePat, StepRevokePat, CheckCredential,
      CheckOwner, ApplyAll, EditedRow, Fresh;
    if t.At? && Stage(t.req, t.pc) { EditHandler(registry, db, t.info, t.req, t.pc, e); }
  }

  lemma LookupAnswers(db: Tables, info: AuthInfo, req: Request, e: Env)
    requires EditsPerms(req)
    ensures var n := LookupPat(db, info, req, req.tokenId, e);
            n.writes == [] && (n.thread.Done? ==> n.thread.status != 200)
  {
  }

  lemma WriteEdits(db: Tables, info: AuthInfo, req: Request, pat: Pat, perms: seq<string>, e: Env)
    requires EditsPerms(req) && LivePatOf(db, req.tokenId, UserOf(info)) && db.pats[req.tokenId] == pat
    requires req.newPerms.Some? && perms == Edited(req, pat.perms)
    ensures var n := WritePerms(info, req.tokenId, perms, e);
            if n.writes == [] then n.thread == Done(INTERNAL, "")
            else EditedRow(db, ApplyAll(db, n.writes), req, e.now) && n.thread == Done(200, "")
  {
    hide Merge, Remaining, ApplyAll;
    var n := WritePerms(info, req.tokenId, perms, e);
    if n.writes != [] {
      assert n.writes == [n.writes[0]];
      ApplyOne(db, n.writes[0]);
    }
  }

  lemma EditHandler(registry: set<string>, db: Tables, info: AuthInfo, req: Request, pc: Pc, e: Env)
    requires EditsPerms(req) && Stage(req, pc) && Fresh(db, At(info, req, pc))
    ensures var n := StepPerms(registry, db, info, req, pc, e);
            if n.writes == [] then n.thread.Done? ==> n.thread.status != 200
            else EditedRow(db, ApplyAll(db, n.writes), req, e.now) && n.thread == Done(200, "")
  {
    hide Acceptable, MayGrant, Merge, Remaining, ApplyAll, EditedRow, LookupPat, WritePerms;
    LookupAnswers(db, info, req, e);
    if pc.PatRead? && req.newPerms.Some? { WriteEdits(db, info, req, pc.pat, Edited(req, pc.pat.perms), e); }
  }

  lemma {:induction false} WriterEdits(prefix: string, registry: set<string>, db: Tables, t: Thread, e: Env)
    requires !t.Done? && EditsPerms(t.req) && Fresh(db, t)
    ensures var w := Writer(prefix, registry, db, t, e); w.Done? ==> w.status != 200
    decreases Rank(t)
  {
    hide Step, Fresh, EditedRow;
    EditStep(prefix, registry, db, t, e);
    StepShape(prefix, registry, db, t, e);
    StepFresh(prefix, registry, db, t, e);
    var n := Step(prefix, registry, db, t, e);
    if n.writes == [] && !n.thread.Done? {
      assert ApplyAll(db, n.writes) == db;
      WriterEdits(prefix, registry, db, n.thread, e);
    }
  }

  /** Served atomically, an edit either is accepted and leaves exactly the edited list, or changes nothing. */
  lemma EditServed(prefix: string, db: Tables, job: Job)
    requires EditsPerms(job.req)
    ensures var o := Serve(prefix, db, job);
            if o.status == 200 then EditedRow(db, o.db, job.req, job.e.now) else o.db == db
  {
    hide Step, Finish, Writer, Fresh, EditedRow;
    var t := Launched(job.token, job.req);
    LaunchedFresh(db, job.token, job.req);
    FinishIsOneStep(prefix, job.registry, db, t, job.e);
    WriterEdits(prefix, job.registry, db, t, job.e);
    var w := Writer(prefix, job.registry, db, t, job.e);
    if !w.Done? { EditStep(prefix, job.registry, db, w, job.e); }
  }

  /** Adding permissions and then removing the same ones, both accepted, gives the list back exactly when the
      token had none of them before. */
  lemma AddThenRemoveServed(prefix: string, db: Tables, add: Job, remove: Job)
    requires add.req.AddPerms? && remove.req.RemovePerms?
    requires add.req.tokenId == remove.req.tokenId && add.req.newPerms == remove.req.newPerms
    requires Serve(prefix, db, add).status == 200
    requires Serve(prefix, Serve(prefix, db, add).db, remove).status == 200
    ensures var k := add.req.tokenId; var end := Serve(prefix, Serve(prefix, db, add).db, remove).db;
            && k in db.pats && k in end.pats && add.req.newPerms.Some?
            && (end.pats[k].perms == db.pats[k].perms <==> Disjoint(db.pats[k].perms, add.req.newPerms.value))
  {
    hide Serve, Merge, Remaining, Disjoint;
    EditServed(prefix, db, add);
    EditServed(prefix, Serve(prefix, db, add).db, remove);
    AddThenRemove(db.pats[add.req.tokenId].perms, add.req.newPerms.value);
  }

  /** At its exact expiry instant a token still authenticates but can no longer be edited. */
  lemma ExpiryInstantDiffers(db: Tables, info: AuthInfo, req: Request, tokenId: string, secret: string, e: Env)
    requires LivePatOf(db, tokenId, UserOf(info)) && db.pats[tokenId].hash == Sha256(secret)
    requires db.pats[tokenId].expiresAt.Some? && Fetch !in e.faults
    ensures var p := db.pats[tokenId];
            CheckSecret(p.hash, secret, p.revokedAt, p.expiresAt, e.now) == None
            && LookupPat(db, info, req, tokenId, e) == Reply(400)
            <==> e.now == p.expiresAt.value
  {
    var p := db.pats[tokenId];
    assert LookupPat(db, info, req, tokenId, e) == Reply(400) <==> p.expiresAt.value <= e.now;
  }
}
