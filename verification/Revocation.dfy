/**
 Revocation is final. Whatever interleaves, a revoked key or token stays revoked while
 its row exists, and a token that is not revoked has permissions, all registered; served
 one at a time, requests never overwrite a revocation time.
 */
module Revocation {
  import opened Wrappers
  import opened Auth
  import opened Constraints
  import opened Permissions
  import opened Requests
  import opened Runs
  import opened Sampling
  import opened Schema
  import opened Serving
  import opened Shapes
  import opened Transactions

  /** A revocation time is kept: exactly, or at least as a revocation. */
  predicate Kept(before: Option<nat>, after: Option<nat>, exactly: bool) {
    before.Some? ==> if exactly then after == before else after.Some?
  }

  predicate KeyKept(before: ApiKey, after: ApiKey, exactly: bool) {
    after.user == before.user && Kept(before.revokedAt, after.revokedAt, exactly)
  }

  /** Every row survives with its revocation. */
  ghost predicate Persist(before: Tables, after: Tables, exactly: bool) {
    && (forall k :: k in before.keys ==>
          k in after.keys && KeyKept(before.keys[k], after.keys[k], exactly))
    && (forall k :: k in before.pats ==>
          k in after.pats && Kept(before.pats[k].revokedAt, after.pats[k].revokedAt, exactly))
  }

  /** Every row is an old one with its revocation. */
  ghost predicate Shrink(before: Tables, after: Tables, exactly: bool) {
    && (forall k :: k in after.keys ==>
          k in before.keys && KeyKept(before.keys[k], after.keys[k], exactly))
    && (forall k :: k in after.pats ==>
          k in before.pats && Kept(before.pats[k].revokedAt, after.pats[k].revokedAt, exactly))
  }

  /** What both have in common: a row that is there before and after is not revived. */
  ghost predicate NotRevived(before: Tables, after: Tables, exactly: bool) {
    && (forall k :: k in before.keys && k in after.keys ==>
          KeyKept(before.keys[k], after.keys[k], exactly))
    && (forall k :: k in before.pats && k in after.pats ==>
          Kept(before.pats[k].revokedAt, after.pats[k].revokedAt, exactly))
  }

  predicate Inserts(w: Write) { w.NewKey? || w.NewPat? }

  predicate Drops(w: Write) { w.DropKeysOf? || w.DropPatsOf? || w.DropUser? }

  ghost predicate LeavesCredentials(hook: Hook) { LeavesKeys(hook) && LeavesPats(hook) }

  /** A statement that would overwrite a revocation time finds none to overwrite. */
  predicate Careful(db: Tables, w: Write) {
    match w
    case RevokeKey(k, id, _) => KeyOf(db.keys, k, id) ==> db.keys[k].revokedAt == None
    case RevokePat(k, id, _) => PatOf(db.pats, k, id) ==> db.pats[k].revokedAt == None
    case SetPerms(k, id, _, revokedAt) => revokedAt.Some? && PatOf(db.pats, k, id) ==> db.pats[k].revokedAt == None
    case _ => true
  }

  predicate Overwrites(w: Write) { w.RevokeKey? || w.RevokePat? || w.SetPerms? }

  // ---- Writes ----

  /** A write that drops nothing keeps every row, one that inserts nothing adds none, and the rows keep their
      revocations. */
  ghost predicate KeysKept(before: map<string, ApiKey>, after: map<string, ApiKey>, w: Write, exactly: bool) {
    && (!Drops(w) ==> forall k :: k in before ==> k in after && KeyKept(before[k], after[k], exactly))
    && (!Inserts(w) ==> forall k :: k in after ==> k in before && KeyKept(before[k], after[k], exactly))
  }

  ghost predicate PatsKept(before: map<string, Pat>, after: map<string, Pat>, w: Write, exactly: bool) {
    && (!Drops(w) ==> forall k :: k in before ==> k in after && Kept(before[k].revokedAt, after[k].revokedAt, exactly))
    && (!Inserts(w) ==> forall k :: k in after ==> k in before && Kept(before[k].revokedAt, after[k].revokedAt, exactly))
  }

  lemma KeyRowWritten(db: Tables, w: Write, exactly: bool)
    requires w.RevokeKey? || w.RefreshKey?
    requires exactly ==> Careful(db, w)
    ensures var after := Apply(db, w).keys;
            after == db.keys || (w.keyId in db.keys && w.keyId in after && KeyKept(db.keys[w.keyId], after[w.keyId], exactly)
                                 && after == db.keys[w.keyId := after[w.keyId]])
  {
    hide KeysNotOf, PatsNotOf, MembershipsNotOf, MembershipsOutside, Unowned, RevokedAll;
  }

  lemma KeyRowKept(db: Tables, w: Write, exactly: bool)
    requires w.RevokeKey? || w.RefreshKey?
    requires exactly ==> Careful(db, w)
    ensures KeysKept(db.keys, Apply(db, w).keys, w, exactly)
  {
    hide Apply, Careful;
    KeyRowWritten(db, w, exactly);
  }

  lemma KeyTableKept(db: Tables, w: Write, exactly: bool, usernameFirst: bool)
    requires w.RevokeKeysOf? || w.NewKey? || w.DropKeysOf? || w.DropUser? || w.RunHook?
    requires Check(db, w, usernameFirst) == Accepted && (w.RunHook? ==> LeavesKeys(w.hook))
    ensures KeysKept(db.keys, Apply(db, w).keys, w, exactly)
  {
    hide PatsNotOf, MembershipsNotOf, MembershipsOutside, Unowned, UsernameTaken, EmailTaken, IdentityTaken, OrgNameTaken,
      SlugTaken;
  }

  lemma KeyWriteKeeps(db: Tables, w: Write, exactly: bool, usernameFirst: bool)
    requires Check(db, w, usernameFirst) == Accepted && (w.RunHook? ==> LeavesKeys(w.hook))
    requires exactly ==> Careful(db, w)
    ensures KeysKept(db.keys, Apply(db, w).keys, w, exactly)
  {
    hide Check, Apply, Careful, LeavesKeys;
    if !TouchesKeys(w) { KeysUntouchedBy(db, w); }
    else if w.RevokeKey? || w.RefreshKey? { KeyRowKept(db, w, exactly); }
    else { KeyTableKept(db, w, exactly, usernameFirst); }
  }

  lemma PatRowWritten(db: Tables, w: Write, exactly: bool)
    requires w.SetPerms? || w.RevokePat?
    requires exactly ==> Careful(db, w)
    ensures var after := Apply(db, w).pats; var k := w.tokenId;
            after == db.pats || (k in db.pats && k in after && Kept(db.pats[k].revokedAt, after[k].revokedAt, exactly)
                                 && after == db.pats[k := after[k]])
  {
    hide KeysNotOf, PatsNotOf, MembershipsNotOf, MembershipsOutside, Unowned, RevokedAll;
  }

  lemma PatRowKept(db: Tables, w: Write, exactly: bool)
    requires w.SetPerms? || w.RevokePat?
    requires exactly ==> Careful(db, w)
    ensures PatsKept(db.pats, Apply(db, w).pats, w, exactly)
  {
    hide Apply, Careful;
    PatRowWritten(db, w, exactly);
  }

  lemma PatTableKept(db: Tables, w: Write, exactly: bool, usernameFirst: bool)
    requires w.NewPat? || w.DropPatsOf? || w.DropUser? || w.RunHook?
    requires Check(db, w, usernameFirst) == Accepted && (w.RunHook? ==> LeavesPats(w.hook))
    ensures PatsKept(db.pats, Apply(db, w).pats, w, exactly)
  {
    hide KeysNotOf, RevokedAll, MembershipsNotOf, MembershipsOutside, Unowned, UsernameTaken, EmailTaken, IdentityTaken,
      OrgNameTaken, SlugTaken;
  }

  lemma PatWriteKeeps(db: Tables, w: Write, exactly: bool, usernameFirst: bool)
    requires Check(db, w, usernameFirst) == Accepted && (w.RunHook? ==> LeavesPats(w.hook))
    requires exactly ==> Careful(db, w)
    ensures PatsKept(db.pats, Apply(db, w).pats, w, exactly)
  {
    hide Check, Apply, Careful, LeavesPats;
    if !TouchesPats(w) { PatsUntouchedBy(db, w); }
    else if w.SetPerms? || w.RevokePat? { PatRowKept(db, w, exactly); }
    else { PatTableKept(db, w, exactly, usernameFirst); }
  }

  lemma WriteKeeps(db: Tables, w: Write, exactly: bool, usernameFirst: bool)
    requires Check(db, w, usernameFirst) == Accepted && (w.RunHook? ==> LeavesCredentials(w.hook))
    requires exactly ==> Careful(db, w)
    ensures !Drops(w) ==> Persist(db, Apply(db, w), exactly)
    ensures !Inserts(w) ==> Shrink(db, Apply(db, w), exactly)
  {
    hide Check, Apply, Careful, Drops, Inserts, Kept, KeyKept, LeavesKeys, LeavesPats;
    KeyWriteKeeps(db, w, exactly, usernameFirst);
    PatWriteKeeps(db, w, exactly, usernameFirst);
  }

  lemma PersistTrans(a: Tables, b: Tables, c: Tables, exactly: bool)
    requires Persist(a, b, exactly) && Persist(b, c, exactly)
    ensures Persist(a, c, exactly)
  {
  }

  lemma ShrinkTrans(a: Tables, b: Tables, c: Tables, exactly: bool)
    requires Shrink(a, b, exactly) && Shrink(b, c, exactly)
    ensures Shrink(a, c, exactly)
  {
  }

  lemma {:induction false} ListKeeps(db: Tables, ws: seq<Write>, exactly: bool, usernameFirst: bool)
    requires AllAccepted(db, ws, usernameFirst)
    requires forall i :: 0 <= i < |ws| && ws[i].RunHook? ==> LeavesCredentials(ws[i].hook)
    requires exactly ==> forall i :: 0 <= i < |ws| && Overwrites(ws[i]) ==> ws == [ws[i]] && Careful(db, ws[i])
    ensures (forall i :: 0 <= i < |ws| ==> !Drops(ws[i])) ==> Persist(db, ApplyAll(db, ws), exactly)
    ensures (forall i :: 0 <= i < |ws| ==> !Inserts(ws[i])) ==> Shrink(db, ApplyAll(db, ws), exactly)
    decreases |ws|
  {
    hide Check, Apply, Persist, Shrink, LeavesCredentials, Drops, Inserts;
    if ws == [] {
      assert Persist(db, db, exactly) && Shrink(db, db, exactly) by { Reflexive(db, exactly); }
    } else {
      var next := Apply(db, ws[0]);
      if ws[0].RunHook? { assert LeavesCredentials(ws[0].hook); }
      WriteKeeps(db, ws[0], exactly, usernameFirst);
      ListKeeps(next, ws[1..], exactly, usernameFirst);
      if forall i :: 0 <= i < |ws| ==> !Drops(ws[i]) {
        assert !Drops(ws[0]);
        PersistTrans(db, next, ApplyAll(db, ws), exactly);
      }
      if forall i :: 0 <= i < |ws| ==> !Inserts(ws[i]) {
        assert !Inserts(ws[0]);
        ShrinkTrans(db, next, ApplyAll(db, ws), exactly);
      }
    }
  }

  lemma Reflexive(db: Tables, exactly: bool)
    ensures Persist(db, db, exactly) && Shrink(db, db, exactly)
  {
  }

  /** No request both deletes credentials and issues them. */
  lemma NeverBoth(req: Request, ws: seq<Write>)
    requires AllFit(req, ws)
    ensures (forall i :: 0 <= i < |ws| ==> !Drops(ws[i])) || (forall i :: 0 <= i < |ws| ==> !Inserts(ws[i]))
  {
    forall i | 0 <= i < |ws| ensures if req.DeleteUser? then !Inserts(ws[i]) else !Drops(ws[i]) {
      assert Fits(req, ws[i]);
    }
  }

  // ---- Interleaved ----

  /** A statement, of whatever request in whatever state, revives nothing. */
  lemma StepRevivesNothing(prefix: string, registry: set<string>, db: Tables, t: Thread, e: Env)
    requires LeavesCredentials(e.hook)
    ensures NotRevived(db, ApplyAll(db, Step(prefix, registry, db, t, e).writes), false)
  {
    hide Step, LeavesCredentials, AllAccepted, Drops, Inserts, AllFit;
    var n := Step(prefix, registry, db, t, e);
    if t.Done? {
      DoneStays(prefix, registry, db, t, e);
      assert ApplyAll(db, []) == db;
    } else {
      StepShape(prefix, registry, db, t, e);
      StepHooks(prefix, registry, db, t, e);
      StepAccepted(prefix, registry, db, t, e);
      NeverBoth(t.req, n.writes);
      ListKeeps(db, n.writes, false, e.usernameFirst);
    }
  }

  /** The row is there throughout the run. */
  ghost predicate KeyStays(prefix: string, s: System, evs: seq<Event>, k: string)
    decreases |evs|
  {
    k in s.db.keys && (evs != [] ==> KeyStays(prefix, Occur(prefix, s, evs[0]), evs[1..], k))
  }

  ghost predicate PatStays(prefix: string, s: System, evs: seq<Event>, k: string)
    decreases |evs|
  {
    k in s.db.pats && (evs != [] ==> PatStays(prefix, Occur(prefix, s, evs[0]), evs[1..], k))
  }

  /** Under every interleaving a revoked key stays revoked as long as its row exists. */
  lemma {:induction false} RevokedKeyStaysRevoked(prefix: string, s: System, evs: seq<Event>, k: string)
    requires KeyStays(prefix, s, evs, k) && s.db.keys[k].revokedAt.Some?
    requires forall i :: 0 <= i < |evs| && evs[i].Advance? ==> LeavesCredentials(evs[i].e.hook)
    ensures var end := Run(prefix, s, evs).db; k in end.keys && end.keys[k].revokedAt.Some?
    decreases |evs|
  {
    hide Step, LeavesCredentials, Registered;
    if evs != [] {
      var ev := evs[0];
      if ev.Advance? && ev.tid in s.threads {
        StepRevivesNothing(prefix, s.registry, s.db, s.threads[ev.tid], ev.e);
      }
      RevokedKeyStaysRevoked(prefix, Occur(prefix, s, ev), evs[1..], k);
    }
  }

  /** And a revoked token likewise, lost updates to its permissions notwithstanding. */
  lemma {:induction false} RevokedPatStaysRevoked(prefix: string, s: System, evs: seq<Event>, k: string)
    requires PatStays(prefix, s, evs, k) && s.db.pats[k].revokedAt.Some?
    requires forall i :: 0 <= i < |evs| && evs[i].Advance? ==> LeavesCredentials(evs[i].e.hook)
    ensures var end := Run(prefix, s, evs).db; k in end.pats && end.pats[k].revokedAt.Some?
    decreases |evs|
  {
    hide Step, LeavesCredentials, Registered;
    if evs != [] {
      var ev := evs[0];
      if ev.Advance? && ev.tid in s.threads {
        StepRevivesNothing(prefix, s.registry, s.db, s.threads[ev.tid], ev.e);
      }
      RevokedPatStaysRevoked(prefix, Occur(prefix, s, ev), evs[1..], k);
    }
  }

  // ---- Atomic ----

  /** From an up-to-date thread a revocation time is written only where there is none. */
  lemma FreshIsCareful(prefix: string, registry: set<string>, db: Tables, t: Thread, e: Env)
    requires Fresh(db, t) && !t.Done?
    ensures var ws := Step(prefix, registry, db, t, e).writes;
            forall i :: 0 <= i < |ws| && Overwrites(ws[i]) ==> ws == [ws[i]] && Careful(db, ws[i])
  {
    hide Step, Careful;
    var ws := Step(prefix, registry, db, t, e).writes;
    StepShape(prefix, registry, db, t, e);
    forall i | 0 <= i < |ws| && Overwrites(ws[i]) ensures ws == [ws[i]] && Careful(db, ws[i]) {
      assert Fits(t.req, ws[i]);
      OverwriterIsCareful(prefix, registry, db, t, e);
    }
  }

  lemma OverwriterIsCareful(prefix: string, registry: set<string>, db: Tables, t: Thread, e: Env)
    requires Fresh(db, t) && !t.Done?
    requires AdminRevoke(t.req) || t.req.RevokeOwnKey? || t.req.RevokeOwnPat? || EditsPerms(t.req)
    ensures var ws := Step(prefix, registry, db, t, e).writes; ws == [] || (ws == [ws[0]] && Careful(db, ws[0]))
  {
    hide StepOrgs, StepCreatePat, StepRefresh, StepCallback, StepIssue, StepCreateUser, StepDelete, StepUpdateUser,
      StepLifecycle, StepProfile, CheckCredential, CheckOwner, EnterAdmin, Acceptable, MayGrant, Merge, Remaining;
    if t.At? && t.pc.Enter? && HasSelector(t.req) { EnterReads(db, t.info, t.req, e); }
  }

  /** Served atomically, a request neither revives a credential nor changes when it was revoked. */
  lemma RevokedOnce(prefix: string, db: Tables, job: Job)
    requires LeavesCredentials(job.e.hook)
    ensures NotRevived(db, Serve(prefix, db, job).db, true)
  {
    hide Step, Finish, Writer, Fresh, LeavesCredentials, AllAccepted, Drops, Inserts, AllFit;
    var t := Launched(job.token, job.req);
    LaunchedFresh(db, job.token, job.req);
    FinishIsOneStep(prefix, job.registry, db, t, job.e);
    var w := Writer(prefix, job.registry, db, t, job.e);
    if !w.Done? {
      var n := Step(prefix, job.registry, db, w, job.e);
      StepShape(prefix, job.registry, db, w, job.e);
      StepHooks(prefix, job.registry, db, w, job.e);
      StepAccepted(prefix, job.registry, db, w, job.e);
      FreshIsCareful(prefix, job.registry, db, w, job.e);
      NeverBoth(w.req, n.writes);
      ListKeeps(db, n.writes, true, job.e.usernameFirst);
    }
  }

  /** The key's and the token's rows, where given, are there throughout. */
  ghost predicate RowsServed(prefix: string, db: Tables, jobs: seq<Job>, key: Option<string>, pat: Option<string>)
    decreases |jobs|
  {
    && (key.Some? ==> key.value in db.keys) && (pat.Some? ==> pat.value in db.pats)
    && (jobs != [] ==> RowsServed(prefix, Serve(prefix, db, jobs[0]).db, jobs[1..], key, pat))
  }

  /** Hence over any run of whole requests a revocation time, once written, is never written again. */
  lemma {:induction false} RevocationTimeIsFinal(prefix: string, db: Tables, jobs: seq<Job>, key: Option<string>,
                                                 pat: Option<string>)
    requires RowsServed(prefix, db, jobs, key, pat)
    requires forall i :: 0 <= i < |jobs| ==> LeavesCredentials(jobs[i].e.hook)
    ensures var end := ServeAll(prefix, db, jobs);
            && (key.Some? ==>
                  key.value in end.keys && Kept(db.keys[key.value].revokedAt, end.keys[key.value].revokedAt, true))
            && (pat.Some? ==>
                  pat.value in end.pats && Kept(db.pats[pat.value].revokedAt, end.pats[pat.value].revokedAt, true))
    decreases |jobs|
  {
    hide Serve, LeavesCredentials;
    if jobs != [] {
      RevokedOnce(prefix, db, jobs[0]);
      RevocationTimeIsFinal(prefix, Serve(prefix, db, jobs[0]).db, jobs[1..], key, pat);
    }
  }

  // ---- Live tokens have permissions ----

  predicate Usable(perms: seq<string>, registry: set<string>) {
    perms != [] && forall p :: p in perms ==> p in registry
  }

  ghost predicate UsablePats(db: Tables, registry: set<string>) {
    forall k :: k in db.pats && db.pats[k].revokedAt == None ==> Usable(db.pats[k].perms, registry)
  }

  /** What a request in flight may yet write. */
  predicate UsableThread(t: Thread, registry: set<string>) {
    t.At? ==> && (t.pc.PatRead? ==> Usable(t.pc.pat.perms, registry))
              && (t.pc.Inserting? ==> Usable(t.pc.pat.perms, registry))
  }

  /** A write that leaves every live token something to hold. */
  ghost predicate Provides(w: Write, registry: set<string>) {
    && (w.NewPat? ==> Usable(w.pat.perms, registry))
    && (w.SetPerms? ==> Usable(w.perms, registry) || w.revokedAt.Some?)
    && (w.RunHook? ==> LeavesPats(w.hook))
  }

  lemma ProvidesKeeps(db: Tables, w: Write, registry: set<string>)
    requires UsablePats(db, registry) && Provides(w, registry)
    ensures UsablePats(Apply(db, w), registry)
  {
    hide Usable, Apply;
    if TouchesPats(w) { ProviderKeeps(db, w, registry); } else { PatsUntouchedBy(db, w); }
  }

  lemma ProviderKeeps(db: Tables, w: Write, registry: set<string>)
    requires TouchesPats(w) && UsablePats(db, registry) && Provides(w, registry)
    ensures UsablePats(Apply(db, w), registry)
  {
    hide KeysNotOf, RevokedAll, MembershipsNotOf, Unowned, Usable;
  }

  lemma {:induction false} AllProvideKeep(db: Tables, ws: seq<Write>, registry: set<string>)
    requires UsablePats(db, registry) && forall i :: 0 <= i < |ws| ==> Provides(ws[i], registry)
    ensures UsablePats(ApplyAll(db, ws), registry)
    decreases |ws|
  {
    hide UsablePats, Provides, Apply;
    if ws != [] {
      ProvidesKeeps(db, ws[0], registry);
      AllProvideKeep(Apply(db, ws[0]), ws[1..], registry);
    }
  }

  ghost predicate Supplies(n: Next, registry: set<string>) {
    (forall i :: 0 <= i < |n.writes| ==> Provides(n.writes[i], registry)) && UsableThread(n.thread, registry)
  }

  lemma CreateSupplies(prefix: string, registry: set<string>, db: Tables, info: AuthInfo, req: Request, pc: Pc, e: Env)
    requires req.CreatePat? && Stage(req, pc) && UsableThread(At(info, req, pc), registry)
    ensures Supplies(StepCreatePat(prefix, registry, db, info, req, pc, e), registry)
  {
    hide Sample, Check, MayGrant, ExpiryOf, LeavesPats;
  }

  lemma PermsSupply(registry: set<string>, db: Tables, info: AuthInfo, req: Request, pc: Pc, e: Env)
    requires EditsPerms(req) && Stage(req, pc) && UsableThread(At(info, req, pc), registry) && UsablePats(db, registry)
    ensures Supplies(StepPerms(registry, db, info, req, pc, e), registry)
  {
    hide MayGrant, Merge, Remaining, Acceptable, Usable, LeavesPats;
    if pc.PatRead? && req.newPerms.Some? { EditUsable(registry, pc.pat.perms, req.newPerms.value); }
  }

  /** Each of the three edits of a usable list gives a usable list or an empty one. */
  lemma EditUsable(registry: set<string>, existing: seq<string>, requested: seq<string>)
    requires Usable(existing, registry)
    ensures Usable(Remaining(existing, requested), registry) || Remaining(existing, requested) == []
    ensures Acceptable(requested, false, registry) ==> Usable(requested, registry) || requested == []
    ensures Acceptable(requested, false, registry) ==> Usable(Merge(existing, requested), registry)
  {
    hide Merge, Remaining, WellFormed;
    MergeMeaning(existing, requested);
    RemainingMembers(existing, requested);
    assert existing[0] in Merge(existing, requested);
  }

  lemma OthersSupply(registry: set<string>, info: AuthInfo, req: Request, pc: Pc, n: Next, e: Env)
    requires !req.CreatePat? && !EditsPerms(req) && Shape(info, req, pc, n) && OwnHook(n.writes, e) && LeavesPats(e.hook)
    ensures Supplies(n, registry)
  {
    hide LeavesPats, Usable;
    forall i | 0 <= i < |n.writes| ensures Provides(n.writes[i], registry) {
      assert Fits(req, n.writes[i]);
    }
  }

  lemma HandlerSupplies(prefix: string, registry: set<string>, db: Tables, info: AuthInfo, req: Request, pc: Pc, e: Env)
    requires Stage(req, pc) && UsableThread(At(info, req, pc), registry) && UsablePats(db, registry) && LeavesPats(e.hook)
    ensures Supplies(StepHandler(prefix, registry, db, info, req, pc, e), registry)
  {
    hide LeavesPats, Supplies, StepCreatePat, StepPerms, StepRevokePat, StepAccounts, StepOrgs, StepKeys, EnterAdmin, Shape,
      Usable, OwnHook;
    if req.CreatePat? {
      CreateSupplies(prefix, registry, db, info, req, pc, e);
    } else if EditsPerms(req) {
      PermsSupply(registry, db, info, req, pc, e);
    } else {
      HandlerShape(prefix, registry, db, info, req, pc, e);
      HandlerHooks(prefix, registry, db, info, req, pc, e);
      OthersSupply(registry, info, req, pc, StepHandler(prefix, registry, db, info, req, pc, e), e);
    }
  }

  lemma StepUsable(prefix: string, registry: set<string>, db: Tables, t: Thread, e: Env)
    requires UsableThread(t, registry) && UsablePats(db, registry) && LeavesPats(e.hook)
    ensures var n := Step(prefix, registry, db, t, e);
            UsablePats(ApplyAll(db, n.writes), registry) && UsableThread(n.thread, registry)
  {
    hide LeavesPats, StepHandler, CheckCredential, CheckOwner, UsablePats, Provides, Usable;
    if t.At? && Stage(t.req, t.pc) { HandlerSupplies(prefix, registry, db, t.info, t.req, t.pc, e); }
    AllProvideKeep(db, Step(prefix, registry, db, t, e).writes, registry);
  }

  ghost predicate SystemUsable(s: System) {
    UsablePats(s.db, s.registry) && forall tid :: tid in s.threads ==> UsableThread(s.threads[tid], s.registry)
  }

  lemma RegistryGrowsUsable(s: System, more: set<string>)
    requires SystemUsable(s) && s.registry <= more
    ensures SystemUsable(s.(registry := more))
  {
  }

  /** Under any interleaving, registrations included, every unrevoked token has a non-empty list of
      permissions that are all registered. */
  lemma {:induction false} LiveTokensHavePermissions(prefix: string, s: System, evs: seq<Event>)
    requires SystemUsable(s)
    requires forall i :: 0 <= i < |evs| && evs[i].Advance? ==> LeavesPats(evs[i].e.hook)
    ensures SystemUsable(Run(prefix, s, evs))
    decreases |evs|
  {
    hide Step, LeavesPats, UsablePats, Usable, ValidIdentifier;
    if evs != [] {
      var ev := evs[0];
      match ev {
        case Launch(_, token, req) =>
        case Advance(tid, e) =>
          if tid in s.threads { StepUsable(prefix, s.registry, s.db, s.threads[tid], e); }
        case Register(resource, action) =>
          if Registered(s.registry, resource, action).Some? {
            RegistryGrowsUsable(s, Registered(s.registry, resource, action).value);
          }
      }
      LiveTokensHavePermissions(prefix, Occur(prefix, s, ev), evs[1..]);
    }
  }
}
