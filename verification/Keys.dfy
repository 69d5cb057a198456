/**
 At most one live API key per user, under any interleaving: every issuer revokes the
 user's keys and inserts the new one in a single transaction, and nothing clears a
 revocation.
 */
module Keys {
  import opened Wrappers
  import opened Auth
  import opened Permissions
  import opened Requests
  import opened Runs
  import opened Sampling
  import opened Schema
  import opened Shapes
  import opened Tokens
  import opened Transactions

  predicate Live(keys: map<string, ApiKey>, k: string) { k in keys && keys[k].revokedAt == None }

  ghost predicate OneLiveKey(keys: map<string, ApiKey>) {
    forall j, k :: Live(keys, j) && Live(keys, k) && keys[j].user == keys[k].user ==> j == k
  }

  ghost predicate NoLiveKey(keys: map<string, ApiKey>, user: string) {
    forall k :: Live(keys, k) ==> keys[k].user != user
  }

  ghost predicate KeepsOneLiveKey(hook: Hook) {
    forall db: Tables, id :: OneLiveKey(db.keys) && hook(db, id).HookOk? ==> OneLiveKey(hook(db, id).db.keys)
  }

  // ---- Writes ----

  /** Writes that make no key live. */
  ghost predicate Harmless(w: Write) { !w.NewKey? && (w.RunHook? ==> KeepsOneLiveKey(w.hook)) }

  lemma HarmlessKeeps(db: Tables, w: Write)
    requires Harmless(w) && OneLiveKey(db.keys)
    ensures OneLiveKey(Apply(db, w).keys)
  {
    hide PatsNotOf, MembershipsNotOf, Unowned;
  }

  lemma {:induction false} AllHarmlessKeep(db: Tables, ws: seq<Write>)
    requires OneLiveKey(db.keys) && forall i :: 0 <= i < |ws| ==> Harmless(ws[i])
    ensures OneLiveKey(ApplyAll(db, ws).keys)
    decreases |ws|
  {
    hide OneLiveKey, Harmless, Apply;
    if ws != [] {
      HarmlessKeeps(db, ws[0]);
      AllHarmlessKeep(Apply(db, ws[0]), ws[1..]);
    }
  }

  /** Revoking a user's keys and inserting one leaves exactly that one live. */
  lemma RevokeThenInsert(db: Tables, user: string, at: nat, keyId: string, key: ApiKey)
    requires OneLiveKey(db.keys) && key.user == user
    ensures ApplyAll(db, [RevokeKeysOf(user, at), NewKey(keyId, key)]).keys == RevokedAll(db.keys, user, at)[keyId := key]
    ensures OneLiveKey(ApplyAll(db, [RevokeKeysOf(user, at), NewKey(keyId, key)]).keys)
  {
    var revoke, insert := RevokeKeysOf(user, at), NewKey(keyId, key);
    assert [revoke, insert] == [revoke] + [insert];
    ApplyConcat(db, [revoke], [insert]);
    ApplyOne(db, revoke);
    ApplyOne(Apply(db, revoke), insert);
    assert NoLiveKey(Apply(db, revoke).keys, user);
  }

  // ---- Issuers ----

  /** A revocation of all the user's keys followed by one new key of the user's own. */
  predicate Replacement(ws: seq<Write>, user: string) {
    |ws| == 2 && ws[0].RevokeKeysOf? && ws[0].id == user && ws[1].NewKey? && ws[1].key.user == user
  }

  lemma {:induction false} NewKeyOwner(db: Tables, user: string, days: nat, e: Env, stream: seq<byte>, attempts: nat)
    ensures var p := PlanNewKey(db, user, days, e, stream, attempts);
            p.Committed? ==> |p.writes| == 1 && p.writes[0].NewKey? && p.writes[0].key.user == user
    decreases attempts
  {
    hide Sample, Check, ExpiryOf;
    if attempts > 0 {
      var id := Sample(Letters(KEYS_CHARSET), ID_LENGTH, stream);
      NewKeyOwner(db, user, days, e, Sample(Letters(KEYS_CHARSET), SECRET_LENGTH, id.rest).rest, attempts - 1);
    }
  }

  lemma GenerateReplaces(db: Tables, user: string, days: int, e: Env)
    ensures var p := PlanGenerate(db, user, days, e); p.Committed? ==> Replacement(p.writes, user)
  {
    hide PlanNewKey, Apply;
    if ValidDays(days) {
      NewKeyOwner(Apply(db, RevokeKeysOf(user, Truncated(e.now))), user, days, e, e.bytes, MAX_INSERT_ATTEMPTS);
    }
  }

  lemma LoginKeyReplaces(db: Tables, user: string, days: nat, e: Env)
    ensures var p := PlanLoginKey(db, user, days, e); p.Committed? ==> Replacement(p.writes, user)
  {
    hide Sample, Check, ExpiryOf, Apply;
  }

  lemma ReplacementKeeps(db: Tables, ws: seq<Write>, user: string)
    requires OneLiveKey(db.keys) && Replacement(ws, user)
    ensures OneLiveKey(ApplyAll(db, ws).keys)
  {
    assert ws == [RevokeKeysOf(user, ws[0].at), NewKey(ws[1].keyId, ws[1].key)];
    RevokeThenInsert(db, user, ws[0].at, ws[1].keyId, ws[1].key);
  }

  lemma AccountHarmless(db: Tables, l: Login, e: Env)
    requires KeepsOneLiveKey(e.hook)
    ensures var found := FindIdentity(db, l.provider, l.providerId);
            var first := if found.Some? then PlanReturn(db, found.value, l, e) else PlanSignup(db, l, e);
            first.Committed? ==> forall i :: 0 <= i < |first.writes| ==> Harmless(first.writes[i])
  {
    hide KeepsOneLiveKey, PlanInsert, Check;
    InsertShape(db, l, NewRole(db, l.email), e, 0);
  }

  lemma LoginKeeps(db: Tables, l: Login, e: Env)
    requires OneLiveKey(db.keys) && KeepsOneLiveKey(e.hook)
    ensures var p := PlanLogin(db, l, e); p.Committed? ==> OneLiveKey(ApplyAll(db, p.writes).keys)
  {
    hide OneLiveKey, Harmless, Replacement, PlanReturn, PlanSignup, PlanLoginKey;
    var p := PlanLogin(db, l, e);
    if p.Committed? {
      var found := FindIdentity(db, l.provider, l.providerId);
      var first := if found.Some? then PlanReturn(db, found.value, l, e) else PlanSignup(db, l, e);
      var mid := ApplyAll(db, first.writes);
      var second := PlanLoginKey(mid, LoginId(db, l, e), l.days, e);
      AccountHarmless(db, l, e);
      AllHarmlessKeep(db, first.writes);
      LoginKeyReplaces(mid, LoginId(db, l, e), l.days, e);
      ReplacementKeeps(mid, second.writes, LoginId(db, l, e));
      ApplyConcat(db, first.writes, second.writes);
    }
  }

  lemma PublicKeeps(prefix: string, db: Tables, req: Request, e: Env)
    requires Public(req) && OneLiveKey(db.keys) && KeepsOneLiveKey(e.hook)
    ensures req.Callback? ==> OneLiveKey(ApplyAll(db, StepCallback(prefix, db, req, e).writes).keys)
    ensures req.IssueKey? ==> OneLiveKey(ApplyAll(db, StepIssue(prefix, db, req, e).writes).keys)
  {
    hide OneLiveKey, KeepsOneLiveKey, PlanLogin, PlanGenerate, Replacement;
    if req.Callback? && CallbackStatus(req) == 200 {
      LoginKeeps(db, LoginOf(req, DaysOf(req.expires)), e);
    }
    if req.IssueKey? {
      var p := PlanGenerate(db, req.id, req.days, e);
      GenerateReplaces(db, req.id, req.days, e);
      if p.Committed? { ReplacementKeeps(db, p.writes, req.id); }
    }
  }

  // ---- Statements and runs ----

  /** A write of a request that issues no key, with a hook that keeps the property. */
  lemma OthersHarmless(req: Request, ws: seq<Write>, e: Env)
    requires !Public(req) && AllFit(req, ws) && OwnHook(ws, e) && KeepsOneLiveKey(e.hook)
    ensures forall i :: 0 <= i < |ws| ==> Harmless(ws[i])
  {
    hide KeepsOneLiveKey;
    forall i | 0 <= i < |ws| ensures Harmless(ws[i]) {
      assert Fits(req, ws[i]);
    }
  }

  lemma PublicStep(prefix: string, registry: set<string>, db: Tables, t: Thread, e: Env)
    requires t.At? && Public(t.req) && OneLiveKey(db.keys) && KeepsOneLiveKey(e.hook)
    ensures OneLiveKey(ApplyAll(db, Step(prefix, registry, db, t, e).writes).keys)
  {
    hide OneLiveKey, KeepsOneLiveKey, StepCallback, StepIssue, StepAccounts, StepPats, StepOrgs, EnterAdmin;
    PublicKeeps(prefix, db, t.req, e);
    assert ApplyAll(db, []) == db;
  }

  lemma StepOneLiveKey(prefix: string, registry: set<string>, db: Tables, t: Thread, e: Env)
    requires OneLiveKey(db.keys) && KeepsOneLiveKey(e.hook)
    ensures OneLiveKey(ApplyAll(db, Step(prefix, registry, db, t, e).writes).keys)
  {
    hide OneLiveKey, KeepsOneLiveKey, StepHandler, CheckCredential, CheckOwner, Harmless;
    var n := Step(prefix, registry, db, t, e);
    if !t.At? {
      assert n.writes == [];
    } else if Public(t.req) {
      PublicStep(prefix, registry, db, t, e);
    } else {
      StepShape(prefix, registry, db, t, e);
      StepHooks(prefix, registry, db, t, e);
      OthersHarmless(t.req, n.writes, e);
      AllHarmlessKeep(db, n.writes);
    }
  }

  /** No user ever has two unrevoked API keys, however requests interleave. */
  lemma {:induction false} EveryRunOneLiveKey(prefix: string, s: System, evs: seq<Event>)
    requires OneLiveKey(s.db.keys)
    requires forall i :: 0 <= i < |evs| && evs[i].Advance? ==> KeepsOneLiveKey(evs[i].e.hook)
    ensures OneLiveKey(Run(prefix, s, evs).db.keys)
    decreases |evs|
  {
    hide Step, OneLiveKey, KeepsOneLiveKey, Registered;
    if evs != [] {
      var ev := evs[0];
      if ev.Advance? && ev.tid in s.threads {
        StepOneLiveKey(prefix, s.registry, s.db, s.threads[ev.tid], ev.e);
      }
      EveryRunOneLiveKey(prefix, Occur(prefix, s, ev), evs[1..]);
    }
  }

  /** Hence, in every reachable state and whatever the clocks read, two key strings that authenticate as
      the same user are one string. */
  lemma OneKeyStringPerUser(prefix: string, s: System, evs: seq<Event>, a: string, b: string, now: nat, now': nat)
    requires OneLiveKey(s.db.keys)
    requires forall i :: 0 <= i < |evs| && evs[i].Advance? ==> KeepsOneLiveKey(evs[i].e.hook)
    requires var db := Run(prefix, s, evs).db;
             var va, vb := ValidateCredential(prefix, db, now, a), ValidateCredential(prefix, db, now', b);
             va.Authenticated? && vb.Authenticated? && va.info.KeyAuth? && vb.info.KeyAuth? && va.info.user == vb.info.user
    ensures TrimBearer(a) == TrimBearer(b)
  {
    hide Run, KeepsOneLiveKey, ParseToken;
    var db := Run(prefix, s, evs).db;
    EveryRunOneLiveKey(prefix, s, evs);
    LiveBehind(prefix, db, now, a);
    LiveBehind(prefix, db, now', b);
    SameKeySameToken(prefix, db, now, now', a, b);
  }

  /** Behind an authenticated key string stands a live row of that user. */
  lemma LiveBehind(prefix: string, db: Tables, now: nat, raw: string)
    requires ValidateCredential(prefix, db, now, raw).Authenticated?
    requires ValidateCredential(prefix, db, now, raw).info.KeyAuth?
    ensures var info := ValidateCredential(prefix, db, now, raw).info;
            Live(db.keys, info.keyId) && db.keys[info.keyId].user == info.user
  {
    hide ParseToken;
  }
}
