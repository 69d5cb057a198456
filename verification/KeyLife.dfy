/**
 The life of an API key string, with atomic handlers: from the response that hands it
 out to the step that revokes, replaces or refreshes it.
 */
module KeyLife {
  import opened Wrappers
  import opened Auth
  import opened Keys
  import opened Permissions
  import opened Requests
  import opened Runs
  import opened Sampling
  import opened Schema
  import opened Serving
  import opened Shapes
  import opened Timestamps
  import opened Tokens
  import opened Transactions

  /** The parts of a generated key: eight and thirty-two letters of an alphabet without underscores. */
  predicate Generated(id: string, secret: string) { GeneratedId(id) && |secret| == SECRET_LENGTH && '_' !in secret }

  predicate GeneratedId(id: string) { |id| == ID_LENGTH && '_' !in id }

  /** So many calendar days after the instant, at the same time of day, cut to the second, and so at most one
      second short of that many times 24 hours; no expiry for zero days. */
  predicate ExpiresAfter(expiry: Option<nat>, from: nat, days: nat) {
    if days == 0 then expiry == None
    else
      && expiry.Some? && DaysAfter(from, expiry.value, days)
      && from + days * 24 * 3600 * 1_000_000_000 - 1_000_000_000 < expiry.value <= from + days * 24 * 3600 * 1_000_000_000
  }

  lemma ExpiryRounds(t: nat, days: nat)
    ensures ExpiresAfter(ExpiryOf(t, days), t, days)
  {
    hide DaysAfter;
    if days > 0 {
      var later := t + days * 86_400 * SECOND;
      assert later == DaysLater(t, days);
      var to := later - later % SECOND;
      assert to % SECOND == 0 && to / SECOND == t / SECOND + days * 86_400 by { CutDays(t, days); }
      HoursMakeDays(t, to, days);
    }
  }

  lemma CutDays(t: nat, days: nat)
    ensures var later := t + days * 86_400 * SECOND; var to := later - later % SECOND;
            to % SECOND == 0 && to / SECOND == t / SECOND + days * 86_400
  {
    var n := days * 86_400;
    assert (t + n * SECOND) / SECOND == t / SECOND + n;
    assert (t + n * SECOND) % SECOND == t % SECOND;
  }

  // ---- What an issuer commits ----

  /** A plan's last write inserts the key that its answer spells out. */
  ghost predicate Hands(db: Tables, p: Plan, user: string, days: nat, from: nat, at: nat) {
    p.Committed? ==>
      && |p.writes| > 0 && p.writes[|p.writes| - 1].NewKey?
      && Generated(p.keyId, p.secret)
      && var w := p.writes[|p.writes| - 1];
         && w.keyId == p.keyId && w.key.user == user && w.key.hash == Sha256(p.secret) && w.key.revokedAt == None
         && w.key.expiresAt == ExpiryOf(from, days) && w.key.days == days && w.key.createdAt == Truncated(at)
         && w.keyId !in ApplyAll(db, p.writes[..|p.writes| - 1]).keys
  }

  lemma DrawnParts(charset: string, stream: seq<byte>)
    requires charset == KEYS_CHARSET || charset == OAUTH_CHARSET
    ensures var id := Sample(Letters(charset), ID_LENGTH, stream);
            var secret := Sample(Letters(charset), SECRET_LENGTH, id.rest);
            id.text.Some? && secret.text.Some? ==> Generated(id.text.value, secret.text.value)
  {
    AlphabetsHaveNoUnderscore();
    SampleDrawsFrom(charset, ID_LENGTH, stream);
    SampleDrawsFrom(charset, SECRET_LENGTH, Sample(Letters(charset), ID_LENGTH, stream).rest);
  }

  lemma {:induction false} NewKeyHands(db: Tables, user: string, days: nat, e: Env, stream: seq<byte>, attempts: nat)
    ensures var p := PlanNewKey(db, user, days, e, stream, attempts);
            Hands(db, p, user, days, e.now, e.now) && (p.Committed? ==> |p.writes| == 1)
    decreases attempts
  {
    hide Sample, ExpiryOf, Generated;
    if attempts > 0 {
      var id := Sample(Letters(KEYS_CHARSET), ID_LENGTH, stream);
      DrawnParts(KEYS_CHARSET, stream);
      NewKeyHands(db, user, days, e, Sample(Letters(KEYS_CHARSET), SECRET_LENGTH, id.rest).rest, attempts - 1);
    }
  }

  lemma GenerateHands(db: Tables, user: string, days: int, e: Env)
    requires ValidDays(days)
    ensures Hands(db, PlanGenerate(db, user, days, e), user, days, e.now, e.now)
  {
    hide PlanNewKey, Apply, ExpiryOf, Generated;
    var revoke := RevokeKeysOf(user, Truncated(e.now));
    var inner := PlanNewKey(Apply(db, revoke), user, days, e, e.bytes, MAX_INSERT_ATTEMPTS);
    NewKeyHands(Apply(db, revoke), user, days, e, e.bytes, MAX_INSERT_ATTEMPTS);
    var p := PlanGenerate(db, user, days, e);
    if p.Committed? {
      assert p.writes[..|p.writes| - 1] == [revoke];
      ApplyOne(db, revoke);
      assert ApplyAll(Apply(db, revoke), inner.writes[..0]) == Apply(db, revoke);
    }
  }

  lemma LoginKeyHands(db: Tables, user: string, days: nat, e: Env)
    ensures Hands(db, PlanLoginKey(db, user, days, e), user, days, e.later, e.now)
  {
    hide Sample, ExpiryOf, Apply, Generated;
    DrawnParts(OAUTH_CHARSET, e.bytes);
    var p := PlanLoginKey(db, user, days, e);
    if p.Committed? {
      var revoke := RevokeKeysOf(user, Truncated(e.now));
      assert p.writes[..1] == [revoke];
      ApplyOne(db, revoke);
    }
  }

  lemma LoginHands(db: Tables, l: Login, e: Env)
    ensures Hands(db, PlanLogin(db, l, e), LoginId(db, l, e), l.days, e.later, e.now)
  {
    hide PlanReturn, PlanSignup, PlanLoginKey, LoginId, ApplyAll, ExpiryOf, Generated;
    var found := FindIdentity(db, l.provider, l.providerId);
    var first := if found.Some? then PlanReturn(db, found.value, l, e) else PlanSignup(db, l, e);
    var p := PlanLogin(db, l, e);
    if p.Committed? {
      var mid := ApplyAll(db, first.writes);
      var second := PlanLoginKey(mid, LoginId(db, l, e), l.days, e);
      LoginKeyHands(mid, LoginId(db, l, e), l.days, e);
      var front := second.writes[..|second.writes| - 1];
      assert p.writes[..|p.writes| - 1] == first.writes + front;
      ApplyConcat(db, first.writes, front);
    }
  }

  // ---- What issuing does to the keys table ----

  ghost predicate NoKeyWrite(w: Write) {
    && !w.NewKey? && !w.RevokeKeysOf? && !w.RevokeKey? && !w.RefreshKey? && !w.DropKeysOf? && !w.DropUser?
    && (w.RunHook? ==> LeavesKeys(w.hook))
  }

  lemma {:induction false} KeysUntouched(db: Tables, ws: seq<Write>)
    requires forall i :: 0 <= i < |ws| ==> NoKeyWrite(ws[i])
    ensures ApplyAll(db, ws).keys == db.keys
    decreases |ws|
  {
    hide Apply, NoKeyWrite;
    if ws != [] {
      KeyUntouched(db, ws[0]);
      KeysUntouched(Apply(db, ws[0]), ws[1..]);
    }
  }

  lemma KeyUntouched(db: Tables, w: Write)
    requires NoKeyWrite(w)
    ensures Apply(db, w).keys == db.keys
  {
    hide PatsNotOf, MembershipsNotOf, Unowned;
  }

  /** The user's keys revoked, and one new key of the user's. */
  ghost predicate Replaced(before: map<string, ApiKey>, after: map<string, ApiKey>, user: string, at: nat, k: string) {
    k !in before && k in after && after == RevokedAll(before, user, at)[k := after[k]]
  }

  lemma ReplacementEffect(db: Tables, p: Plan, user: string, days: nat, from: nat, at: nat)
    requires p.Committed? && Replacement(p.writes, user) && Hands(db, p, user, days, from, at)
    ensures Replaced(db.keys, ApplyAll(db, p.writes).keys, user, p.writes[0].at, p.keyId)
    ensures ApplyAll(db, p.writes).keys[p.keyId] == p.writes[1].key
  {
    hide ExpiryOf, Generated;
    var revoke := p.writes[0];
    assert p.writes == [RevokeKeysOf(user, revoke.at), NewKey(p.keyId, p.writes[1].key)];
    ApplyConcat(db, [revoke], [p.writes[1]]);
    assert p.writes[..1] == [revoke] && p.writes == [revoke] + [p.writes[1]];
    ApplyOne(db, revoke);
    ApplyOne(Apply(db, revoke), p.writes[1]);
  }

  lemma AccountKeys(db: Tables, l: Login, e: Env)
    requires LeavesKeys(e.hook)
    ensures var found := FindIdentity(db, l.provider, l.providerId);
            var first := if found.Some? then PlanReturn(db, found.value, l, e) else PlanSignup(db, l, e);
            first.Committed? ==> ApplyAll(db, first.writes).keys == db.keys
  {
    hide LeavesKeys, PlanInsert, Check, ApplyAll;
    InsertShape(db, l, NewRole(db, l.email), e, 0);
    var found := FindIdentity(db, l.provider, l.providerId);
    var first := if found.Some? then PlanReturn(db, found.value, l, e) else PlanSignup(db, l, e);
    if first.Committed? { KeysUntouched(db, first.writes); }
  }

  lemma LoginEffect(db: Tables, l: Login, e: Env)
    requires LeavesKeys(e.hook) && PlanLogin(db, l, e).Committed?
    ensures var p := PlanLogin(db, l, e); var after := ApplyAll(db, p.writes).keys;
            && Replaced(db.keys, after, LoginId(db, l, e), Truncated(e.now), p.keyId)
            && after[p.keyId] == p.writes[|p.writes| - 1].key && |p.writes| > 0
  {
    hide PlanReturn, PlanSignup, LoginId, ApplyAll, ExpiryOf, Generated, Sample, Check, Replaced, LeavesKeys;
    var found := FindIdentity(db, l.provider, l.providerId);
    var first := if found.Some? then PlanReturn(db, found.value, l, e) else PlanSignup(db, l, e);
    var mid := ApplyAll(db, first.writes);
    var second := PlanLoginKey(mid, LoginId(db, l, e), l.days, e);
    AccountKeys(db, l, e);
    LoginKeyHands(mid, LoginId(db, l, e), l.days, e);
    ReplacementEffect(mid, second, LoginId(db, l, e), l.days, e.later, e.now);
    ApplyConcat(db, first.writes, second.writes);
  }

  lemma GenerateEffect(db: Tables, user: string, days: int, e: Env)
    requires PlanGenerate(db, user, days, e).Committed?
    ensures var p := PlanGenerate(db, user, days, e); var after := ApplyAll(db, p.writes).keys;
            && Replaced(db.keys, after, user, Truncated(e.now), p.keyId)
            && |p.writes| == 2 && after[p.keyId] == p.writes[1].key
  {
    hide PlanNewKey, ApplyAll, Apply, ExpiryOf, Generated, Replaced;
    GenerateHands(db, user, days, e);
    GenerateReplaces(db, user, days, e);
    ReplacementEffect(db, PlanGenerate(db, user, days, e), user, days, e.now, e.now);
  }

  /** Whose key a public request issues. */
  ghost function Recipient(db: Tables, req: Request, e: Env): string
    requires Public(req)
  {
    if req.IssueKey? then req.id
    else LoginId(db, LoginOf(req, if ValidDays(DaysOf(req.expires)) then DaysOf(req.expires) else 0), e)
  }

  function RequestedDays(req: Request): int
    requires Public(req)
  {
    if req.IssueKey? then req.days else DaysOf(req.expires)
  }

  /** A stored key that a string spells out, as it is when it has just been issued. */
  predicate Minted(prefix: string, keys: map<string, ApiKey>, user: string, credential: string, k: string, secret: string) {
    && credential == FormatApiKey(prefix, k, secret) && Generated(k, secret)
    && k in keys && keys[k].user == user && keys[k].hash == Sha256(secret) && keys[k].revokedAt == None
  }

  /** One committed issue: the answer spells the new key, every older key of the user is revoked. */
  lemma IssueMints(prefix: string, db: Tables, req: Request, e: Env) returns (k: string, secret: string)
    requires Public(req) && LeavesKeys(e.hook)
    requires (if req.IssueKey? then StepIssue(prefix, db, req, e) else StepCallback(prefix, db, req, e)).writes != []
    ensures var n := if req.IssueKey? then StepIssue(prefix, db, req, e) else StepCallback(prefix, db, req, e);
            var after := ApplyAll(db, n.writes).keys; var user := Recipient(db, req, e);
            && n.thread.Done? && n.thread.status == 200
            && Minted(prefix, after, user, n.thread.credential, k, secret)
            && Replaced(db.keys, after, user, Truncated(e.now), k)
            && ValidDays(RequestedDays(req)) && after[k].createdAt == Truncated(e.now)
            && ExpiresAfter(after[k].expiresAt, if req.IssueKey? then e.now else e.later, RequestedDays(req))
  {
    hide PlanLogin, PlanGenerate, ApplyAll, Generated, LeavesKeys, LoginId, ExpiryOf, ExpiresAfter;
    if req.IssueKey? {
      var p := PlanGenerate(db, req.id, req.days, e);
      InvalidDaysRefused(db, req.id, req.days, e);
      GenerateHands(db, req.id, req.days, e);
      GenerateEffect(db, req.id, req.days, e);
      ExpiryRounds(e.now, req.days);
      k, secret := p.keyId, p.secret;
    } else {
      var l := LoginOf(req, DaysOf(req.expires));
      var p := PlanLogin(db, l, e);
      LoginHands(db, l, e);
      LoginEffect(db, l, e);
      ExpiryRounds(e.later, l.days);
      k, secret := p.keyId, p.secret;
    }
  }

  lemma InvalidDaysRefused(db: Tables, user: string, days: int, e: Env)
    ensures !ValidDays(days) ==> PlanGenerate(db, user, days, e).Refused?
  {
  }

  // ---- A key and the steps that end it ----

  /** The row behind a key string is as it was issued. */
  datatype Key = Key(owner: string, id: string, secret: string, expiry: Option<nat>)

  predicate Intact(keys: map<string, ApiKey>, key: Key) {
    Bears(keys, key) && keys[key.id].user == key.owner && keys[key.id].expiresAt == key.expiry
  }

  /** Some live row matches the string. */
  predicate Bears(keys: map<string, ApiKey>, key: Key) {
    key.id in keys && keys[key.id].hash == Sha256(key.secret) && keys[key.id].revokedAt == None
  }

  /** The request was answered as having revoked, refreshed or replaced the key, or its row is gone with its owner. */
  ghost predicate Ends(before: Tables, req: Request, o: Outcome, key: Key) {
    match req
    case RevokeOwnKey(k) => k == key.id && o.status == 200
    case RefreshOwnKey(k) => k == key.id && o.status == 200
    case RevokeUserKey(_, k) => k == key.id && o.status == 204
    case Callback(_, _, _) => exists k :: k in o.db.keys && k !in before.keys && o.db.keys[k].user == key.owner
    case IssueKey(_, _) => exists k :: k in o.db.keys && k !in before.keys && o.db.keys[k].user == key.owner
    case DeleteUser(_) => key.id !in o.db.keys
    case _ => false
  }

  /** Requests that can touch the keys table. */
  predicate OnKeys(req: Request) {
    req.RevokeOwnKey? || req.RefreshOwnKey? || req.RevokeUserKey? || Public(req) || req.DeleteUser?
  }

  /** What serving a request does about the key: its row stays as it is unless the answer ends it, and once
      no live row matches the string none does until the very string is handed out again. */
  ghost predicate Faithful(prefix: string, before: Tables, req: Request, o: Outcome, key: Key) {
    o.credential != FormatApiKey(prefix, key.id, key.secret) ==>
      && (Intact(before.keys, key) ==> if Ends(before, req, o, key) then !Bears(o.db.keys, key) else Intact(o.db.keys, key))
      && (!Bears(before.keys, key) ==> !Bears(o.db.keys, key))
  }

  lemma RevokeWrites(prefix: string, registry: set<string>, db: Tables, t: Thread, e: Env)
    requires Fresh(db, t) && !t.Done? && (t.req.RevokeOwnKey? || t.req.RevokeUserKey?)
    requires Step(prefix, registry, db, t, e).writes != []
    ensures var n := Step(prefix, registry, db, t, e);
            && |n.writes| == 1 && n.writes[0].RevokeKey? && n.writes[0].keyId == t.req.keyId
            && LiveKeyOf(db, t.req.keyId, n.writes[0].id) && n.writes[0].at == Truncated(e.now)
            && n.thread == Done(if t.req.RevokeOwnKey? then 200 else 204, "")
  {
    hide StepOrgs, StepPats, StepRefresh, StepCallback, StepIssue, StepCreateUser, StepDelete, StepUpdateUser,
      StepLifecycle, StepProfile, CheckCredential, CheckOwner, EnterAdmin;
    if t.At? && t.pc.Enter? && HasSelector(t.req) { EnterReads(db, t.info, t.req, e); }
  }

  lemma RefreshWrites(prefix: string, registry: set<string>, db: Tables, t: Thread, e: Env) returns (secret: string)
    requires Fresh(db, t) && !t.Done? && t.req.RefreshOwnKey?
    requires Step(prefix, registry, db, t, e).writes != []
    ensures var n := Step(prefix, registry, db, t, e);
            && t.At? && LiveKeyOf(db, t.req.keyId, UserOf(t.info))
            && n.writes == [RefreshKey(t.req.keyId, UserOf(t.info), Sha256(secret),
                                       ExpiryOf(e.later, db.keys[t.req.keyId].days), e.later)]
            && n.thread == Done(200, FormatApiKey(prefix, t.req.keyId, secret))
            && |secret| == SECRET_LENGTH && '_' !in secret
  {
    hide StepAccounts, StepOrgs, StepPats, StepRevokeKey, StepCallback, StepIssue, CheckCredential, CheckOwner, EnterAdmin,
      Sample, ExpiryOf;
    var drawn := Sample(Letters(KEYS_CHARSET), SECRET_LENGTH, e.bytes);
    if drawn.text.Some? { secret := drawn.text.value; }
    SampleDrawsFrom(KEYS_CHARSET, SECRET_LENGTH, e.bytes);
    AlphabetsHaveNoUnderscore();
  }

  lemma DeleteWrites(prefix: string, registry: set<string>, db: Tables, t: Thread, e: Env)
    requires Fresh(db, t) && !t.Done? && t.req.DeleteUser? && LeavesKeys(e.hook)
    requires Step(prefix, registry, db, t, e).writes != []
    ensures t.At? && t.pc.Approved?
    ensures ApplyAll(db, Step(prefix, registry, db, t, e).writes).keys == KeysNotOf(db.keys, t.pc.id)
    ensures Step(prefix, registry, db, t, e).thread == Done(204, "")
  {
    hide StepOrgs, StepPats, StepKeys, StepCreateUser, StepUpdateUser, StepAdminRevoke, StepLifecycle, StepProfile,
      CheckCredential, CheckOwner, EnterAdmin, ApplyAll, Purge, LeavesKeys;
    if t.At? && t.pc.Enter? { EnterReads(db, t.info, t.req, e); }
    PurgedKeys(db, t.pc.id, e.hook);
  }

  lemma PurgedKeys(db: Tables, id: string, hook: Hook)
    requires LeavesKeys(hook)
    ensures ApplyAll(db, Purge(id) + [RunHook(hook, id)]).keys == KeysNotOf(db.keys, id)
  {
    hide Apply, LeavesKeys;
    var front, middle := [ClearOwner(id)], [DropPatsOf(id), DropMembershipsOf(id)];
    assert Purge(id) + [RunHook(hook, id)] == front + [DropKeysOf(id)] + middle + [DropUser(id), RunHook(hook, id)];
    var d0 := ApplyAll(db, front);
    var d1 := Apply(d0, DropKeysOf(id));
    var d2 := ApplyAll(d1, middle);
    var d3 := Apply(d2, DropUser(id));
    KeysUntouched(db, front);
    KeysUntouched(d1, middle);
    KeysUntouched(d3, [RunHook(hook, id)]);
    ApplyConcat(db, front + [DropKeysOf(id)] + middle, [DropUser(id), RunHook(hook, id)]);
    ApplyConcat(db, front + [DropKeysOf(id)], middle);
    ApplyConcat(db, front, [DropKeysOf(id)]);
    ApplyOne(d0, DropKeysOf(id));
    assert [DropUser(id), RunHook(hook, id)] == [DropUser(id)] + [RunHook(hook, id)];
    ApplyConcat(d2, [DropUser(id)], [RunHook(hook, id)]);
    ApplyOne(d2, DropUser(id));
    DropsKeys(d0, id);
    DropsKeys(d2, id);
    assert KeysNotOf(KeysNotOf(db.keys, id), id) == KeysNotOf(db.keys, id);
  }

  lemma DropsKeys(db: Tables, id: string)
    ensures Apply(db, DropKeysOf(id)).keys == Apply(db, DropUser(id)).keys == KeysNotOf(db.keys, id)
  {
  }

  lemma IssueFaithful(prefix: string, before: Tables, after: Tables, req: Request, o: Outcome, key: Key, user: string,
                      at: nat, k: string, secret: string)
    requires Public(req) && o.db == after && Replaced(before.keys, after.keys, user, at, k)
    requires Minted(prefix, after.keys, user, o.credential, k, secret)
    ensures Faithful(prefix, before, req, o, key)
  {
    hide Replaced, RevokedAll, Generated, FormatApiKey;
    ReplacedRow(before.keys, after.keys, user, at, k, key.id);
    ReplacedIds(before.keys, after.keys, user, at, k);
    if user == key.owner { assert k in o.db.keys && k !in before.keys && o.db.keys[k].user == key.owner; }
  }

  lemma ReplacedRow(before: map<string, ApiKey>, after: map<string, ApiKey>, user: string, at: nat, k: string, j: string)
    requires Replaced(before, after, user, at, k)
    ensures k !in before
    ensures j != k && j in before ==> j in after && after[j] == if before[j].user == user && before[j].revokedAt == None
                                                               then before[j].(revokedAt := Some(at)) else before[j]
  {
  }

  lemma ReplacedIds(before: map<string, ApiKey>, after: map<string, ApiKey>, user: string, at: nat, k: string)
    requires Replaced(before, after, user, at, k)
    ensures after.Keys == before.Keys + {k}
  {
  }

  lemma RevokeFaithful(prefix: string, before: Tables, after: Tables, req: Request, o: Outcome, key: Key, w: Write)
    requires (req.RevokeOwnKey? && o.status == 200) || (req.RevokeUserKey? && o.status == 204)
    requires w.RevokeKey? && w.keyId == req.keyId && LiveKeyOf(before, req.keyId, w.id)
    requires o.db == after && after == Apply(before, w)
    ensures Faithful(prefix, before, req, o, key)
  {
  }

  lemma RefreshFaithful(prefix: string, before: Tables, after: Tables, req: Request, o: Outcome, key: Key, w: Write,
                        secret: string)
    requires req.RefreshOwnKey? && o.status == 200 && o.credential == FormatApiKey(prefix, req.keyId, secret)
    requires w.RefreshKey? && w.keyId == req.keyId && w.hash == Sha256(secret) && LiveKeyOf(before, req.keyId, w.id)
    requires o.db == after && after == Apply(before, w)
    ensures Faithful(prefix, before, req, o, key)
  {
  }

  lemma DeleteFaithful(prefix: string, before: Tables, req: Request, o: Outcome, key: Key, id: string)
    requires req.DeleteUser? && o.db.keys == KeysNotOf(before.keys, id)
    ensures Faithful(prefix, before, req, o, key)
  {
  }

  lemma OthersLeaveKeys(prefix: string, registry: set<string>, db: Tables, t: Thread, e: Env)
    requires !t.Done? && !OnKeys(t.req) && LeavesKeys(e.hook)
    ensures ApplyAll(db, Step(prefix, registry, db, t, e).writes).keys == db.keys
  {
    hide Step, LeavesKeys, Stage;
    var ws := Step(prefix, registry, db, t, e).writes;
    StepShape(prefix, registry, db, t, e);
    StepHooks(prefix, registry, db, t, e);
    forall i | 0 <= i < |ws| ensures NoKeyWrite(ws[i]) { assert Fits(t.req, ws[i]); }
    KeysUntouched(db, ws);
  }

  lemma PublicStepIs(prefix: string, registry: set<string>, db: Tables, t: Thread, e: Env)
    requires !t.Done? && Public(t.req) && Step(prefix, registry, db, t, e).writes != []
    ensures Step(prefix, registry, db, t, e)
            == if t.req.IssueKey? then StepIssue(prefix, db, t.req, e) else StepCallback(prefix, db, t.req, e)
  {
    hide StepIssue, StepCallback, CheckCredential, CheckOwner;
  }

  /** One writing statement is faithful to the key. */
  lemma WriteFaithful(prefix: string, registry: set<string>, db: Tables, t: Thread, e: Env, o: Outcome, key: Key)
    requires Fresh(db, t) && !t.Done? && LeavesKeys(e.hook) && Step(prefix, registry, db, t, e).writes != []
    requires var n := Step(prefix, registry, db, t, e);
             o.db == ApplyAll(db, n.writes)
             && (n.thread.Done? ==> o.status == n.thread.status && o.credential == n.thread.credential)
    ensures Faithful(prefix, db, t.req, o, key)
  {
    hide Step, LeavesKeys, Fresh, Faithful, ApplyAll, Apply, ExpiryOf, Minted, Replaced, ExpiresAfter, LiveKeyOf;
    var n := Step(prefix, registry, db, t, e);
    if Public(t.req) {
      PublicStepIs(prefix, registry, db, t, e);
      var k, secret := IssueMints(prefix, db, t.req, e);
      IssueFaithful(prefix, db, o.db, t.req, o, key, Recipient(db, t.req, e), Truncated(e.now), k, secret);
    } else if t.req.RevokeOwnKey? || t.req.RevokeUserKey? {
      RevokeWrites(prefix, registry, db, t, e);
      assert n.writes == [n.writes[0]];
      ApplyOne(db, n.writes[0]);
      RevokeFaithful(prefix, db, o.db, t.req, o, key, n.writes[0]);
    } else if t.req.RefreshOwnKey? {
      var secret := RefreshWrites(prefix, registry, db, t, e);
      ApplyOne(db, n.writes[0]);
      RefreshFaithful(prefix, db, o.db, t.req, o, key, n.writes[0], secret);
    } else if t.req.DeleteUser? {
      DeleteWrites(prefix, registry, db, t, e);
      DeleteFaithful(prefix, db, t.req, o, key, t.pc.id);
    } else {
      OthersLeaveKeys(prefix, registry, db, t, e);
      UntouchedFaithful(prefix, db, t.req, o, key);
    }
  }

  lemma UntouchedFaithful(prefix: string, before: Tables, req: Request, o: Outcome, key: Key)
    requires o.db.keys == before.keys
    requires Intact(before.keys, key) ==> !Ends(before, req, o, key)
    ensures Faithful(prefix, before, req, o, key)
  {
  }

  // ---- Requests that write nothing ----

  /** A refusal is not answered like a revocation or a refresh. */
  predicate Honest(db: Tables, req: Request, status: nat) {
    && (req.RevokeOwnKey? || req.RefreshOwnKey? ==> status != 200)
    && (req.RevokeUserKey? && status == 204 ==> req.keyId in db.keys && db.keys[req.keyId].revokedAt.Some?)
  }

  lemma SilentStep(prefix: string, registry: set<string>, db: Tables, t: Thread, e: Env)
    requires !t.Done? && (t.req.RevokeOwnKey? || t.req.RefreshOwnKey? || t.req.RevokeUserKey?)
    ensures var n := Step(prefix, registry, db, t, e);
            n.writes == [] && n.thread.Done? ==> Honest(db, t.req, n.thread.status)
  {
    hide StepOrgs, StepPats, StepCallback, StepIssue, StepCreateUser, StepDelete, StepUpdateUser, StepLifecycle,
      StepProfile, CheckCredential, CheckOwner, Sample, ExpiryOf, UserSelector, ResolveUser, OrgSelector, ResolveOrg;
  }

  lemma {:induction false} SilentAnswer(prefix: string, registry: set<string>, db: Tables, t: Thread, e: Env)
    requires !t.Done? && Writer(prefix, registry, db, t, e).Done?
    ensures Honest(db, t.req, Writer(prefix, registry, db, t, e).status)
    decreases Rank(t)
  {
    hide Step, Honest;
    if t.req.RevokeOwnKey? || t.req.RefreshOwnKey? || t.req.RevokeUserKey? {
      SilentStep(prefix, registry, db, t, e);
      StepShape(prefix, registry, db, t, e);
      var n := Step(prefix, registry, db, t, e);
      if !n.thread.Done? { SilentAnswer(prefix, registry, db, n.thread, e); }
    } else {
      OtherwiseHonest(db, t.req, Writer(prefix, registry, db, t, e).status);
    }
  }

  lemma OtherwiseHonest(db: Tables, req: Request, status: nat)
    requires !req.RevokeOwnKey? && !req.RefreshOwnKey? && !req.RevokeUserKey?
    ensures Honest(db, req, status)
  {
  }

  lemma SilentFaithful(prefix: string, before: Tables, req: Request, o: Outcome, key: Key)
    requires o.db == before && Honest(before, req, o.status)
    ensures Faithful(prefix, before, req, o, key)
  {
  }

  // ---- Whole requests and runs of them ----

  lemma ServeFaithful(prefix: string, db: Tables, job: Job, key: Key)
    requires LeavesKeys(job.e.hook)
    ensures Faithful(prefix, db, job.req, Serve(prefix, db, job), key)
  {
    hide Step, Finish, Writer, LeavesKeys, Fresh, Faithful, Honest;
    var t := Launched(job.token, job.req);
    LaunchedFresh(db, job.token, job.req);
    FinishIsOneStep(prefix, job.registry, db, t, job.e);
    var w := Writer(prefix, job.registry, db, t, job.e);
    var o := Serve(prefix, db, job);
    if w.Done? {
      SilentAnswer(prefix, job.registry, db, t, job.e);
      SilentFaithful(prefix, db, job.req, o, key);
    } else {
      WriteFaithful(prefix, job.registry, db, w, job.e, o, key);
    }
  }

  /** No request of the run was answered as having revoked, refreshed or replaced the key. */
  ghost predicate Undisturbed(prefix: string, db: Tables, jobs: seq<Job>, key: Key)
    decreases |jobs|
  {
    jobs != [] ==>
      var o := Serve(prefix, db, jobs[0]);
      !Ends(db, jobs[0].req, o, key) && Undisturbed(prefix, o.db, jobs[1..], key)
  }

  /** The random source does not repeat itself: the run never hands the same string out again. */
  ghost predicate NeverReissued(prefix: string, db: Tables, jobs: seq<Job>, credential: string)
    decreases |jobs|
  {
    jobs != [] ==>
      var o := Serve(prefix, db, jobs[0]);
      o.credential != credential && NeverReissued(prefix, o.db, jobs[1..], credential)
  }

  lemma {:induction false} IntactExactlyIfUndisturbed(prefix: string, db: Tables, jobs: seq<Job>, key: Key)
    requires NeverReissued(prefix, db, jobs, FormatApiKey(prefix, key.id, key.secret))
    requires forall i :: 0 <= i < |jobs| ==> LeavesKeys(jobs[i].e.hook)
    ensures Intact(db.keys, key) ==>
              var end := ServeAll(prefix, db, jobs).keys;
              if Undisturbed(prefix, db, jobs, key) then Intact(end, key) else !Bears(end, key)
    ensures !Bears(db.keys, key) ==> !Bears(ServeAll(prefix, db, jobs).keys, key)
    decreases |jobs|
  {
    hide Serve, LeavesKeys, Intact, Bears, Ends;
    if jobs != [] {
      ServeFaithful(prefix, db, jobs[0], key);
      IntactExactlyIfUndisturbed(prefix, Serve(prefix, db, jobs[0]).db, jobs[1..], key);
    }
  }

  // ---- The ids of stored keys ----

  ghost predicate GeneratedIds(keys: map<string, ApiKey>) { forall k :: k in keys ==> GeneratedId(k) }

  lemma StepKeepsIds(prefix: string, registry: set<string>, db: Tables, t: Thread, e: Env)
    requires GeneratedIds(db.keys) && LeavesKeys(e.hook)
    ensures GeneratedIds(ApplyAll(db, Step(prefix, registry, db, t, e).writes).keys)
  {
    hide Step, LeavesKeys, ExpiresAfter;
    var n := Step(prefix, registry, db, t, e);
    if t.Done? {
      DoneStays(prefix, registry, db, t, e);
    } else if n.writes == [] {
    } else if Public(t.req) {
      PublicStepIs(prefix, registry, db, t, e);
      var k, secret := IssueMints(prefix, db, t.req, e);
    } else {
      StepShape(prefix, registry, db, t, e);
      StepHooks(prefix, registry, db, t, e);
      forall i | 0 <= i < |n.writes| ensures NoNewKey(n.writes[i]) { assert Fits(t.req, n.writes[i]); }
      IdsKept(db, n.writes);
    }
  }

  ghost predicate NoNewKey(w: Write) { !w.NewKey? && (w.RunHook? ==> LeavesKeys(w.hook)) }

  lemma {:induction false} IdsKept(db: Tables, ws: seq<Write>)
    requires forall i :: 0 <= i < |ws| ==> NoNewKey(ws[i])
    ensures ApplyAll(db, ws).keys.Keys <= db.keys.Keys
    decreases |ws|
  {
    hide Apply, NoNewKey;
    if ws != [] {
      IdKept(db, ws[0]);
      IdsKept(Apply(db, ws[0]), ws[1..]);
    }
  }

  lemma IdKept(db: Tables, w: Write)
    requires NoNewKey(w)
    ensures Apply(db, w).keys.Keys <= db.keys.Keys
  {
    hide PatsNotOf, MembershipsNotOf, Unowned;
  }

  /** Every stored key id is a generated one, however statements interleave. */
  lemma {:induction false} EveryRunGeneratedIds(prefix: string, s: System, evs: seq<Event>)
    requires GeneratedIds(s.db.keys)
    requires forall i :: 0 <= i < |evs| && evs[i].Advance? ==> LeavesKeys(evs[i].e.hook)
    ensures GeneratedIds(Run(prefix, s, evs).db.keys)
    decreases |evs|
  {
    hide Step, GeneratedIds, LeavesKeys, Registered;
    if evs != [] {
      var ev := evs[0];
      if ev.Advance? && ev.tid in s.threads {
        StepKeepsIds(prefix, s.registry, s.db, s.threads[ev.tid], ev.e);
      }
      EveryRunGeneratedIds(prefix, Occur(prefix, s, ev), evs[1..]);
    }
  }

  // ---- From issue to the end ----

  predicate Issuer(req: Request) { Public(req) || req.RefreshOwnKey? }

  /** Whose key it is and when it expires. */
  ghost predicate IssuedAs(db: Tables, req: Request, e: Env, key: Key) {
    if Public(req) then
      && key.owner == Recipient(db, req, e) && ValidDays(RequestedDays(req))
      && ExpiresAfter(key.expiry, if req.IssueKey? then e.now else e.later, RequestedDays(req))
    else
      && req.RefreshOwnKey? && key.id == req.keyId && key.id in db.keys && key.owner == db.keys[key.id].user
      && ExpiresAfter(key.expiry, e.later, db.keys[key.id].days)
  }

  lemma StepIssues(prefix: string, registry: set<string>, db: Tables, t: Thread, e: Env) returns (key: Key)
    requires Fresh(db, t) && !t.Done? && Issuer(t.req) && LeavesKeys(e.hook) && GeneratedIds(db.keys)
    requires Step(prefix, registry, db, t, e).writes != []
    ensures var n := Step(prefix, registry, db, t, e);
            && n.thread.Done? && n.thread.credential == FormatApiKey(prefix, key.id, key.secret)
            && Generated(key.id, key.secret) && Intact(ApplyAll(db, n.writes).keys, key) && IssuedAs(db, t.req, e, key)
  {
    hide Step, LeavesKeys, Fresh, ExpiresAfter, ExpiryOf;
    var n := Step(prefix, registry, db, t, e);
    var after := ApplyAll(db, n.writes).keys;
    if Public(t.req) {
      PublicStepIs(prefix, registry, db, t, e);
      var k, secret := IssueMints(prefix, db, t.req, e);
      key := Key(after[k].user, k, secret, after[k].expiresAt);
    } else {
      var secret := RefreshWrites(prefix, registry, db, t, e);
      var k := t.req.keyId;
      ApplyOne(db, n.writes[0]);
      ExpiryRounds(e.later, db.keys[k].days);
      key := Key(after[k].user, k, secret, after[k].expiresAt);
    }
  }

  lemma SilentHandsNothing(prefix: string, registry: set<string>, db: Tables, t: Thread, e: Env)
    requires !t.Done? && Issuer(t.req)
    ensures var n := Step(prefix, registry, db, t, e); n.writes == [] && n.thread.Done? ==> n.thread.credential == ""
  {
    hide StepAccounts, StepOrgs, StepPats, EnterAdmin, StepRevokeKey, CheckCredential, CheckOwner, Sample, ExpiryOf,
      PlanLogin, PlanGenerate;
    if t.At? && Public(t.req) { PublicSilence(prefix, db, t.req, e); }
  }

  lemma PublicSilence(prefix: string, db: Tables, req: Request, e: Env)
    requires Public(req)
    ensures var n := if req.IssueKey? then StepIssue(prefix, db, req, e) else StepCallback(prefix, db, req, e);
            n.thread.Done? && (n.writes == [] ==> n.thread.credential == "")
  {
    hide PlanLogin, PlanGenerate;
    if req.IssueKey? {
      if PlanGenerate(db, req.id, req.days, e).Committed? { GenerateReplaces(db, req.id, req.days, e); }
    } else if CallbackStatus(req) == 200 {
      LoginHands(db, LoginOf(req, DaysOf(req.expires)), e);
    }
  }

  lemma {:induction false} WriterHands(prefix: string, registry: set<string>, db: Tables, t: Thread, e: Env)
    requires !t.Done? && Issuer(t.req) && Writer(prefix, registry, db, t, e).Done?
    ensures Writer(prefix, registry, db, t, e).credential == ""
    decreases Rank(t)
  {
    hide Step;
    SilentHandsNothing(prefix, registry, db, t, e);
    StepShape(prefix, registry, db, t, e);
    var n := Step(prefix, registry, db, t, e);
    if !n.thread.Done? { WriterHands(prefix, registry, db, n.thread, e); }
  }

  /** A handed-out key string names a live row of the right owner with the right expiry. */
  lemma ServeIssues(prefix: string, db: Tables, job: Job) returns (key: Key)
    requires Issuer(job.req) && LeavesKeys(job.e.hook) && GeneratedIds(db.keys)
    requires Serve(prefix, db, job).credential != ""
    ensures var o := Serve(prefix, db, job);
            && o.credential == FormatApiKey(prefix, key.id, key.secret) && Generated(key.id, key.secret)
            && Intact(o.db.keys, key) && IssuedAs(db, job.req, job.e, key)
  {
    hide Step, Finish, Writer, LeavesKeys, Fresh, Intact, IssuedAs, GeneratedIds;
    var t := Launched(job.token, job.req);
    LaunchedFresh(db, job.token, job.req);
    FinishIsOneStep(prefix, job.registry, db, t, job.e);
    var w := Writer(prefix, job.registry, db, t, job.e);
    if w.Done? {
      WriterHands(prefix, job.registry, db, t, job.e);
      key := Key("", "", "", None);
    } else {
      key := StepIssues(prefix, job.registry, db, w, job.e);
    }
  }

  /** Unless the prefix itself begins with the scheme word, stripping it leaves a printed key alone. */
  lemma PrintedKeyIsBare(prefix: string, id: string, secret: string)
    requires !("Bearer " <= prefix)
    ensures TrimBearer(FormatApiKey(prefix, id, secret)) == FormatApiKey(prefix, id, secret)
  {
    var s := FormatApiKey(prefix, id, secret);
    assert s[|prefix|] == '_' && '_' !in "Bearer ";
    assert |prefix| >= 7 ==> s[..7] == prefix[..7];
  }

  /** From issue to any later moment: the string authenticates exactly while its expiry has not passed, its
      owner exists and is active, and no request was answered as having revoked, replaced or refreshed it. */
  lemma KeyLifetime(prefix: string, db: Tables, job: Job, jobs: seq<Job>, now: nat) returns (key: Key)
    requires !("Bearer " <= prefix) && GeneratedIds(db.keys)
    requires Issuer(job.req) && Serve(prefix, db, job).credential != ""
    requires LeavesKeys(job.e.hook) && forall i :: 0 <= i < |jobs| ==> LeavesKeys(jobs[i].e.hook)
    requires NeverReissued(prefix, Serve(prefix, db, job).db, jobs, Serve(prefix, db, job).credential)
    ensures IssuedAs(db, job.req, job.e, key)
    ensures var o := Serve(prefix, db, job);
            var end := ServeAll(prefix, o.db, jobs);
            var v := ValidateCredential(prefix, end, now, o.credential);
            && (v.Authenticated? <==> && Undisturbed(prefix, o.db, jobs, key)
                                      && (key.expiry.Some? ==> now <= key.expiry.value)
                                      && key.owner in end.users && end.users[key.owner].status == Active)
            && (v.Authenticated? ==> v.info == KeyAuth(key.owner, end.users[key.owner].role, key.id))
  {
    hide Serve, ServeAll, LeavesKeys, Undisturbed, NeverReissued, IssuedAs, GeneratedIds, ValidateCredential,
      FormatApiKey, TrimBearer;
    key := ServeIssues(prefix, db, job);
    var o := Serve(prefix, db, job);
    IntactExactlyIfUndisturbed(prefix, o.db, jobs, key);
    var end := ServeAll(prefix, o.db, jobs);
    PrintedKeyIsBare(prefix, key.id, key.secret);
    ApiKeyAuthenticates(prefix, end, now, key.id, key.secret);
  }
}
