/**
 What each request on API keys is answered, and what it leaves, when no statement fails:
 exactly, for every caller and every state.
 */
module AnswersKeys {
  import opened Wrappers
  import opened AnswersUsers
  import opened Auth
  import opened Requests
  import opened Runs
  import opened Sampling
  import opened Schema
  import opened Serving
  import opened Terms
  import opened Transactions

  /** The key is the caller's. */
  predicate OwnKey(db: Tables, info: AuthInfo, k: string) { k in db.keys && db.keys[k].user == CallerId(info) }

  function PrintedKey(prefix: string, k: string, secret: string): string { prefix + "_" + k + "_" + secret }

  // ---- One's own key ----

  /** 403 exactly for a token without the permission; otherwise a live key of one's own is revoked as of the
      current second. */
  lemma RevokeKeyAnswer(prefix: string, db: Tables, job: Job, info: AuthInfo)
    requires job.req.RevokeOwnKey? && job.e.faults == {} && Caller(prefix, db, job, info)
    ensures var k := job.req.keyId;
            Serve(prefix, db, job)
            == if Lacks(db, info, "keys:manage") then Outcome(db, 403, "")
               else if !OwnKey(db, info, k) then Outcome(db, 404, "")
               else if db.keys[k].revokedAt.Some? then Outcome(db, 400, "")
               else Outcome(KeyRevoked(db, k, job.e.now), 200, "")
  {
    hide Step, Finish, StepAccounts, StepPats, StepOrgs, EnterAdmin, StepRefresh, StepCallback, StepIssue,
      ValidateCredential, HasPermission, Lacks;
    var k, e := job.req.keyId, job.e;
    Admitted(prefix, db, job, info);
    CallerRows(prefix, db, job, info);
    Goes(prefix, job.registry, db, info, job.req, Enter, e);
    if OwnKey(db, info, k) { KeyRevocationWritten(prefix, job.registry, db, info, job.req, db.keys[k], e); }
  }

  /** The last statement, whatever has become of the row since it was read. */
  lemma KeyRevocationWritten(prefix: string, registry: set<string>, db: Tables, info: AuthInfo, req: Request, key: ApiKey,
                             e: Env)
    requires req.RevokeOwnKey? && e.faults == {} && UserOf(info) == CallerId(info)
    ensures Finish(prefix, registry, db, At(info, req, KeyRead(key)), e)
            == Outcome(if OwnKey(db, info, req.keyId) then KeyRevoked(db, req.keyId, e.now) else db, 200, "")
  {
    hide Step, Finish, StepAccounts, StepPats, StepOrgs, EnterAdmin, StepRefresh, StepCallback, StepIssue, UserOf, CallerId;
    SecondIsTruncated(e.now);
    Goes(prefix, registry, db, info, req, KeyRead(key), e);
  }

  /** The row with a new secret, created at the second clock reading and good for as many days from then. */
  function Refreshed(db: Tables, k: string, secret: string, days: nat, at: nat): Tables
    requires k in db.keys
  {
    db.(keys := db.keys[k := db.keys[k].(hash := Sha256(secret), expiresAt := Expiry(at, days), createdAt := at)])
  }

  /** The last statement, whatever has become of the row since it was read: it looks whether the row is still there,
      but not at a revocation. */
  lemma RefreshWritten(prefix: string, registry: set<string>, db: Tables, info: AuthInfo, req: Request, key: ApiKey, e: Env)
    requires req.RefreshOwnKey? && e.faults == {} && UserOf(info) == CallerId(info)
    ensures var k := req.keyId; var secret := KeyText(32, e.bytes).text;
            Finish(prefix, registry, db, At(info, req, KeyRead(key)), e)
            == if secret == None then Outcome(db, 500, "")
               else if !OwnKey(db, info, k) then Outcome(db, 404, "")
               else Outcome(Refreshed(db, k, secret.value, key.days, e.later), 200, PrintedKey(prefix, k, secret.value))
  {
    hide Step, Finish, StepAccounts, StepPats, StepOrgs, EnterAdmin, StepRevokeKey, StepCallback, StepIssue, Sample, KeyText,
      KEYS_CHARSET, ExpiryOf, Expiry, UserOf, CallerId;
    KeyTextIs(32, e.bytes);
    ExpiryIs(e.later, key.days);
    Goes(prefix, registry, db, info, req, KeyRead(key), e);
  }

  /** No token may; a live key of one's own, up to and including its expiry instant, gets a new secret. */
  lemma RefreshKeyAnswer(prefix: string, db: Tables, job: Job, info: AuthInfo)
    requires job.req.RefreshOwnKey? && job.e.faults == {} && Caller(prefix, db, job, info)
    ensures var k := job.req.keyId; var secret := KeyText(32, job.e.bytes).text;
            Serve(prefix, db, job)
            == if info.PatAuth? then Outcome(db, 401, "")
               else if !OwnKey(db, info, k) then Outcome(db, 404, "")
               else if db.keys[k].revokedAt.Some? then Outcome(db, 400, "")
               else if db.keys[k].expiresAt.Some? && db.keys[k].expiresAt.value < job.e.now then Outcome(db, 400, "")
               else if secret == None then Outcome(db, 500, "")
               else Outcome(Refreshed(db, k, secret.value, db.keys[k].days, job.e.later), 200,
                            PrintedKey(prefix, k, secret.value))
  {
    hide Step, Finish, StepAccounts, StepPats, StepOrgs, EnterAdmin, StepRevokeKey, StepCallback, StepIssue,
      ValidateCredential, Sample, KeyText, KEYS_CHARSET, ExpiryOf, Expiry, Refreshed;
    var k, e := job.req.keyId, job.e;
    Admitted(prefix, db, job, info);
    CallerRows(prefix, db, job, info);
    Goes(prefix, job.registry, db, info, job.req, Enter, e);
    if OwnKey(db, info, k) { RefreshWritten(prefix, job.registry, db, info, job.req, db.keys[k], e); }
  }

  // ---- Issue ----

  /** Every live key of the user revoked. */
  function NoneLive(keys: map<string, ApiKey>, user: string, now: nat): map<string, ApiKey> {
    map k | k in keys :: if keys[k].user == user && keys[k].revokedAt == None then keys[k].(revokedAt := Some(Second(now)))
                         else keys[k]
  }

  /** The user's keys revoked, and this one added. */
  function Rekeyed(db: Tables, user: string, k: string, secret: string, days: nat, from: nat, now: nat): Tables {
    db.(keys := NoneLive(db.keys, user, now)[k := ApiKey(user, Sha256(secret), days, Expiry(from, days), None, Second(now))])
  }

  lemma RekeyedIs(db: Tables, user: string, k: string, secret: string, days: nat, from: nat, now: nat)
    ensures var revoke := RevokeKeysOf(user, Truncated(now));
            var w := NewKey(k, ApiKey(user, Sha256(secret), days, ExpiryOf(from, days), None, Truncated(now)));
            && ApplyAll(db, [revoke, w]) == Rekeyed(db, user, k, secret, days, from, now)
            && Apply(db, revoke).keys.Keys == db.keys.Keys && Apply(db, revoke).users == db.users
  {
    hide ExpiryOf, Expiry, Second, Truncated;
    SecondIsTruncated(now);
    ExpiryIs(from, days);
    var revoke := RevokeKeysOf(user, Truncated(now));
    var w := NewKey(k, ApiKey(user, Sha256(secret), days, ExpiryOf(from, days), None, Truncated(now)));
    assert RevokedAll(db.keys, user, Truncated(now)) == NoneLive(db.keys, user, now);
    assert [revoke, w] == [revoke] + [w];
    ApplyConcat(db, [revoke], [w]);
    ApplyOne(db, revoke);
    ApplyOne(Apply(db, revoke), w);
  }

  /** The first of so many drawn pairs of an id and a secret whose id no key has. */
  function FirstUnusedKey(keys: set<string>, stream: seq<byte>, tries: nat): Option<(string, string)>
    decreases tries
  {
    if tries == 0 then None
    else
      var id := KeyText(8, stream);
      var secret := KeyText(32, id.rest);
      if id.text == None || secret.text == None then None
      else if id.text.value !in keys then Some((id.text.value, secret.text.value))
      else FirstUnusedKey(keys, secret.rest, tries - 1)
  }

  lemma {:induction false} NewKeyPlanned(db: Tables, user: string, days: nat, e: Env, stream: seq<byte>, attempts: nat)
    requires e.faults == {}
    ensures var first := FirstUnusedKey(db.keys.Keys, stream, attempts);
            PlanNewKey(db, user, days, e, stream, attempts)
            == if first == None || user !in db.users then Refused(500)
               else Committed([NewKey(first.value.0, ApiKey(user, Sha256(first.value.1), days, ExpiryOf(e.now, days), None,
                                                            Truncated(e.now)))], first.value.0, first.value.1)
    decreases attempts
  {
    hide Sample, KeyText, KEYS_CHARSET, ExpiryOf, Truncated;
    if attempts > 0 {
      KeyTextIs(8, stream);
      var id := KeyText(8, stream);
      KeyTextIs(32, id.rest);
      NewKeyPlanned(db, user, days, e, KeyText(32, id.rest).rest, attempts - 1);
    }
  }

  lemma PublicServed(prefix: string, db: Tables, job: Job)
    requires Public(job.req)
    ensures Serve(prefix, db, job) == Finish(prefix, job.registry, db, At(NoAuth, job.req, Enter), job.e)
  {
    hide Finish;
  }

  /** A key for 0, 30, 60 or 90 days for a user that exists, every older one revoked; three draws at most to find
      an unused id. */
  lemma IssueKeyAnswer(prefix: string, db: Tables, job: Job)
    requires job.req.IssueKey? && job.e.faults == {}
    ensures var r, e := job.req, job.e; var first := FirstUnusedKey(db.keys.Keys, e.bytes, 3);
            Serve(prefix, db, job)
            == if !Offered(r.days) || r.id !in db.users || first == None then Outcome(db, 500, "")
               else Outcome(Rekeyed(db, r.id, first.value.0, first.value.1, r.days, e.now, e.now), 200,
                            PrintedKey(prefix, first.value.0, first.value.1))
  {
    hide Step, Finish, StepAccounts, StepPats, StepOrgs, EnterAdmin, StepRevokeKey, StepCallback, StepRefresh,
      PlanGenerate, FirstUnusedKey, Rekeyed, ApplyAll;
    var r, e := job.req, job.e;
    PublicServed(prefix, db, job);
    Goes(prefix, job.registry, db, NoAuth, r, Enter, e);
    if Offered(r.days) { GeneratePlanned(db, r.id, r.days, e); } else { NotGenerated(db, r.id, r.days, e); }
  }

  lemma NotGenerated(db: Tables, user: string, days: int, e: Env)
    requires !Offered(days)
    ensures PlanGenerate(db, user, days, e) == Refused(500)
  {
  }

  lemma GeneratePlanned(db: Tables, user: string, days: nat, e: Env)
    requires Offered(days) && e.faults == {}
    ensures var first := FirstUnusedKey(db.keys.Keys, e.bytes, 3); var p := PlanGenerate(db, user, days, e);
            if user !in db.users || first == None then p == Refused(500)
            else && p.Committed? && p.keyId == first.value.0 && p.secret == first.value.1
                 && ApplyAll(db, p.writes) == Rekeyed(db, user, p.keyId, p.secret, days, e.now, e.now)
  {
    hide PlanNewKey, FirstUnusedKey, ExpiryOf, Expiry, Apply, Truncated, Rekeyed, ApplyAll;
    var revoke := RevokeKeysOf(user, Truncated(e.now));
    var p, inner := PlanGenerate(db, user, days, e), PlanNewKey(Apply(db, revoke), user, days, e, e.bytes, 3);
    RekeyedIs(db, user, "", "", days, e.now, e.now);
    NewKeyPlanned(Apply(db, revoke), user, days, e, e.bytes, 3);
    var first := FirstUnusedKey(db.keys.Keys, e.bytes, 3);
    if user in db.users && first.Some? {
      assert p.writes == [revoke, inner.writes[0]];
      RekeyedIs(db, user, first.value.0, first.value.1, days, e.now, e.now);
    }
  }
}
