/**
 The validator of the key list: the latest second in which one of the user's keys was
 created or revoked, as SQL computes it over text, and the number of revoked keys.
 */
module Etags {
  import opened Wrappers
  import opened Constraints
  import opened Decimal
  import opened KeyLife
  import opened Permissions
  import opened Requests
  import opened Revocation
  import opened Runs
  import opened Schema
  import opened Serving
  import opened Shapes
  import opened Timestamps
  import opened Transactions

  function OwnKeys(keys: map<string, ApiKey>, user: string): map<string, ApiKey> {
    map k | k in keys && keys[k].user == user :: keys[k]
  }

  // ---- The query ----

  /** MAX(created_at, COALESCE(revoked_at, created_at)) over the stored text. */
  function RowStamp(key: ApiKey): Stamp {
    var created := Stamp(key.createdAt, true);
    if key.revokedAt.Some? && LexLess(Print(created), Print(Stamp(key.revokedAt.value, false))) then
      Stamp(key.revokedAt.value, false)
    else created
  }

  /** The rows in some order. */
  ghost function Scan(keys: map<string, ApiKey>): (rows: seq<ApiKey>)
    ensures forall k :: k in keys ==> keys[k] in rows
    ensures forall r :: r in rows ==> exists k :: k in keys && keys[k] == r
    decreases |keys|
  {
    if keys == map[] then []
    else
      var k :| k in keys;
      var rest := Scan(keys - {k});
      assert forall j :: j in keys ==> j == k || (j in keys - {k} && (keys - {k})[j] == keys[j]);
      [keys[k]] + rest
  }

  ghost function Stamps(rows: seq<ApiKey>): (s: seq<Stamp>)
    ensures |s| == |rows| && forall i :: 0 <= i < |s| ==> s[i] == RowStamp(rows[i])
  {
    seq(|rows|, i requires 0 <= i < |rows| => RowStamp(rows[i]))
  }

  function RevokedIds(keys: map<string, ApiKey>): set<string> { set k | k in keys && keys[k].revokedAt.Some? }

  /** The parsed maximum and the count; no rows, no validator. */
  ghost function Etag(own: map<string, ApiKey>): Option<(nat, nat)> {
    if own == map[] then None
    else
      var rows := Scan(own);
      assert rows != [] by { var k :| k in own; assert own[k] in rows; }
      match ParseTime(SqlMax(Printed(Stamps(rows))))
      case None => None  // unreachable for stored timestamps: see EtagMeaning
      case Some(t) => Some((t / SECOND, |RevokedIds(own)|))
  }

  /** The header's text. */
  function EtagText(seconds: nat, revoked: nat): string {
    "W/\"" + FormatTime(seconds * SECOND) + "-" + Dec(revoked) + "\""
  }

  /** The second of a row's latest event. */
  function RowSecond(key: ApiKey): nat {
    var c := key.createdAt / SECOND;
    if key.revokedAt.Some? && key.revokedAt.value / SECOND > c then key.revokedAt.value / SECOND else c
  }

  predicate RowInRange(key: ApiKey) {
    InRange(key.createdAt) && (key.revokedAt.Some? ==> InRange(key.revokedAt.value))
  }

  ghost predicate AllInRange(own: map<string, ApiKey>) { forall k :: k in own ==> RowInRange(own[k]) }

  lemma RowStampSecond(key: ApiKey)
    requires RowInRange(key)
    ensures RowStamp(key).at / SECOND == RowSecond(key) && InRange(RowStamp(key).at)
  {
    hide FormatTime, FormatNano, InRange, LexLess;
    if key.revokedAt.Some? {
      PrintOrder(Stamp(key.createdAt, true), Stamp(key.revokedAt.value, false));
      PrintOrder(Stamp(key.revokedAt.value, false), Stamp(key.createdAt, true));
    }
  }

  /** With any mix of second and sub-second text, the validator's time is the second of the latest event. */
  lemma EtagMeaning(own: map<string, ApiKey>) returns (latest: string)
    requires own != map[] && AllInRange(own)
    ensures latest in own && Etag(own) == Some((RowSecond(own[latest]), |RevokedIds(own)|))
    ensures forall k :: k in own ==> RowSecond(own[k]) <= RowSecond(own[latest])
  {
    hide FormatTime, FormatNano, InRange, LexLess, ParseTime, RowSecond, RowStamp;
    var rows := Scan(own);
    var k0 :| k0 in own;
    assert own[k0] in rows;
    var stamps := Stamps(rows);
    forall i | 0 <= i < |rows| ensures stamps[i].at / SECOND == RowSecond(rows[i]) && InRange(stamps[i].at) {
      assert rows[i] in rows;
      RowStampSecond(rows[i]);
    }
    var i := SqlMaxIsLatestSecond(stamps);
    assert rows[i] in rows;
    latest :| latest in own && own[latest] == rows[i];
    forall k | k in own ensures RowSecond(own[k]) <= RowSecond(own[latest]) {
      assert own[k] in rows;
      var j :| 0 <= j < |rows| && rows[j] == own[k];
      assert stamps[j] in stamps;
    }
  }

  /** Different validators are different header texts. */
  lemma EtagTextInjective(s: nat, r: nat, s': nat, r': nat)
    requires InRange(s * SECOND) && InRange(s' * SECOND)
    requires EtagText(s, r) == EtagText(s', r')
    ensures s == s' && r == r'
  {
    hide FormatTime, InRange;
    var a, b := FormatTime(s * SECOND), FormatTime(s' * SECOND);
    FormatTimeLength(s * SECOND);
    FormatTimeLength(s' * SECOND);
    var x, y := EtagText(s, r), EtagText(s', r');
    assert x[3..23] == a && y[3..23] == b;
    assert x[24..|x| - 1] == Dec(r) && y[24..|y| - 1] == Dec(r');
    FormatTimeOrder(s * SECOND, s' * SECOND);
    DecInjective(r, r');
  }

  lemma FormatTimeLength(t: nat)
    requires InRange(t)
    ensures |FormatTime(t)| == 20
  {
    hide CivilOf;
    CivilRoundTrip(t / SECOND);
    FieldSizes(CivilOf(t / SECOND));
  }

  // ---- What one request does to the user's rows ----

  /** Rows that are new or changed have their latest event in the interval, and if anything changed there is such a row. */
  ghost predicate Touched(before: map<string, ApiKey>, after: map<string, ApiKey>, from: nat, to: nat) {
    && (after == before || exists k :: k in after && from <= RowSecond(after[k]))
    && forall k :: k in after ==>
         RowSecond(after[k]) <= to || (k in before && RowSecond(after[k]) <= RowSecond(before[k]))
  }

  lemma RevokeTouches(db: Tables, w: Write, user: string, now: nat, later: nat)
    requires w.RevokeKey? && LiveKeyOf(db, w.keyId, w.id) && w.at == Truncated(now) && now <= later
    ensures Touched(OwnKeys(db.keys, user), OwnKeys(Apply(db, w).keys, user), now / SECOND, later / SECOND)
  {
    var before, after := OwnKeys(db.keys, user), OwnKeys(Apply(db, w).keys, user);
    TruncatedSecond(now);
    if w.id == user {
      assert w.keyId in after && RowSecond(after[w.keyId]) >= now / SECOND;
    } else {
      assert after == before;
    }
  }

  lemma TruncatedSecond(t: nat)
    ensures Truncated(t) / SECOND == t / SECOND
  {
  }

  lemma RefreshTouches(db: Tables, w: Write, user: string, now: nat)
    requires w.RefreshKey? && LiveKeyOf(db, w.keyId, w.id) && now <= w.at
    ensures Touched(OwnKeys(db.keys, user), OwnKeys(Apply(db, w).keys, user), now / SECOND, w.at / SECOND)
  {
    var before, after := OwnKeys(db.keys, user), OwnKeys(Apply(db, w).keys, user);
    if w.id == user {
      assert w.keyId in after && RowSecond(after[w.keyId]) == w.at / SECOND;
    } else {
      assert after == before;
    }
  }

  lemma IssueTouches(before: map<string, ApiKey>, after: map<string, ApiKey>, owner: string, user: string, k: string,
                     now: nat, later: nat)
    requires Replaced(before, after, owner, Truncated(now), k) && after[k].user == owner
    requires after[k].revokedAt == None && after[k].createdAt == Truncated(now) && now <= later
    ensures Touched(OwnKeys(before, user), OwnKeys(after, user), now / SECOND, later / SECOND)
  {
    TruncatedSecond(now);
    if owner == user {
      assert k in OwnKeys(after, user) && RowSecond(OwnKeys(after, user)[k]) == now / SECOND;
    } else {
      assert OwnKeys(after, user) == OwnKeys(before, user);
    }
  }

  lemma DeleteTouches(before: map<string, ApiKey>, id: string, user: string, from: nat, to: nat)
    requires OwnKeys(before, user).Keys <= OwnKeys(KeysNotOf(before, id), user).Keys
    ensures Touched(OwnKeys(before, user), OwnKeys(KeysNotOf(before, id), user), from, to)
  {
    assert OwnKeys(KeysNotOf(before, id), user) == OwnKeys(before, user);
  }

  lemma SameTouches(own: map<string, ApiKey>, from: nat, to: nat)
    ensures Touched(own, own, from, to)
  {
  }

  /** None of the user's rows is deleted. */
  predicate Retained(before: Tables, after: Tables, user: string) {
    OwnKeys(before.keys, user).Keys <= OwnKeys(after.keys, user).Keys
  }

  lemma StepTouches(prefix: string, registry: set<string>, db: Tables, t: Thread, e: Env, user: string)
    requires Fresh(db, t) && !t.Done? && LeavesKeys(e.hook) && e.now <= e.later
    requires Step(prefix, registry, db, t, e).writes != []
    requires Retained(db, ApplyAll(db, Step(prefix, registry, db, t, e).writes), user)
    ensures Touched(OwnKeys(db.keys, user), OwnKeys(ApplyAll(db, Step(prefix, registry, db, t, e).writes).keys, user),
                    e.now / SECOND, e.later / SECOND)
  {
    hide Step, LeavesKeys, Fresh, ApplyAll, Apply, ExpiryOf, Replaced, ExpiresAfter, LiveKeyOf, Touched, OwnKeys;
    var n := Step(prefix, registry, db, t, e);
    var after := ApplyAll(db, n.writes);
    if Public(t.req) {
      PublicStepIs(prefix, registry, db, t, e);
      var k, secret := IssueMints(prefix, db, t.req, e);
      IssueTouches(db.keys, after.keys, Recipient(db, t.req, e), user, k, e.now, e.later);
    } else if t.req.RevokeOwnKey? || t.req.RevokeUserKey? {
      RevokeWrites(prefix, registry, db, t, e);
      assert n.writes == [n.writes[0]];
      ApplyOne(db, n.writes[0]);
      RevokeTouches(db, n.writes[0], user, e.now, e.later);
    } else if t.req.RefreshOwnKey? {
      var secret := RefreshWrites(prefix, registry, db, t, e);
      ApplyOne(db, n.writes[0]);
      RefreshTouches(db, n.writes[0], user, e.now);
    } else if t.req.DeleteUser? {
      DeleteWrites(prefix, registry, db, t, e);
      DeleteTouches(db.keys, t.pc.id, user, e.now / SECOND, e.later / SECOND);
    } else {
      OthersLeaveKeys(prefix, registry, db, t, e);
      SameTouches(OwnKeys(db.keys, user), e.now / SECOND, e.later / SECOND);
    }
  }

  lemma ServeTouches(prefix: string, db: Tables, job: Job, user: string)
    requires LeavesKeys(job.e.hook) && job.e.now <= job.e.later && Retained(db, Serve(prefix, db, job).db, user)
    ensures Touched(OwnKeys(db.keys, user), OwnKeys(Serve(prefix, db, job).db.keys, user),
                    job.e.now / SECOND, job.e.later / SECOND)
  {
    hide Step, Finish, Writer, LeavesKeys, Fresh, Touched, OwnKeys;
    var t := Launched(job.token, job.req);
    LaunchedFresh(db, job.token, job.req);
    FinishIsOneStep(prefix, job.registry, db, t, job.e);
    var w := Writer(prefix, job.registry, db, t, job.e);
    if w.Done? {
      SameTouches(OwnKeys(db.keys, user), job.e.now / SECOND, job.e.later / SECOND);
    } else {
      StepTouches(prefix, job.registry, db, w, job.e, user);
    }
  }

  // ---- Runs ----

  /** Requests that change the user's rows fall in later seconds than every event before them. */
  ghost predicate Spaced(prefix: string, db: Tables, jobs: seq<Job>, user: string, bound: nat)
    decreases |jobs|
  {
    jobs != [] ==>
      var job := jobs[0]; var next := Serve(prefix, db, job).db;
      && job.e.now <= job.e.later && InRange(job.e.later) && LeavesKeys(job.e.hook) && Retained(db, next, user)
      && if OwnKeys(next.keys, user) == OwnKeys(db.keys, user) then Spaced(prefix, next, jobs[1..], user, bound)
         else bound < job.e.now / SECOND && Spaced(prefix, next, jobs[1..], user, job.e.later / SECOND)
  }

  ghost predicate Bounded(own: map<string, ApiKey>, bound: nat) { forall k :: k in own ==> RowSecond(own[k]) <= bound }

  /** Lexicographic, with no validator lowest. */
  predicate EtagLess(a: Option<(nat, nat)>, b: Option<(nat, nat)>) {
    b.Some? && (a.Some? ==> a.value.0 < b.value.0 || (a.value.0 == b.value.0 && a.value.1 < b.value.1))
  }

  lemma BoundedInRange(own: map<string, ApiKey>, bound: nat)
    requires Bounded(own, bound) && InRange(bound * SECOND)
    ensures AllInRange(own)
  {
    hide CivilOf;
    forall k | k in own ensures RowInRange(own[k]) {
      EarlierInRange(own[k].createdAt / SECOND, bound);
      if own[k].revokedAt.Some? { EarlierInRange(own[k].revokedAt.value / SECOND, bound); }
    }
  }

  lemma EarlierInRange(s: nat, bound: nat)
    requires s <= bound && InRange(bound * SECOND)
    ensures CivilOf(s).year <= 9999
  {
    hide CivilOf;
    assert bound * SECOND / SECOND == bound;
    if s < bound { CivilOrder(s, bound); }
  }

  lemma WholeSecondInRange(t: nat)
    requires InRange(t)
    ensures InRange(t / SECOND * SECOND)
  {
    assert t / SECOND * SECOND / SECOND == t / SECOND;
  }

  /** A request that changes the rows in a later second raises the validator. */
  lemma MutationRaises(before: map<string, ApiKey>, after: map<string, ApiKey>, bound: nat, from: nat, to: nat)
    requires Bounded(before, bound) && bound < from <= to && Touched(before, after, from, to) && after != before
    requires InRange(to * SECOND)
    ensures Bounded(after, to) && EtagLess(Etag(before), Etag(after))
  {
    hide Etag, RowSecond, InRange, AllInRange;
    BoundedInRange(after, to);
    var k :| k in after && from <= RowSecond(after[k]);
    var latest := EtagMeaning(after);
    if before != map[] {
      assert Bounded(before, to);
      BoundedInRange(before, to);
      var earlier := EtagMeaning(before);
    } else {
      assert Etag(before) == None by { EmptyEtag(); }
    }
  }

  lemma EmptyEtag()
    ensures Etag(map[]) == None
  {
  }

  lemma EtagLessTrans(a: Option<(nat, nat)>, b: Option<(nat, nat)>, c: Option<(nat, nat)>)
    requires EtagLess(a, b) && EtagLess(b, c)
    ensures EtagLess(a, c)
  {
  }

  /** Along any run of spaced requests the validator only rises, and it stays only while no row changes. */
  lemma {:induction false} EtagRises(prefix: string, db: Tables, jobs: seq<Job>, user: string, bound: nat)
    requires Spaced(prefix, db, jobs, user, bound) && Bounded(OwnKeys(db.keys, user), bound) && InRange(bound * SECOND)
    ensures var before, after := OwnKeys(db.keys, user), OwnKeys(ServeAll(prefix, db, jobs).keys, user);
            after == before || EtagLess(Etag(before), Etag(after))
    decreases |jobs|
  {
    hide Serve, LeavesKeys, Etag, OwnKeys, Touched, InRange, Bounded, EtagLess;
    if jobs != [] {
      var job := jobs[0];
      var next := Serve(prefix, db, job).db;
      var before, mid := OwnKeys(db.keys, user), OwnKeys(next.keys, user);
      if mid == before {
        EtagRises(prefix, next, jobs[1..], user, bound);
      } else {
        ServeTouches(prefix, db, job, user);
        WholeSecondInRange(job.e.later);
        MutationRaises(before, mid, bound, job.e.now / SECOND, job.e.later / SECOND);
        EtagRises(prefix, next, jobs[1..], user, job.e.later / SECOND);
        var after := OwnKeys(ServeAll(prefix, next, jobs[1..]).keys, user);
        if after != mid { EtagLessTrans(Etag(before), Etag(mid), Etag(after)); }
      }
    }
  }

  /** Hence equal validators at two points of a run mean an unchanged list: section 8.8.1 of RFC 9110 asks no
      more of a weak validator. */
  lemma SameEtagSameKeys(prefix: string, db: Tables, jobs: seq<Job>, user: string, bound: nat)
    requires Spaced(prefix, db, jobs, user, bound) && Bounded(OwnKeys(db.keys, user), bound) && InRange(bound * SECOND)
    requires Etag(OwnKeys(db.keys, user)) == Etag(OwnKeys(ServeAll(prefix, db, jobs).keys, user))
    ensures OwnKeys(ServeAll(prefix, db, jobs).keys, user) == OwnKeys(db.keys, user)
  {
    hide ServeAll, Spaced, Etag, OwnKeys, Bounded;
    EtagRises(prefix, db, jobs, user, bound);
  }

  // ---- Within one second ----

  lemma StrictSubsetSmaller(a: set<string>, b: set<string>)
    requires a < b
    ensures |a| < |b|
  {
    assert b == a + (b - a);
  }

  /** If the revoked rows are a larger set, the count tells. */
  lemma MoreRevokedShows(before: map<string, ApiKey>, after: map<string, ApiKey>)
    requires RevokedIds(before) < RevokedIds(after) && AllInRange(before) && AllInRange(after)
    ensures Etag(after) != Etag(before)
  {
    hide Etag, RowSecond, InRange, RowInRange;
    StrictSubsetSmaller(RevokedIds(before), RevokedIds(after));
    assert after != map[];
    var y := EtagMeaning(after);
    if before == map[] { EmptyEtag(); } else { var x := EtagMeaning(before); }
  }

  /** Revoking one live key of a table changes the validator whatever the clock says. */
  lemma RevocationAlwaysShows(own: map<string, ApiKey>, k: string, at: nat)
    requires k in own && own[k].revokedAt == None && AllInRange(own) && InRange(at)
    ensures Etag(own[k := own[k].(revokedAt := Some(at))]) != Etag(own)
  {
    hide Etag, InRange;
    var after := own[k := own[k].(revokedAt := Some(at))];
    assert RevokedIds(after) == RevokedIds(own) + {k};
    MoreRevokedShows(own, after);
  }

  /** The user's rows are there as long as the run lasts. */
  ghost predicate RowsStay(prefix: string, s: System, evs: seq<Event>, user: string)
    decreases |evs|
  {
    evs != [] ==>
      var next := Occur(prefix, s, evs[0]);
      Retained(s.db, next.db, user) && RowsStay(prefix, next, evs[1..], user)
  }

  lemma RevokedStay(before: Tables, after: Tables, user: string)
    requires Retained(before, after, user) && NotRevived(before, after, false)
    ensures RevokedIds(OwnKeys(before.keys, user)) <= RevokedIds(OwnKeys(after.keys, user))
  {
    forall k | k in RevokedIds(OwnKeys(before.keys, user)) ensures k in RevokedIds(OwnKeys(after.keys, user)) {
      assert k in OwnKeys(before.keys, user).Keys;
    }
  }

  lemma {:induction false} RevokedOnlyGrow(prefix: string, s: System, evs: seq<Event>, user: string)
    requires RowsStay(prefix, s, evs, user)
    requires forall i :: 0 <= i < |evs| && evs[i].Advance? ==> LeavesCredentials(evs[i].e.hook)
    ensures RevokedIds(OwnKeys(s.db.keys, user)) <= RevokedIds(OwnKeys(Run(prefix, s, evs).db.keys, user))
    decreases |evs|
  {
    hide Step, LeavesCredentials, Registered, Retained, RevokedIds, OwnKeys, NotRevived;
    if evs != [] {
      var ev := evs[0];
      var next := Occur(prefix, s, ev);
      if ev.Advance? && ev.tid in s.threads {
        StepRevivesNothing(prefix, s.registry, s.db, s.threads[ev.tid], ev.e);
        RevokedStay(s.db, next.db, user);
      }
      RevokedOnlyGrow(prefix, next, evs[1..], user);
    }
  }

  /** A revocation in the course of any interleaved run shows in the validator, whatever the clocks say and
      however the key came to be revoked. */
  lemma RevocationShows(prefix: string, s: System, evs: seq<Event>, user: string, k: string)
    requires RowsStay(prefix, s, evs, user)
    requires forall i :: 0 <= i < |evs| && evs[i].Advance? ==> LeavesCredentials(evs[i].e.hook)
    requires var before, after := OwnKeys(s.db.keys, user), OwnKeys(Run(prefix, s, evs).db.keys, user);
             && AllInRange(before) && AllInRange(after)
             && k in after && after[k].revokedAt.Some? && (k in before ==> before[k].revokedAt == None)
    ensures Etag(OwnKeys(Run(prefix, s, evs).db.keys, user)) != Etag(OwnKeys(s.db.keys, user))
  {
    hide Run, LeavesCredentials, RowsStay, OwnKeys, AllInRange, Etag;
    RevokedOnlyGrow(prefix, s, evs, user);
    var before, after := OwnKeys(s.db.keys, user), OwnKeys(Run(prefix, s, evs).db.keys, user);
    assert k in RevokedIds(after) && k !in RevokedIds(before);
    MoreRevokedShows(before, after);
  }

  /** A deletion changes no row it leaves; any other request leaves every row there. */
  lemma ServedRows(prefix: string, db: Tables, job: Job)
    requires LeavesCredentials(job.e.hook)
    ensures var after := Serve(prefix, db, job).db.keys;
            if job.req.DeleteUser? then forall k :: k in after ==> k in db.keys && after[k] == db.keys[k]
            else db.keys.Keys <= after.Keys
  {
    hide Step, Finish, Writer, LeavesKeys, LeavesPats, Fresh;
    var t := Launched(job.token, job.req);
    LaunchedFresh(db, job.token, job.req);
    FinishIsOneStep(prefix, job.registry, db, t, job.e);
    var w := Writer(prefix, job.registry, db, t, job.e);
    if !w.Done? {
      if job.req.DeleteUser? { DeleteWrites(prefix, job.registry, db, w, job.e); }
      else { StepKeepsRows(prefix, job.registry, db, w, job.e); }
    }
  }

  lemma StepKeepsRows(prefix: string, registry: set<string>, db: Tables, t: Thread, e: Env)
    requires !t.Done? && !t.req.DeleteUser? && LeavesCredentials(e.hook)
    ensures db.keys.Keys <= ApplyAll(db, Step(prefix, registry, db, t, e).writes).keys.Keys
  {
    hide Step, LeavesCredentials, AllAccepted;
    var ws := Step(prefix, registry, db, t, e).writes;
    StepShape(prefix, registry, db, t, e);
    StepHooks(prefix, registry, db, t, e);
    StepAccepted(prefix, registry, db, t, e);
    forall i | 0 <= i < |ws| ensures !Drops(ws[i]) { assert Fits(t.req, ws[i]); }
    ListKeeps(db, ws, false, e.usernameFirst);
  }

  /** One request, served whole: if it turns a live key of the user into a revoked one, alone or among others, the
      validator changes even within the second of the key's creation. */
  lemma ServedRevocationShows(prefix: string, db: Tables, job: Job, user: string, k: string)
    requires LeavesCredentials(job.e.hook)
    requires var before, after := OwnKeys(db.keys, user), OwnKeys(Serve(prefix, db, job).db.keys, user);
             && AllInRange(before) && AllInRange(after)
             && k in before && before[k].revokedAt == None && k in after && after[k].revokedAt.Some?
    ensures Etag(OwnKeys(Serve(prefix, db, job).db.keys, user)) != Etag(OwnKeys(db.keys, user))
  {
    hide Serve, LeavesCredentials, AllInRange, Etag, RevokedIds;
    var after := Serve(prefix, db, job).db;
    ServedRows(prefix, db, job);
    RevokedOnce(prefix, db, job);
    assert NotRevived(db, after, false);
    assert Retained(db, after, user);
    RevokedStay(db, after, user);
    NewlyRevoked(db, after, user, k);
    MoreRevokedShows(OwnKeys(db.keys, user), OwnKeys(after.keys, user));
  }

  lemma NewlyRevoked(before: Tables, after: Tables, user: string, k: string)
    requires var b, a := OwnKeys(before.keys, user), OwnKeys(after.keys, user);
             k in b && b[k].revokedAt == None && k in a && a[k].revokedAt.Some?
    ensures k in RevokedIds(OwnKeys(after.keys, user)) && k !in RevokedIds(OwnKeys(before.keys, user))
  {
  }
}
