/**
 The words in which the answers of the handlers are stated, chosen apart from the
 functions the handlers are built of, and what ties the two together.
 */
module Terms {
  import opened Wrappers
  import opened Auth
  import opened Permissions
  import opened Requests
  import opened Runs
  import opened Sampling
  import opened Schema
  import opened Serving
  import opened Text
  import opened Timestamps

  /** The whole second an instant falls in. */
  function Second(t: nat): nat { t - t % 1_000_000_000 }

  lemma SecondIsTruncated(t: nat)
    ensures Truncated(t) == Second(t)
  {
  }

  /** Whole days of 24 hours after the second the instant falls in; nothing for no days. */
  function Expiry(from: nat, days: nat): Option<nat> {
    if days == 0 then None else Some(Second(from) + days * 24 * 3600 * 1_000_000_000)
  }

  /** The lifetime asked for, 90 days if none is. */
  function Lifetime(expires: Option<int>): int { match expires case None => 90 case Some(days) => days }

  predicate Offered(days: int) { days == 0 || days == 30 || days == 60 || days == 90 }

  lemma ExpiryIs(from: nat, days: nat)
    ensures ExpiryOf(from, days) == Expiry(from, days)
  {
    ShiftKeepsFraction(from, days * 86_400);
  }

  lemma {:induction false} ShiftKeepsFraction(t: nat, seconds: nat)
    ensures (t + seconds * 1_000_000_000) % 1_000_000_000 == t % 1_000_000_000
    decreases seconds
  {
    if seconds > 0 { ShiftKeepsFraction(t + 1_000_000_000, seconds - 1); }
  }

  // ---- What is drawn ----

  const LETTERS36 := "abcdefghijklmnopqrstuvwxyz" + "0123456789"
  const LETTERS62 := "0123456789" + "ABCDEFGHIJKLMNOPQRSTUVWXYZ" + "abcdefghijklmnopqrstuvwxyz"
  const LOGIN_LETTERS := "abcdefghijklmnopqrstuvwxyz" + "ABCDEFGHIJKLMNOPQRSTUVWXYZ" + "0123456789"

  /** So many letters for the first acceptable bytes of the stream: in tokens, in keys, and in keys of a login. */
  function TokenText(n: nat, stream: seq<byte>): Draw { Sample(Letters(LETTERS36), n, stream) }

  function KeyText(n: nat, stream: seq<byte>): Draw { Sample(Letters(LETTERS62), n, stream) }

  function LoginText(n: nat, stream: seq<byte>): Draw { Sample(Letters(LOGIN_LETTERS), n, stream) }

  lemma Alphabets()
    ensures TOKEN_ALPHABET == LETTERS36 && KEYS_CHARSET == LETTERS62 && OAUTH_CHARSET == LOGIN_LETTERS
  {
  }

  lemma TokenTextIs(n: nat, stream: seq<byte>)
    ensures TokenText(n, stream) == Sample(Letters(TOKEN_ALPHABET), n, stream)
  {
    hide Sample;
    Alphabets();
  }

  lemma KeyTextIs(n: nat, stream: seq<byte>)
    ensures KeyText(n, stream) == Sample(Letters(KEYS_CHARSET), n, stream)
  {
    hide Sample;
    Alphabets();
  }

  lemma LoginTextIs(n: nat, stream: seq<byte>)
    ensures LoginText(n, stream) == Sample(Letters(OAUTH_CHARSET), n, stream)
  {
    hide Sample;
    Alphabets();
  }

  // ---- Text ----

  /** resource:action, with a single colon. */
  ghost predicate OneColon(p: string) { exists a, b: string :: p == a + ":" + b && ':' !in a && ':' !in b }

  lemma {:induction false} CountZero(p: string)
    ensures Count(p, ':') == 0 <==> ':' !in p
  {
    if p != "" { CountZero(p[1..]); }
  }

  lemma OneColonMeaning(p: string)
    ensures WellFormed(p) <==> OneColon(p)
  {
    if WellFormed(p) {
      var (a, b) := SplitColon(p);
      ColonCount(a, b);
      CountZero(a);
      CountZero(b);
    }
    if OneColon(p) {
      var a, b: string :| p == a + ":" + b && ':' !in a && ':' !in b;
      ColonCount(a, b);
      CountZero(a);
      CountZero(b);
    }
  }

  lemma ColonCount(a: string, b: string)
    ensures Count(a + ":" + b, ':') == Count(a, ':') + 1 + Count(b, ':')
  {
    CountConcat(a + ":", b, ':');
    CountConcat(a, ":", ':');
  }

  predicate SameLetter(a: char, b: char) {
    a == b || ('a' <= a <= 'z' && b as int == a as int - 32) || ('a' <= b <= 'z' && a as int == b as int - 32)
  }

  /** Equal up to the case of ASCII letters. */
  predicate SameButForCase(a: string, b: string) {
    |a| == |b| && forall i :: 0 <= i < |a| ==> SameLetter(a[i], b[i])
  }

  lemma EqualFoldMeaning(a: string, b: string)
    ensures EqualFold(a, b) <==> SameButForCase(a, b)
  {
    var u, v := Upper(a), Upper(b);
    if |a| == |b| {
      forall i | 0 <= i < |a| ensures u[i] == v[i] <==> SameLetter(a[i], b[i]) {
        assert u[i] == UpperChar(a[i]) && v[i] == UpperChar(b[i]);
      }
      assert u == v <==> forall i :: 0 <= i < |a| ==> u[i] == v[i];
    }
  }

  const SPACES := " \t\n\U{000B}\U{000C}\r\U{0085}\U{00A0}\U{1680}\U{2000}\U{2001}\U{2002}\U{2003}\U{2004}\U{2005}"
                  + "\U{2006}\U{2007}\U{2008}\U{2009}\U{200A}\U{2028}\U{2029}\U{202F}\U{205F}\U{3000}"

  predicate AllSpaces(s: string) { forall i :: 0 <= i < |s| ==> s[i] in SPACES }

  lemma SpacesAreSpaces(c: char)
    ensures IsSpace(c) <==> c in SPACES
  {
  }

  predicate Trimmed(s: string, before: string, t: string, after: string) {
    && s == before + t + after && AllSpaces(before) && AllSpaces(after)
    && (t != "" ==> t[0] !in SPACES && t[|t| - 1] !in SPACES)
  }

  lemma TrimmedFront(c: char, s: string, before: string, t: string, after: string)
    requires c in SPACES && Trimmed(s, before, t, after)
    ensures Trimmed([c] + s, [c] + before, t, after)
  {
    hide SPACES;
    assert [c] + (before + t + after) == ([c] + before) + t + after;
  }

  lemma TrimmedBack(c: char, s: string, before: string, t: string, after: string)
    requires c in SPACES && Trimmed(s, before, t, after)
    ensures Trimmed(s + [c], before, t, after + [c])
  {
    hide SPACES;
    assert (before + t + after) + [c] == before + t + (after + [c]);
  }

  /** What TrimSpace takes off is white space, and it leaves none at either end. */
  lemma {:induction false} TrimMeaning(s: string) returns (before: string, after: string)
    ensures Trimmed(s, before, TrimSpace(s), after)
    decreases |s|
  {
    hide SPACES, AllSpaces, IsSpace;
    before, after := "", "";
    if s == "" {
      NothingTrimmed(s);
    } else {
      SpacesAreSpaces(s[0]);
      SpacesAreSpaces(s[|s| - 1]);
      if IsSpace(s[0]) {
        before, after := TrimMeaning(s[1..]);
        TrimmedFront(s[0], s[1..], before, TrimSpace(s), after);
        assert s == [s[0]] + s[1..];
        before := [s[0]] + before;
      } else if IsSpace(s[|s| - 1]) {
        before, after := TrimMeaning(s[..|s| - 1]);
        TrimmedBack(s[|s| - 1], s[..|s| - 1], before, TrimSpace(s), after);
        assert s == s[..|s| - 1] + [s[|s| - 1]];
        after := after + [s[|s| - 1]];
      } else {
        NothingTrimmed(s);
      }
    }
  }

  lemma NothingTrimmed(s: string)
    requires s != "" ==> s[0] !in SPACES && s[|s| - 1] !in SPACES
    ensures Trimmed(s, "", s, "")
  {
    hide SPACES;
  }

  /** A blank string is one of nothing but white space. */
  lemma BlankMeaning(s: string)
    ensures TrimSpace(s) == "" <==> AllSpaces(s)
  {
    hide SPACES, TrimSpace;
    var before, after := TrimMeaning(s);
    if TrimSpace(s) != "" { assert s[|before|] == TrimSpace(s)[0]; }
  }

  // ---- Selectors ----

  predicate HexDigits(s: string, i: nat, j: nat) {
    i <= j <= |s| && forall k :: i <= k < j ==> '0' <= s[k] <= '9' || 'a' <= s[k] <= 'f' || 'A' <= s[k] <= 'F'
  }

  /** 8-4-4-4-12 hexadecimal digits. */
  predicate Dashed(s: string) {
    && |s| == 36 && s[8] == s[13] == s[18] == s[23] == '-'
    && HexDigits(s, 0, 8) && HexDigits(s, 9, 13) && HexDigits(s, 14, 18) && HexDigits(s, 19, 23) && HexDigits(s, 24, 36)
  }

  lemma DashedMeaning(s: string)
    ensures Dashed(s) <==> StripDashes(s) != "" && AllHex(StripDashes(s))
  {
    if |s| == 36 && s[8] == '-' && s[13] == '-' && s[18] == '-' && s[23] == '-' {
      var h := StripDashes(s);
      assert h == s[..8] + s[9..13] + s[14..18] + s[19..23] + s[24..];
      if AllHex(h) {
        forall k | 0 <= k < 36 && k != 8 && k != 13 && k != 18 && k != 23 ensures IsHex(s[k]) {
          var j := if k < 8 then k else if k < 13 then k - 1 else if k < 18 then k - 2 else if k < 23 then k - 3 else k - 4;
          assert h[j] == s[k];
        }
      }
      if Dashed(s) {
        forall c | c in h ensures IsHex(c) {
          assert c in s[..8] || c in s[9..13] || c in s[14..18] || c in s[19..23] || c in s[24..];
        }
      }
    }
  }

  lemma EachHex(s: string)
    ensures AllHex(s) <==> forall k :: 0 <= k < |s| ==> IsHex(s[k])
  {
    if AllHex(s) { forall k | 0 <= k < |s| ensures IsHex(s[k]) { assert s[k] in s; } }
  }

  /** The four shapes of a UUID: plain, URN, in braces of any kind, and bare digits. */
  lemma UuidForms(s: string)
    ensures IsUuid(s) <==>
            || Dashed(s)
            || (|s| == 45 && SameButForCase(s[..9], "urn:uuid:") && Dashed(s[9..]))
            || (|s| == 38 && Dashed(s[1..37]))
            || (|s| == 32 && HexDigits(s, 0, 32))
  {
    hide StripDashes;
    DashedMeaning(s);
    if |s| == 45 {
      EqualFoldMeaning(s[..9], "urn:uuid:");
      DashedMeaning(s[9..]);
    } else if |s| == 38 {
      DashedMeaning(s[1..37]);
    } else if |s| == 32 {
      assert AllHex(s) <==> forall k :: 0 <= k < 32 ==> IsHex(s[k]) by { EachHex(s); }
    }
  }

  /** The row a user selector names: by id, by email if there is an at sign, else by username. */
  ghost predicate Names(db: Tables, sel: string, id: string) {
    && id in db.users
    && if IsUuid(sel) then id == sel
       else if '@' in sel then db.users[id].email == sel
       else db.users[id].username == sel
  }

  /** For organizations: by id, else by slug. */
  ghost predicate NamesOrganization(db: Tables, sel: string, id: string) {
    id in db.orgs && if IsUuid(sel) then id == sel else db.orgs[id].slug == sel
  }

  lemma NamesIsSelects(db: Tables, sel: string, id: string)
    ensures Names(db, sel, id) <==> SelectsUser(db, UserSelector(sel), id)
    ensures NamesOrganization(db, sel, id) <==> SelectsOrg(db, OrgSelector(sel), id)
  {
    hide IsUuid;
  }

  lemma NamedIsResolved(db: Tables, sel: string, id: string)
    requires UniqueUsers(db.users) && Names(db, sel, id)
    ensures ResolveUser(db, UserSelector(sel)) == Some(id)
  {
    hide IsUuid;
    NamesIsSelects(db, sel, id);
    var found := ResolveUser(db, UserSelector(sel)).value;
    NamesIsSelects(db, sel, found);
  }

  lemma NobodyIsResolved(db: Tables, sel: string)
    requires forall id :: !Names(db, sel, id)
    ensures ResolveUser(db, UserSelector(sel)) == None
  {
    hide IsUuid, UserSelector, Names, SelectsUser;
    forall id ensures !SelectsUser(db, UserSelector(sel), id) { NamesIsSelects(db, sel, id); }
  }

  lemma OrganizationIsResolved(db: Tables, sel: string, id: string)
    requires UniqueOrgs(db.orgs) && NamesOrganization(db, sel, id)
    ensures ResolveOrg(db, OrgSelector(sel)) == Some(id)
  {
    hide IsUuid;
    NamesIsSelects(db, sel, id);
    var found := ResolveOrg(db, OrgSelector(sel)).value;
    NamesIsSelects(db, sel, found);
  }

  lemma NoOrganizationIsResolved(db: Tables, sel: string)
    requires forall id :: !NamesOrganization(db, sel, id)
    ensures ResolveOrg(db, OrgSelector(sel)) == None
  {
    hide IsUuid, OrgSelector, NamesOrganization, SelectsOrg;
    forall id ensures !SelectsOrg(db, OrgSelector(sel), id) { NamesIsSelects(db, sel, id); }
  }

  // ---- Callers ----

  /** The bearer string authenticates, when the request comes in, as this. */
  ghost predicate Caller(prefix: string, db: Tables, job: Job, info: AuthInfo) {
    ValidateCredential(prefix, db, job.e.now, job.token) == Authenticated(info)
  }

  /** The admin token, or an API key of an administrator; never a personal access token. */
  predicate Administers(db: Tables, info: AuthInfo) {
    info.AdminAuth? || (info.KeyAuth? && info.user in db.users && db.users[info.user].role == Administrator)
  }

  /** A personal access token whose stored list does not have the permission. */
  predicate Lacks(db: Tables, info: AuthInfo, permission: string) {
    info.PatAuth? && info.tokenId in db.pats && permission !in db.pats[info.tokenId].perms
  }

  /** Whose credential it is; the admin token is nobody's. */
  function CallerId(info: AuthInfo): string { if info.KeyAuth? || info.PatAuth? then info.user else "" }

  /** What an authenticated caller is, in terms of the rows. */
  lemma CallerRows(prefix: string, db: Tables, job: Job, info: AuthInfo)
    requires Caller(prefix, db, job, info)
    ensures !info.NoAuth?
    ensures info.KeyAuth? || info.PatAuth? ==>
              info.user in db.users && db.users[info.user].status == Active && info.role == db.users[info.user].role
    ensures info.KeyAuth? ==> info.keyId in db.keys && db.keys[info.keyId].user == info.user
                              && db.keys[info.keyId].revokedAt == None
    ensures info.PatAuth? ==> && info.tokenId in db.pats && db.pats[info.tokenId].user == info.user
                              && db.pats[info.tokenId].perms == info.perms && db.pats[info.tokenId].revokedAt == None
    ensures IsAdmin(info) <==> Administers(db, info)
    ensures UserOf(info) == CallerId(info)
    ensures forall p :: HasPermission(info, p) <==> !Lacks(db, info, p)
  {
  }

  /** With no statement failing, an authenticated request reaches its handler on the tables as they are. */
  lemma Admitted(prefix: string, db: Tables, job: Job, info: AuthInfo)
    requires Caller(prefix, db, job, info) && job.e.faults == {} && !Public(job.req)
    ensures Serve(prefix, db, job) == Finish(prefix, job.registry, db, At(info, job.req, Enter), job.e)
  {
    hide StepHandler, CheckCredential, CheckOwner, Finish;
    var t := Start(job.token, job.req);
    Proceed(prefix, job.registry, db, t, job.e);
    var r := CheckCredential(prefix, db, job.e.now, job.token);
    if NeedsOwner(r.info) {
      Proceed(prefix, job.registry, db, Owner(r.info, job.req), job.e);
    } else {
      NoOwnerNeeded(db, r.info);
    }
  }

  lemma NoOwnerNeeded(db: Tables, info: AuthInfo)
    ensures !NeedsOwner(info) ==> CheckOwner(db, info) == Authenticated(info)
  {
  }

  /** A bearer string that does not authenticate gets 401, or 403 when it is a blocked user's, or 500 when its owner
      is missing; and nothing happens. */
  lemma Unauthenticated(prefix: string, db: Tables, job: Job)
    requires ValidateCredential(prefix, db, job.e.now, job.token).Rejected? && job.e.faults == {} && !Public(job.req)
    ensures var error := ValidateCredential(prefix, db, job.e.now, job.token).error;
            Serve(prefix, db, job)
            == Outcome(db, if error == UserBlocked then 403 else if error == InternalError then 500 else 401, "")
  {
    hide StepHandler, CheckCredential, CheckOwner, Finish;
    Proceed(prefix, job.registry, db, Start(job.token, job.req), job.e);
    var r := CheckCredential(prefix, db, job.e.now, job.token);
    if r.Authenticated? && NeedsOwner(r.info) {
      Proceed(prefix, job.registry, db, Owner(r.info, job.req), job.e);
    } else if r.Authenticated? {
      NoOwnerNeeded(db, r.info);
    }
  }
}
