/**
 Whom a bearer string speaks for, in terms of the string and the rows, and what a string
 that speaks for nobody is answered.
 */
module Callers {
  import opened Wrappers
  import opened Auth
  import opened Requests
  import opened Runs
  import opened Schema
  import opened Serving
  import opened Terms
  import opened Tokens
  import opened Transactions

  /** What a string claims to be. */
  datatype Claim = AdminClaim(hex: string) | KeyClaim(k: string, secret: string) | PatClaim(k: string, secret: string)

  /** The text, behind at most one scheme word. */
  predicate Carries(raw: string, text: string) {
    raw == "Bearer " + text || (raw == text && !("Bearer " <= raw))
  }

  predicate Claims(prefix: string, raw: string, claim: Claim) {
    match claim
    case AdminClaim(hex) => Carries(raw, prefix + "_admin_" + hex)
    case KeyClaim(k, secret) =>
      && Carries(raw, prefix + "_" + k + "_" + secret)
      && k != "" && '_' !in k && k != "admin" && k != "pat" && secret != ""
    case PatClaim(k, secret) => Carries(raw, prefix + "_pat_" + k + "_" + secret) && k != "" && '_' !in k && secret != ""
  }

  /** Why a stored credential is refused. The state of a credential shows only to who holds its secret. */
  function Objection(hash: Hash, secret: string, revokedAt: Option<nat>, expiresAt: Option<nat>, now: nat)
    : Option<AuthError>
  {
    if hash.preimage != secret then Some(InvalidCredentials)
    else if revokedAt != None then Some(CredentialRevoked)
    else if expiresAt != None && expiresAt.value < now then Some(CredentialExpired)
    else None
  }

  /** A credential in force is as good as its owner. */
  function OwnerStanding(db: Tables, user: string, info: AuthInfo): AuthResult {
    if user !in db.users then Rejected(InternalError)
    else if db.users[user].status == Active then Authenticated(info)
    else Rejected(UserBlocked)
  }

  function RoleOf(db: Tables, user: string): Role { if user in db.users then db.users[user].role else RegularUser }

  function Standing(prefix: string, db: Tables, now: nat, claim: Claim): AuthResult {
    match claim
    case AdminClaim(hex) =>
      if |hex| == 64 && HexDigits(hex, 0, 64) && db.adminHash == Some(Sha256(prefix + "_admin_" + hex)) then
        Authenticated(AdminAuth)
      else Rejected(InvalidCredentials)
    case KeyClaim(k, secret) =>
      if k !in db.keys then Rejected(InvalidCredentials)
      else
        var row := db.keys[k];
        (match Objection(row.hash, secret, row.revokedAt, row.expiresAt, now)
         case Some(error) => Rejected(error)
         case None => OwnerStanding(db, row.user, KeyAuth(row.user, RoleOf(db, row.user), k)))
    case PatClaim(k, secret) =>
      if k !in db.pats then Rejected(InvalidCredentials)
      else
        var row := db.pats[k];
        (match Objection(row.hash, secret, row.revokedAt, row.expiresAt, now)
         case Some(error) => Rejected(error)
         case None => OwnerStanding(db, row.user, PatAuth(row.user, RoleOf(db, row.user), k, row.perms)))
  }

  lemma CarriedIsTrimmed(raw: string, text: string)
    ensures Carries(raw, text) <==> TrimBearer(raw) == text
  {
    if "Bearer " <= raw { assert raw == "Bearer " + raw[7..]; }
    assert ("Bearer " + text)[7..] == text;
  }

  /** A string is what it claims to be, no more and no less. */
  lemma WhoCalls(prefix: string, db: Tables, now: nat, raw: string, claim: Claim)
    requires Claims(prefix, raw, claim)
    ensures ValidateCredential(prefix, db, now, raw) == Standing(prefix, db, now, claim)
  {
    hide TrimBearer, ParseToken, Carries;
    match claim
    case AdminClaim(hex) =>
      CarriedIsTrimmed(raw, FormatAdmin(prefix, hex));
      AdminRoundTrip(prefix, hex);
      EachHex(hex);
    case KeyClaim(k, secret) =>
      CarriedIsTrimmed(raw, FormatApiKey(prefix, k, secret));
      ApiKeyRoundTrip(prefix, k, secret);
    case PatClaim(k, secret) =>
      CarriedIsTrimmed(raw, FormatPat(prefix, k, secret));
      PatRoundTrip(prefix, k, secret);
  }

  lemma RecognizedClaims(prefix: string, raw: string)
    ensures ParseToken(prefix, TrimBearer(raw)) == Unrecognized || exists claim :: Claims(prefix, raw, claim)
  {
    hide TrimBearer, ParseToken, Carries;
    var text := TrimBearer(raw);
    CarriedIsTrimmed(raw, text);
    ParseThenPrint(prefix, text);
    match ParseToken(prefix, text) {
      case AdminToken(hex) => assert Claims(prefix, raw, AdminClaim(hex));
      case ApiKeyToken(k, secret) =>
        ApiKeyRoundTrip(prefix, k, secret);
        assert Claims(prefix, raw, KeyClaim(k, secret));
      case PatToken(k, secret) =>
        PatRoundTrip(prefix, k, secret);
        assert Claims(prefix, raw, PatClaim(k, secret));
      case Unrecognized =>
    }
  }

  /** Every other string is unrecognized. */
  lemma NobodyCalls(prefix: string, db: Tables, now: nat, raw: string)
    requires forall claim :: !Claims(prefix, raw, claim)
    ensures ValidateCredential(prefix, db, now, raw) == Rejected(UnrecognizedToken)
  {
    hide TrimBearer, ParseToken, Claims;
    RecognizedClaims(prefix, raw);
  }

  /** A credential that is not in force is answered 401 on every route, one of a blocked user 403, and one whose
      owner is missing 500. */
  lemma RefusedServed(prefix: string, db: Tables, job: Job, claim: Claim)
    requires job.e.faults == {} && !Public(job.req) && Claims(prefix, job.token, claim)
    requires Standing(prefix, db, job.e.now, claim).Rejected?
    ensures var error := Standing(prefix, db, job.e.now, claim).error;
            Serve(prefix, db, job)
            == Outcome(db, match error case UserBlocked => 403 case InternalError => 500 case _ => 401, "")
  {
    hide Serve, ValidateCredential, Claims, Standing;
    WhoCalls(prefix, db, job.e.now, job.token, claim);
    Unauthenticated(prefix, db, job);
  }

  lemma NobodyServed(prefix: string, db: Tables, job: Job)
    requires job.e.faults == {} && !Public(job.req) && forall claim :: !Claims(prefix, job.token, claim)
    ensures Serve(prefix, db, job) == Outcome(db, 401, "")
  {
    hide Serve, ValidateCredential, Claims;
    NobodyCalls(prefix, db, job.e.now, job.token);
    Unauthenticated(prefix, db, job);
  }

  /** Between the two reads the owner may have gone, been blocked or changed role: what counts is the second read. */
  lemma OwnerReadLast(prefix: string, registry: set<string>, db: Tables, info: AuthInfo, req: Request, e: Env)
    requires (info.KeyAuth? || info.PatAuth?) && e.faults == {}
    ensures Finish(prefix, registry, db, Owner(info, req), e)
            == if info.user !in db.users then Outcome(db, 500, "")
               else if db.users[info.user].status == Blocked then Outcome(db, 403, "")
               else Finish(prefix, registry, db, At(info.(role := db.users[info.user].role), req, Enter), e)
  {
    hide Finish, StepHandler;
    Proceed(prefix, registry, db, Owner(info, req), e);
  }
}
