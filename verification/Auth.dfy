/**
 Credential validation: which strings authenticate, as whom, and at what time.
 Validation reads a credential row and then the owner's row; the two reads are
 separate statements, so they are separate functions here.
 */
module Auth {
  import opened Wrappers
  import opened Schema
  import opened Text
  import opened Tokens

  datatype AuthInfo =
    | NoAuth
    | AdminAuth
    | KeyAuth(user: string, role: Role, keyId: string)
    | PatAuth(user: string, role: Role, tokenId: string, perms: seq<string>)

  datatype AuthError = UnrecognizedToken | InvalidCredentials | CredentialRevoked | CredentialExpired
                     | UserBlocked | InternalError

  function StatusOf(e: AuthError): nat {
    match e
    case UserBlocked => 403
    case InternalError => 500
    case _ => 401
  }

  datatype AuthResult = Authenticated(info: AuthInfo) | Rejected(error: AuthError)

  /** The secret is compared before revocation and expiry, so that the state of a credential is
      only ever disclosed to a caller who holds its secret. An expiry instant itself still passes. */
  function CheckSecret(stored: Hash, secret: string, revokedAt: Option<nat>, expiresAt: Option<nat>, now: nat)
    : Option<AuthError>
  {
    if Sha256(secret) != stored then Some(InvalidCredentials)
    else if revokedAt.Some? then Some(CredentialRevoked)
    else if expiresAt.Some? && now > expiresAt.value then Some(CredentialExpired)
    else None
  }

  function CheckAdmin(prefix: string, db: Tables, suffix: string): AuthResult {
    if |suffix| != 64 || !AllHex(suffix) || db.adminHash == None then Rejected(InvalidCredentials)
    else if Some(Sha256(FormatAdmin(prefix, suffix))) != db.adminHash then Rejected(InvalidCredentials)
    else Authenticated(AdminAuth)
  }

  /** The first read. A key's or token's role is filled in by the second. */
  function CheckCredential(prefix: string, db: Tables, now: nat, raw: string): AuthResult {
    match ParseToken(prefix, TrimBearer(raw))
    case Unrecognized => Rejected(UnrecognizedToken)
    case AdminToken(suffix) => CheckAdmin(prefix, db, suffix)
    case ApiKeyToken(id, secret) =>
      if id !in db.keys then Rejected(InvalidCredentials)
      else
        var k := db.keys[id];
        (match CheckSecret(k.hash, secret, k.revokedAt, k.expiresAt, now)
         case Some(e) => Rejected(e)
         case None => Authenticated(KeyAuth(k.user, RegularUser, id)))
    case PatToken(id, secret) =>
      if id !in db.pats then Rejected(InvalidCredentials)
      else
        var p := db.pats[id];
        (match CheckSecret(p.hash, secret, p.revokedAt, p.expiresAt, now)
         case Some(e) => Rejected(e)
         case None => Authenticated(PatAuth(p.user, RegularUser, id, p.perms)))
  }

  /** Malformed tokens and admin tokens of the wrong shape are refused before any table is read. */
  predicate ReadsRow(prefix: string, raw: string) {
    match ParseToken(prefix, TrimBearer(raw))
    case Unrecognized => false
    case AdminToken(suffix) => |suffix| == 64 && AllHex(suffix)
    case _ => true
  }

  predicate NeedsOwner(info: AuthInfo) { info.KeyAuth? || info.PatAuth? }

  /** The second read: the owner must exist and not be blocked. */
  function CheckOwner(db: Tables, info: AuthInfo): AuthResult {
    if !NeedsOwner(info) then Authenticated(info)
    else if info.user !in db.users then Rejected(InternalError)
    else if db.users[info.user].status == Blocked then Rejected(UserBlocked)
    else Authenticated(info.(role := db.users[info.user].role))
  }

  function ValidateCredential(prefix: string, db: Tables, now: nat, raw: string): AuthResult {
    match CheckCredential(prefix, db, now, raw)
    case Rejected(e) => Rejected(e)
    case Authenticated(info) => CheckOwner(db, info)
  }

  // ---- Authorization ----

  /** Admin-level access never comes from a personal access token, whatever its owner's role. */
  predicate IsAdmin(info: AuthInfo) {
    info.AdminAuth? || (info.KeyAuth? && info.role == Administrator)
  }

  function UserOf(info: AuthInfo): string {
    if NeedsOwner(info) then info.user else ""
  }

  predicate HasPermission(info: AuthInfo, permission: string) {
    match info
    case NoAuth => false
    case AdminAuth => true
    case KeyAuth(_, _, _) => true
    case PatAuth(_, _, _, perms) => permission in perms
  }

  predicate WriteOrManageTokens(info: AuthInfo) {
    HasPermission(info, "tokens:write") || HasPermission(info, "tokens:manage")
  }

  // ---- What a successful validation means ----

  /** The exact condition under which an API key string authenticates, and as whom. */
  lemma ApiKeyAuthenticates(prefix: string, db: Tables, now: nat, id: string, secret: string)
    requires id != "" && '_' !in id && secret != "" && id != "admin" && id != "pat"
    requires TrimBearer(FormatApiKey(prefix, id, secret)) == FormatApiKey(prefix, id, secret)
    ensures ValidateCredential(prefix, db, now, FormatApiKey(prefix, id, secret)).Authenticated?
            <==> && id in db.keys && db.keys[id].hash == Sha256(secret) && db.keys[id].revokedAt == None
                 && (db.keys[id].expiresAt.Some? ==> now <= db.keys[id].expiresAt.value)
                 && db.keys[id].user in db.users && db.users[db.keys[id].user].status == Active
    ensures ValidateCredential(prefix, db, now, FormatApiKey(prefix, id, secret)).Authenticated?
            ==> ValidateCredential(prefix, db, now, FormatApiKey(prefix, id, secret)).info
                == KeyAuth(db.keys[id].user, db.users[db.keys[id].user].role, id)
  {
    ApiKeyRoundTrip(prefix, id, secret);
  }

  /** Likewise for a personal access token, which carries its row's permissions. */
  lemma PatAuthenticates(prefix: string, db: Tables, now: nat, id: string, secret: string)
    requires id != "" && '_' !in id && secret != ""
    requires TrimBearer(FormatPat(prefix, id, secret)) == FormatPat(prefix, id, secret)
    ensures ValidateCredential(prefix, db, now, FormatPat(prefix, id, secret)).Authenticated?
            <==> && id in db.pats && db.pats[id].hash == Sha256(secret) && db.pats[id].revokedAt == None
                 && (db.pats[id].expiresAt.Some? ==> now <= db.pats[id].expiresAt.value)
                 && db.pats[id].user in db.users && db.users[db.pats[id].user].status == Active
    ensures ValidateCredential(prefix, db, now, FormatPat(prefix, id, secret)).Authenticated?
            ==> ValidateCredential(prefix, db, now, FormatPat(prefix, id, secret)).info
                == PatAuth(db.pats[id].user, db.users[db.pats[id].user].role, id, db.pats[id].perms)
  {
    PatRoundTrip(prefix, id, secret);
  }

  /** With an injective hash the stored row fixes the whole token: two strings that authenticate with
      the same API key are equal up to the scheme word. */
  lemma SameKeySameToken(prefix: string, db: Tables, now: nat, now': nat, a: string, b: string)
    requires ValidateCredential(prefix, db, now, a).Authenticated?
    requires ValidateCredential(prefix, db, now', b).Authenticated?
    requires ValidateCredential(prefix, db, now, a).info.KeyAuth?
    requires ValidateCredential(prefix, db, now', b).info.KeyAuth?
    requires ValidateCredential(prefix, db, now, a).info.keyId == ValidateCredential(prefix, db, now', b).info.keyId
    ensures TrimBearer(a) == TrimBearer(b)
  {
    ParseThenPrint(prefix, TrimBearer(a));
    ParseThenPrint(prefix, TrimBearer(b));
  }

  /** Exactly one string, up to the scheme word, is an admin token. */
  lemma OneAdminToken(prefix: string, db: Tables, now: nat, now': nat, a: string, b: string)
    requires ValidateCredential(prefix, db, now, a) == Authenticated(AdminAuth)
    requires ValidateCredential(prefix, db, now', b) == Authenticated(AdminAuth)
    ensures TrimBearer(a) == TrimBearer(b)
  {
    ParseThenPrint(prefix, TrimBearer(a));
    ParseThenPrint(prefix, TrimBearer(b));
  }
}
