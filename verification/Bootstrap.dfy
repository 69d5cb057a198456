/**
 Admin bootstrap: the first boot, the guard of later boots, and token rotation, over the
 stored hash and email and the token file that the operator deletes.
 */
module Bootstrap {
  import opened Wrappers
  import opened Auth
  import opened Database
  import opened Sampling
  import opened Schema
  import opened Text
  import opened Tokens

  const TOKEN_BYTES := 32

  /** What a run reads and writes. */
  datatype Site = Site(email: Option<string>, hash: Option<Hash>, file: Option<string>)

  datatype Result = Proceed | TokenGenerated | Failed

  datatype Fault = CheckHash | StatFile | StoreEmail | StoreHash | WriteFile

  /** A run's flags, random bytes and failures; a failed file write may have got some way. */
  datatype Boot = Boot(email: string, reset: bool, bytes: seq<byte>, faults: set<Fault>, written: Option<nat>)

  // ---- The token ----

  function HexDigit(n: nat): char
    requires n < 16
  {
    "0123456789abcdef"[n]
  }

  function Hex(bytes: seq<byte>): (s: string)
    ensures |s| == 2 * |bytes|
  {
    if bytes == [] then ""
    else [HexDigit(bytes[0] as nat / 16), HexDigit(bytes[0] as nat % 16)] + Hex(bytes[1..])
  }

  /** None when the random source runs dry. */
  function GeneratedToken(prefix: string, bytes: seq<byte>): Option<string> {
    if |bytes| < TOKEN_BYTES then None else Some(FormatAdmin(prefix, Hex(bytes[..TOKEN_BYTES])))
  }

  lemma {:induction false} HexIsHex(bytes: seq<byte>)
    ensures AllHex(Hex(bytes))
  {
    if bytes != [] {
      HexIsHex(bytes[1..]);
      assert IsHex(HexDigit(bytes[0] as nat / 16)) && IsHex(HexDigit(bytes[0] as nat % 16));
    }
  }

  /** Distinct random bytes give distinct tokens. */
  lemma {:induction false} HexInjective(a: seq<byte>, b: seq<byte>)
    requires Hex(a) == Hex(b)
    ensures a == b
  {
    if a != [] && b != [] {
      var s, t := Hex(a), Hex(b);
      assert s[2..] == Hex(a[1..]) && t[2..] == Hex(b[1..]);
      HexInjective(a[1..], b[1..]);
      assert s[0] == t[0] && s[1] == t[1];
      DigitInjective(a[0] as nat / 16, b[0] as nat / 16);
      DigitInjective(a[0] as nat % 16, b[0] as nat % 16);
      assert a == [a[0]] + a[1..] && b == [b[0]] + b[1..];
    }
  }

  lemma DigitInjective(m: nat, n: nat)
    requires m < 16 && n < 16 && HexDigit(m) == HexDigit(n)
    ensures m == n
  {
  }

  // ---- One run ----

  /** The file after a failed write: untouched, or truncated to what had been written. */
  function Torn(before: Option<string>, token: string, written: Option<nat>): Option<string> {
    match written
    case None => before
    case Some(n) => Some(if n <= |token| then token[..n] else token)
  }

  /** Storing a fresh hash and writing the file, common to first boot and rotation. */
  function Issue(prefix: string, s: Site, b: Boot): (Site, Result) {
    match GeneratedToken(prefix, b.bytes)
    case None => (s, Failed)
    case Some(token) =>
      if StoreHash in b.faults then (s, Failed)
      else
        var stored := s.(hash := Some(Sha256(token)));
        if WriteFile in b.faults then (stored.(file := Torn(s.file, token, b.written)), Failed)
        else (stored.(file := Some(token)), TokenGenerated)
  }

  function Outcome(prefix: string, s: Site, b: Boot): (Site, Result) {
    if b.reset then Issue(prefix, s, b)
    else if CheckHash in b.faults then (s, Failed)
    else if s.hash.Some? then (s, if s.file.Some? && StatFile !in b.faults then Failed else Proceed)
    else if b.email == "" || StoreEmail in b.faults then (s, Failed)
    else Issue(prefix, s.(email := Some(b.email)), b)
  }

  class Bootstrapper {
    const prefix: string
    const store: Store
    var file: Option<string>

    constructor (prefix: string, store: Store, file: Option<string>)
      ensures this.prefix == prefix && this.store == store && this.file == file
    {
      this.prefix, this.store, this.file := prefix, store, file;
    }

    function Contents(): Site
      reads this, store
    {
      Site(store.adminEmail, store.adminHash, file)
    }

    /** Everything a run leaves alone. */
    ghost function Rest(): Tables
      reads store
    {
      store.Contents().(adminEmail := None, adminHash := None)
    }

    method GenerateToken(bytes: seq<byte>) returns (token: Option<string>)
      ensures token == GeneratedToken(prefix, bytes)
    {
      var reader := new Reader(bytes);
      var ok, buf := reader.ReadFull(TOKEN_BYTES);
      if !ok {
        return None;
      }
      return Some(FormatAdmin(prefix, Hex(buf)));
    }

    method WriteTokenFile(token: string, b: Boot) returns (ok: bool)
      modifies this
      ensures ok <==> WriteFile !in b.faults
      ensures file == if ok then Some(token) else Torn(old(file), token, b.written)
    {
      if WriteFile in b.faults {
        file := Torn(file, token, b.written);
        return false;
      }
      file := Some(token);
      return true;
    }

    /** Generate, store the hash, write the file. */
    method IssueToken(b: Boot) returns (r: Result)
      modifies this, store
      ensures (Contents(), r) == Issue(prefix, old(Contents()), b) && Rest() == old(Rest())
    {
      var token := GenerateToken(b.bytes);
      if token == None || StoreHash in b.faults {
        return Failed;
      }
      store.adminHash := Some(Sha256(token.value));
      var ok := WriteTokenFile(token.value, b);
      return if ok then TokenGenerated else Failed;
    }

    method RunFirstBoot(b: Boot) returns (r: Result)
      requires !b.reset && CheckHash !in b.faults && store.adminHash == None
      modifies this, store
      ensures (Contents(), r) == Outcome(prefix, old(Contents()), b) && Rest() == old(Rest())
    {
      if b.email == "" || StoreEmail in b.faults {
        return Failed;
      }
      store.adminEmail := Some(b.email);
      r := IssueToken(b);
    }

    /** A failing stat counts as "no such file". */
    method RunSubsequentBoot(b: Boot) returns (r: Result)
      requires !b.reset && CheckHash !in b.faults && store.adminHash.Some?
      ensures (Contents(), r) == Outcome(prefix, Contents(), b)
    {
      if StatFile !in b.faults && file.Some? {
        return Failed;
      }
      return Proceed;
    }

    method Run(b: Boot) returns (r: Result)
      modifies this, store
      ensures (Contents(), r) == Outcome(prefix, old(Contents()), b) && Rest() == old(Rest())
    {
      if b.reset {
        r := IssueToken(b);
        return;
      }
      if CheckHash in b.faults {
        return Failed;
      }
      if store.adminHash.Some? {
        r := RunSubsequentBoot(b);
      } else {
        r := RunFirstBoot(b);
      }
    }
  }

  // ---- What a run guarantees ----

  /** The server starts exactly when no rotation was asked for, a hash is stored and no token file is seen. */
  lemma ProceedsExactlyWhen(prefix: string, s: Site, b: Boot)
    ensures Outcome(prefix, s, b).1 == Proceed
            <==> && !b.reset && CheckHash !in b.faults && s.hash.Some?
                 && (s.file == None || StatFile in b.faults)
    ensures Outcome(prefix, s, b).1 == Proceed ==> Outcome(prefix, s, b).0 == s
  {
  }

  predicate LowerHex(c: char) { '0' <= c <= '9' || 'a' <= c <= 'f' }

  function DigitValue(c: char): int { if '0' <= c <= '9' then c as int - 48 else c as int - 87 }

  /** Two lower-case hexadecimal digits for each of the first 32 bytes, the more significant one first. */
  predicate SpelledToken(prefix: string, bytes: seq<byte>, token: string) {
    && |bytes| >= 32 && |token| == |prefix| + 7 + 64 && prefix + "_admin_" <= token
    && forall i :: 0 <= i < 32 ==>
         var high, low := token[|prefix| + 7 + 2 * i], token[|prefix| + 7 + 2 * i + 1];
         LowerHex(high) && LowerHex(low) && DigitValue(high) * 16 + DigitValue(low) == bytes[i]
  }

  lemma {:induction false} HexDigitsAt(bytes: seq<byte>, i: nat)
    requires i < |bytes|
    ensures var s := Hex(bytes);
            && LowerHex(s[2 * i]) && LowerHex(s[2 * i + 1])
            && DigitValue(s[2 * i]) * 16 + DigitValue(s[2 * i + 1]) == bytes[i]
  {
    hide HexDigit, LowerHex, DigitValue;
    if i > 0 {
      HexDigitsAt(bytes[1..], i - 1);
    } else {
      DigitSpelled(bytes[0] as nat / 16);
      DigitSpelled(bytes[0] as nat % 16);
    }
  }

  lemma DigitSpelled(n: nat)
    requires n < 16
    ensures LowerHex(HexDigit(n)) && DigitValue(HexDigit(n)) == n
  {
  }

  lemma TokenSpelled(prefix: string, bytes: seq<byte>)
    requires |bytes| >= 32
    ensures GeneratedToken(prefix, bytes).Some? && SpelledToken(prefix, bytes, GeneratedToken(prefix, bytes).value)
  {
    var head, hex := prefix + "_admin_", Hex(bytes[..32]);
    var token := GeneratedToken(prefix, bytes).value;
    assert token == head + hex;
    forall i | 0 <= i < 32
      ensures token[|head| + 2 * i] == hex[2 * i] && token[|head| + 2 * i + 1] == hex[2 * i + 1]
      ensures LowerHex(hex[2 * i]) && LowerHex(hex[2 * i + 1])
      ensures DigitValue(hex[2 * i]) * 16 + DigitValue(hex[2 * i + 1]) == bytes[i]
    {
      HexDigitsAt(bytes[..32], i);
      hide Hex, LowerHex, DigitValue;
    }
  }

  /** The run mints a token: a rotation, or the first boot of a server that was given an admin email. */
  predicate Mints(s: Site, b: Boot) {
    b.reset || (CheckHash !in b.faults && s.hash == None && b.email != "" && StoreEmail !in b.faults)
  }

  /** The file after an attempt to write the token: all of it, or after a failure what there was or a part of it. */
  predicate WrittenFile(before: Option<string>, after: Option<string>, token: string, b: Boot) {
    if WriteFile !in b.faults then after == Some(token)
    else if b.written == None then after == before
    else
      && after.Some? && after.value <= token
      && |after.value| == if b.written.value < |token| then b.written.value else |token|
  }

  /** What every run answers and leaves. The email is stored by a first boot only, before the token is generated;
      the hash is stored before the file is written, so that a failed write leaves a hash nobody has the token of. */
  lemma RunAnswer(prefix: string, s: Site, b: Boot) returns (token: string)
    ensures var (after, r) := Outcome(prefix, s, b);
            && after.email == (if Mints(s, b) && !b.reset then Some(b.email) else s.email)
            && if Mints(s, b) && |b.bytes| >= 32 && StoreHash !in b.faults then
                 && SpelledToken(prefix, b.bytes, token) && after.hash == Some(Sha256(token))
                 && WrittenFile(s.file, after.file, token, b)
                 && r == if WriteFile in b.faults then Failed else TokenGenerated
               else
                 && after.hash == s.hash && after.file == s.file
                 && (r == Proceed || r == Failed)
                 && (r == Proceed <==> && !b.reset && CheckHash !in b.faults && s.hash != None
                                       && (s.file == None || StatFile in b.faults))
  {
    hide SpelledToken, Hex;
    token := "";
    if |b.bytes| >= 32 {
      TokenSpelled(prefix, b.bytes);
      token := GeneratedToken(prefix, b.bytes).value;
    }
  }

  predicate Accepts(prefix: string, db: Tables, now: nat, raw: string) {
    ValidateCredential(prefix, db, now, raw) == Authenticated(AdminAuth)
  }

  /** A stored hash of a printed admin token accepts that token and nothing else. */
  lemma StoredTokenIsTheOnlyOne(prefix: string, db: Tables, now: nat, bytes: seq<byte>, raw: string)
    requires |bytes| >= TOKEN_BYTES && db.adminHash == Some(Sha256(GeneratedToken(prefix, bytes).value))
    ensures Accepts(prefix, db, now, raw) <==> TrimBearer(raw) == GeneratedToken(prefix, bytes).value
  {
    var suffix := Hex(bytes[..TOKEN_BYTES]);
    HexIsHex(bytes[..TOKEN_BYTES]);
    AdminRoundTrip(prefix, suffix);
    ParseThenPrint(prefix, TrimBearer(raw));
  }

  /** A run that reports a token leaves it in the file, whole, and from then on that string is the
      administrator's and every other string is not. */
  lemma GeneratedTokenWorks(prefix: string, s: Site, b: Boot, db: Tables, now: nat, raw: string)
    requires Outcome(prefix, s, b).1 == TokenGenerated && db.adminHash == Outcome(prefix, s, b).0.hash
    ensures Outcome(prefix, s, b).0.file.Some?
    ensures Accepts(prefix, db, now, raw) <==> TrimBearer(raw) == Outcome(prefix, s, b).0.file.value
  {
    StoredTokenIsTheOnlyOne(prefix, db, now, b.bytes, raw);
  }

  // ---- Sequences of runs and deletions ----

  datatype Event = Start(boot: Boot) | DeleteFile

  function Happen(prefix: string, s: Site, ev: Event): Site {
    match ev
    case Start(b) => Outcome(prefix, s, b).0
    case DeleteFile => s.(file := None)
  }

  function After(prefix: string, s: Site, evs: seq<Event>): Site
    decreases |evs|
  {
    if evs == [] then s else After(prefix, Happen(prefix, s, evs[0]), evs[1..])
  }

  /** The random bytes of the token whose hash the run stores, if it gets that far. */
  function Minted(s: Site, b: Boot): Option<seq<byte>> {
    var issues := b.reset
                  || (CheckHash !in b.faults && s.hash == None && b.email != "" && StoreEmail !in b.faults);
    if issues && |b.bytes| >= TOKEN_BYTES && StoreHash !in b.faults then Some(b.bytes[..TOKEN_BYTES]) else None
  }

  /** The last such bytes in a sequence. */
  function LastMinted(prefix: string, s: Site, evs: seq<Event>, last: Option<seq<byte>>): Option<seq<byte>>
    decreases |evs|
  {
    if evs == [] then last
    else
      var next := if evs[0].Start? && Minted(s, evs[0].boot).Some? then Minted(s, evs[0].boot) else last;
      LastMinted(prefix, Happen(prefix, s, evs[0]), evs[1..], next)
  }

  function HashOf(prefix: string, bytes: Option<seq<byte>>): Option<Hash> {
    if bytes.Some? && GeneratedToken(prefix, bytes.value).Some? then Some(Sha256(GeneratedToken(prefix, bytes.value).value))
    else None
  }

  lemma {:induction false} HashIsLastMinted(prefix: string, s: Site, evs: seq<Event>, last: Option<seq<byte>>)
    requires s.hash == HashOf(prefix, last)
    ensures After(prefix, s, evs).hash == HashOf(prefix, LastMinted(prefix, s, evs, last))
    decreases |evs|
  {
    if evs != [] {
      var next := if evs[0].Start? && Minted(s, evs[0].boot).Some? then Minted(s, evs[0].boot) else last;
      if evs[0].Start? && Minted(s, evs[0].boot).Some? {
        assert next.value[..TOKEN_BYTES] == next.value;
      }
      HashIsLastMinted(prefix, Happen(prefix, s, evs[0]), evs[1..], next);
    }
  }

  /** Over any sequence of boots and deletions from a new installation, failed runs included, exactly one
      string is the administrator's: the last token whose hash was stored. Every earlier one is dead. */
  lemma AdminIsLastMinted(prefix: string, file: Option<string>, evs: seq<Event>, db: Tables, now: nat, raw: string)
    requires db.adminHash == After(prefix, Site(None, None, file), evs).hash
    ensures var last := LastMinted(prefix, Site(None, None, file), evs, None);
            Accepts(prefix, db, now, raw)
            <==> last.Some? && |last.value| == TOKEN_BYTES && TrimBearer(raw) == FormatAdmin(prefix, Hex(last.value))
  {
    hide After;
    var last := LastMinted(prefix, Site(None, None, file), evs, None);
    HashIsLastMinted(prefix, Site(None, None, file), evs, None);
    MintedLength(prefix, Site(None, None, file), evs, None);
    if last.Some? {
      assert last.value[..TOKEN_BYTES] == last.value;
      StoredTokenIsTheOnlyOne(prefix, db, now, last.value, raw);
    }
  }

  lemma {:induction false} MintedLength(prefix: string, s: Site, evs: seq<Event>, last: Option<seq<byte>>)
    requires last.Some? ==> |last.value| == TOKEN_BYTES
    ensures LastMinted(prefix, s, evs, last).Some? ==> |LastMinted(prefix, s, evs, last).value| == TOKEN_BYTES
    decreases |evs|
  {
    if evs != [] {
      var next := if evs[0].Start? && Minted(s, evs[0].boot).Some? then Minted(s, evs[0].boot) else last;
      MintedLength(prefix, Happen(prefix, s, evs[0]), evs[1..], next);
    }
  }

  /** Once a hash is stored it stays stored and the admin email is settled, whatever runs follow; without a
      rotation the hash itself stays, and the file only ever disappears. */
  lemma {:induction false} SettledAfterFirstBoot(prefix: string, s: Site, evs: seq<Event>)
    requires s.hash.Some?
    ensures After(prefix, s, evs).hash.Some? && After(prefix, s, evs).email == s.email
    ensures (forall i :: 0 <= i < |evs| && evs[i].Start? ==> !evs[i].boot.reset) ==>
              After(prefix, s, evs).hash == s.hash
              && (After(prefix, s, evs).file == s.file || After(prefix, s, evs).file == None)
    decreases |evs|
  {
    if evs != [] {
      SettledAfterFirstBoot(prefix, Happen(prefix, s, evs[0]), evs[1..]);
      if forall i :: 0 <= i < |evs| && evs[i].Start? ==> !evs[i].boot.reset {
        assert evs[0].Start? ==> !evs[0].boot.reset;
        assert forall i :: 0 <= i < |evs[1..]| && evs[1..][i].Start? ==> !evs[1..][i].boot.reset;
      }
    }
  }
}
