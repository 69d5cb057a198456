/**
 The three printed credential forms and the two parsers that read them back.
 The prefix is configurable at build time, so everything here holds for any
 prefix, including prefixes that themselves contain underscores.
 */
module Tokens {
  import opened Wrappers

  datatype Parsed =
    | AdminToken(suffix: string)
    | ApiKeyToken(id: string, secret: string)
    | PatToken(id: string, secret: string)
    | Unrecognized

  function FormatApiKey(prefix: string, id: string, secret: string): string {
    prefix + "_" + id + "_" + secret
  }

  function FormatPat(prefix: string, id: string, secret: string): string {
    prefix + "_pat_" + id + "_" + secret
  }

  function FormatAdmin(prefix: string, hex: string): string {
    prefix + "_admin_" + hex
  }

  /** The position of the first underscore, or |s| when there is none. */
  function FirstUnderscore(s: string): (i: nat)
    ensures i <= |s| && '_' !in s[..i]
    ensures i < |s| ==> s[i] == '_'
  {
    if s == "" || s[0] == '_' then 0 else
      var i := FirstUnderscore(s[1..]) + 1;
      assert s[..i] == [s[0]] + s[1..][..i - 1];
      i
  }

  function SplitCredential(remainder: string): Option<(string, string)> {
    var i := FirstUnderscore(remainder);
    if i == 0 || i >= |remainder| - 1 then None
    else Some((remainder[..i], remainder[i + 1..]))
  }

  function ParseToken(prefix: string, token: string): Parsed {
    if prefix + "_admin_" <= token then
      AdminToken(token[|prefix| + 7..])
    else if prefix + "_pat_" <= token then
      match SplitCredential(token[|prefix| + 5..])
      case None => Unrecognized
      case Some((id, secret)) => PatToken(id, secret)
    else if prefix + "_" <= token then
      match SplitCredential(token[|prefix| + 1..])
      case None => Unrecognized
      case Some((id, secret)) => ApiKeyToken(id, secret)
    else
      Unrecognized
  }

  /** strings.TrimPrefix(rawToken, "Bearer "): at most one scheme word is removed. */
  function TrimBearer(raw: string): string {
    if "Bearer " <= raw then raw[7..] else raw
  }

  lemma FirstUnderscoreAfter(a: string, b: string)
    requires '_' !in a
    ensures FirstUnderscore(a + "_" + b) == |a|
  {
    assert (a + "_" + b)[|a|] == '_';
  }

  /** SplitCredential undoes "id_secret" exactly for non-empty parts and an underscore-free id. */
  lemma SplitUndoesJoin(id: string, secret: string)
    ensures SplitCredential(id + "_" + secret) == Some((id, secret))
            <==> id != "" && '_' !in id && secret != ""
  {
    var s := id + "_" + secret;
    if '_' !in id {
      FirstUnderscoreAfter(id, secret);
      assert s[..|id|] == id;
      assert s[|id| + 1..] == secret;
    } else {
      var k :| 0 <= k < |id| && id[k] == '_';
      assert s[k] == '_';
      assert FirstUnderscore(s) <= k;
    }
  }

  lemma SplitRejoins(s: string)
    requires SplitCredential(s).Some?
    ensures s == SplitCredential(s).value.0 + "_" + SplitCredential(s).value.1
    ensures SplitCredential(s).value.0 != "" && '_' !in SplitCredential(s).value.0
    ensures SplitCredential(s).value.1 != ""
  {
  }

  lemma PrefixDrops(p: string, s: string, r: string)
    requires p <= s
    ensures r <= s[|p|..] <==> p + r <= s
  {
    if r <= s[|p|..] {
      assert s == p + s[|p|..];
      assert p + r <= s;
    }
    if p + r <= s {
      assert s[..|p + r|] == p + r;
      assert s[|p|..][..|r|] == (p + r)[|p|..] == r;
    }
  }

  /** A printed API key reads back as itself exactly when its parts are non-empty, its id has no
      underscore, and its id is not one of the two words that mark the other kinds. */
  lemma ApiKeyRoundTrip(prefix: string, id: string, secret: string)
    ensures ParseToken(prefix, FormatApiKey(prefix, id, secret)) == ApiKeyToken(id, secret)
            <==> id != "" && '_' !in id && secret != "" && id != "admin" && id != "pat"
  {
    hide SplitCredential;
    var t := FormatApiKey(prefix, id, secret);
    var p := prefix + "_";
    var rest := id + "_" + secret;
    assert t == p + rest;
    assert t[|p|..] == rest;
    assert prefix + "_admin_" == p + "admin_";
    assert prefix + "_pat_" == p + "pat_";
    PrefixDrops(p, t, "admin_");
    PrefixDrops(p, t, "pat_");
    SplitUndoesJoin(id, secret);
    WordMarksKind("admin", id, secret);
    WordMarksKind("pat", id, secret);
  }

  /** For an underscore-free id, "word_" starts "id_secret" exactly when id is that word. */
  lemma WordMarksKind(word: string, id: string, secret: string)
    requires '_' !in word
    ensures '_' !in id ==> (word + "_" <= id + "_" + secret <==> id == word)
  {
    var s := id + "_" + secret;
    if '_' !in id && word + "_" <= s {
      assert s == word + "_" + s[|word| + 1..];
      FirstUnderscoreAfter(word, s[|word| + 1..]);
      FirstUnderscoreAfter(id, secret);
      assert id == s[..|id|] == s[..|word|] == word;
    }
  }

  lemma PatRoundTrip(prefix: string, id: string, secret: string)
    ensures ParseToken(prefix, FormatPat(prefix, id, secret)) == PatToken(id, secret)
            <==> id != "" && '_' !in id && secret != ""
  {
    var t := FormatPat(prefix, id, secret);
    var p := prefix + "_";
    var q := prefix + "_pat_";
    assert q == p + "pat_";
    assert t == p + ("pat_" + id + "_" + secret);
    assert t == q + (id + "_" + secret);
    assert t[|q|..] == id + "_" + secret;
    assert prefix + "_admin_" == p + "admin_";
    PrefixDrops(p, t, "admin_");
    assert t[|p|..] == "pat_" + id + "_" + secret;
    assert !("admin_" <= t[|p|..]) by {
      assert t[|p|..][0] == 'p';
    }
    SplitUndoesJoin(id, secret);
  }

  lemma AdminRoundTrip(prefix: string, hex: string)
    ensures ParseToken(prefix, FormatAdmin(prefix, hex)) == AdminToken(hex)
  {
    var t := FormatAdmin(prefix, hex);
    assert t == (prefix + "_admin_") + hex;
    assert t[|prefix| + 7..] == hex;
  }

  /** Whatever ParseToken accepts is exactly what the matching printer prints from the parsed parts,
      so two tokens with the same parse are the same string. */
  lemma ParseThenPrint(prefix: string, token: string)
    ensures match ParseToken(prefix, token)
            case AdminToken(suffix) => token == FormatAdmin(prefix, suffix)
            case ApiKeyToken(id, secret) => token == FormatApiKey(prefix, id, secret)
            case PatToken(id, secret) => token == FormatPat(prefix, id, secret)
            case Unrecognized => true
  {
    hide SplitCredential;
    if prefix + "_admin_" <= token {
      assert token == prefix + "_admin_" + token[|prefix| + 7..];
    } else if prefix + "_pat_" <= token {
      var r := token[|prefix| + 5..];
      if SplitCredential(r).Some? {
        SplitRejoins(r);
        Joined(token, prefix + "_pat_", SplitCredential(r).value.0, SplitCredential(r).value.1);
      }
    } else if prefix + "_" <= token {
      var r := token[|prefix| + 1..];
      if SplitCredential(r).Some? {
        SplitRejoins(r);
        Joined(token, prefix + "_", SplitCredential(r).value.0, SplitCredential(r).value.1);
      }
    }
  }

  lemma Joined(token: string, head: string, id: string, secret: string)
    requires head <= token && token[|head|..] == id + "_" + secret
    ensures token == head + id + "_" + secret
  {
    assert token == head + token[|head|..];
  }

  /** strings.Split(s, "_"). */
  function Split(s: string): (parts: seq<string>)
    ensures |parts| >= 1
    decreases |s|
  {
    var i := FirstUnderscore(s);
    if i == |s| then [s] else [s[..i]] + Split(s[i + 1..])
  }

  /** The second parser of the key format: the penultimate segment. */
  function ParseKeyId(key: string): Option<string> {
    var parts := Split(key);
    if |parts| < 3 then None else Some(parts[|parts| - 2])
  }

  lemma {:induction false} SplitAppend(a: string, b: string)
    ensures Split(a + "_" + b) == Split(a) + Split(b)
    decreases |a|
  {
    hide FirstUnderscore;
    var s := a + "_" + b;
    var i := FirstUnderscore(a);
    if i == |a| {
      assert a[..i] == a;
      FirstUnderscoreAfter(a, b);
      assert s[..|a|] == a && s[|a| + 1..] == b;
    } else {
      var head, tail := a[..i], a[i + 1..];
      assert a == head + "_" + tail;
      assert s == head + "_" + (tail + "_" + b);
      FirstUnderscoreAfter(head, tail + "_" + b);
      assert s[..i] == head && s[i + 1..] == tail + "_" + b;
      SplitAppend(tail, b);
    }
  }

  /** On a printed key whose parts carry no underscore both parsers find the same id,
      whatever the prefix looks like. */
  lemma ParsersAgree(prefix: string, id: string, secret: string)
    requires '_' !in id && '_' !in secret && secret != "" && id != "" && id != "admin" && id != "pat"
    ensures ParseKeyId(FormatApiKey(prefix, id, secret)) == Some(id)
    ensures ParseToken(prefix, FormatApiKey(prefix, id, secret)) == ApiKeyToken(id, secret)
  {
    ApiKeyRoundTrip(prefix, id, secret);
    SplitAppend(prefix + "_" + id, secret);
    SplitAppend(prefix, id);
    WholeSegment(id);
    WholeSegment(secret);
  }

  lemma WholeSegment(s: string)
    requires '_' !in s
    ensures Split(s) == [s]
  {
    var i := FirstUnderscore(s);
    assert i == |s|;
  }
}
