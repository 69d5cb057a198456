/**
 The two rejection samplers behind every generated identifier and secret.
 Randomness is a finite byte stream whose end is a read failure.
 */
module Sampling {
  import opened Wrappers

  type byte = b: int | 0 <= b < 256

  const MAX_UNBIASED: int := 252

  const LOWER := "abcdefghijklmnopqrstuvwxyz"
  const UPPER := "ABCDEFGHIJKLMNOPQRSTUVWXYZ"
  const DIGITS := "0123456789"

  const TOKEN_ALPHABET := LOWER + DIGITS
  const KEYS_CHARSET := DIGITS + UPPER + LOWER
  const OAUTH_CHARSET := LOWER + UPPER + DIGITS

  const ID_LENGTH := 8
  const SECRET_LENGTH := 32

  /** What a sampler returns, and the bytes it leaves unread. */
  datatype Draw = Draw(text: Option<string>, rest: seq<byte>)

  /** charset[b % len(charset)]. */
  function Letters(charset: string): byte -> char
    requires charset != ""
  {
    (b: byte) => charset[b % |charset|]
  }

  /** One byte at a time; a failed read leaves an exhausted stream. */
  function Sample(letter: byte -> char, n: nat, stream: seq<byte>): Draw
    decreases |stream|
  {
    if n == 0 then Draw(Some(""), stream)
    else if stream == [] then Draw(None, [])
    else if stream[0] >= MAX_UNBIASED then Sample(letter, n, stream[1..])
    else Prepended([letter(stream[0])], Sample(letter, n - 1, stream[1..]))
  }

  function Prepended(out: string, d: Draw): Draw {
    match d.text case None => d case Some(s) => Draw(Some(out + s), d.rest)
  }

  function Accepted(stream: seq<byte>): (a: seq<byte>)
    ensures |a| <= |stream|
  {
    if stream == [] then []
    else if stream[0] < MAX_UNBIASED then [stream[0]] + Accepted(stream[1..])
    else Accepted(stream[1..])
  }

  function Spell(letter: byte -> char, bytes: seq<byte>): (s: string)
    ensures |s| == |bytes|
  {
    if bytes == [] then "" else [letter(bytes[0])] + Spell(letter, bytes[1..])
  }

  /** Sampling succeeds exactly when the stream holds n acceptable bytes, and then spells the first n. */
  lemma {:induction false} SampleMeaning(letter: byte -> char, n: nat, stream: seq<byte>)
    ensures Sample(letter, n, stream).text
            == if n <= |Accepted(stream)| then Some(Spell(letter, Accepted(stream)[..n])) else None
    ensures n > |Accepted(stream)| ==> Sample(letter, n, stream).rest == []
    decreases |stream|
  {
    if n > 0 && stream != [] {
      if stream[0] >= MAX_UNBIASED {
        SampleMeaning(letter, n, stream[1..]);
      } else {
        SampleMeaning(letter, n - 1, stream[1..]);
        if n <= |Accepted(stream)| {
          assert Accepted(stream)[..n] == [stream[0]] + Accepted(stream[1..])[..n - 1];
        }
      }
    }
  }

  /** A successful draw stops right behind the n-th acceptable byte: what it leaves unread is a suffix
      of the stream holding the other acceptable bytes, and the byte before it was acceptable. */
  lemma {:induction false} SampleStops(letter: byte -> char, n: nat, stream: seq<byte>)
    requires Sample(letter, n, stream).text.Some?
    ensures var rest := Sample(letter, n, stream).rest;
            && |rest| <= |stream|
            && rest == stream[|stream| - |rest|..]
            && n <= |Accepted(stream)| && Accepted(rest) == Accepted(stream)[n..]
            && (n > 0 ==> |rest| < |stream| && stream[|stream| - |rest| - 1] < MAX_UNBIASED)
            && (n == 0 ==> rest == stream)
    decreases |stream|
  {
    if n > 0 {
      var m := if stream[0] >= MAX_UNBIASED then n else n - 1;
      SampleStops(letter, m, stream[1..]);
      var rest := Sample(letter, n, stream).rest;
      assert rest == stream[1..][|stream| - 1 - |rest|..] == stream[|stream| - |rest|..];
      if m > 0 {
        assert stream[1..][|stream| - 1 - |rest| - 1] == stream[|stream| - |rest| - 1];
      }
      assert m == n - 1 ==> Accepted(stream)[n..] == Accepted(stream[1..])[m..];
    }
  }

  /** Only characters of the alphabet are drawn. */
  lemma {:induction false} SampleDrawsFrom(charset: string, n: nat, stream: seq<byte>)
    requires charset != ""
    ensures var d := Sample(Letters(charset), n, stream);
            d.text.Some? ==> |d.text.value| == n && forall c :: c in d.text.value ==> c in charset
    decreases |stream|
  {
    if n > 0 && stream != [] {
      if stream[0] >= MAX_UNBIASED {
        SampleDrawsFrom(charset, n, stream[1..]);
      } else {
        SampleDrawsFrom(charset, n - 1, stream[1..]);
        assert Letters(charset)(stream[0]) in charset;
      }
    }
  }

  /** The bulk sampler's rounds: read as many bytes as characters are still missing, keep the good ones. */
  function BulkRounds(letter: byte -> char, n: nat, out: string, stream: seq<byte>): Draw
    requires |out| <= n
    decreases |stream|
  {
    var need := n - |out|;
    if need == 0 then Draw(Some(out), stream)
    else if |stream| < need then Draw(None, [])
    else BulkRounds(letter, n, out + Spell(letter, Accepted(stream[..need])), stream[need..])
  }

  lemma PrependedTwice(a: string, b: string, d: Draw)
    ensures Prepended(a, Prepended(b, d)) == Prepended(a + b, d)
  {
    assert d.text.Some? ==> a + (b + d.text.value) == (a + b) + d.text.value;
  }

  lemma {:induction false} SampleChunk(letter: byte -> char, n: nat, chunk: seq<byte>, rest: seq<byte>)
    requires |chunk| <= n
    ensures Sample(letter, n, chunk + rest)
            == Prepended(Spell(letter, Accepted(chunk)), Sample(letter, n - |Accepted(chunk)|, rest))
    decreases |chunk|
  {
    if chunk == [] {
      assert chunk + rest == rest;
      PrependedNothing(Sample(letter, n, rest));
    } else {
      assert (chunk + rest)[1..] == chunk[1..] + rest;
      if chunk[0] < MAX_UNBIASED {
        SampleChunk(letter, n - 1, chunk[1..], rest);
        var a := Accepted(chunk[1..]);
        assert Accepted(chunk) == [chunk[0]] + a;
        assert ([chunk[0]] + a)[1..] == a;
        PrependedTwice([letter(chunk[0])], Spell(letter, a), Sample(letter, n - 1 - |a|, rest));
      } else {
        SampleChunk(letter, n, chunk[1..], rest);
      }
    }
  }

  lemma PrependedNothing(d: Draw)
    ensures Prepended("", d) == d
  {
    assert d.text.Some? ==> "" + d.text.value == d.text.value;
  }

  /** Bulk sampling and byte-at-a-time sampling agree on success, on the text and on the bytes consumed. */
  lemma {:induction false} BulkRefinesByte(letter: byte -> char, n: nat, out: string, stream: seq<byte>)
    requires |out| <= n
    ensures BulkRounds(letter, n, out, stream) == Prepended(out, Sample(letter, n - |out|, stream))
    decreases |stream|
  {
    var need := n - |out|;
    if need == 0 {
      assert out + "" == out;
    } else if |stream| < need {
      SampleMeaning(letter, need, stream);
    } else {
      var chunk, rest := stream[..need], stream[need..];
      var kept := Spell(letter, Accepted(chunk));
      assert chunk + rest == stream;
      SampleChunk(letter, need, chunk, rest);
      BulkRefinesByte(letter, n, out + kept, rest);
      PrependedTwice(out, kept, Sample(letter, need - |kept|, rest));
    }
  }

  lemma {:induction false} AcceptedSnoc(s: seq<byte>, b: byte)
    ensures Accepted(s + [b]) == Accepted(s) + (if b < MAX_UNBIASED then [b] else [])
  {
    if s != [] {
      AcceptedSnoc(s[1..], b);
      assert (s + [b])[1..] == s[1..] + [b];
    }
  }

  lemma {:induction false} SpellSnoc(letter: byte -> char, s: seq<byte>, b: byte)
    ensures Spell(letter, s + [b]) == Spell(letter, s) + [letter(b)]
  {
    if s != [] {
      SpellSnoc(letter, s[1..], b);
      assert (s + [b])[1..] == s[1..] + [b];
    }
  }

  /** An io.Reader over the remaining random bytes. */
  class Reader {
    var stream: seq<byte>

    constructor (bytes: seq<byte>)
      ensures stream == bytes
    {
      stream := bytes;
    }

    /** io.ReadFull: a short read is an error and leaves nothing behind. */
    method ReadFull(n: nat) returns (ok: bool, buf: seq<byte>)
      modifies this
      ensures ok <==> n <= |old(stream)|
      ensures ok ==> buf == old(stream)[..n] && stream == old(stream)[n..]
      ensures !ok ==> buf == [] && stream == []
    {
      ok := n <= |stream|;
      if ok {
        buf, stream := stream[..n], stream[n..];
      } else {
        buf, stream := [], [];
      }
    }

    /** The byte-at-a-time sampler of the OAuth and PAT packages: fills a buffer in place. */
    method RandomString(charset: string, length: nat) returns (text: Option<string>)
      requires charset != ""
      modifies this
      ensures Draw(text, stream) == Sample(Letters(charset), length, old(stream))
    {
      ghost var letter := Letters(charset);
      var result := new char[length](_ => ' ');
      var i := 0;
      PrependedNothing(Sample(letter, length, stream));
      while i < length
        invariant 0 <= i <= length
        invariant fresh(result)
        invariant Sample(letter, length, old(stream))
                  == Prepended(result[..i], Sample(letter, length - i, stream))
        modifies this, result
        decreases |stream|
      {
        var ok, buf := ReadFull(1);
        if !ok {
          return None;
        }
        if buf[0] >= MAX_UNBIASED {
          continue;
        }
        PrependedTwice(result[..i], [letter(buf[0])], Sample(letter, length - i - 1, stream));
        ghost var before := result[..i];
        result[i] := charset[buf[0] % |charset|];
        i := i + 1;
        assert result[..i] == before + [letter(buf[0])];
      }
      assert result[..] == result[..i] == result[..i] + "";
      return Some(result[..]);
    }

    /** The bulk sampler of the keys package: appends in nested loops. */
    method RandAlphanumeric(charset: string, n: nat) returns (text: Option<string>)
      requires charset != ""
      modifies this
      ensures Draw(text, stream) == BulkRounds(Letters(charset), n, "", old(stream))
      ensures Draw(text, stream) == Sample(Letters(charset), n, old(stream))
    {
      ghost var letter := Letters(charset);
      BulkRefinesByte(letter, n, "", stream);
      PrependedNothing(Sample(letter, n, stream));
      var out := "";
      while |out| < n
        invariant |out| <= n
        invariant BulkRounds(letter, n, "", old(stream)) == BulkRounds(letter, n, out, stream)
        decreases |stream|
      {
        var need := n - |out|;
        var ok, buf := ReadFull(need);
        if !ok {
          return None;
        }
        out := KeepAccepted(charset, out, buf);
      }
      return Some(out);
    }

    /** The inner loop: append the letter of every byte below the bound. */
    method KeepAccepted(charset: string, start: string, buf: seq<byte>) returns (out: string)
      requires charset != ""
      ensures out == start + Spell(Letters(charset), Accepted(buf))
    {
      out := start;
      var k := 0;
      while k < |buf|
        invariant 0 <= k <= |buf|
        invariant out == start + Spell(Letters(charset), Accepted(buf[..k]))
      {
        assert buf[..k + 1] == buf[..k] + [buf[k]];
        AcceptedSnoc(buf[..k], buf[k]);
        ghost var kept := Spell(Letters(charset), Accepted(buf[..k]));
        if buf[k] < MAX_UNBIASED {
          SpellSnoc(Letters(charset), Accepted(buf[..k]), buf[k]);
          out := out + [charset[buf[k] % |charset|]];
          assert out == start + (kept + [Letters(charset)(buf[k])]);
        } else {
          assert Accepted(buf[..k]) + [] == Accepted(buf[..k]);
        }
        k := k + 1;
      }
      assert buf[..k] == buf;
    }
  }

  // ---- Which characters the generated parts can hold ----

  lemma AlphabetsHaveNoUnderscore()
    ensures '_' !in TOKEN_ALPHABET && '_' !in KEYS_CHARSET && '_' !in OAUTH_CHARSET
  {
    assert '_' !in LOWER && '_' !in UPPER && '_' !in DIGITS;
  }

  // ---- Bias: how many byte sequences give each string ----

  predicate Distinct(charset: string) {
    forall i, j :: 0 <= i < j < |charset| ==> charset[i] != charset[j]
  }

  lemma LetterRanges()
    ensures |LOWER| == 26 && forall i | 0 <= i < 26 :: LOWER[i] == 'a' + i as char
    ensures |UPPER| == 26 && forall i | 0 <= i < 26 :: UPPER[i] == 'A' + i as char
    ensures |DIGITS| == 10 && forall i | 0 <= i < 10 :: DIGITS[i] == '0' + i as char
  {
  }

  lemma AlphabetsDistinct()
    ensures |TOKEN_ALPHABET| == 36 && Distinct(TOKEN_ALPHABET)
    ensures |KEYS_CHARSET| == 62 && Distinct(KEYS_CHARSET)
    ensures |OAUTH_CHARSET| == 62 && Distinct(OAUTH_CHARSET)
  {
    LetterRanges();
  }

  /** All bytes below n. */
  function Below(n: nat): (s: set<byte>)
    requires n <= 256
    ensures forall b: byte :: b in s <==> b < n
  {
    if n == 0 then {} else Below(n - 1) + {n - 1}
  }

  /** All sequences of n acceptable bytes. */
  function Draws(n: nat): set<seq<byte>> {
    if n == 0 then {[]} else Prepend(Below(MAX_UNBIASED), Draws(n - 1))
  }

  function Prepend(heads: set<byte>, tails: set<seq<byte>>): set<seq<byte>> {
    set b, q | b in heads && q in tails :: [b] + q
  }

  /** The acceptable byte sequences that spell s. */
  function Producers(letter: byte -> char, s: string): set<seq<byte>> {
    set q | q in Draws(|s|) && Spell(letter, q) == s
  }

  function Heads(letter: byte -> char, c: char): set<byte> {
    set b | b in Below(MAX_UNBIASED) && letter(b) == c
  }

  lemma InPrepend(heads: set<byte>, tails: set<seq<byte>>, x: seq<byte>)
    ensures x in Prepend(heads, tails) <==> x != [] && x[0] in heads && x[1..] in tails
  {
    if x in Prepend(heads, tails) {
      var b, q :| b in heads && q in tails && x == [b] + q;
      assert x[1..] == q;
    }
    if x != [] && x[0] in heads && x[1..] in tails {
      assert x == [x[0]] + x[1..];
    }
  }

  /** Draws(n) is the set of all sequences of n acceptable bytes. */
  lemma {:induction false} DrawsComplete(n: nat, q: seq<byte>)
    ensures q in Draws(n) <==> |q| == n && Accepted(q) == q
  {
    if n > 0 {
      InPrepend(Below(MAX_UNBIASED), Draws(n - 1), q);
      if q != [] {
        DrawsComplete(n - 1, q[1..]);
        assert q == [q[0]] + q[1..];
        assert |Accepted(q[1..])| <= |q| - 1;
        if Accepted(q) == q && q[0] < MAX_UNBIASED {
          assert Accepted(q)[1..] == Accepted(q[1..]);
        }
      }
    }
  }

  lemma {:induction false} PrependOneSize(b: byte, tails: set<seq<byte>>)
    ensures |Prepend({b}, tails)| == |tails|
    decreases |tails|
  {
    if tails == {} {
      assert Prepend({b}, tails) == {};
    } else {
      var q :| q in tails;
      PrependOneSize(b, tails - {q});
      forall x ensures x in Prepend({b}, tails) <==> x in Prepend({b}, tails - {q}) + {[b] + q} {
        InPrepend({b}, tails, x);
        InPrepend({b}, tails - {q}, x);
        assert ([b] + q)[1..] == q;
        assert x != [] ==> x == [x[0]] + x[1..];
      }
      InPrepend({b}, tails - {q}, [b] + q);
      assert Prepend({b}, tails) == Prepend({b}, tails - {q}) + {[b] + q};
    }
  }

  lemma {:induction false} PrependSize(heads: set<byte>, tails: set<seq<byte>>)
    ensures |Prepend(heads, tails)| == |heads| * |tails|
    decreases |heads|
  {
    if heads == {} {
      assert Prepend(heads, tails) == {};
    } else {
      var b :| b in heads;
      PrependSize(heads - {b}, tails);
      PrependOneSize(b, tails);
      PrependSplit(heads, b, tails);
      AddOneTimes(|heads| - 1, |tails|);
    }
  }

  lemma AddOneTimes(h: nat, t: nat)
    ensures (h + 1) * t == h * t + t
  {
  }

  lemma PrependSplit(heads: set<byte>, b: byte, tails: set<seq<byte>>)
    requires b in heads
    ensures |Prepend(heads, tails)| == |Prepend(heads - {b}, tails)| + |Prepend({b}, tails)|
  {
    var p, o := Prepend(heads - {b}, tails), Prepend({b}, tails);
    forall x ensures (x in Prepend(heads, tails) <==> x in p + o) && !(x in p && x in o) {
      InPrepend(heads, tails, x);
      InPrepend(heads - {b}, tails, x);
      InPrepend({b}, tails, x);
    }
    assert Prepend(heads, tails) == p + o;
  }

  lemma ProducersStep(letter: byte -> char, s: string)
    requires s != ""
    ensures Producers(letter, s) == Prepend(Heads(letter, s[0]), Producers(letter, s[1..]))
  {
    forall q ensures q in Producers(letter, s)
                     <==> q in Prepend(Heads(letter, s[0]), Producers(letter, s[1..])) {
      InPrepend(Heads(letter, s[0]), Producers(letter, s[1..]), q);
      InPrepend(Below(MAX_UNBIASED), Draws(|s| - 1), q);
      if q != [] {
        assert ([letter(q[0])] + Spell(letter, q[1..]))[1..] == Spell(letter, q[1..]);
        assert s == [s[0]] + s[1..];
      }
    }
  }

  function Pow(base: nat, e: nat): nat {
    if e == 0 then 1 else base * Pow(base, e - 1)
  }

  lemma LetterAt(charset: string, i: nat, b: byte)
    requires Distinct(charset) && i < |charset|
    ensures Letters(charset)(b) == charset[i] <==> b % |charset| == i
  {
    var j := b % |charset|;
    assert 0 <= j < |charset|;
    if j < i { assert charset[j] != charset[i]; }
    if i < j { assert charset[i] != charset[j]; }
  }

  /** The acceptable bytes in one residue class. */
  function ResidueClass(i: nat, m: nat): (s: set<byte>)
    requires m > 0
    decreases 252 - i
  {
    if i >= 252 then {} else {i} + ResidueClass(i + m, m)
  }

  lemma {:induction false} ResidueClassMeaning(i: nat, m: nat, b: byte)
    requires m == 36 || m == 62
    ensures b in ResidueClass(i, m) <==> i <= b < 252 && b % m == i % m
    decreases 252 - i
  {
    if i < 252 {
      ResidueClassMeaning(i + m, m, b);
      if m == 36 {
        assert (i + 36) % 36 == i % 36;
        assert i <= b < i + 36 && b % 36 == i % 36 ==> b == i;
      } else {
        assert (i + 62) % 62 == i % 62;
        assert i <= b < i + 62 && b % 62 == i % 62 ==> b == i;
      }
    }
  }

  lemma {:induction false} ResidueClassSize(i: nat, m: nat, k: nat)
    requires m > 0
    requires k == 0 ==> i >= 252
    requires k > 0 ==> i + m * (k - 1) < 252 <= i + m * k
    ensures |ResidueClass(i, m)| == k
    decreases k
  {
    if k > 0 {
      assert m * (k - 1) >= 0;
      assert m * k == m * (k - 1) + m;
      if k > 1 { assert m * (k - 1) == m * (k - 2) + m; }
      ResidueClassSize(i + m, m, k - 1);
      ResidueClassAbove(i + m, m);
    }
  }

  lemma {:induction false} ResidueClassAbove(i: nat, m: nat)
    requires m > 0
    ensures forall b :: b in ResidueClass(i, m) ==> b >= i
    decreases 252 - i
  {
    if i < 252 { ResidueClassAbove(i + m, m); }
  }

  lemma LetterAt36(charset: string, i: nat, b: byte)
    requires |charset| == 36 && Distinct(charset) && i < 36
    ensures Letters(charset)(b) == charset[i] <==> b % 36 == i
  {
    LetterAt(charset, i, b);
  }

  lemma LetterAt62(charset: string, i: nat, b: byte)
    requires |charset| == 62 && Distinct(charset) && i < 62
    ensures Letters(charset)(b) == charset[i] <==> b % 62 == i
  {
    LetterAt(charset, i, b);
  }

  lemma InHeads(letter: byte -> char, c: char, b: byte)
    ensures b in Heads(letter, c) <==> b < MAX_UNBIASED && letter(b) == c
  {
  }

  /** The acceptable bytes behind one letter form a residue class. */
  lemma HeadsAreResidues(charset: string, i: nat, m: nat)
    requires m == |charset| && Distinct(charset) && i < m && (m == 36 || m == 62)
    ensures Heads(Letters(charset), charset[i]) == ResidueClass(i, m)
  {
    forall b: byte ensures b in Heads(Letters(charset), charset[i]) <==> b in ResidueClass(i, m) {
      hide ResidueClass, Heads, Letters, Distinct;
      InHeads(Letters(charset), charset[i], b);
      ResidueClassMeaning(i, m, b);
      if m == 36 { LetterAt36(charset, i, b); } else { LetterAt62(charset, i, b); }
      SmallRemainder(i, b, m);
    }
  }

  lemma SmallRemainder(i: nat, b: nat, m: nat)
    requires i < m && (m == 36 || m == 62)
    ensures i % m == i
    ensures m == 36 ==> b % m == b % 36 && (b % 36 == i ==> i <= b)
    ensures m == 62 ==> b % m == b % 62 && (b % 62 == i ==> i <= b)
  {
  }

  lemma HeadsOf36(charset: string, c: char)
    requires |charset| == 36 && Distinct(charset) && c in charset
    ensures |Heads(Letters(charset), c)| == 7
  {
    hide ResidueClass, Heads, Letters, Distinct;
    var i :| 0 <= i < 36 && charset[i] == c;
    HeadsAreResidues(charset, i, 36);
    ResidueClassSize(i, 36, 7);
  }

  lemma HeadsOf62(charset: string, c: char)
    requires |charset| == 62 && Distinct(charset) && c in charset
    ensures |Heads(Letters(charset), c)| == if c in charset[..4] then 5 else 4
  {
    var i :| 0 <= i < 62 && charset[i] == c;
    assert c in charset[..4] <==> i < 4 by {
      if i < 4 { assert charset[..4][i] == c; }
    }
    hide ResidueClass, Heads, Letters, Distinct;
    HeadsAreResidues(charset, i, 62);
    ResidueClassSize(i, 62, if i < 4 then 5 else 4);
  }

  /** 252 is a multiple of 36: over any 36-letter alphabet every string of length n comes from
      exactly 7^n acceptable byte sequences, so no string is favoured. */
  lemma {:induction false} UnbiasedOver36(charset: string, s: string)
    requires |charset| == 36 && Distinct(charset) && forall c :: c in s ==> c in charset
    ensures |Producers(Letters(charset), s)| == Pow(7, |s|)
  {
    var letter := Letters(charset);
    if s == "" {
      assert Producers(letter, s) == {[]};
    } else {
      UnbiasedOver36(charset, s[1..]);
      ProducersStep(letter, s);
      HeadsOf36(charset, s[0]);
      PrependSize(Heads(letter, s[0]), Producers(letter, s[1..]));
    }
  }

  /** How many characters of s are among the first four letters of the alphabet. */
  function Favoured(charset: string, s: string): (k: nat)
    requires |charset| >= 4
    ensures k <= |s|
  {
    if s == "" then 0 else (if s[0] in charset[..4] then 1 else 0) + Favoured(charset, s[1..])
  }

  /** How many draws give a string with k characters among the first four and m others. */
  function Weight(k: nat, m: nat): nat { Pow(5, k) * Pow(4, m) }

  lemma WeightStep(k: nat, m: nat)
    ensures Weight(k + 1, m) == 5 * Weight(k, m)
    ensures Weight(k, m + 1) == 4 * Weight(k, m)
  {
    Reassociate(5, Pow(5, k), Pow(4, m));
    Reassociate(4, Pow(4, m), Pow(5, k));
  }

  lemma Reassociate(a: nat, b: nat, c: nat)
    ensures (a * b) * c == a * (b * c)
    ensures c * (a * b) == a * (c * b)
  {
  }

  /** 252 is not a multiple of 62: the first four letters of a 62-letter alphabet have five acceptable
      bytes each and the others four, so the count depends on how many of them s uses. */
  lemma {:induction false} BiasOver62(charset: string, s: string)
    requires |charset| == 62 && Distinct(charset) && forall c :: c in s ==> c in charset
    ensures |Producers(Letters(charset), s)| == Weight(Favoured(charset, s), |s| - Favoured(charset, s))
  {
    if s == "" {
      assert Producers(Letters(charset), s) == {[]};
      assert Weight(0, 0) == 1;
    } else {
      hide Producers, Weight, Letters, Distinct;
      BiasOver62(charset, s[1..]);
      BiasStep(charset, s);
      WeightStep(Favoured(charset, s[1..]), |s| - 1 - Favoured(charset, s[1..]));
    }
  }

  lemma BiasStep(charset: string, s: string)
    requires |charset| == 62 && Distinct(charset) && s != "" && s[0] in charset
    ensures |Producers(Letters(charset), s)|
            == (if s[0] in charset[..4] then 5 else 4) * |Producers(Letters(charset), s[1..])|
  {
    ProducersStep(Letters(charset), s);
    HeadsOf62(charset, s[0]);
    PrependSize(Heads(Letters(charset), s[0]), Producers(Letters(charset), s[1..]));
  }

  /** Over a 62-letter alphabet the count lies between 4^n and 5^n. */
  lemma BiasBounds(charset: string, s: string)
    requires |charset| == 62 && Distinct(charset) && forall c :: c in s ==> c in charset
    ensures Pow(4, |s|) <= |Producers(Letters(charset), s)| <= Pow(5, |s|)
  {
    hide Producers, Favoured, Pow, Letters, Distinct, Weight;
    BiasOver62(charset, s);
    WeightBounds(Favoured(charset, s), |s| - Favoured(charset, s));
  }

  lemma {:induction false} WeightBounds(k: nat, m: nat)
    ensures Pow(4, k + m) <= Weight(k, m) <= Pow(5, k + m)
    decreases k + m
  {
    if k > 0 {
      WeightBounds(k - 1, m);
      WeightStep(k - 1, m);
    } else if m > 0 {
      WeightBounds(0, m - 1);
    }
  }

  // ---- The program's own alphabets ----

  /** Token ids and secrets are unbiased: exactly 7^n draws give each string over the token alphabet. */
  lemma TokensUnbiased(s: string)
    requires forall c :: c in s ==> c in TOKEN_ALPHABET
    ensures |Producers(Letters(TOKEN_ALPHABET), s)| == Pow(7, |s|)
  {
    hide Producers, Pow, Letters, Distinct, TOKEN_ALPHABET, LOWER, DIGITS;
    AlphabetsDistinct();
    UnbiasedOver36(TOKEN_ALPHABET, s);
  }

  lemma FirstFour()
    ensures |KEYS_CHARSET| == 62 && KEYS_CHARSET[..4] == "0123"
    ensures |OAUTH_CHARSET| == 62 && OAUTH_CHARSET[..4] == "abcd"
  {
    assert KEYS_CHARSET[..4] == DIGITS[..4];
    assert OAUTH_CHARSET[..4] == LOWER[..4];
  }

  /** Key ids and secrets of the keys package favour the characters 0 to 3, each by five to four. */
  lemma KeysFavourDigits(s: string)
    requires forall c :: c in s ==> c in KEYS_CHARSET
    ensures |KEYS_CHARSET| == 62 && KEYS_CHARSET[..4] == "0123"
    ensures |Producers(Letters(KEYS_CHARSET), s)| == Weight(Favoured(KEYS_CHARSET, s), |s| - Favoured(KEYS_CHARSET, s))
    ensures Pow(4, |s|) <= |Producers(Letters(KEYS_CHARSET), s)| <= Pow(5, |s|)
  {
    hide Producers, Favoured, Pow, Letters, Distinct, Weight, KEYS_CHARSET, LOWER, UPPER, DIGITS;
    FirstFour();
    AlphabetsDistinct();
    BiasOver62(KEYS_CHARSET, s);
    BiasBounds(KEYS_CHARSET, s);
  }

  /** Those of the OAuth package favour a to d likewise. */
  lemma OAuthFavoursLetters(s: string)
    requires forall c :: c in s ==> c in OAUTH_CHARSET
    ensures |OAUTH_CHARSET| == 62 && OAUTH_CHARSET[..4] == "abcd"
    ensures |Producers(Letters(OAUTH_CHARSET), s)| == Weight(Favoured(OAUTH_CHARSET, s), |s| - Favoured(OAUTH_CHARSET, s))
    ensures Pow(4, |s|) <= |Producers(Letters(OAUTH_CHARSET), s)| <= Pow(5, |s|)
  {
    hide Producers, Favoured, Pow, Letters, Distinct, Weight, OAUTH_CHARSET, LOWER, UPPER, DIGITS;
    FirstFour();
    AlphabetsDistinct();
    BiasOver62(OAUTH_CHARSET, s);
    BiasBounds(OAUTH_CHARSET, s);
  }
}
