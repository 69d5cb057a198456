/**
 The two parsers of the request body limit: the configuration loader's and the
 server's own fallback. Both compute in 64-bit two's complement.
 */
module BodySize {
  import opened Decimal
  import opened Text
  import opened Wrappers

  const LIMIT: int := 0x8000_0000_0000_0000
  const DEFAULT_BYTES: int := 1048576

  /** The value an int64 holds after arithmetic that may overflow. */
  function Wrap64(x: int): int {
    if -0x8000_0000_0000_0000 <= x < 0x8000_0000_0000_0000 then x
    else (x + 0x8000_0000_0000_0000) % 0x1_0000_0000_0000_0000 - 0x8000_0000_0000_0000
  }

  function Unit(suffix: string): Option<int> {
    if suffix == "KB" then Some(1024)
    else if suffix == "MB" then Some(1024 * 1024)
    else if suffix == "GB" then Some(1024 * 1024 * 1024)
    else None
  }

  /** The product both parsers compute. */
  function Scaled(n: int, suffix: string): Option<int> {
    match Unit(suffix)
    case None => None
    case Some(unit) => Some(Wrap64(n * unit))
  }

  /** The configuration loader: a positive numeral without leading zeros, then KB, MB or GB. */
  function ParseBodySize(s: string): Option<int> {
    if s == "" then Some(DEFAULT_BYTES)
    else
      var u := Upper(s);
      if |u| < 3 then None
      else
        var digits, suffix := u[..|u| - 2], u[|u| - 2..];
        if !AllDigits(digits) || digits[0] == '0' || Number(digits) >= LIMIT then None
        else Scaled(Number(digits), suffix)
  }

  /** The position of the first character that is not a digit, or |s|. */
  function DigitRun(s: string): (i: nat)
    ensures i <= |s| && AllDigits(s[..i]) && (i < |s| ==> !IsDigit(s[i]))
  {
    if s == "" || !IsDigit(s[0]) then 0 else
      var i := DigitRun(s[1..]) + 1;
      assert s[..i] == [s[0]] + s[1..][..i - 1];
      i
  }

  /** The 64-bit accumulation num = num*10 + digit. */
  function Accumulated(s: string): int
    requires AllDigits(s)
  {
    if s == "" then 0
    else
      assert IsDigit(s[|s| - 1]);
      Wrap64(Accumulated(s[..|s| - 1]) * 10 + (s[|s| - 1] - '0') as int)
  }

  /** The server's fallback, as a value; 0 stands for failure. */
  function MaxBodySize(text: string): int {
    var s := TrimSpace(text);
    var i := DigitRun(s);
    if i == 0 || i == |s| then 0
    else
      var num := Accumulated(s[..i]);
      if num <= 0 then 0
      else match Scaled(num, Upper(s[i..])) case None => 0 case Some(bytes) => bytes
  }

  /** The server's fallback parser, loop by loop. */
  method ParseMaxBodySize(text: string) returns (bytes: int)
    ensures bytes == MaxBodySize(text)
  {
    var s := TrimSpace(text);
    if s == "" {
      return 0;
    }
    var i := 0;
    while i < |s| && IsDigit(s[i])
      invariant 0 <= i <= |s| && AllDigits(s[..i])
    {
      assert s[..i + 1] == s[..i] + [s[i]];
      i := i + 1;
    }
    DigitRunUnique(s, i);
    if i == |s| || i == 0 {
      return 0;
    }
    var numStr, suffix := s[..i], s[i..];
    var num := 0;
    var k := 0;
    while k < |numStr|
      invariant 0 <= k <= |numStr|
      invariant AllDigits(numStr[..k]) && num == Accumulated(numStr[..k])
    {
      assert numStr[k] in numStr;
      assert numStr[..k + 1][..k] == numStr[..k];
      assert numStr[..k + 1] == numStr[..k] + [numStr[k]];
      num := Wrap64(num * 10 + (numStr[k] - '0') as int);
      k := k + 1;
    }
    assert numStr[..k] == numStr;
    if num <= 0 {
      return 0;
    }
    match Unit(Upper(suffix))
    case None => return 0;
    case Some(unit) => return Wrap64(num * unit);
  }

  lemma DigitRunUnique(s: string, i: nat)
    requires i <= |s| && AllDigits(s[..i]) && (i < |s| ==> !IsDigit(s[i]))
    ensures DigitRun(s) == i
  {
    var j := DigitRun(s);
    assert forall k | 0 <= k < i :: s[k] in s[..i];
    assert forall k | 0 <= k < j :: s[k] in s[..j];
  }

  /** No wrap happens while the numeral itself fits. */
  lemma {:induction false} AccumulatedIsNumber(s: string)
    requires AllDigits(s) && Number(s) < LIMIT
    ensures Accumulated(s) == Number(s)
  {
    if s != "" {
      assert IsDigit(s[|s| - 1]);
      AccumulatedIsNumber(s[..|s| - 1]);
    }
  }

  lemma {:induction false} LeadingDigitCounts(s: string)
    requires AllDigits(s) && s != "" && s[0] != '0'
    ensures Number(s) > 0
  {
    assert IsDigit(s[0]) && IsDigit(s[|s| - 1]);
    if |s| > 1 {
      assert s[..|s| - 1][0] == s[0];
      LeadingDigitCounts(s[..|s| - 1]);
    } else {
      assert s[..0] == "";
    }
  }

  lemma UpperSlices(s: string, i: nat)
    requires i <= |s|
    ensures Upper(s)[..i] == Upper(s[..i]) && Upper(s)[i..] == Upper(s[i..])
  {
    hide UpperChar;
    assert Upper(s)[..i] == Upper(s[..i]);
    assert Upper(s)[i..] == Upper(s[i..]);
  }

  lemma UpperKeepsDigits(s: string)
    ensures AllDigits(Upper(s)) <==> AllDigits(s)
    ensures AllDigits(s) ==> Upper(s) == s
  {
    forall k | 0 <= k < |s|
      ensures IsDigit(Upper(s)[k]) <==> IsDigit(s[k])
      ensures IsDigit(s[k]) ==> Upper(s)[k] == s[k]
    {
    }
    if AllDigits(Upper(s)) {
      forall k | 0 <= k < |s| ensures IsDigit(s[k]) { assert Upper(s)[k] in Upper(s); }
    }
  }

  /** What an accepted string looks like. */
  lemma AcceptedForm(s: string)
    requires s != "" && ParseBodySize(s).Some?
    ensures |s| >= 3
    ensures var digits, suffix := s[..|s| - 2], s[|s| - 2..];
            && AllDigits(digits) && digits[0] != '0' && Number(digits) < LIMIT
            && Unit(Upper(suffix)).Some?
            && ParseBodySize(s) == Scaled(Number(digits), Upper(suffix))
  {
    UpperSlices(s, |s| - 2);
    UpperKeepsDigits(s[..|s| - 2]);
  }

  /** Arithmetic on 64-bit integers: the one representative in range. */
  lemma Wraps(x: int)
    ensures -0x8000_0000_0000_0000 <= Wrap64(x) < 0x8000_0000_0000_0000
    ensures (x - Wrap64(x)) % 0x1_0000_0000_0000_0000 == 0
  {
  }

  /** A suffix and what it multiplies by: K, M or G in either case, and B. */
  predicate UnitLetters(suffix: string, power: nat) {
    && |suffix| == 2 && suffix[1] in "bB"
    && ((suffix[0] in "kK" && power == 1024) || (suffix[0] in "mM" && power == 1_048_576)
        || (suffix[0] in "gG" && power == 1_073_741_824))
  }

  lemma UnitMeaning(suffix: string)
    ensures Unit(Upper(suffix)).Some? <==> exists power: nat :: UnitLetters(suffix, power)
    ensures forall power: nat :: UnitLetters(suffix, power) ==> Unit(Upper(suffix)) == Some(power)
  {
    var u := Upper(suffix);
    if |suffix| == 2 {
      assert u == [UpperChar(suffix[0]), UpperChar(suffix[1])];
      assert u == "KB" <==> u[0] == 'K' && u[1] == 'B';
      assert u == "MB" <==> u[0] == 'M' && u[1] == 'B';
      assert u == "GB" <==> u[0] == 'G' && u[1] == 'B';
    }
    if Unit(u).Some? { assert UnitLetters(suffix, Unit(u).value); }
  }

  /** The strings the loader takes: a numeral below 2^63 without leading zeros and a unit, and nothing for 1 MB. */
  ghost predicate SizeText(s: string, n: nat, power: nat) {
    && |s| >= 3 && UnitLetters(s[|s| - 2..], power)
    && AllDigits(s[..|s| - 2]) && s[0] != '0' && Number(s[..|s| - 2]) == n && n < 0x8000_0000_0000_0000
  }

  lemma LoaderExact(s: string)
    ensures ParseBodySize("") == Some(1_048_576)
    ensures s != "" ==> (ParseBodySize(s).Some? <==> exists n: nat, power: nat :: SizeText(s, n, power))
    ensures forall n: nat, power: nat :: SizeText(s, n, power) ==> ParseBodySize(s) == Some(Wrap64(n * power))
  {
    hide Wrap64, UnitLetters;
    if |s| >= 3 {
      UpperSlices(s, |s| - 2);
      UpperKeepsDigits(s[..|s| - 2]);
      UnitMeaning(s[|s| - 2..]);
      if ParseBodySize(s).Some? {
        AcceptedForm(s);
        var power: nat :| UnitLetters(s[|s| - 2..], power);
        assert SizeText(s, Number(s[..|s| - 2]), power);
      }
    }
  }

  /** The accumulation computes the numeral modulo 2^64. */
  lemma {:induction false} AccumulatedWraps(s: string)
    requires AllDigits(s)
    ensures Accumulated(s) == Wrap64(Number(s))
  {
    if s != "" {
      assert IsDigit(s[|s| - 1]);
      AccumulatedWraps(s[..|s| - 1]);
      WrapsThrough(Number(s[..|s| - 1]), (s[|s| - 1] - '0') as int);
    }
  }

  lemma WrapsThrough(x: int, d: int)
    ensures Wrap64(Wrap64(x) * 10 + d) == Wrap64(x * 10 + d)
  {
    Wraps(x);
    var k := (x - Wrap64(x)) / 0x1_0000_0000_0000_0000;
    assert x == Wrap64(x) + k * 0x1_0000_0000_0000_0000;
    assert x * 10 + d == Wrap64(x) * 10 + d + (10 * k) * 0x1_0000_0000_0000_0000;
    hide Wrap64;
    WrapsPeriodic(Wrap64(x) * 10 + d, 10 * k);
  }

  lemma WrapsPeriodic(x: int, k: int)
    ensures Wrap64(x + k * 0x1_0000_0000_0000_0000) == Wrap64(x)
  {
    var y := x + k * 0x1_0000_0000_0000_0000;
    Wraps(x);
    Wraps(y);
    hide Wrap64;
    var m, n := (x - Wrap64(x)) / 0x1_0000_0000_0000_0000, (y - Wrap64(y)) / 0x1_0000_0000_0000_0000;
    assert Wrap64(y) - Wrap64(x) == (k + m - n) * 0x1_0000_0000_0000_0000;
  }

  /** What the fallback makes of any text: with white space around it taken off, a numeral and a unit give the
      product, in 64-bit arithmetic, if the numeral is positive in that arithmetic; anything else gives 0. */
  ghost predicate FallbackText(text: string, n: nat, power: nat) {
    exists i: nat :: var s := TrimSpace(text);
      && i <= |s| && AllDigits(s[..i]) && i > 0 && Number(s[..i]) == n && UnitLetters(s[i..], power)
  }

  lemma FallbackExact(text: string)
    ensures forall n: nat, power: nat :: FallbackText(text, n, power) ==>
              MaxBodySize(text) == if Wrap64(n) <= 0 then 0 else Wrap64(Wrap64(n) * power)
    ensures (forall n: nat, power: nat :: !FallbackText(text, n, power)) ==> MaxBodySize(text) == 0
  {
    hide Wrap64, UnitLetters, TrimSpace;
    var s := TrimSpace(text);
    var i := DigitRun(s);
    AccumulatedWraps(s[..i]);
    UnitMeaning(s[i..]);
    forall n: nat, power: nat | FallbackText(text, n, power)
      ensures i > 0 && i < |s| && n == Number(s[..i]) && UnitLetters(s[i..], power)
    {
      var j: nat :| j <= |s| && AllDigits(s[..j]) && j > 0 && Number(s[..j]) == n && UnitLetters(s[j..], power);
      UnitStarts(s[j..], power);
      assert s[j] == s[j..][0];
      DigitRunUnique(s, j);
    }
    if i > 0 && Unit(Upper(s[i..])).Some? {
      var power: nat :| UnitLetters(s[i..], power);
      assert FallbackText(text, Number(s[..i]), power);
    }
  }

  lemma UnitStarts(suffix: string, power: nat)
    requires UnitLetters(suffix, power)
    ensures |suffix| == 2 && !IsDigit(suffix[0])
  {
  }

  /** Every non-empty string the loader accepts is given the same byte count by the fallback, even when
      the product wraps; without a wrap that count is the positive product. */
  lemma ParsersAgree(s: string)
    requires s != "" && ParseBodySize(s).Some?
    ensures MaxBodySize(s) == ParseBodySize(s).value
    ensures |s| >= 3 && AllDigits(s[..|s| - 2])
    ensures var n, unit := Number(s[..|s| - 2]), Unit(Upper(s[|s| - 2..]));
            unit.Some? && (n * unit.value < LIMIT ==> 0 < ParseBodySize(s).value == n * unit.value)
  {
    AcceptedForm(s);
    var digits, suffix := s[..|s| - 2], s[|s| - 2..];
    assert s == digits + suffix;
    SuffixIsLetters(suffix);
    FallbackValue(s, digits, suffix);
    LeadingDigitCounts(digits);
    SmallProduct(Number(digits), Unit(Upper(suffix)).value);
  }

  /** What the fallback computes on digits followed by a two-letter unit. */
  lemma FallbackValue(s: string, digits: string, suffix: string)
    requires s == digits + suffix && |suffix| == 2 && AllDigits(digits)
    requires digits != "" && digits[0] != '0' && Number(digits) < LIMIT
    requires !IsDigit(suffix[0]) && !IsSpace(suffix[1])
    ensures MaxBodySize(s) == match Scaled(Number(digits), Upper(suffix)) case None => 0 case Some(bytes) => bytes
  {
    var n := |digits|;
    assert s[..n] == digits && s[n..] == suffix;
    assert s[n] == suffix[0] && s[|s| - 1] == suffix[1];
    NoTrim(s, digits);
    DigitRunUnique(s, n);
    AccumulatedIsNumber(digits);
    LeadingDigitCounts(digits);
  }

  lemma NoTrim(s: string, digits: string)
    requires |s| == |digits| + 2 && digits <= s && digits != "" && AllDigits(digits)
    requires !IsSpace(s[|s| - 1])
    ensures TrimSpace(s) == s
  {
    assert s[0] == digits[0] && digits[0] in digits;
  }

  lemma SmallProduct(n: nat, unit: nat)
    requires n > 0 && unit > 0
    ensures n * unit > 0
    ensures n * unit < LIMIT ==> Wrap64(n * unit) == n * unit
  {
  }

  lemma UnitForms(u: string)
    requires Unit(u).Some?
    ensures |u| == 2 && (u[0] == 'K' || u[0] == 'M' || u[0] == 'G') && u[1] == 'B'
  {
  }

  lemma UpperOfUnit(u: string)
    requires Unit(u).Some?
    ensures Upper(u) == u
  {
    UnitForms(u);
  }

  lemma UpperOfLetter(c: char)
    requires 'A' <= UpperChar(c) <= 'Z'
    ensures !IsDigit(c) && !IsSpace(c)
  {
  }

  lemma SuffixIsLetters(suffix: string)
    requires |suffix| == 2 && Unit(Upper(suffix)).Some?
    ensures !IsDigit(suffix[0]) && !IsSpace(suffix[1])
  {
    UnitForms(Upper(suffix));
    UpperOfLetter(suffix[0]);
    UpperOfLetter(suffix[1]);
  }

  /** Printing any in-range size and reading it back gives the size in bytes, with both parsers. */
  lemma PrintedSizeParses(n: nat, suffix: string)
    requires n > 0 && Unit(suffix).Some? && n * Unit(suffix).value < LIMIT
    ensures ParseBodySize(Dec(n) + suffix) == Some(n * Unit(suffix).value)
    ensures MaxBodySize(Dec(n) + suffix) == n * Unit(suffix).value
  {
    var s := Dec(n) + suffix;
    NumberOfDec(n);
    UnitForms(suffix);
    assert s[..|s| - 2] == Dec(n) && s[|s| - 2..] == suffix;
    UpperSlices(s, |s| - 2);
    UpperKeepsDigits(Dec(n));
    UpperOfUnit(suffix);
    assert n < LIMIT;
    assert ParseBodySize(s) == Some(Wrap64(n * Unit(suffix).value));
    ParsersAgree(s);
  }

  /** The limit NewServer installs, from the byte count the loader stored and the raw string. */
  function ServerLimit(parsedBytes: int, raw: string): int {
    if parsedBytes > 0 then parsedBytes
    else
      var m := if raw != "" then MaxBodySize(raw) else parsedBytes;
      if m <= 0 then DEFAULT_BYTES else m
  }

  /** The limit is never zero: the loader's count, else what the raw string gives, else 1 MB. */
  lemma LimitExact(parsedBytes: int, raw: string)
    ensures ServerLimit(parsedBytes, raw) > 0
    ensures parsedBytes > 0 ==> ServerLimit(parsedBytes, raw) == parsedBytes
    ensures parsedBytes <= 0 && MaxBodySize(raw) > 0 ==> ServerLimit(parsedBytes, raw) == MaxBodySize(raw)
    ensures parsedBytes <= 0 && MaxBodySize(raw) <= 0 ==> ServerLimit(parsedBytes, raw) == 1_048_576
  {
    assert MaxBodySize("") == 0;
  }

  /** A configuration built directly, without the loader's byte count, gets the loader's limit. */
  lemma LoaderAndFallbackAgree(s: string)
    requires ParseBodySize(s).Some? && ParseBodySize(s).value > 0
    ensures ServerLimit(ParseBodySize(s).value, s) == ServerLimit(0, s) == ParseBodySize(s).value
  {
    if s != "" { ParsersAgree(s); }
  }
}
