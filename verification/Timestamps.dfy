/**
 Timestamps as the database stores them: text compared byte by byte by SQL.
 An instant counts nanoseconds since 0000-01-01T00:00:00Z.
 */
module Timestamps {
  import opened Decimal
  import opened Wrappers

  const SECOND: nat := 1_000_000_000

  // ---- The calendar ----

  predicate IsLeap(y: nat) { y % 4 == 0 && (y % 100 != 0 || y % 400 == 0) }

  function YearDays(y: nat): nat { if IsLeap(y) then 366 else 365 }

  function MonthDays(leap: bool, m: nat): (n: nat)
    ensures 28 <= n <= 31
  {
    if m == 2 then (if leap then 29 else 28)
    else if m == 4 || m == 6 || m == 9 || m == 11 then 30
    else 31
  }

  /** The year that lies d days after the start of year y, and the day within it. */
  function YearOf(d: nat, y: nat): (nat, nat)
    decreases d
  {
    if d < YearDays(y) then (y, d) else YearOf(d - YearDays(y), y + 1)
  }

  /** Likewise for months; December takes what is left. */
  function MonthOf(d: nat, leap: bool, m: nat): (nat, nat)
    requires m <= 12
    decreases 12 - m
  {
    if m == 12 || d < MonthDays(leap, m) then (m, d) else MonthOf(d - MonthDays(leap, m), leap, m + 1)
  }

  function DaysFromYear(y: nat, target: nat): nat
    requires y <= target
    decreases target - y
  {
    if y == target then 0 else YearDays(y) + DaysFromYear(y + 1, target)
  }

  function DaysFromMonth(leap: bool, m: nat, target: nat): nat
    requires m <= target
    decreases target - m
  {
    if m == target then 0 else MonthDays(leap, m) + DaysFromMonth(leap, m + 1, target)
  }

  datatype Civil = Civil(year: nat, month: nat, day: nat, hour: nat, minute: nat, second: nat)

  function CivilFrom(days: nat, s: nat): Civil {
    var (y, dy) := YearOf(days, 0);
    var (m, dm) := MonthOf(dy, IsLeap(y), 1);
    Civil(y, m, dm + 1, s / 3600, s / 60 % 60, s % 60)
  }

  function CivilOf(seconds: nat): Civil {
    CivilFrom(seconds / 86_400, seconds % 86_400)
  }

  function SecondsOf(c: Civil): nat
    requires c.month >= 1 && c.day >= 1
  {
    DayNumber(c.year, c.month, c.day) * 86_400 + c.hour * 3600 + c.minute * 60 + c.second
  }

  function DayNumber(y: nat, m: nat, d: nat): nat
    requires m >= 1 && d >= 1
  {
    DaysFromYear(0, y) + DaysFromMonth(IsLeap(y), 1, m) + (d - 1)
  }

  predicate ValidCivil(c: Civil) {
    && 1 <= c.month <= 12 && 1 <= c.day <= MonthDays(IsLeap(c.year), c.month)
    && c.hour < 24 && c.minute < 60 && c.second < 60
  }

  predicate CivilLess(a: Civil, b: Civil) {
    a.year < b.year || (a.year == b.year && (
    a.month < b.month || (a.month == b.month && (
    a.day < b.day || (a.day == b.day && (
    a.hour < b.hour || (a.hour == b.hour && (
    a.minute < b.minute || (a.minute == b.minute && a.second < b.second)))))))))
  }

  lemma {:induction false} YearOfInverse(d: nat, y: nat)
    ensures var (z, r) := YearOf(d, y); y <= z && r < YearDays(z) && DaysFromYear(y, z) + r == d
    decreases d
  {
    if d >= YearDays(y) { YearOfInverse(d - YearDays(y), y + 1); }
  }

  lemma {:induction false} YearOfOrder(d: nat, e: nat, y: nat)
    requires d < e
    ensures var (dz, dr) := YearOf(d, y); var (ez, er) := YearOf(e, y);
            dz < ez || (dz == ez && dr < er)
    decreases d
  {
    if d >= YearDays(y) {
      YearOfOrder(d - YearDays(y), e - YearDays(y), y + 1);
    } else if e >= YearDays(y) {
      YearOfInverse(e - YearDays(y), y + 1);
    }
  }

  lemma {:induction false} MonthOfInverse(d: nat, leap: bool, m: nat)
    requires m <= 12 && d < DaysFromMonth(leap, m, 13)
    ensures var (z, r) := MonthOf(d, leap, m);
            m <= z <= 12 && r < MonthDays(leap, z) && DaysFromMonth(leap, m, z) + r == d
    decreases 12 - m
  {
    hide MonthDays;
    if m < 12 && d >= MonthDays(leap, m) { MonthOfInverse(d - MonthDays(leap, m), leap, m + 1); }
  }

  lemma {:induction false} MonthOfOrder(d: nat, e: nat, leap: bool, m: nat)
    requires m <= 12 && d < e < DaysFromMonth(leap, m, 13)
    ensures var (dz, dr) := MonthOf(d, leap, m); var (ez, er) := MonthOf(e, leap, m);
            dz < ez || (dz == ez && dr < er)
    decreases 12 - m
  {
    hide MonthDays;
    if m < 12 {
      if d >= MonthDays(leap, m) {
        MonthOfOrder(d - MonthDays(leap, m), e - MonthDays(leap, m), leap, m + 1);
      } else if e >= MonthDays(leap, m) {
        MonthOfInverse(e - MonthDays(leap, m), leap, m + 1);
      }
    }
  }

  lemma YearHasItsMonths(leap: bool)
    ensures DaysFromMonth(leap, 1, 13) == if leap then 366 else 365
  {
    assert DaysFromMonth(leap, 9, 13) == 122;
    assert DaysFromMonth(leap, 5, 9) == 123;
    assert DaysFromMonth(leap, 5, 13) == 245;
    assert DaysFromMonth(leap, 3, 13) == 306;
  }

  lemma MonthRoundTrip(dy: nat, leap: bool)
    requires dy < if leap then 366 else 365
    ensures var (m, dm) := MonthOf(dy, leap, 1);
            1 <= m <= 12 && dm < MonthDays(leap, m) && DaysFromMonth(leap, 1, m) + dm == dy
  {
    YearHasItsMonths(leap);
    MonthOfInverse(dy, leap, 1);
  }

  lemma ClockRoundTrip(s: nat)
    requires s < 86_400
    ensures s / 3600 < 24 && s / 3600 * 3600 + s / 60 % 60 * 60 + s % 60 == s
  {
  }

  lemma DateRoundTrip(days: nat)
    ensures var c := CivilFrom(days, 0);
            && 1 <= c.month <= 12 && 1 <= c.day <= MonthDays(IsLeap(c.year), c.month)
            && DaysFromYear(0, c.year) + DaysFromMonth(IsLeap(c.year), 1, c.month) + (c.day - 1) == days
  {
    hide YearOf, MonthOf, DaysFromYear, DaysFromMonth;
    var (y, dy) := YearOf(days, 0);
    YearOfInverse(days, 0);
    MonthRoundTrip(dy, IsLeap(y));
    var (m, dm) := MonthOf(dy, IsLeap(y), 1);
    assert CivilFrom(days, 0) == Civil(y, m, dm + 1, 0, 0, 0);
  }

  lemma CivilFromRoundTrip(days: nat, s: nat)
    requires s < 86_400
    ensures ValidCivil(CivilFrom(days, s)) && SecondsOf(CivilFrom(days, s)) == days * 86_400 + s
  {
    DateRoundTrip(days);
    ClockRoundTrip(s);
    var c := CivilFrom(days, s);
    var d := CivilFrom(days, 0);
    assert c == d.(hour := c.hour, minute := c.minute, second := c.second);
  }

  /** Breaking an instant into civil fields loses nothing. */
  lemma CivilRoundTrip(seconds: nat)
    ensures ValidCivil(CivilOf(seconds)) && SecondsOf(CivilOf(seconds)) == seconds
  {
    CivilFromRoundTrip(seconds / 86_400, seconds % 86_400);
  }

  // ---- The calendar, in closed form ----

  /** The Gregorian calendar: an extra day every fourth year, but not in three of four centuries. */
  lemma {:induction false} YearStarts(y: nat)
    ensures DaysFromYear(0, y) == 365 * y + (y + 3) / 4 - (y + 99) / 100 + (y + 399) / 400
  {
    if y > 0 {
      YearStarts(y - 1);
      YearSnoc(0, y);
      hide DaysFromYear;
      EveryFourth(y - 1);
      EveryHundredth(y - 1);
      LeapRule(y - 1);
    }
  }

  lemma EveryFourth(y: nat)
    ensures (y + 4) / 4 == (y + 3) / 4 + if y % 4 == 0 then 1 else 0
  {
  }

  lemma EveryHundredth(y: nat)
    ensures (y + 100) / 100 == (y + 99) / 100 + if y % 100 == 0 then 1 else 0
    ensures (y + 400) / 400 == (y + 399) / 400 + if y % 400 == 0 then 1 else 0
  {
  }

  lemma LeapRule(y: nat)
    ensures YearDays(y) == 365 + (if y % 4 == 0 then 1 else 0) - (if y % 100 == 0 then 1 else 0)
                           + (if y % 400 == 0 then 1 else 0)
  {
    assert y % 400 == 0 ==> y % 100 == 0;
    assert y % 100 == 0 ==> y % 4 == 0;
  }

  lemma {:induction false} YearSnoc(from: nat, y: nat)
    requires from < y
    ensures DaysFromYear(from, y) == DaysFromYear(from, y - 1) + YearDays(y - 1)
    decreases y - from
  {
    if from < y - 1 { YearSnoc(from + 1, y); }
  }

  /** The length of each month. */
  lemma MonthLengths()
    ensures forall leap :: && MonthDays(leap, 1) == 31 && MonthDays(leap, 3) == 31 && MonthDays(leap, 4) == 30
                           && MonthDays(leap, 5) == 31 && MonthDays(leap, 6) == 30 && MonthDays(leap, 7) == 31
                           && MonthDays(leap, 8) == 31 && MonthDays(leap, 9) == 30 && MonthDays(leap, 10) == 31
                           && MonthDays(leap, 11) == 30 && MonthDays(leap, 12) == 31
    ensures MonthDays(true, 2) == 29 && MonthDays(false, 2) == 28
  {
  }

  /** The same time of day so many calendar days later, on a whole second. */
  predicate DaysAfter(from: nat, to: nat, days: nat) {
    var c, x := CivilOf(from / 1_000_000_000), CivilOf(to / 1_000_000_000);
    && to % 1_000_000_000 == 0
    && x.hour == c.hour && x.minute == c.minute && x.second == c.second
    && ValidCivil(c) && ValidCivil(x) && DayNumber(x.year, x.month, x.day) == DayNumber(c.year, c.month, c.day) + days
  }

  lemma DayNumberOf(seconds: nat)
    ensures var c := CivilOf(seconds);
            && ValidCivil(c) && DayNumber(c.year, c.month, c.day) == seconds / 86_400
            && c.hour == seconds % 86_400 / 3600 && c.minute == seconds % 86_400 / 60 % 60
            && c.second == seconds % 86_400 % 60
  {
    DateRoundTrip(seconds / 86_400);
    CivilRoundTrip(seconds);
    hide YearOf, MonthOf, DaysFromYear, DaysFromMonth, MonthDays, IsLeap;
    var c, d := CivilOf(seconds), CivilFrom(seconds / 86_400, 0);
    assert c.year == d.year && c.month == d.month && c.day == d.day;
  }

  /** Twenty-four hours times the days, cut to the second, is that many calendar days. */
  lemma HoursMakeDays(from: nat, to: nat, days: nat)
    requires to % SECOND == 0 && to / SECOND == from / SECOND + days * 86_400
    ensures DaysAfter(from, to, days)
  {
    DayNumberOf(from / SECOND);
    DayNumberOf(to / SECOND);
    hide CivilOf, DayNumber, ValidCivil;
    assert (from / SECOND + days * 86_400) / 86_400 == from / SECOND / 86_400 + days;
  }

  lemma DateOrder(d: nat, e: nat, s: nat, t: nat)
    requires d < e
    ensures CivilLess(CivilFrom(d, s), CivilFrom(e, t)) && !CivilLess(CivilFrom(e, t), CivilFrom(d, s))
  {
    hide IsLeap, YearOf, MonthOf, DaysFromYear, DaysFromMonth, MonthDays;
    var (yd, rd) := YearOf(d, 0);
    var (ye, re) := YearOf(e, 0);
    YearOfOrder(d, e, 0);
    if yd == ye {
      YearOfInverse(d, 0);
      YearOfInverse(e, 0);
      YearHasItsMonths(IsLeap(yd));
      MonthOfOrder(rd, re, IsLeap(yd), 1);
    }
  }

  lemma ClockOrder(d: nat, s: nat, t: nat)
    requires s < t < 86_400
    ensures CivilLess(CivilFrom(d, s), CivilFrom(d, t)) && !CivilLess(CivilFrom(d, t), CivilFrom(d, s))
  {
    hide YearOf, MonthOf;
    ClockFields(s, t);
  }

  lemma ClockFields(s: nat, t: nat)
    requires s < t < 86_400
    ensures s / 3600 < t / 3600
            || (s / 3600 == t / 3600 && (s / 60 % 60 < t / 60 % 60 || (s / 60 % 60 == t / 60 % 60 && s % 60 < t % 60)))
  {
    ClockRoundTrip(s);
    ClockRoundTrip(t);
  }

  lemma CivilOrder(a: nat, b: nat)
    requires a < b
    ensures CivilLess(CivilOf(a), CivilOf(b)) && !CivilLess(CivilOf(b), CivilOf(a))
  {
    hide CivilFrom, CivilLess;
    if a / 86_400 < b / 86_400 {
      DateOrder(a / 86_400, b / 86_400, a % 86_400, b % 86_400);
    } else {
      ClockOrder(a / 86_400, a % 86_400, b % 86_400);
    }
  }

  // ---- Printing ----

  function Pow10(w: nat): (p: nat)
    ensures p > 0
  {
    if w == 0 then 1 else 10 * Pow10(w - 1)
  }

  function Pad(n: nat, w: nat): (s: string)
    ensures |s| == w
  {
    if w == 0 then "" else Pad(n / 10, w - 1) + [Digit(n % 10)]
  }

  function Clock(c: Civil): string {
    Pad(c.hour, 2) + ":" + (Pad(c.minute, 2) + ":" + Pad(c.second, 2))
  }

  /** 2006-01-02T15:04:05 */
  function Base(c: Civil): (s: string)
    ensures |s| == 19
  {
    Pad(c.year, 4) + "-" + (Pad(c.month, 2) + "-" + (Pad(c.day, 2) + "T" + Clock(c)))
  }

  /** The canonical format: whole seconds. */
  function FormatTime(t: nat): string { Base(CivilOf(t / SECOND)) + "Z" }

  /** RFC 3339 with nanoseconds, trailing zeros dropped, as key refresh stores it. */
  function FormatNano(t: nat): string { Base(CivilOf(t / SECOND)) + Fraction(t % SECOND) + "Z" }

  function Fraction(nanos: nat): string {
    if nanos == 0 then "" else "." + TrimZeros(Pad(nanos, 9))
  }

  function TrimZeros(s: string): (r: string)
    ensures r <= s && forall i :: |r| <= i < |s| ==> s[i] == '0'
  {
    if s != "" && s[|s| - 1] == '0' then TrimZeros(s[..|s| - 1]) else s
  }

  predicate InRange(t: nat) { CivilOf(t / SECOND).year <= 9999 }

  // ---- Parsing ----

  function ParseField(s: string, from: nat, to: nat): Option<nat> {
    if from <= to <= |s| && AllDigits(s[from..to]) then Some(Number(s[from..to])) else None
  }

  /** The nanoseconds denoted by the text between the seconds and the final Z. */
  function ParseFraction(s: string): Option<nat> {
    if s == "" then Some(0)
    else if |s| >= 2 && (s[0] == '.' || s[0] == ',') && AllDigits(s[1..]) then
      ParseField(s[1..] + "000000000", 0, 9)
    else None
  }

  /** time.Parse with the canonical layout, which also takes a fraction after the seconds. */
  function ParseTime(s: string): Option<nat> {
    if |s| < 20 || s[4] != '-' || s[7] != '-' || s[10] != 'T' || s[13] != ':' || s[16] != ':'
       || s[|s| - 1] != 'Z' then None
    else
      match (ParseField(s, 0, 4), ParseField(s, 5, 7), ParseField(s, 8, 10), ParseField(s, 11, 13),
             ParseField(s, 14, 16), ParseField(s, 17, 19), ParseFraction(s[19..|s| - 1]))
      case (Some(y), Some(mo), Some(d), Some(h), Some(mi), Some(sec), Some(nanos)) =>
        var c := Civil(y, mo, d, h, mi, sec);
        if ValidCivil(c) then Some(SecondsOf(c) * SECOND + nanos) else None
      case _ => None
  }

  lemma {:induction false} NumberOfPad(n: nat, w: nat)
    requires n < Pow10(w)
    ensures AllDigits(Pad(n, w)) && Number(Pad(n, w)) == n
  {
    if w > 0 {
      NumberOfPad(n / 10, w - 1);
      var s := Pad(n, w);
      assert s[..|s| - 1] == Pad(n / 10, w - 1);
      assert s[|s| - 1] == Digit(n % 10);
      forall c | c in s ensures IsDigit(c) {
        assert c in Pad(n / 10, w - 1) || c == Digit(n % 10);
      }
    }
  }

  lemma FieldSizes(c: Civil)
    requires ValidCivil(c) && c.year <= 9999
    ensures c.year < Pow10(4)
    ensures c.month < Pow10(2) && c.day < Pow10(2) && c.hour < Pow10(2)
    ensures c.minute < Pow10(2) && c.second < Pow10(2)
  {
    assert Pow10(2) == 100;
    assert Pow10(4) == 100 * Pow10(2);
  }

  /** Where the fields lie in a printed time. */
  lemma FieldsAt(b: string, tail: string, s: string)
    requires |b| == 19 && s == b + tail + "Z"
    ensures |s| == 20 + |tail| && s[|s| - 1] == 'Z' && s[19..|s| - 1] == tail
    ensures s[0..4] == b[0..4] && s[5..7] == b[5..7] && s[8..10] == b[8..10]
    ensures s[11..13] == b[11..13] && s[14..16] == b[14..16] && s[17..19] == b[17..19]
    ensures s[4] == b[4] && s[7] == b[7] && s[10] == b[10] && s[13] == b[13] && s[16] == b[16]
  {
  }

  /** Every field of a printed time reads back as its number. */
  lemma FieldsParse(c: Civil, tail: string, s: string)
    requires ValidCivil(c) && c.year <= 9999 && s == Base(c) + tail + "Z"
    ensures |s| >= 20 && s[4] == '-' && s[7] == '-' && s[10] == 'T' && s[13] == ':' && s[16] == ':'
    ensures s[|s| - 1] == 'Z' && s[19..|s| - 1] == tail
    ensures ParseField(s, 0, 4) == Some(c.year) && ParseField(s, 5, 7) == Some(c.month)
    ensures ParseField(s, 8, 10) == Some(c.day) && ParseField(s, 11, 13) == Some(c.hour)
    ensures ParseField(s, 14, 16) == Some(c.minute) && ParseField(s, 17, 19) == Some(c.second)
  {
    FieldSizes(c);
    NumberOfPad(c.year, 4);
    NumberOfPad(c.month, 2);
    NumberOfPad(c.day, 2);
    NumberOfPad(c.hour, 2);
    NumberOfPad(c.minute, 2);
    NumberOfPad(c.second, 2);
    BaseFields(c);
    hide Base, Pad, AllDigits, Number, Pow10, ValidCivil;
    FieldsAt(Base(c), tail, s);
  }

  lemma BaseParses(c: Civil, tail: string, s: string)
    requires ValidCivil(c) && c.year <= 9999 && s == Base(c) + tail + "Z"
    requires ParseFraction(tail).Some?
    ensures ParseTime(s) == Some(SecondsOf(c) * SECOND + ParseFraction(tail).value)
  {
    FieldsParse(c, tail, s);
    hide Base, Pad, ParseField, ParseFraction, SecondsOf;
  }

  lemma BaseFields(c: Civil)
    ensures var b := Base(c);
            && b[0..4] == Pad(c.year, 4) && b[5..7] == Pad(c.month, 2) && b[8..10] == Pad(c.day, 2)
            && b[11..13] == Pad(c.hour, 2) && b[14..16] == Pad(c.minute, 2) && b[17..19] == Pad(c.second, 2)
            && |b| == 19 && b[4] == '-' && b[7] == '-' && b[10] == 'T' && b[13] == ':' && b[16] == ':'
  {
  }

  /** ParseTime undoes FormatTime up to whole seconds. */
  lemma FormatTimeRoundTrip(t: nat)
    requires InRange(t)
    ensures ParseTime(FormatTime(t)) == Some(t - t % SECOND)
  {
    var c := CivilOf(t / SECOND);
    CivilRoundTrip(t / SECOND);
    assert ParseFraction("") == Some(0);
    assert FormatTime(t) == Base(c) + "" + "Z";
    hide CivilFrom, ParseTime, ParseFraction, Base, SecondsOf, FormatTime;
    BaseParses(c, "", FormatTime(t));
  }

  /** The variable-length form loses nothing at all. */
  lemma FormatNanoRoundTrip(t: nat)
    requires InRange(t)
    ensures ParseTime(FormatNano(t)) == Some(t)
  {
    hide CivilFrom, ParseTime, ParseFraction, Fraction, Base, SecondsOf;
    var c := CivilOf(t / SECOND);
    var n := t % SECOND;
    CivilRoundTrip(t / SECOND);
    FractionParses(n);
    BaseParses(c, Fraction(n), FormatNano(t));
  }

  lemma FractionParses(n: nat)
    requires n < SECOND
    ensures ParseFraction(Fraction(n)) == Some(n)
  {
    if n > 0 {
      assert Pow10(9) == SECOND by {
        assert Pow10(3) == 1000;
        assert Pow10(6) == 1000 * Pow10(3);
        assert Pow10(9) == 1000 * Pow10(6);
      }
      NumberOfPad(n, 9);
      var p := Pad(n, 9);
      var f := TrimZeros(p);
      assert Fraction(n)[1..] == f;
      assert (f + "000000000")[0..9] == p;
      if f == "" {
        assert forall i | 0 <= i < 9 :: p[i] == '0';
        ZerosAreZero(p);
      }
      assert forall c :: c in f ==> c in p;
    }
  }

  lemma {:induction false} ZerosAreZero(s: string)
    requires forall i | 0 <= i < |s| :: s[i] == '0'
    ensures AllDigits(s) && Number(s) == 0
  {
    if s != "" { ZerosAreZero(s[..|s| - 1]); }
  }

  /** The canonical layout, position by position: 2006-01-02T15:04:05Z in UTC. */
  lemma CanonicalLayout(t: nat)
    requires InRange(t)
    ensures var s := FormatTime(t); var c := CivilOf(t / 1_000_000_000);
            && |s| == 20 && s[4] == s[7] == '-' && s[10] == 'T' && s[13] == s[16] == ':' && s[19] == 'Z'
            && FieldIs(s, 0, 4, c.year) && FieldIs(s, 5, 7, c.month) && FieldIs(s, 8, 10, c.day)
            && FieldIs(s, 11, 13, c.hour) && FieldIs(s, 14, 16, c.minute) && FieldIs(s, 17, 19, c.second)
  {
    var c := CivilOf(t / SECOND);
    DayNumberOf(t / SECOND);
    assert FormatTime(t) == Base(c) + "" + "Z";
    hide CivilOf, Base, FormatTime;
    FieldsParse(c, "", FormatTime(t));
  }

  predicate FieldIs(s: string, from: nat, to: nat, n: nat) {
    from <= to <= |s| && AllDigits(s[from..to]) && Number(s[from..to]) == n
  }

  lemma {:induction false} PadOfNumber(s: string)
    requires AllDigits(s)
    ensures Pad(Number(s), |s|) == s
  {
    if s != "" {
      assert IsDigit(s[|s| - 1]);
      PadOfNumber(s[..|s| - 1]);
    }
  }

  /** Whatever parses is a valid date and time in that layout, with or without a fraction. */
  lemma ParsedLayout(s: string) returns (c: Civil, fraction: string)
    requires ParseTime(s).Some?
    ensures ValidCivil(c) && c.year <= 9999 && s == Base(c) + fraction + "Z" && ParseFraction(fraction).Some?
    ensures ParseTime(s).value == SecondsOf(c) * 1_000_000_000 + ParseFraction(fraction).value
  {
    fraction := s[19..|s| - 1];
    c := Civil(Number(s[0..4]), Number(s[5..7]), Number(s[8..10]), Number(s[11..13]), Number(s[14..16]), Number(s[17..19]));
    FieldPads(s, 0, 4);
    FieldPads(s, 5, 7);
    FieldPads(s, 8, 10);
    FieldPads(s, 11, 13);
    FieldPads(s, 14, 16);
    FieldPads(s, 17, 19);
    YearOfFour(s[0..4]);
    BaseFields(c);
    hide Base, Pad, Number, AllDigits, ParseFraction, SecondsOf, ValidCivil;
    SameFields(s, Base(c));
  }

  /** A fraction is a point or a comma and digits; its nanoseconds are its first nine digits, scaled. */
  lemma FractionMeaning(point: char, digits: string)
    ensures ParseFraction([point] + digits)
            == if (point == '.' || point == ',') && digits != "" && AllDigits(digits) then
                 Some(if |digits| <= 9 then Number(digits) * Pow10(9 - |digits|) else Number(digits[..9]))
               else None
  {
    hide ParseFraction, Number, Pow10, IsDigit;
    var s, zeros := [point] + digits, "000000000";
    assert s[1..] == digits && s[0] == point;
    NinePlaces(s, zeros);
    if AllDigits(digits) && digits != "" { FirstNine(digits, zeros); }
  }

  lemma NinePlaces(s: string, zeros: string)
    requires s != "" && zeros == "000000000"
    ensures var nine := (s[1..] + zeros)[0..9];
            ParseFraction(s) == if (s[0] == '.' || s[0] == ',') && |s| > 1 && AllDigits(s[1..]) && AllDigits(nine) then
                                  Some(Number(nine))
                                else None
  {
    hide Number, AllDigits;
  }

  lemma FirstNine(digits: string, zeros: string)
    requires AllDigits(digits) && |zeros| == 9 && forall i :: 0 <= i < 9 ==> zeros[i] == '0'
    ensures var nine := (digits + zeros)[0..9];
            && AllDigits(nine)
            && if |digits| <= 9 then Number(nine) == Number(digits) * Pow10(9 - |digits|) else nine == digits[..9]
  {
    hide Number, Pow10;
    var all := digits + zeros;
    forall c | c in all[0..9] ensures IsDigit(c) { assert c in digits || c in zeros; }
    if |digits| <= 9 {
      assert all[0..9] == digits + zeros[..9 - |digits|];
      NumberScaled(digits, zeros[..9 - |digits|]);
    }
  }

  lemma {:induction false} NumberScaled(digits: string, zeros: string)
    requires AllDigits(digits) && forall i :: 0 <= i < |zeros| ==> zeros[i] == '0'
    ensures AllDigits(digits + zeros) && Number(digits + zeros) == Number(digits) * Pow10(|zeros|)
    decreases |zeros|
  {
    if zeros == "" {
      assert digits + zeros == digits;
    } else {
      var s, front := digits + zeros, digits + zeros[..|zeros| - 1];
      NumberScaled(digits, zeros[..|zeros| - 1]);
      assert s == front + ['0'];
      assert s[..|s| - 1] == front;
      TimesTen(Number(digits), Pow10(|zeros| - 1));
    }
  }

  lemma TimesTen(n: nat, p: nat)
    ensures n * p * 10 == n * (10 * p)
  {
  }

  lemma FieldPads(s: string, from: nat, to: nat)
    requires from <= to <= |s| && AllDigits(s[from..to])
    ensures Pad(Number(s[from..to]), to - from) == s[from..to]
  {
    PadOfNumber(s[from..to]);
  }

  lemma YearOfFour(s: string)
    requires |s| == 4 && AllDigits(s)
    ensures Number(s) <= 9999
  {
    assert Number(s[..0]) == 0;
    assert s[..1][..0] == s[..0] && s[..2][..1] == s[..1] && s[..3][..2] == s[..2] && s[..4][..3] == s[..3] && s[..4] == s;
    assert IsDigit(s[0]) && IsDigit(s[1]) && IsDigit(s[2]) && IsDigit(s[3]);
    assert Number(s[..1]) <= 9 && Number(s[..2]) <= 99 && Number(s[..3]) <= 999;
  }

  lemma SameFields(s: string, b: string)
    requires |s| >= 20 && |b| == 19 && s[|s| - 1] == 'Z'
    requires s[0..4] == b[0..4] && s[5..7] == b[5..7] && s[8..10] == b[8..10]
    requires s[11..13] == b[11..13] && s[14..16] == b[14..16] && s[17..19] == b[17..19]
    requires s[4] == b[4] && s[7] == b[7] && s[10] == b[10] && s[13] == b[13] && s[16] == b[16]
    ensures s == b + s[19..|s| - 1] + "Z"
  {
    assert forall i | 0 <= i < 4 :: s[0..4][i] == s[i] && b[0..4][i] == b[i];
    assert forall i | 0 <= i < 2 :: s[5..7][i] == s[5 + i] && b[5..7][i] == b[5 + i];
    assert forall i | 0 <= i < 2 :: s[8..10][i] == s[8 + i] && b[8..10][i] == b[8 + i];
    assert forall i | 0 <= i < 2 :: s[11..13][i] == s[11 + i] && b[11..13][i] == b[11 + i];
    assert forall i | 0 <= i < 2 :: s[14..16][i] == s[14 + i] && b[14..16][i] == b[14 + i];
    assert forall i | 0 <= i < 2 :: s[17..19][i] == s[17 + i] && b[17..19][i] == b[17 + i];
    assert s[..19] == b;
  }

  // ---- Text order ----

  /** SQL's binary collation. */
  predicate LexLess(a: string, b: string) {
    b != "" && (a == "" || a[0] < b[0] || (a[0] == b[0] && LexLess(a[1..], b[1..])))
  }

  lemma {:induction false} LexConcat(p: string, q: string, x: string, y: string)
    requires |p| == |q|
    ensures LexLess(p + x, q + y) <==> LexLess(p, q) || (p == q && LexLess(x, y))
    decreases |p|
  {
    if p == "" {
      assert p + x == x && q + y == y;
    } else {
      LexConcat(p[1..], q[1..], x, y);
      assert (p + x)[1..] == p[1..] + x && (q + y)[1..] == q[1..] + y;
      assert p == [p[0]] + p[1..] && q == [q[0]] + q[1..];
    }
  }

  lemma {:induction false} LexPad(a: nat, b: nat, w: nat)
    requires a < Pow10(w) && b < Pow10(w)
    ensures LexLess(Pad(a, w), Pad(b, w)) <==> a < b
    ensures Pad(a, w) == Pad(b, w) <==> a == b
  {
    if w > 0 {
      assert LexLess([Digit(a % 10)], [Digit(b % 10)]) <==> a % 10 < b % 10;
      hide LexLess, Number;
      LexPad(a / 10, b / 10, w - 1);
      LexConcat(Pad(a / 10, w - 1), Pad(b / 10, w - 1), [Digit(a % 10)], [Digit(b % 10)]);
      NumberOfPad(a, w);
      NumberOfPad(b, w);
    }
  }

  /** One field of a fixed-width form: the field decides, and on a tie the rest decides. */
  lemma LexField(a: nat, b: nat, w: nat, separator: string, x: string, y: string)
    requires a < Pow10(w) && b < Pow10(w) && |separator| == 1
    ensures LexLess(Pad(a, w) + separator + x, Pad(b, w) + separator + y)
            <==> a < b || (a == b && LexLess(x, y))
  {
    LexPad(a, b, w);
    LexConcat(separator, separator, x, y);
    LexIrreflexive(separator);
    LexConcat(Pad(a, w), Pad(b, w), separator + x, separator + y);
    assert Pad(a, w) + separator + x == Pad(a, w) + (separator + x);
    assert Pad(b, w) + separator + y == Pad(b, w) + (separator + y);
  }

  lemma {:induction false} LexIrreflexive(a: string)
    ensures !LexLess(a, a)
  {
    if a != "" { LexIrreflexive(a[1..]); }
  }

  lemma BaseOrder(a: Civil, b: Civil)
    requires ValidCivil(a) && ValidCivil(b) && a.year <= 9999 && b.year <= 9999
    ensures LexLess(Base(a), Base(b)) <==> CivilLess(a, b)
  {
    FieldSizes(a);
    FieldSizes(b);
    LexPad(a.second, b.second, 2);
    var sa, sb := Pad(a.second, 2), Pad(b.second, 2);
    LexField(a.minute, b.minute, 2, ":", sa, sb);
    LexField(a.hour, b.hour, 2, ":", Pad(a.minute, 2) + ":" + sa, Pad(b.minute, 2) + ":" + sb);
    LexField(a.day, b.day, 2, "T", Clock(a), Clock(b));
    LexField(a.month, b.month, 2, "-", Pad(a.day, 2) + "T" + Clock(a), Pad(b.day, 2) + "T" + Clock(b));
    LexField(a.year, b.year, 4, "-", Pad(a.month, 2) + "-" + (Pad(a.day, 2) + "T" + Clock(a)),
             Pad(b.month, 2) + "-" + (Pad(b.day, 2) + "T" + Clock(b)));
  }

  /** Text order of the second-resolution part is time order by whole seconds. */
  lemma PrintedOrder(a: nat, b: nat, x: string, y: string)
    requires InRange(a) && InRange(b)
    ensures var pa, pb := Base(CivilOf(a / SECOND)), Base(CivilOf(b / SECOND));
            LexLess(pa + x, pb + y)
            <==> a / SECOND < b / SECOND || (a / SECOND == b / SECOND && LexLess(x, y))
  {
    var ca, cb := CivilOf(a / SECOND), CivilOf(b / SECOND);
    CivilRoundTrip(a / SECOND);
    CivilRoundTrip(b / SECOND);
    BaseOrder(ca, cb);
    LexConcat(Base(ca), Base(cb), x, y);
    if a / SECOND < b / SECOND {
      CivilOrder(a / SECOND, b / SECOND);
    } else if b / SECOND < a / SECOND {
      CivilOrder(b / SECOND, a / SECOND);
      BaseOrder(cb, ca);
      LexIrreflexive(Base(ca));
    }
  }

  /** For years 0000-9999 the text order of canonical timestamps is time order by whole seconds. */
  lemma FormatTimeOrder(a: nat, b: nat)
    requires InRange(a) && InRange(b)
    ensures LexLess(FormatTime(a), FormatTime(b)) <==> a / SECOND < b / SECOND
    ensures FormatTime(a) == FormatTime(b) <==> a / SECOND == b / SECOND
  {
    PrintedOrder(a, b, "Z", "Z");
    PrintedOrder(b, a, "Z", "Z");
    LexIrreflexive(FormatTime(a));
    LexIrreflexive("Z");
  }

  /** Section 5.1 of RFC 3339 requires equal fraction lengths for text order; mixing the two forms
      breaks it inside one second: every fractional form sorts before its own whole second. */
  lemma MixedFormsMisorder(t: nat)
    requires InRange(t) && t % SECOND > 0
    ensures LexLess(FormatNano(t), FormatTime(t))
  {
    var f := Fraction(t % SECOND) + "Z";
    var b := Base(CivilOf(t / SECOND));
    assert FormatNano(t) == b + f;
    assert f[0] == '.';
    PrintedOrder(t, t, f, "Z");
  }

  // ---- The maximum that SQL computes over mixed forms ----

  datatype Stamp = Stamp(at: nat, nano: bool)

  function Print(s: Stamp): string {
    if s.nano then FormatNano(s.at) else FormatTime(s.at)
  }

  /** SQL's MAX over a non-empty column. */
  function SqlMax(column: seq<string>): string
    requires column != []
  {
    if |column| == 1 then column[0]
    else
      var m := SqlMax(column[1..]);
      if LexLess(m, column[0]) then column[0] else m
  }

  function Printed(stamps: seq<Stamp>): (p: seq<string>)
    ensures |p| == |stamps|
  {
    if stamps == [] then [] else [Print(stamps[0])] + Printed(stamps[1..])
  }

  lemma PrintStart(s: Stamp)
    ensures exists x :: Print(s) == Base(CivilOf(s.at / SECOND)) + x
  {
    if s.nano {
      assert Print(s) == Base(CivilOf(s.at / SECOND)) + (Fraction(s.at % SECOND) + "Z");
    } else {
      assert Print(s) == Base(CivilOf(s.at / SECOND)) + "Z";
    }
  }

  lemma PrintOrder(a: Stamp, b: Stamp)
    requires InRange(a.at) && InRange(b.at)
    ensures a.at / SECOND < b.at / SECOND ==> LexLess(Print(a), Print(b))
    ensures LexLess(Print(a), Print(b)) ==> a.at / SECOND <= b.at / SECOND
  {
    PrintStart(a);
    PrintStart(b);
    var x :| Print(a) == Base(CivilOf(a.at / SECOND)) + x;
    var y :| Print(b) == Base(CivilOf(b.at / SECOND)) + y;
    PrintedOrder(a.at, b.at, x, y);
  }

  /** Even with both forms mixed, the text maximum is the print of a stamp in the latest whole second,
      and it parses back to that second. */
  lemma {:induction false} SqlMaxIsLatestSecond(stamps: seq<Stamp>) returns (k: nat)
    requires stamps != [] && forall s :: s in stamps ==> InRange(s.at)
    ensures k < |stamps| && SqlMax(Printed(stamps)) == Print(stamps[k])
    ensures forall s :: s in stamps ==> s.at / SECOND <= stamps[k].at / SECOND
    ensures ParseTime(SqlMax(Printed(stamps))).Some?
    ensures ParseTime(SqlMax(Printed(stamps))).value / SECOND == stamps[k].at / SECOND
  {
    if |stamps| == 1 {
      k := 0;
    } else {
      var j := SqlMaxIsLatestSecond(stamps[1..]);
      var m := stamps[1..][j];
      assert Printed(stamps)[1..] == Printed(stamps[1..]);
      PrintOrder(m, stamps[0]);
      PrintOrder(stamps[0], m);
      k := if LexLess(Print(m), Print(stamps[0])) then 0 else j + 1;
      forall s | s in stamps ensures s.at / SECOND <= stamps[k].at / SECOND {
        if s != stamps[0] { assert s in stamps[1..]; }
      }
    }
    FormatTimeRoundTrip(stamps[k].at);
    FormatNanoRoundTrip(stamps[k].at);
  }
}
