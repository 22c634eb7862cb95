/**
 UTC timestamps as the journal stores them: `datetime.isoformat()` text, compared as text
 by SQLite.  The fraction is present only when the microseconds are nonzero, so two stored
 texts can differ in length; the order still agrees with time because '+' sorts before '.'.
 */
module Timestamps {
  import opened Text

  datatype Stamp = Stamp(year: nat, month: nat, day: nat, hour: nat, minute: nat, second: nat, micro: nat)

  predicate IsLeap(y: nat) {
    y % 4 == 0 && (y % 100 != 0 || y % 400 == 0)
  }

  function DaysInMonth(y: nat, m: nat): (d: nat)
    ensures 28 <= d <= 31
  {
    if m == 2 then (if IsLeap(y) then 29 else 28)
    else if m == 4 || m == 6 || m == 9 || m == 11 then 30
    else 31
  }

  /** The values a Python `datetime` can hold. */
  predicate Valid(s: Stamp) {
    && 1 <= s.year <= 9999 && 1 <= s.month <= 12
    && 1 <= s.day <= DaysInMonth(s.year, s.month)
    && s.hour < 24 && s.minute < 60 && s.second < 60 && s.micro < 1_000_000
  }

  // ── the instant a timestamp denotes ───────────────────────────────────────

  /** Days of the proleptic Gregorian calendar before 1 January of year `y`. */
  function DaysBeforeYear(y: nat): int {
    var p := y - 1;
    365 * p + p / 4 - p / 100 + p / 400
  }

  function DaysBeforeMonth(y: nat, m: nat): nat {
    if m <= 1 then 0 else DaysBeforeMonth(y, m - 1) + DaysInMonth(y, m - 1)
  }

  function DayNumber(s: Stamp): int {
    DaysBeforeYear(s.year) + DaysBeforeMonth(s.year, s.month) + s.day
  }

  function SecondOfDay(s: Stamp): nat {
    (s.hour * 60 + s.minute) * 60 + s.second
  }

  /** Microseconds since the start of the calendar. */
  function Instant(s: Stamp): int {
    (DayNumber(s) * 86400 + SecondOfDay(s)) * 1_000_000 + s.micro
  }

  // ── the text `isoformat()` writes ─────────────────────────────────────────

  /** One padded number, its separator, and what follows. */
  function Field(n: nat, w: nat, sep: char, rest: string): (t: string) {
    Padded(n, w) + [sep] + rest
  }

  function DateText(s: Stamp): (t: string) {
    Field(s.year, 4, '-', Field(s.month, 2, '-', Padded(s.day, 2)))
  }

  function ClockText(s: Stamp): (t: string) {
    Field(s.hour, 2, ':', Field(s.minute, 2, ':', Padded(s.second, 2)))
  }

  function FractionText(micro: nat): (t: string) {
    (if micro == 0 then "" else "." + Padded(micro, 6)) + "+00:00"
  }

  function IsoFormat(s: Stamp): (t: string) {
    DateText(s) + "T" + ClockText(s) + FractionText(s.micro)
  }

  // ── text order is time order ──────────────────────────────────────────────

  lemma FieldOrder(n: nat, m: nat, w: nat, sep: char, b: string, d: string)
    requires n < Pow10(w) && m < Pow10(w)
    ensures Less(Field(n, w, sep, b), Field(m, w, sep, d)) <==> n < m || (n == m && Less(b, d))
    ensures Field(n, w, sep, b) == Field(m, w, sep, d) <==> n == m && b == d
  {
    var (x, y) := (Padded(n, w), Padded(m, w));
    PaddedOrder(n, m, w);
    LessConcat(x + [sep], b, y + [sep], d);
    LessConcat(x, [sep], y, [sep]);
    LessIrreflexive([sep]);
    SplitEqual(x, [sep], y, [sep]);
    SplitEqual(x + [sep], b, y + [sep], d);
  }

  lemma Widths()
    ensures Pow10(2) == 100 && Pow10(4) == 10000 && Pow10(6) == 1000000
  {
    assert Pow10(0) == 1;
    assert Pow10(1) == 10;
    assert Pow10(2) == 100;
    assert Pow10(3) == 1000;
    assert Pow10(4) == 10000;
    assert Pow10(5) == 100000;
    assert Pow10(6) == 1000000;
  }

  /** Three fields, the last one unseparated: the shape of both the date and the clock text. */
  lemma TripleOrder(a: nat, b: nat, c: nat, a': nat, b': nat, c': nat, w: nat, sep: char)
    requires a < Pow10(w) && a' < Pow10(w)
    requires b < Pow10(2) && b' < Pow10(2) && c < Pow10(2) && c' < Pow10(2)
    ensures var t := Field(a, w, sep, Field(b, 2, sep, Padded(c, 2)));
            var t' := Field(a', w, sep, Field(b', 2, sep, Padded(c', 2)));
            && (Less(t, t') <==> a < a' || (a == a' && (b < b' || (b == b' && c < c'))))
            && (t == t' <==> a == a' && b == b' && c == c')
  {
    PaddedOrder(c, c', 2);
    FieldOrder(b, b', 2, sep, Padded(c, 2), Padded(c', 2));
    FieldOrder(a, a', w, sep, Field(b, 2, sep, Padded(c, 2)), Field(b', 2, sep, Padded(c', 2)));
  }

  lemma FractionOrder(m: nat, m': nat)
    requires m < 1_000_000 && m' < 1_000_000
    ensures Less(FractionText(m), FractionText(m')) <==> m < m'
    ensures FractionText(m) == FractionText(m') <==> m == m'
  {
    Widths();
    PaddedOrder(m, m', 6);
    LessIrreflexive("+00:00");
    if m > 0 && m' > 0 {
      LessConcat("." + Padded(m, 6), "+00:00", "." + Padded(m', 6), "+00:00");
      LessConcat(".", Padded(m, 6), ".", Padded(m', 6));
      LessIrreflexive(".");
      assert FractionText(m)[1..7] == Padded(m, 6) && FractionText(m')[1..7] == Padded(m', 6);
    } else {
      assert FractionText(0) == "+00:00";
      // one side has no fraction: its first character is '+', the other's is '.'
      assert m == 0 ==> FractionText(m)[0] == '+';
      assert m' == 0 ==> FractionText(m')[0] == '+';
      assert m > 0 ==> FractionText(m)[0] == '.';
      assert m' > 0 ==> FractionText(m')[0] == '.';
    }
  }

  predicate DateBefore(a: Stamp, b: Stamp) {
    a.year < b.year || (a.year == b.year && (a.month < b.month || (a.month == b.month && a.day < b.day)))
  }

  lemma YearLength(y: nat)
    requires y >= 1
    ensures DaysBeforeYear(y + 1) == DaysBeforeYear(y) + DaysBeforeMonth(y, 13)
  {
    assert DaysBeforeMonth(y, 1) == 0;
    assert DaysBeforeMonth(y, 2) == 31;
    var f := DaysInMonth(y, 2);
    assert DaysBeforeMonth(y, 3) == 31 + f;
    assert DaysBeforeMonth(y, 4) == 62 + f;
    assert DaysBeforeMonth(y, 5) == 92 + f;
    assert DaysBeforeMonth(y, 6) == 123 + f;
    assert DaysBeforeMonth(y, 7) == 153 + f;
    assert DaysBeforeMonth(y, 8) == 184 + f;
    assert DaysBeforeMonth(y, 9) == 215 + f;
    assert DaysBeforeMonth(y, 10) == 245 + f;
    assert DaysBeforeMonth(y, 11) == 276 + f;
    assert DaysBeforeMonth(y, 12) == 306 + f;
    assert DaysBeforeMonth(y, 13) == 337 + f;
    LeapDays(y);
  }

  /** The year quotients advance exactly at leap years. */
  lemma LeapDays(y: nat)
    requires y >= 1
    ensures DaysBeforeYear(y + 1) == DaysBeforeYear(y) + 337 + DaysInMonth(y, 2)
  {
    Quotient4(y);
    Quotient100(y);
    Quotient400(y);
    CenturyIsFourth(y);
    FourthCenturyIsCentury(y);
  }

  lemma Quotient4(y: nat)
    requires y >= 1
    ensures y / 4 == (y - 1) / 4 + (if y % 4 == 0 then 1 else 0)
  {
  }

  lemma Quotient100(y: nat)
    requires y >= 1
    ensures y / 100 == (y - 1) / 100 + (if y % 100 == 0 then 1 else 0)
  {
  }

  lemma Quotient400(y: nat)
    requires y >= 1
    ensures y / 400 == (y - 1) / 400 + (if y % 400 == 0 then 1 else 0)
  {
  }

  lemma FourTimes(k: nat)
    ensures (4 * k) % 4 == 0
  {
  }

  lemma HundredTimes(k: nat)
    ensures (100 * k) % 100 == 0
  {
  }

  lemma CenturyIsFourth(y: nat)
    ensures y % 100 == 0 ==> y % 4 == 0
  {
    if y % 100 == 0 {
      FourTimes(25 * (y / 100));
      assert y == 4 * (25 * (y / 100));
    }
  }

  lemma FourthCenturyIsCentury(y: nat)
    ensures y % 400 == 0 ==> y % 100 == 0
  {
    if y % 400 == 0 {
      HundredTimes(4 * (y / 400));
      assert y == 100 * (4 * (y / 400));
    }
  }

  lemma {:induction false} MonthsBefore(y: nat, m: nat, m': nat)
    requires 1 <= m < m'
    ensures DaysBeforeMonth(y, m) + DaysInMonth(y, m) <= DaysBeforeMonth(y, m')
  {
    if m + 1 < m' {
      MonthsBefore(y, m, m' - 1);
    }
  }

  lemma {:induction false} YearsBefore(y: nat, y': nat)
    requires 1 <= y < y'
    ensures DaysBeforeYear(y + 1) <= DaysBeforeYear(y')
  {
    if y + 1 < y' {
      YearsBefore(y, y' - 1);
      YearLength(y' - 1);
    }
  }

  /** An earlier calendar date is an earlier day. */
  lemma DateOrder(a: Stamp, b: Stamp)
    requires Valid(a) && Valid(b) && DateBefore(a, b)
    ensures DayNumber(a) < DayNumber(b)
  {
    MonthsBefore(a.year, a.month, 13);
    if a.year < b.year {
      YearLength(a.year);
      YearsBefore(a.year, b.year);
    } else if a.month < b.month {
      MonthsBefore(a.year, a.month, b.month);
    }
  }

  lemma DateTextOrder(a: Stamp, b: Stamp)
    requires Valid(a) && Valid(b)
    ensures Less(DateText(a), DateText(b)) <==> DayNumber(a) < DayNumber(b)
    ensures DateText(a) == DateText(b) <==> DayNumber(a) == DayNumber(b)
  {
    Widths();
    TripleOrder(a.year, a.month, a.day, b.year, b.month, b.day, 4, '-');
    if DateBefore(a, b) {
      DateOrder(a, b);
    } else if DateBefore(b, a) {
      DateOrder(b, a);
    }
  }

  lemma ClockTextOrder(a: Stamp, b: Stamp)
    requires Valid(a) && Valid(b)
    ensures Less(ClockText(a), ClockText(b)) <==> SecondOfDay(a) < SecondOfDay(b)
    ensures ClockText(a) == ClockText(b) <==> SecondOfDay(a) == SecondOfDay(b)
  {
    Widths();
    TripleOrder(a.hour, a.minute, a.second, b.hour, b.minute, b.second, 2, ':');
  }

  lemma SplitEqual(a: string, b: string, c: string, d: string)
    requires |a| == |c|
    ensures a + b == c + d <==> a == c && b == d
  {
    assert (a + b)[..|a|] == a && (a + b)[|a|..] == b;
    assert (c + d)[..|a|] == c && (c + d)[|a|..] == d;
  }

  /** Date, clock and fraction decide in that order. */
  lemma ThreePartOrder(d: string, c: string, f: string, d': string, c': string, f': string)
    requires |d| == |d'| && |c| == |c'|
    ensures Less(d + "T" + c + f, d' + "T" + c' + f') <==>
            Less(d, d') || (d == d' && (Less(c, c') || (c == c' && Less(f, f'))))
    ensures d + "T" + c + f == d' + "T" + c' + f' <==> d == d' && c == c' && f == f'
  {
    LessConcat(d, "T", d', "T");
    LessIrreflexive("T");
    SplitEqual(d, "T", d', "T");
    LessConcat(d + "T", c, d' + "T", c');
    SplitEqual(d + "T", c, d' + "T", c');
    LessConcat(d + "T" + c, f, d' + "T" + c', f');
    SplitEqual(d + "T" + c, f, d' + "T" + c', f');
  }

  /** And so do day, second and microsecond. */
  lemma InstantOrder(a: Stamp, b: Stamp)
    requires Valid(a) && Valid(b)
    ensures Instant(a) < Instant(b) <==>
            || DayNumber(a) < DayNumber(b)
            || (DayNumber(a) == DayNumber(b)
                && (SecondOfDay(a) < SecondOfDay(b) || (SecondOfDay(a) == SecondOfDay(b) && a.micro < b.micro)))
    ensures Instant(a) == Instant(b) <==>
            DayNumber(a) == DayNumber(b) && SecondOfDay(a) == SecondOfDay(b) && a.micro == b.micro
  {
  }

  /**
   The comparison GC, retention and outbox selection rely on: for every pair of timestamps,
   with or without a fraction on either side, stored text order is time order, and equal
   texts are exactly equal instants.
   */
  lemma IsoOrderIsTimeOrder(a: Stamp, b: Stamp)
    requires Valid(a) && Valid(b)
    ensures Less(IsoFormat(a), IsoFormat(b)) <==> Instant(a) < Instant(b)
    ensures IsoFormat(a) == IsoFormat(b) <==> Instant(a) == Instant(b)
    ensures LessEq(IsoFormat(a), IsoFormat(b)) <==> Instant(a) <= Instant(b)
  {
    DateTextOrder(a, b);
    ClockTextOrder(a, b);
    FractionOrder(a.micro, b.micro);
    ThreePartOrder(DateText(a), ClockText(a), FractionText(a.micro), DateText(b), ClockText(b), FractionText(b.micro));
    InstantOrder(a, b);
  }

  // ── the text spelled out ──────────────────────────────────────────────────

  lemma DigitsValueGrown(init: string, last: char)
    requires (forall c | c in init :: IsDigit(c)) && IsDigit(last)
    ensures DigitsValue(init + [last]) == 10 * DigitsValue(init) + DigitValue(last)
  {
    assert (init + [last])[..|init|] == init;
  }

  lemma {:induction false} PaddedReadsBack(n: nat, w: nat)
    requires n < Pow10(w)
    ensures DigitsValue(Padded(n, w)) == n
  {
    if w > 0 {
      PaddedReadsBack(n / 10, w - 1);
      DigitTable(n % 10);
      DigitsValueGrown(Padded(n / 10, w - 1), DIGITS[n % 10]);
    }
  }

  /** `w` digits that read back as `n`. */
  predicate Reads(text: string, n: nat, w: nat) {
    |text| == w && (forall c | c in text :: IsDigit(c)) && DigitsValue(text) == n
  }

  lemma FieldsRead(s: Stamp)
    requires Valid(s)
    ensures Reads(Padded(s.year, 4), s.year, 4) && Reads(Padded(s.month, 2), s.month, 2)
    ensures Reads(Padded(s.day, 2), s.day, 2) && Reads(Padded(s.hour, 2), s.hour, 2)
    ensures Reads(Padded(s.minute, 2), s.minute, 2) && Reads(Padded(s.second, 2), s.second, 2)
    ensures Reads(Padded(s.micro, 6), s.micro, 6)
  {
    Widths();
    PaddedReadsBack(s.year, 4);
    PaddedReadsBack(s.month, 2);
    PaddedReadsBack(s.day, 2);
    PaddedReadsBack(s.hour, 2);
    PaddedReadsBack(s.minute, 2);
    PaddedReadsBack(s.second, 2);
    PaddedReadsBack(s.micro, 6);
  }

  /** The text is year-month-day, T, hour:minute:second, six digits of a fraction unless it is zero, and UTC. */
  lemma StampText(s: Stamp) returns (y: string, mo: string, d: string, h: string, mi: string, sec: string, f: string)
    requires Valid(s)
    ensures Reads(y, s.year, 4) && Reads(mo, s.month, 2) && Reads(d, s.day, 2)
    ensures Reads(h, s.hour, 2) && Reads(mi, s.minute, 2) && Reads(sec, s.second, 2) && Reads(f, s.micro, 6)
    ensures IsoFormat(s) == (y + "-" + (mo + "-" + d)) + "T" + (h + ":" + (mi + ":" + sec))
                            + ((if s.micro == 0 then "" else "." + f) + "+00:00")
  {
    FieldsRead(s);
    y, mo, d := Padded(s.year, 4), Padded(s.month, 2), Padded(s.day, 2);
    h, mi, sec, f := Padded(s.hour, 2), Padded(s.minute, 2), Padded(s.second, 2), Padded(s.micro, 6);
  }
}
