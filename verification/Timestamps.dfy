/**
 The fixed-width timestamp text of the SQLite backend (store/store.go, store/sqlite.go).

 SQLite compares `expires_at`, `until` and `received_at` as strings, so string order
 has to be time order. An instant is a number of nanoseconds since the start of year 0
 (UTC, proleptic Gregorian calendar); `FmtTime` renders it as "YYYY-MM-DDTHH:MM:SS.mmmZ".
 */
module Timestamps {

  const NANOS_PER_MILLI := 1_000_000
  const MILLIS_PER_DAY := 86_400_000
  const FIRST_YEAR_TOO_WIDE := 10_000

  // ---------------------------------------------------------------- calendar

  predicate IsLeap(y: nat) { y % 4 == 0 && (y % 100 != 0 || y % 400 == 0) }

  function YearLen(y: nat): nat { if IsLeap(y) then 366 else 365 }

  function MonthLen(y: nat, m: nat): nat
    requires 1 <= m <= 12
  {
    if m == 2 then (if IsLeap(y) then 29 else 28)
    else if m == 4 || m == 6 || m == 9 || m == 11 then 30
    else 31
  }

  function DaysBeforeYear(y: nat): nat {
    if y == 0 then 0 else DaysBeforeYear(y - 1) + YearLen(y - 1)
  }

  function DaysBeforeMonth(y: nat, m: nat): nat
    requires 1 <= m <= 13
  {
    if m == 1 then 0 else DaysBeforeMonth(y, m - 1) + MonthLen(y, m - 1)
  }

  datatype Civil = Civil(year: nat, month: nat, day: nat, hour: nat, minute: nat, second: nat, milli: nat)

  predicate ValidCivil(c: Civil) {
    && c.year < FIRST_YEAR_TOO_WIDE
    && 1 <= c.month <= 12
    && 1 <= c.day <= MonthLen(c.year, c.month)
    && c.hour < 24 && c.minute < 60 && c.second < 60 && c.milli < 1000
  }

  function ToDays(c: Civil): nat
    requires ValidCivil(c)
  {
    DaysBeforeYear(c.year) + DaysBeforeMonth(c.year, c.month) + (c.day - 1)
  }

  function ToMillis(c: Civil): nat
    requires ValidCivil(c)
  {
    ToDays(c) * MILLIS_PER_DAY + c.hour * 3_600_000 + c.minute * 60_000 + c.second * 1000 + c.milli
  }

  /** The year containing a day, and the day's offset in it, counting on from year y. */
  function YearOf(y: nat, day: nat): (r: (nat, nat))
    ensures r.0 >= y && r.1 < YearLen(r.0)
    ensures DaysBeforeYear(r.0) + r.1 == DaysBeforeYear(y) + day
    decreases day
  {
    if day < YearLen(y) then (y, day) else YearOf(y + 1, day - YearLen(y))
  }

  /** The month containing the day-of-year offset, counting on from month m. */
  function MonthOf(y: nat, m: nat, day: nat): (r: (nat, nat))
    requires 1 <= m <= 12 && DaysBeforeMonth(y, m) + day < YearLen(y)
    ensures m <= r.0 <= 12 && r.1 < MonthLen(y, r.0)
    ensures DaysBeforeMonth(y, r.0) + r.1 == DaysBeforeMonth(y, m) + day
    decreases 12 - m
  {
    if day < MonthLen(y, m) then (m, day)
    else
      MonthsFillYear(y);
      MonthOf(y, m + 1, day - MonthLen(y, m))
  }

  lemma MonthsFillYear(y: nat)
    ensures DaysBeforeMonth(y, 13) == YearLen(y)
  {
    assert DaysBeforeMonth(y, 2) == 31;
    assert DaysBeforeMonth(y, 4) == DaysBeforeMonth(y, 2) + MonthLen(y, 2) + 31;
    assert DaysBeforeMonth(y, 6) == DaysBeforeMonth(y, 4) + 61;
    assert DaysBeforeMonth(y, 8) == DaysBeforeMonth(y, 6) + 61;
    assert DaysBeforeMonth(y, 10) == DaysBeforeMonth(y, 8) + 61;
    assert DaysBeforeMonth(y, 12) == DaysBeforeMonth(y, 10) + 61;
  }

  /** How many of the years before y are leap years: every fourth, less every hundredth, plus every four-hundredth. */
  function LeapsBefore(y: nat): int { (y + 3) / 4 - (y + 99) / 100 + (y + 399) / 400 }

  lemma LeapYear(y: nat)
    ensures LeapsBefore(y + 1) == LeapsBefore(y) + if IsLeap(y) then 1 else 0
  {
    FourthYear(y);
    HundredthYear(y);
    FourHundredthYear(y);
    LeapCases(y);
  }

  lemma FourthYear(y: nat)
    ensures (y + 4) / 4 == (y + 3) / 4 + if y % 4 == 0 then 1 else 0
  {}

  lemma HundredthYear(y: nat)
    ensures (y + 100) / 100 == (y + 99) / 100 + if y % 100 == 0 then 1 else 0
  {}

  lemma FourHundredthYear(y: nat)
    ensures (y + 400) / 400 == (y + 399) / 400 + if y % 400 == 0 then 1 else 0
  {}

  lemma Multiples(y: nat)
    ensures y % 100 == 0 ==> y % 4 == 0
    ensures y % 400 == 0 ==> y % 100 == 0
  {
    assert y == 100 * (y / 100) + y % 100 == 4 * (25 * (y / 100)) + y % 100;
    assert y == 400 * (y / 400) + y % 400 == 100 * (4 * (y / 400)) + y % 400;
  }

  /** A leap year counts in the first sum, and in the other two both or neither. */
  lemma LeapCases(y: nat)
    ensures (if IsLeap(y) then 1 else 0)
         == (if y % 4 == 0 then 1 else 0) - (if y % 100 == 0 then 1 else 0) + (if y % 400 == 0 then 1 else 0)
  {
    Multiples(y);
  }

  /** The calendar is the Gregorian one. */
  lemma {:induction false} YearsAreGregorian(y: nat)
    ensures DaysBeforeYear(y) == 365 * y + LeapsBefore(y)
  {
    if y > 0 {
      YearsAreGregorian(y - 1);
      LeapYear(y - 1);
    }
  }

  const MONTH_STARTS: seq<nat> := [0, 31, 59, 90, 120, 151, 181, 212, 243, 273, 304, 334, 365]

  lemma {:induction false} MonthsAreGregorian(y: nat, m: nat)
    requires 1 <= m <= 13
    ensures DaysBeforeMonth(y, m) == MONTH_STARTS[m - 1] + if m > 2 && LeapsBefore(y + 1) > LeapsBefore(y) then 1 else 0
  {
    LeapYear(y);
    if m > 1 { MonthsAreGregorian(y, m - 1); }
  }

  lemma {:induction false} YearsMonotone(y: nat, y': nat)
    requires y <= y'
    ensures DaysBeforeYear(y) <= DaysBeforeYear(y')
    decreases y' - y
  {
    if y < y' { YearsMonotone(y, y' - 1); }
  }

  lemma {:induction false} MonthsMonotone(y: nat, m: nat, m': nat)
    requires 1 <= m <= m' <= 13
    ensures DaysBeforeMonth(y, m) <= DaysBeforeMonth(y, m')
    decreases m' - m
  {
    if m < m' { MonthsMonotone(y, m, m' - 1); }
  }

  /** Instants from year 0 on whose year has four digits. */
  predicate InRange(millis: int) {
    millis >= 0 && YearOf(0, millis / MILLIS_PER_DAY).0 < FIRST_YEAR_TOO_WIDE
  }

  /** Hour, minute, second and millisecond of a time of day. */
  function ClockOf(ms: nat): (r: (nat, nat, nat, nat))
    requires ms < MILLIS_PER_DAY
    ensures r.0 < 24 && r.1 < 60 && r.2 < 60 && r.3 < 1000
    ensures r.0 * 3_600_000 + r.1 * 60_000 + r.2 * 1000 + r.3 == ms
  {
    var seconds := ms / 1000;
    var minutes := seconds / 60;
    (minutes / 60, minutes % 60, seconds % 60, ms % 1000)
  }

  function FromMillis(millis: nat): (c: Civil)
    requires InRange(millis)
    ensures ValidCivil(c)
    ensures ToMillis(c) == millis
  {
    var day := millis / MILLIS_PER_DAY;
    var (y, dayOfYear) := YearOf(0, day);
    var (m, dayOfMonth) := MonthOf(y, 1, dayOfYear);
    var (hour, minute, second, milli) := ClockOf(millis % MILLIS_PER_DAY);
    Civil(y, m, dayOfMonth + 1, hour, minute, second, milli)
  }

  // ---------------------------------------------------------------- chronological order is field order

  function Fields(c: Civil): (fs: seq<nat>)
    ensures |fs| == 7
  {
    [c.year, c.month, c.day, c.hour, c.minute, c.second, c.milli]
  }

  /** Dictionary order on equally long tuples. */
  predicate TupleLess(a: seq<nat>, b: seq<nat>)
    requires |a| == |b|
  {
    a != [] && (a[0] < b[0] || (a[0] == b[0] && TupleLess(a[1..], b[1..])))
  }

  lemma {:induction false} TupleTrichotomy(a: seq<nat>, b: seq<nat>)
    requires |a| == |b|
    ensures a == b || TupleLess(a, b) || TupleLess(b, a)
  {
    if a != [] {
      TupleTrichotomy(a[1..], b[1..]);
      assert a == [a[0]] + a[1..] && b == [b[0]] + b[1..];
    }
  }

  lemma TupleStep(a: seq<nat>, b: seq<nat>, k: nat)
    requires k < |a| == |b| && TupleLess(a[k..], b[k..])
    ensures a[k] < b[k] || (a[k] == b[k] && TupleLess(a[k + 1..], b[k + 1..]))
  {
    assert a[k..][1..] == a[k + 1..] && b[k..][1..] == b[k + 1..];
  }

  lemma FirstDifference(a: Civil, b: Civil)
    requires TupleLess(Fields(a), Fields(b))
    ensures
      || a.year < b.year
      || (a.year == b.year && (a.month < b.month || (a.month == b.month && a.day < b.day)))
      || (a.year == b.year && a.month == b.month && a.day == b.day && TupleLess(Fields(a)[3..], Fields(b)[3..]))
  {
    var fa, fb := Fields(a), Fields(b);
    assert fa[0..] == fa && fb[0..] == fb;
    TupleStep(fa, fb, 0);
    if a.year == b.year {
      TupleStep(fa, fb, 1);
      if a.month == b.month { TupleStep(fa, fb, 2); }
    }
  }

  lemma TimeOfDayOrder(a: Civil, b: Civil)
    requires ValidCivil(a) && ValidCivil(b) && TupleLess(Fields(a)[3..], Fields(b)[3..])
    ensures a.hour * 3_600_000 + a.minute * 60_000 + a.second * 1000 + a.milli
         < b.hour * 3_600_000 + b.minute * 60_000 + b.second * 1000 + b.milli
  {
    var fa, fb := Fields(a), Fields(b);
    TupleStep(fa, fb, 3);
    if a.hour == b.hour {
      TupleStep(fa, fb, 4);
      if a.minute == b.minute {
        TupleStep(fa, fb, 5);
        if a.second == b.second { TupleStep(fa, fb, 6); }
      }
    }
  }

  lemma DayOrder(a: Civil, b: Civil)
    requires ValidCivil(a) && ValidCivil(b)
    requires a.year < b.year || (a.year == b.year && (a.month < b.month || (a.month == b.month && a.day < b.day)))
    ensures ToDays(a) < ToDays(b)
  {
    if a.year < b.year {
      MonthsMonotone(a.year, a.month + 1, 13);
      MonthsFillYear(a.year);
      YearsMonotone(a.year + 1, b.year);
      assert ToDays(a) < DaysBeforeYear(a.year + 1);
    } else if a.month < b.month {
      MonthsMonotone(a.year, a.month + 1, b.month);
    }
  }

  lemma FieldOrderIsTimeOrder(a: Civil, b: Civil)
    requires ValidCivil(a) && ValidCivil(b) && TupleLess(Fields(a), Fields(b))
    ensures ToMillis(a) < ToMillis(b)
  {
    FirstDifference(a, b);
    if a.year == b.year && a.month == b.month && a.day == b.day {
      TimeOfDayOrder(a, b);
    } else {
      DayOrder(a, b);
      assert ToDays(a) * MILLIS_PER_DAY + MILLIS_PER_DAY <= ToDays(b) * MILLIS_PER_DAY;
    }
  }

  /** Every valid date of years 0 to 9999 is an instant in range, and is found again from its milliseconds. */
  lemma EveryDateIsAnInstant(c: Civil)
    requires ValidCivil(c)
    ensures InRange(ToMillis(c)) && FromMillis(ToMillis(c)) == c
  {
    DateInRange(c);
    var d := FromMillis(ToMillis(c));
    TupleTrichotomy(Fields(c), Fields(d));
    if TupleLess(Fields(c), Fields(d)) { FieldOrderIsTimeOrder(c, d); }
    else if TupleLess(Fields(d), Fields(c)) { FieldOrderIsTimeOrder(d, c); }
    else { EqualFields(c, d); }
  }

  lemma EqualFields(c: Civil, d: Civil)
    requires Fields(c) == Fields(d)
    ensures c == d
  {
    var a, b := Fields(c), Fields(d);
    assert a[0] == b[0] && a[1] == b[1] && a[2] == b[2] && a[3] == b[3] && a[4] == b[4] && a[5] == b[5] && a[6] == b[6];
  }

  lemma DateInRange(c: Civil)
    requires ValidCivil(c)
    ensures InRange(ToMillis(c))
  {
    var day := ToDays(c);
    assert ToMillis(c) / MILLIS_PER_DAY == day;
    MonthsMonotone(c.year, c.month + 1, 13);
    MonthsFillYear(c.year);
    var y := YearOf(0, day).0;
    if y > c.year { YearsMonotone(c.year + 1, y); }
  }

  // ---------------------------------------------------------------- text

  function Pow10(w: nat): (p: nat)
    ensures p > 0
  {
    if w == 0 then 1 else 10 * Pow10(w - 1)
  }

  /** v in decimal, zero-padded to w digits. */
  function Decimal(v: nat, w: nat): (s: string)
    ensures |s| == w
  {
    if w == 0 then [] else Decimal(v / 10, w - 1) + [('0' as int + v % 10) as char]
  }

  function Undecimal(s: string): int {
    if s == [] then 0 else 10 * Undecimal(s[..|s| - 1]) + (s[|s| - 1] as int - '0' as int)
  }

  /** Each field zero-padded to its width and closed by its separator. */
  function Render(vs: seq<nat>, widths: seq<nat>, seps: string): (s: string)
    requires |vs| == |widths| == |seps|
  {
    if vs == [] then [] else Decimal(vs[0], widths[0]) + [seps[0]] + Render(vs[1..], widths[1..], seps[1..])
  }

  const WIDTHS: seq<nat> := [4, 2, 2, 2, 2, 2, 3]
  const SEPARATORS := "--T::.Z"

  function FmtCivil(c: Civil): string { Render(Fields(c), WIDTHS, SEPARATORS) }

  /** fmtTime: the layout keeps milliseconds and drops the finer part. */
  function FmtTime(nanos: nat): string
    requires InRange(nanos / NANOS_PER_MILLI)
  {
    FmtCivil(FromMillis(nanos / NANOS_PER_MILLI))
  }

  function Unrender(s: string, widths: seq<nat>): seq<int>
  {
    if widths == [] || |s| <= widths[0] then []
    else [Undecimal(s[..widths[0]])] + Unrender(s[widths[0] + 1..], widths[1..])
  }

  /** parseTime on text in the layout; anything else gives the zero time, as the source ignores the error. */
  function ParseTime(s: string): int {
    var fs := Unrender(s, WIDTHS);
    if |fs| == 7 && (forall i | 0 <= i < 7 :: fs[i] >= 0) then
      var c := Civil(fs[0], fs[1], fs[2], fs[3], fs[4], fs[5], fs[6]);
      if ValidCivil(c) && FmtCivil(c) == s then ToMillis(c) * NANOS_PER_MILLI else 0
    else 0
  }

  /** String order by character code: what SQLite's default text comparison uses. */
  predicate TextLess(a: string, b: string) {
    b != [] && (a == [] || a[0] < b[0] || (a[0] == b[0] && TextLess(a[1..], b[1..])))
  }

  lemma {:induction false} TextIrreflexive(a: string)
    ensures !TextLess(a, a)
  {
    if a != [] { TextIrreflexive(a[1..]); }
  }

  /** For equally long heads the order is decided by the heads, then the tails. */
  lemma {:induction false} TextLessConcat(a: string, a': string, b: string, b': string)
    requires |a| == |b|
    ensures TextLess(a + a', b + b') <==> (TextLess(a, b) || (a == b && TextLess(a', b')))
  {
    if a == [] {
      assert a + a' == a' && b + b' == b';
    } else {
      assert (a + a')[1..] == a[1..] + a' && (b + b')[1..] == b[1..] + b';
      TextLessConcat(a[1..], a', b[1..], b');
      assert a == [a[0]] + a[1..] && b == [b[0]] + b[1..];
    }
  }

  /** Zero-padding to a common width makes text order numeric order. */
  lemma {:induction false} DecimalOrder(v: nat, v': nat, w: nat)
    requires v < Pow10(w) && v' < Pow10(w)
    ensures TextLess(Decimal(v, w), Decimal(v', w)) <==> v < v'
    ensures Decimal(v, w) == Decimal(v', w) <==> v == v'
  {
    if w > 0 {
      DecimalOrder(v / 10, v' / 10, w - 1);
      var d, d' := [('0' as int + v % 10) as char], [('0' as int + v' % 10) as char];
      TextLessConcat(Decimal(v / 10, w - 1), d, Decimal(v' / 10, w - 1), d');
      assert TextLess(d, d') <==> v % 10 < v' % 10;
      if Decimal(v, w) == Decimal(v', w) {
        assert Decimal(v, w)[..w - 1] == Decimal(v / 10, w - 1);
        assert Decimal(v', w)[..w - 1] == Decimal(v' / 10, w - 1);
        assert Decimal(v, w)[w - 1] == d[0] && Decimal(v', w)[w - 1] == d'[0];
      }
    }
  }

  ghost predicate FitsWidths(vs: seq<nat>, widths: seq<nat>) {
    |vs| == |widths| && forall i | 0 <= i < |vs| :: vs[i] < Pow10(widths[i])
  }

  lemma {:induction false} RenderOrder(vs: seq<nat>, vs': seq<nat>, widths: seq<nat>, seps: string)
    requires FitsWidths(vs, widths) && FitsWidths(vs', widths) && |seps| == |widths|
    ensures TextLess(Render(vs, widths, seps), Render(vs', widths, seps)) <==> TupleLess(vs, vs')
  {
    if vs != [] {
      var a, b := Decimal(vs[0], widths[0]), Decimal(vs'[0], widths[0]);
      var ra, rb := Render(vs[1..], widths[1..], seps[1..]), Render(vs'[1..], widths[1..], seps[1..]);
      RenderOrder(vs[1..], vs'[1..], widths[1..], seps[1..]);
      DecimalOrder(vs[0], vs'[0], widths[0]);
      TextLessConcat(a, [seps[0]] + ra, b, [seps[0]] + rb);
      assert a + [seps[0]] + ra == a + ([seps[0]] + ra) && b + [seps[0]] + rb == b + ([seps[0]] + rb);
      TextLessConcat([seps[0]], ra, [seps[0]], rb);
      TextIrreflexive([seps[0]]);
    }
  }

  lemma {:induction false} UndecimalDecimal(v: nat, w: nat)
    requires v < Pow10(w)
    ensures Undecimal(Decimal(v, w)) == v
  {
    if w > 0 {
      UndecimalDecimal(v / 10, w - 1);
      LastDigit(v, w);
    }
  }

  lemma LastDigit(v: nat, w: nat)
    requires w > 0
    ensures var s := Decimal(v, w); s[..w - 1] == Decimal(v / 10, w - 1) && s[w - 1] as int - '0' as int == v % 10
  {}

  lemma {:induction false} UnrenderRender(vs: seq<nat>, widths: seq<nat>, seps: string)
    requires FitsWidths(vs, widths) && |seps| == |widths|
    ensures Unrender(Render(vs, widths, seps), widths) == vs
  {
    if vs != [] {
      var s := Render(vs, widths, seps);
      var w := widths[0];
      UndecimalDecimal(vs[0], w);
      assert s[..w] == Decimal(vs[0], w);
      assert s[w + 1..] == Render(vs[1..], widths[1..], seps[1..]);
      UnrenderRender(vs[1..], widths[1..], seps[1..]);
    }
  }

  lemma CivilFits(c: Civil)
    requires ValidCivil(c)
    ensures FitsWidths(Fields(c), WIDTHS)
  {
    assert Pow10(2) == 100;
    assert Pow10(3) == 10 * Pow10(2);
    assert Pow10(4) == 10 * Pow10(3);
  }

  // ---------------------------------------------------------------- main results

  /** The layout: four digits of year, two of month, day, hour, minute and second, three of milliseconds, in this punctuation. */
  lemma LayoutIsFixed(nanos: nat)
    requires InRange(nanos / NANOS_PER_MILLI)
    ensures var s, c := FmtTime(nanos), FromMillis(nanos / NANOS_PER_MILLI);
      s == Decimal(c.year, 4) + "-" + Decimal(c.month, 2) + "-" + Decimal(c.day, 2) + "T" + Decimal(c.hour, 2) + ":"
           + Decimal(c.minute, 2) + ":" + Decimal(c.second, 2) + "." + Decimal(c.milli, 3) + "Z"
  {
    var c := FromMillis(nanos / NANOS_PER_MILLI);
    FieldsRender(Fields(c), WIDTHS, SEPARATORS);
  }

  lemma FieldsRender(vs: seq<nat>, widths: seq<nat>, seps: string)
    requires |vs| == |widths| == |seps| == 7
    ensures Render(vs, widths, seps)
         == Decimal(vs[0], widths[0]) + [seps[0]] + Decimal(vs[1], widths[1]) + [seps[1]] + Decimal(vs[2], widths[2]) + [seps[2]]
            + Decimal(vs[3], widths[3]) + [seps[3]] + Decimal(vs[4], widths[4]) + [seps[4]] + Decimal(vs[5], widths[5]) + [seps[5]]
            + Decimal(vs[6], widths[6]) + [seps[6]]
  {
    assert vs[0..] == vs && widths[0..] == widths && seps[0..] == seps;
    var a1 := Decimal(vs[0], widths[0]) + [seps[0]];
    var a2 := a1 + Decimal(vs[1], widths[1]) + [seps[1]];
    var a3 := a2 + Decimal(vs[2], widths[2]) + [seps[2]];
    NextField(vs, widths, seps, 1, a1);
    NextField(vs, widths, seps, 2, a2);
    LastFieldsRender(vs, widths, seps, a3);
  }

  lemma LastFieldsRender(vs: seq<nat>, widths: seq<nat>, seps: string, date: string)
    requires |vs| == |widths| == |seps| == 7
    ensures date + Render(vs[3..], widths[3..], seps[3..])
         == date + Decimal(vs[3], widths[3]) + [seps[3]] + Decimal(vs[4], widths[4]) + [seps[4]] + Decimal(vs[5], widths[5]) + [seps[5]]
            + Decimal(vs[6], widths[6]) + [seps[6]]
  {
    var a4 := date + Decimal(vs[3], widths[3]) + [seps[3]];
    var a5 := a4 + Decimal(vs[4], widths[4]) + [seps[4]];
    var a6 := a5 + Decimal(vs[5], widths[5]) + [seps[5]];
    NextField(vs, widths, seps, 3, date);
    NextField(vs, widths, seps, 4, a4);
    NextField(vs, widths, seps, 5, a5);
    NextField(vs, widths, seps, 6, a6);
    var all := a6 + Decimal(vs[6], widths[6]) + [seps[6]];
    assert all + Render(vs[7..], widths[7..], seps[7..]) == all;
  }

  lemma NextField(vs: seq<nat>, widths: seq<nat>, seps: string, i: nat, before: string)
    requires |vs| == |widths| == |seps| && i < |vs|
    ensures before + Render(vs[i..], widths[i..], seps[i..])
         == before + Decimal(vs[i], widths[i]) + [seps[i]] + Render(vs[i + 1..], widths[i + 1..], seps[i + 1..])
  {
    assert vs[i..][1..] == vs[i + 1..] && widths[i..][1..] == widths[i + 1..] && seps[i..][1..] == seps[i + 1..];
  }

  /** Comparing two timestamps as text is comparing them as milliseconds. */
  lemma TextOrderIsTimeOrder(a: nat, b: nat)
    requires InRange(a / NANOS_PER_MILLI) && InRange(b / NANOS_PER_MILLI)
    ensures TextLess(FmtTime(a), FmtTime(b)) <==> a / NANOS_PER_MILLI < b / NANOS_PER_MILLI
    ensures FmtTime(a) == FmtTime(b) <==> a / NANOS_PER_MILLI == b / NANOS_PER_MILLI
  {
    var ca, cb := FromMillis(a / NANOS_PER_MILLI), FromMillis(b / NANOS_PER_MILLI);
    CivilFits(ca);
    CivilFits(cb);
    RenderOrder(Fields(ca), Fields(cb), WIDTHS, SEPARATORS);
    TupleTrichotomy(Fields(ca), Fields(cb));
    if TupleLess(Fields(ca), Fields(cb)) {
      FieldOrderIsTimeOrder(ca, cb);
    } else if TupleLess(Fields(cb), Fields(ca)) {
      FieldOrderIsTimeOrder(cb, ca);
    }
    if FmtTime(a) == FmtTime(b) {
      UnrenderRender(Fields(ca), WIDTHS, SEPARATORS);
      UnrenderRender(Fields(cb), WIDTHS, SEPARATORS);
      EqualFields(ca, cb);
    }
  }

  /** Reading back a stored timestamp gives the instant truncated to milliseconds. */
  lemma ParseUndoesFormat(a: nat)
    requires InRange(a / NANOS_PER_MILLI)
    ensures ParseTime(FmtTime(a)) == a / NANOS_PER_MILLI * NANOS_PER_MILLI
  {
    var c := FromMillis(a / NANOS_PER_MILLI);
    CivilFits(c);
    UnrenderRender(Fields(c), WIDTHS, SEPARATORS);
  }

  /**
   A text-compared query picks exactly the rows the millisecond comparison picks: `expires_at > now`,
   `until > now` and `received_at > since` on one side, `expires_at <= now` on the other.
   */
  lemma TextQueriesSelectByTime(rows: map<nat, nat>, now: nat)
    requires InRange(now / NANOS_PER_MILLI)
    requires forall id | id in rows :: InRange(rows[id] / NANOS_PER_MILLI)
    ensures (set id | id in rows && TextLess(FmtTime(now), FmtTime(rows[id])))
         == (set id | id in rows && rows[id] / NANOS_PER_MILLI > now / NANOS_PER_MILLI)
    ensures (set id | id in rows && !TextLess(FmtTime(now), FmtTime(rows[id])))
         == (set id | id in rows && rows[id] / NANOS_PER_MILLI <= now / NANOS_PER_MILLI)
    ensures (set id | id in rows && TextLess(FmtTime(rows[id]), FmtTime(now)))
         == (set id | id in rows && rows[id] / NANOS_PER_MILLI < now / NANOS_PER_MILLI)
  {
    forall id | id in rows
      ensures TextLess(FmtTime(now), FmtTime(rows[id])) <==> rows[id] / NANOS_PER_MILLI > now / NANOS_PER_MILLI
      ensures TextLess(FmtTime(rows[id]), FmtTime(now)) <==> rows[id] / NANOS_PER_MILLI < now / NANOS_PER_MILLI
    {
      TextOrderIsTimeOrder(now, rows[id]);
      TextOrderIsTimeOrder(rows[id], now);
    }
  }
}
