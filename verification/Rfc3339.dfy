// internal/ghdata/respcache.go:20-23: timestamps are stored as RFC 3339 text in UTC, truncated to the second, and
// compared as text by the SQL. For the four-digit years of section 5.6 of RFC 3339 that is chronological order.
module Rfc3339 {

  const NS := 1_000_000_000

  /** A UTC calendar reading. */
  datatype Instant = Instant(year: nat, month: nat, day: nat, hour: nat, minute: nat, second: nat, nanos: nat)

  predicate Leap(y: nat) { y % 4 == 0 && (y % 100 != 0 || y % 400 == 0) }

  function MonthDays(y: nat, m: nat): nat {
    if m == 2 then (if Leap(y) then 29 else 28)
    else if m == 4 || m == 6 || m == 9 || m == 11 then 30
    else 31
  }

  /** Days of the year before month m (1 is January). */
  function DaysBeforeMonth(y: nat, m: nat): nat {
    if m <= 1 then 0 else DaysBeforeMonth(y, m - 1) + MonthDays(y, m - 1)
  }

  function DaysBeforeYear(y: nat): nat {
    if y == 0 then 0 else DaysBeforeYear(y - 1) + DaysBeforeMonth(y - 1, 13)
  }

  predicate Valid(t: Instant) {
    && t.year <= 9999 && 1 <= t.month <= 12 && 1 <= t.day <= MonthDays(t.year, t.month)
    && t.hour < 24 && t.minute < 60 && t.second < 60 && t.nanos < NS
  }

  /** Whole days since the start of year 0. */
  function Days(t: Instant): int { DaysBeforeYear(t.year) + DaysBeforeMonth(t.year, t.month) + t.day - 1 }

  function Seconds(t: Instant): int { ((Days(t) * 24 + t.hour) * 60 + t.minute) * 60 + t.second }

  function Nanos(t: Instant): int { Seconds(t) * NS + t.nanos }

  // ---- The key ----

  function Digit(n: nat): char
    requires n < 10
  {
    '0' + n as char
  }

  /** The w low decimal digits of n. */
  function Digits(n: nat, w: nat): (s: string)
    ensures |s| == w
    decreases w
  {
    if w == 0 then "" else Digits(n / 10, w - 1) + [Digit(n % 10)]
  }

  /** time.RFC3339 of the truncated UTC time. */
  function Key(t: Instant): string {
    Digits(t.year, 4) + (['-'] + (Digits(t.month, 2) + (['-'] + (Digits(t.day, 2) + (['T']
    + (Digits(t.hour, 2) + ([':'] + (Digits(t.minute, 2) + ([':'] + (Digits(t.second, 2) + ['Z']))))))))))
  }

  /** Byte order on text. */
  predicate Before(a: string, b: string) {
    b != [] && (a == [] || a[0] < b[0] || (a[0] == b[0] && Before(a[1..], b[1..])))
  }

  lemma {:induction false} BeforeIrreflexive(a: string)
    ensures !Before(a, a)
  {
    if a != [] {
      BeforeIrreflexive(a[1..]);
    }
  }

  lemma {:induction false} BeforeConcat(a: string, c: string, b: string, d: string)
    requires |a| == |b|
    ensures Before(a + c, b + d) <==> Before(a, b) || (a == b && Before(c, d))
  {
    if a == [] {
      assert a + c == c && b + d == d;
    } else {
      assert (a + c)[1..] == a[1..] + c && (b + d)[1..] == b[1..] + d;
      assert a == b <==> a[0] == b[0] && a[1..] == b[1..];
      BeforeConcat(a[1..], c, b[1..], d);
    }
  }

  function Pow10(w: nat): nat { if w == 0 then 1 else 10 * Pow10(w - 1) }

  lemma {:induction false} DigitsOrder(n: nat, m: nat, w: nat)
    requires n < Pow10(w) && m < Pow10(w)
    ensures Before(Digits(n, w), Digits(m, w)) <==> n < m
    ensures Digits(n, w) == Digits(m, w) <==> n == m
    decreases w
  {
    if w > 0 {
      var a, b := Digits(n / 10, w - 1), Digits(m / 10, w - 1);
      var x, y := [Digit(n % 10)], [Digit(m % 10)];
      DigitsOrder(n / 10, m / 10, w - 1);
      BeforeConcat(a, x, b, y);
      assert Before(x, y) <==> n % 10 < m % 10;
      assert (a + x)[..w - 1] == a && (b + y)[..w - 1] == b && (a + x)[w - 1] == x[0] && (b + y)[w - 1] == y[0];
    }
  }

  /** One numeric field in front of the rest of the key. */
  lemma FieldOrder(n: nat, m: nat, w: nat, c: string, d: string)
    requires n < Pow10(w) && m < Pow10(w)
    ensures Before(Digits(n, w) + c, Digits(m, w) + d) <==> n < m || (n == m && Before(c, d))
    ensures Digits(n, w) + c == Digits(m, w) + d <==> n == m && c == d
  {
    DigitsOrder(n, m, w);
    BeforeConcat(Digits(n, w), c, Digits(m, w), d);
    var a, b := Digits(n, w) + c, Digits(m, w) + d;
    assert a[..w] == Digits(n, w) && b[..w] == Digits(m, w) && a[w..] == c && b[w..] == d;
  }

  /** A punctuation character in front of the rest of the key. */
  lemma MarkOrder(p: char, c: string, d: string)
    ensures Before([p] + c, [p] + d) <==> Before(c, d)
    ensures [p] + c == [p] + d <==> c == d
  {
    assert ([p] + c)[1..] == c && ([p] + d)[1..] == d;
  }

  function ClockKey(t: Instant): string {
    ['T'] + (Digits(t.hour, 2) + ([':'] + (Digits(t.minute, 2) + ([':'] + (Digits(t.second, 2) + ['Z'])))))
  }

  lemma ClockKeyOrder(a: Instant, b: Instant)
    requires Valid(a) && Valid(b)
    ensures Before(ClockKey(a), ClockKey(b)) <==>
            a.hour < b.hour
            || (a.hour == b.hour && (a.minute < b.minute || (a.minute == b.minute && a.second < b.second)))
    ensures ClockKey(a) == ClockKey(b) <==> a.hour == b.hour && a.minute == b.minute && a.second == b.second
  {
    assert Pow10(2) == 100;
    var sa, sb := Digits(a.second, 2) + ['Z'], Digits(b.second, 2) + ['Z'];
    BeforeIrreflexive(['Z']);
    FieldOrder(a.second, b.second, 2, ['Z'], ['Z']);
    MarkOrder(':', sa, sb);
    var ma, mb := Digits(a.minute, 2) + ([':'] + sa), Digits(b.minute, 2) + ([':'] + sb);
    FieldOrder(a.minute, b.minute, 2, [':'] + sa, [':'] + sb);
    MarkOrder(':', ma, mb);
    var ha, hb := Digits(a.hour, 2) + ([':'] + ma), Digits(b.hour, 2) + ([':'] + mb);
    FieldOrder(a.hour, b.hour, 2, [':'] + ma, [':'] + mb);
    MarkOrder('T', ha, hb);
  }

  lemma KeyOrder(a: Instant, b: Instant)
    requires Valid(a) && Valid(b)
    ensures Before(Key(a), Key(b)) <==>
            a.year < b.year || (a.year == b.year && (a.month < b.month || (a.month == b.month &&
            (a.day < b.day || (a.day == b.day && Before(ClockKey(a), ClockKey(b)))))))
    ensures Key(a) == Key(b) <==> a.year == b.year && a.month == b.month && a.day == b.day && ClockKey(a) == ClockKey(b)
  {
    assert Pow10(2) == 100 && Pow10(4) == 10_000;
    var da, db := Digits(a.day, 2) + ClockKey(a), Digits(b.day, 2) + ClockKey(b);
    FieldOrder(a.day, b.day, 2, ClockKey(a), ClockKey(b));
    MarkOrder('-', da, db);
    var ma, mb := Digits(a.month, 2) + (['-'] + da), Digits(b.month, 2) + (['-'] + db);
    FieldOrder(a.month, b.month, 2, ['-'] + da, ['-'] + db);
    MarkOrder('-', ma, mb);
    FieldOrder(a.year, b.year, 4, ['-'] + ma, ['-'] + mb);
  }

  // ---- The calendar ----

  lemma {:induction false} MonthsIncrease(y: nat, m: nat, k: nat)
    requires 1 <= m < k <= 13
    ensures DaysBeforeMonth(y, m) + MonthDays(y, m) <= DaysBeforeMonth(y, k)
    decreases k
  {
    if m < k - 1 {
      MonthsIncrease(y, m, k - 1);
    }
  }

  lemma {:induction false} YearsIncrease(y: nat, z: nat)
    requires y < z
    ensures DaysBeforeYear(y) + DaysBeforeMonth(y, 13) <= DaysBeforeYear(z)
    decreases z
  {
    if y < z - 1 {
      YearsIncrease(y, z - 1);
    }
  }

  lemma EarlierDay(a: Instant, b: Instant)
    requires Valid(a) && Valid(b)
    requires a.year < b.year || (a.year == b.year && (a.month < b.month || (a.month == b.month && a.day < b.day)))
    ensures Days(a) < Days(b)
  {
    if a.year < b.year {
      YearsIncrease(a.year, b.year);
      MonthsIncrease(a.year, a.month, 13);
    } else if a.month < b.month {
      MonthsIncrease(a.year, a.month, b.month);
    }
  }

  lemma EarlierSecond(a: Instant, b: Instant)
    requires Valid(a) && Valid(b) && Before(Key(a), Key(b))
    ensures Seconds(a) < Seconds(b)
  {
    KeyOrder(a, b);
    ClockKeyOrder(a, b);
    if !(a.year == b.year && a.month == b.month && a.day == b.day) {
      EarlierDay(a, b);
    }
  }

  /** Of two keys one comes first or they are the same text. */
  lemma KeyTrichotomy(a: Instant, b: Instant)
    requires Valid(a) && Valid(b)
    ensures Before(Key(a), Key(b)) || Before(Key(b), Key(a)) || Key(a) == Key(b)
  {
    KeyOrder(a, b);
    KeyOrder(b, a);
    ClockKeyOrder(a, b);
    ClockKeyOrder(b, a);
  }

  /** Text order of the stored keys is the order of whole seconds, and equal text means the same second. */
  lemma KeyIsChronological(a: Instant, b: Instant)
    requires Valid(a) && Valid(b)
    ensures Before(Key(a), Key(b)) <==> Seconds(a) < Seconds(b)
    ensures Key(a) == Key(b) <==> Seconds(a) == Seconds(b)
  {
    KeyTrichotomy(a, b);
    if Before(Key(a), Key(b)) {
      EarlierSecond(a, b);
    } else if Before(Key(b), Key(a)) {
      EarlierSecond(b, a);
    } else {
      KeyOrder(a, b);
      ClockKeyOrder(a, b);
    }
    if Key(a) == Key(b) {
      BeforeIrreflexive(Key(a));
    }
  }

  /** A deadline kept as a key, live while the clock's key is smaller: never live at the deadline or after it, always
      live until one second before it. GrantTTL, DenyTTL and every cached row's expiry are such deadlines. */
  lemma DeadlineWithinASecond(now: Instant, deadline: Instant)
    requires Valid(now) && Valid(deadline)
    ensures Nanos(now) >= Nanos(deadline) ==> !Before(Key(now), Key(deadline))
    ensures Nanos(now) + NS <= Nanos(deadline) ==> Before(Key(now), Key(deadline))
  {
    KeyIsChronological(now, deadline);
  }

  /** The reconcile's text comparison never removes a row touched at or after the cutoff. */
  lemma TouchedAfterCutoffStays(touched: Instant, cutoff: Instant)
    requires Valid(touched) && Valid(cutoff) && Nanos(touched) >= Nanos(cutoff)
    ensures !Before(Key(touched), Key(cutoff))
  {
    KeyIsChronological(touched, cutoff);
  }

  // ---- In the standard's terms ----

  /** A field of two digits, and the four of the year. */
  lemma TwoDigits(n: nat)
    requires n < 100
    ensures Digits(n, 2) == ['0' + (n / 10) as char, '0' + (n % 10) as char]
  {
    assert Digits(n / 10, 1) == Digits(n / 10 / 10, 0) + [Digit(n / 10 % 10)];
  }

  lemma FourDigits(n: nat)
    requires n < 10_000
    ensures Digits(n, 4) == Digits(n / 100, 2) + Digits(n % 100, 2)
  {
    var h := n / 100;
    assert n / 10 / 10 == h && n / 10 % 10 == n % 100 / 10 && n % 10 == n % 100 % 10;
    TwoDigits(n % 100);
    assert Digits(n / 10, 3) == Digits(h, 2) + [Digit(n / 10 % 10)];
    assert Digits(n, 4) == Digits(n / 10, 3) + [Digit(n % 10)];
  }

  /** The shape of a key: the date as four, two and two digits, T, the time as three times two, and Z. */
  lemma KeyShape(t: Instant)
    ensures Key(t) == Digits(t.year, 4) + "-" + Digits(t.month, 2) + "-" + Digits(t.day, 2) + "T"
                      + Digits(t.hour, 2) + ":" + Digits(t.minute, 2) + ":" + Digits(t.second, 2) + "Z"
    ensures |Key(t)| == 20
  {
    Joins(Digits(t.year, 4), Digits(t.month, 2), Digits(t.day, 2),
          Digits(t.hour, 2), Digits(t.minute, 2), Digits(t.second, 2));
  }

  lemma Joins(y: string, m: string, d: string, h: string, i: string, s: string)
    ensures y + (['-'] + (m + (['-'] + (d + (['T'] + (h + ([':'] + (i + ([':'] + (s + ['Z']))))))))))
         == y + "-" + m + "-" + d + "T" + h + ":" + i + ":" + s + "Z"
  {
  }

  lemma DaysOfMonths(y: nat)
    ensures var leap := if y % 4 == 0 && (y % 100 != 0 || y % 400 == 0) then 1 else 0;
            && DaysBeforeMonth(y, 1) == 0 && DaysBeforeMonth(y, 2) == 31 && DaysBeforeMonth(y, 3) == 59 + leap
            && DaysBeforeMonth(y, 4) == 90 + leap && DaysBeforeMonth(y, 5) == 120 + leap
            && DaysBeforeMonth(y, 6) == 151 + leap && DaysBeforeMonth(y, 7) == 181 + leap
            && DaysBeforeMonth(y, 8) == 212 + leap && DaysBeforeMonth(y, 9) == 243 + leap
            && DaysBeforeMonth(y, 10) == 273 + leap && DaysBeforeMonth(y, 11) == 304 + leap
            && DaysBeforeMonth(y, 12) == 334 + leap && DaysBeforeMonth(y, 13) == 365 + leap
  {
  }

  /** The Gregorian calendar: 365 days, and a leap day every fourth year, but no hundredth, but every four-hundredth. */
  lemma NextYear(y: nat)
    ensures DaysBeforeYear(0) == 0
    ensures DaysBeforeYear(y + 1)
         == DaysBeforeYear(y) + (if y % 4 == 0 && (y % 100 != 0 || y % 400 == 0) then 366 else 365)
  {
    DaysOfMonths(y);
  }

  /** A day is 86400 seconds, counted from its date. */
  lemma SecondsOfDay(t: Instant)
    ensures Seconds(t) == 86_400 * (DaysBeforeYear(t.year) + DaysBeforeMonth(t.year, t.month) + t.day - 1)
                          + 3600 * t.hour + 60 * t.minute + t.second
    ensures Nanos(t) == 1_000_000_000 * Seconds(t) + t.nanos
  {
  }
}
