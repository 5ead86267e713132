/**
  The time filters of internal/store/sqlstore.go: times are stored as text, cut to 19 characters, and
  compared as strings.
 */
module TimeFilter {
  import opened Text

  /** Nanoseconds since 0000-01-01T00:00:00Z. */
  type Instant = nat

  const SECOND := 1_000_000_000
  const DAY := 86_400

  /** Go's zero time, 0001-01-01T00:00:00Z, which stands for no time at all. */
  const ZERO: Instant := 366 * DAY * SECOND

  function Floor(t: Instant): nat {
    t / SECOND
  }

  // ---- the calendar ----

  datatype Date = Date(year: nat, month: nat, day: nat)

  datatype Stamp = Stamp(date: Date, hour: nat, minute: nat, second: nat)

  predicate Leap(year: nat) {
    year % 4 == 0 && (year % 100 != 0 || year % 400 == 0)
  }

  function DaysIn(year: nat, month: nat): nat {
    if month == 2 then if Leap(year) then 29 else 28
    else if month in {4, 6, 9, 11} then 30
    else 31
  }

  function NextDay(d: Date): Date {
    if d.day < DaysIn(d.year, d.month) then d.(day := d.day + 1)
    else if d.month < 12 then Date(d.year, d.month + 1, 1)
    else Date(d.year + 1, 1, 1)
  }

  /** The proleptic Gregorian date, counting days from 0000-01-01. */
  function DateOf(days: nat): (d: Date)
    ensures 1 <= d.month <= 12 && 1 <= d.day <= 31
  {
    if days == 0 then Date(0, 1, 1) else NextDay(DateOf(days - 1))
  }

  function StampOf(seconds: nat): Stamp {
    var rest := seconds % DAY;
    Stamp(DateOf(seconds / DAY), rest / 3600, rest % 3600 / 60, rest % 60)
  }

  predicate DateBefore(a: Date, b: Date) {
    a.year < b.year || (a.year == b.year && (a.month < b.month || (a.month == b.month && a.day < b.day)))
  }

  predicate ClockBefore(a: Stamp, b: Stamp) {
    a.hour < b.hour || (a.hour == b.hour && (a.minute < b.minute || (a.minute == b.minute && a.second < b.second)))
  }

  predicate Before(a: Stamp, b: Stamp) {
    DateBefore(a.date, b.date) || (a.date == b.date && ClockBefore(a, b))
  }

  /** The calendar never turns back. */
  lemma {:induction false} DatesIncrease(x: nat, y: nat)
    requires x < y
    ensures DateBefore(DateOf(x), DateOf(y))
  {
    if x < y - 1 {
      DatesIncrease(x, y - 1);
    }
  }

  lemma ClockOrder(x: nat, y: nat)
    requires x < DAY && y < DAY
    ensures x < y <==> (x / 3600 < y / 3600 || (x / 3600 == y / 3600
                          && (x % 3600 / 60 < y % 3600 / 60 || (x % 3600 / 60 == y % 3600 / 60 && x % 60 < y % 60))))
  {
    Split60(x);
    Split60(y);
  }

  lemma Split60(x: nat)
    ensures x == x / 3600 * 3600 + x % 3600 / 60 * 60 + x % 60
    ensures x % 3600 / 60 < 60 && x % 60 < 60
  {
    var q, r := x / 3600, x % 3600;
    Remainder60(x, 60 * q + r / 60, r % 60);
  }

  lemma Remainder60(x: nat, q: nat, r: nat)
    requires x == 60 * q + r && r < 60
    ensures x % 60 == r
  {
  }

  /** Seconds and calendar stamps are ordered alike. */
  lemma StampsOrdered(x: nat, y: nat)
    ensures Before(StampOf(x), StampOf(y)) <==> x < y
  {
    ClockOrder(x % DAY, y % DAY);
    if x / DAY < y / DAY {
      DatesIncrease(x / DAY, y / DAY);
    } else if y / DAY < x / DAY {
      DatesIncrease(y / DAY, x / DAY);
    }
  }

  // ---- text ----

  /** The order of strings in SQL, character by character. */
  predicate Less(a: string, b: string) {
    b != "" && (a == "" || a[0] < b[0] || (a[0] == b[0] && Less(a[1..], b[1..])))
  }

  function Pad(n: nat, width: nat): (s: string)
    ensures |s| == width
  {
    if width == 0 then "" else Pad(n / 10, width - 1) + [Digit(n % 10)]
  }

  /** A year has four digits or as many as it needs. */
  function ShowYear(year: nat): string {
    if year < 10_000 then Pad(year, 4) else ShowNat(year)
  }

  function ShowClock(t: Stamp): string {
    Pad(t.hour, 2) + (":" + (Pad(t.minute, 2) + (":" + Pad(t.second, 2))))
  }

  function ShowStamp(t: Stamp): string {
    ShowYear(t.date.year) + ("-" + (Pad(t.date.month, 2) + ("-" + (Pad(t.date.day, 2) + ("T" + ShowClock(t))))))
  }

  /** secondBound. */
  function SecondBound(t: Instant): string {
    ShowStamp(StampOf(Floor(t)))
  }

  function TrimZeros(s: string): string {
    if s != "" && s[|s| - 1] == '0' then TrimZeros(s[..|s| - 1]) else s
  }

  /** The fraction of RFC3339Nano: absent for a whole second, without trailing zeros. */
  function Fraction(nanos: nat): string {
    if nanos == 0 then "" else "." + TrimZeros(Pad(nanos, 9))
  }

  /** fmtTime. */
  function FmtTime(t: Instant): string {
    if t == ZERO then "" else SecondBound(t) + (Fraction(t % SECOND) + "Z")
  }

  /** substr(s, 1, 19). */
  function Substr19(s: string): string {
    if |s| <= 19 then s else s[..19]
  }

  /** The bound for an upper limit: its second cut off, one second on. */
  function UntilBound(until: Instant): string {
    SecondBound(until - until % SECOND + SECOND)
  }

  /** The time conditions of ListTasks; a zero bound adds none. */
  predicate Listed(created: Instant, since: Instant, until: Instant) {
    var text := Substr19(FmtTime(created));
    && (since != ZERO ==> !Less(text, SecondBound(since)))
    && (until != ZERO ==> Less(text, UntilBound(until)))
  }

  /** What they are meant to select: the seconds from that of since to that of until, both included. */
  predicate Promised(created: Instant, since: Instant, until: Instant) {
    && (since != ZERO ==> Floor(since) <= Floor(created))
    && (until != ZERO ==> Floor(created) <= Floor(until))
  }

  predicate InRange(t: Instant) {
    StampOf(Floor(t)).date.year < 10_000
  }

  // ---- comparing text compares times ----

  lemma {:induction false} LessAppended(x: string, y: string, a: string, b: string)
    requires |x| == |y|
    ensures Less(x + a, y + b) <==> Less(x, y) || (x == y && Less(a, b))
  {
    if x == "" {
      assert x + a == a && y + b == b;
    } else {
      LessAppended(x[1..], y[1..], a, b);
      assert (x + a)[1..] == x[1..] + a && (y + b)[1..] == y[1..] + b;
      assert x == [x[0]] + x[1..] && y == [y[0]] + y[1..];
    }
  }

  function Pow10(width: nat): nat {
    if width == 0 then 1 else 10 * Pow10(width - 1)
  }

  /** Padded numbers of one width are ordered as numbers. */
  lemma {:induction false} PadOrdered(n: nat, m: nat, width: nat)
    requires n < Pow10(width) && m < Pow10(width)
    ensures Less(Pad(n, width), Pad(m, width)) <==> n < m
    ensures Pad(n, width) == Pad(m, width) <==> n == m
  {
    if width > 0 {
      PadOrdered(n / 10, m / 10, width - 1);
      var x, y := Pad(n / 10, width - 1), Pad(m / 10, width - 1);
      LessAppended(x, y, [Digit(n % 10)], [Digit(m % 10)]);
      LastDigit(x, y, n % 10, m % 10);
    }
  }

  lemma LastDigit(x: string, y: string, d: nat, e: nat)
    requires |x| == |y| && d < 10 && e < 10
    ensures Less([Digit(d)], [Digit(e)]) <==> d < e
    ensures x + [Digit(d)] == y + [Digit(e)] <==> x == y && d == e
  {
    var a, b := x + [Digit(d)], y + [Digit(e)];
    assert a[..|x|] == x && b[..|y|] == y && a[|x|] == Digit(d) && b[|y|] == Digit(e);
    assert [Digit(d)][1..] == "" && [Digit(e)][1..] == "";
  }

  /** One field in front of the rest. */
  lemma {:induction false} FieldOrdered(n: nat, m: nat, width: nat, a: string, b: string)
    requires n < Pow10(width) && m < Pow10(width)
    ensures Less(Pad(n, width) + a, Pad(m, width) + b) <==> n < m || (n == m && Less(a, b))
  {
    PadOrdered(n, m, width);
    LessAppended(Pad(n, width), Pad(m, width), a, b);
  }

  lemma {:induction false} SeparatorOrdered(c: char, a: string, b: string)
    ensures Less([c] + a, [c] + b) <==> Less(a, b)
  {
    LessAppended([c], [c], a, b);
  }

  lemma ClocksOrdered(a: Stamp, b: Stamp)
    requires a.hour < 100 && a.minute < 100 && a.second < 100 && b.hour < 100 && b.minute < 100 && b.second < 100
    ensures Less(ShowClock(a), ShowClock(b)) <==> ClockBefore(a, b)
  {
    var sa, sb := Pad(a.second, 2), Pad(b.second, 2);
    var ma, mb := Pad(a.minute, 2) + (":" + sa), Pad(b.minute, 2) + (":" + sb);
    assert Pow10(2) == 100;
    PadOrdered(a.second, b.second, 2);
    SeparatorOrdered(':', sa, sb);
    FieldOrdered(a.minute, b.minute, 2, ":" + sa, ":" + sb);
    SeparatorOrdered(':', ma, mb);
    FieldOrdered(a.hour, b.hour, 2, ":" + ma, ":" + mb);
  }

  lemma DatesOrdered(a: Stamp, b: Stamp)
    requires a.date.year < 10_000 && a.date.month < 100 && a.date.day < 100 && a.hour < 100 && a.minute < 100
            && a.second < 100
    requires b.date.year < 10_000 && b.date.month < 100 && b.date.day < 100 && b.hour < 100 && b.minute < 100
            && b.second < 100
    ensures Less(ShowStamp(a), ShowStamp(b)) <==> Before(a, b)
  {
    var ca, cb := "T" + ShowClock(a), "T" + ShowClock(b);
    var da, db := "-" + (Pad(a.date.day, 2) + ca), "-" + (Pad(b.date.day, 2) + cb);
    var ma, mb := "-" + (Pad(a.date.month, 2) + da), "-" + (Pad(b.date.month, 2) + db);
    assert Pow10(2) == 100 && Pow10(4) == 10_000;
    ClocksOrdered(a, b);
    SeparatorOrdered('T', ShowClock(a), ShowClock(b));
    FieldOrdered(a.date.day, b.date.day, 2, ca, cb);
    SeparatorOrdered('-', Pad(a.date.day, 2) + ca, Pad(b.date.day, 2) + cb);
    FieldOrdered(a.date.month, b.date.month, 2, da, db);
    SeparatorOrdered('-', Pad(a.date.month, 2) + da, Pad(b.date.month, 2) + db);
    FieldOrdered(a.date.year, b.date.year, 4, ma, mb);
  }

  lemma ClockFits(seconds: nat)
    ensures var t := StampOf(seconds); t.hour < 24 && t.minute < 60 && t.second < 60
  {
  }

  /** Up to the year 9999 the cut-off text of one time comes before that of another exactly when its second does. */
  lemma BoundsOrdered(t: Instant, u: Instant)
    requires InRange(t) && InRange(u)
    ensures Less(SecondBound(t), SecondBound(u)) <==> Floor(t) < Floor(u)
  {
    ClockFits(Floor(t));
    ClockFits(Floor(u));
    DatesOrdered(StampOf(Floor(t)), StampOf(Floor(u)));
    StampsOrdered(Floor(t), Floor(u));
  }

  /** Cutting the stored text leaves the whole second, whatever the fraction. */
  lemma CutIsSecond(t: Instant)
    requires InRange(t)
    ensures Substr19(FmtTime(t)) == (if t == ZERO then "" else SecondBound(t)) && |SecondBound(t)| == 19
  {
  }

  lemma NextBound(t: Instant)
    ensures UntilBound(t) == SecondBound(t + SECOND) && Floor(t + SECOND) == Floor(t) + 1
  {
    var next: Instant := t - t % SECOND + SECOND;
    FloorNext(t);
    assert SecondBound(next) == SecondBound(t + SECOND);
  }

  lemma FloorNext(t: Instant)
    ensures Floor(t - t % SECOND + SECOND) == Floor(t) + 1 == Floor(t + SECOND)
  {
  }

  /** An upper bound within the range but in its last second. */
  predicate LastSecond(until: Instant) {
    InRange(until) && !InRange(until + SECOND)
  }

  /**
    What the filter selects, for all times up to the year 9999: what it is meant to, unless the upper bound
    lies in the very last second; then it keeps the times up to the year 1000 only.
   */
  lemma FilterExact(created: Instant, since: Instant, until: Instant)
    requires InRange(created) && InRange(since) && InRange(until) && created != ZERO
    ensures until == ZERO || !LastSecond(until) ==> (Listed(created, since, until) <==> Promised(created, since, until))
    ensures until != ZERO && LastSecond(until) ==>
              (Listed(created, since, until) <==>
               Promised(created, since, until) && StampOf(Floor(created)).date.year <= 1000)
  {
    CutIsSecond(created);
    BoundsOrdered(created, since);
    UpperExact(created, until);
  }

  lemma UpperExact(created: Instant, until: Instant)
    requires InRange(created) && InRange(until)
    ensures !LastSecond(until) ==> (Less(SecondBound(created), UntilBound(until)) <==> Floor(created) <= Floor(until))
    ensures LastSecond(until) ==>
              && (Less(SecondBound(created), UntilBound(until)) <==> StampOf(Floor(created)).date.year <= 1000)
              && Floor(created) <= Floor(until)
  {
    NextBound(until);
    if LastSecond(until) {
      EndOfRange(Floor(created), Floor(until));
      FiveDigitYear(StampOf(Floor(created)), StampOf(Floor(until + SECOND)));
    } else {
      BoundsOrdered(created, until + SECOND);
    }
  }

  ghost predicate KeepsPromise(since: Instant, until: Instant) {
    forall created :: InRange(created) && created != ZERO ==>
                        (Listed(created, since, until) <==> Promised(created, since, until))
  }

  /** Exactly when the filter keeps its promise for every stored time. */
  lemma FilterCorrectIff(since: Instant, until: Instant)
    requires InRange(since) && InRange(until)
    ensures KeepsPromise(since, until) <==> until == ZERO || !LastSecond(until)
  {
    if until == ZERO || !LastSecond(until) {
      forall created | InRange(created) && created != ZERO
        ensures Listed(created, since, until) <==> Promised(created, since, until)
      {
        FilterExact(created, since, until);
      }
    } else {
      LastSecondDrops(since, until);
    }
  }

  /** Such a bound misses even the time it names. */
  lemma LastSecondDrops(since: Instant, until: Instant)
    requires InRange(since) && LastSecond(until) && until != ZERO
    ensures Promised(until, since, until) && !Listed(until, since, until)
  {
    CutIsSecond(until);
    UpperExact(until, until);
    UpperExact(since, until);
    LastYear(until);
  }

  lemma LastYear(until: Instant)
    requires LastSecond(until)
    ensures StampOf(Floor(until)).date.year == 9_999
  {
    FloorNext(until);
    EndOfRange(Floor(until), Floor(until));
  }

  /** A task stored without a time is listed exactly without a lower bound. */
  lemma ZeroTimeListedIff(since: Instant, until: Instant)
    ensures Listed(ZERO, since, until) <==> since == ZERO
  {
    BoundNotEmpty(since);
    NextBound(until);
    BoundNotEmpty(until + SECOND);
  }

  lemma BoundNotEmpty(t: Instant)
    ensures SecondBound(t) != ""
  {
    assert |SecondBound(t)| >= |"-"|;
  }

  /** As text the year 10000 comes right after the year 1000. */
  lemma FiveDigitYear(c: Stamp, next: Stamp)
    requires c.date.year < 10_000 == next.date.year
    ensures Less(ShowStamp(c), ShowStamp(next)) <==> c.date.year <= 1000
  {
    var rest := Pad(next.date.month, 2) + ("-" + (Pad(next.date.day, 2) + ("T" + ShowClock(next))));
    var mine := Pad(c.date.month, 2) + ("-" + (Pad(c.date.day, 2) + ("T" + ShowClock(c))));
    ShowTenThousand();
    assert ShowYear(10_000) + ("-" + rest) == Pad(1000, 4) + ("0-" + rest);
    assert Pow10(4) == 10_000;
    FieldOrdered(c.date.year, 1000, 4, "-" + mine, "0-" + rest);
  }

  lemma ShowTenThousand()
    ensures ShowNat(10_000) == "10000" && Pad(1000, 4) == "1000"
  {
    assert ShowNat(1) == "1" && ShowNat(10) == "10" && ShowNat(100) == "100" && ShowNat(1000) == "1000";
  }

  lemma EndOfRange(x: nat, last: nat)
    requires StampOf(x).date.year < 10_000 && StampOf(last).date.year < 10_000 <= StampOf(last + 1).date.year
    ensures x <= last && StampOf(last).date.year == 9_999 && StampOf(last + 1).date.year == 10_000
  {
    StampsOrdered(last + 1, x);
    NextSecond(last);
  }

  /** A second later it is the same day or the next one. */
  lemma NextSecond(x: nat)
    ensures (x + 1) / DAY == x / DAY || (x + 1) / DAY == x / DAY + 1
  {
    var q, r := x / DAY, x % DAY;
    assert x == DAY * q + r;
    if r + 1 < DAY {
      assert (x + 1) / DAY == q by { QuotientIs(x + 1, q, r + 1); }
    } else {
      assert (x + 1) / DAY == q + 1 by { QuotientIs(x + 1, q + 1, 0); }
    }
  }

  lemma QuotientIs(x: nat, q: nat, r: nat)
    requires x == DAY * q + r && r < DAY
    ensures x / DAY == q
  {
  }

  /** Why the text is cut: uncut, a whole second comes after every fraction of itself. */
  lemma WholeSecondMisordered(t: Instant)
    requires t % SECOND > 0
    ensures t - t % SECOND != ZERO ==> Less(FmtTime(t), FmtTime(t - t % SECOND))
  {
    if t - t % SECOND != ZERO {
      WholeSecond(t);
    }
    DotBeforeZ(SecondBound(t), TrimZeros(Pad(t % SECOND, 9)));
  }

  lemma WholeSecond(t: Instant)
    requires t - t % SECOND != ZERO
    ensures FmtTime(t - t % SECOND) == SecondBound(t) + ("" + "Z")
  {
    var whole: Instant := t - t % SECOND;
    FloorWhole(t);
    assert SecondBound(whole) == SecondBound(t);
  }

  lemma FloorWhole(t: Instant)
    ensures Floor(t - t % SECOND) == Floor(t) && (t - t % SECOND) % SECOND == 0
  {
  }

  lemma {:induction false} DotBeforeZ(stamp: string, digits: string)
    ensures Less(stamp + ("." + digits + "Z"), stamp + ("" + "Z"))
  {
    LessAppended(stamp, stamp, "." + digits + "Z", "" + "Z");
  }

  // ---- the zero time, and the last second of the range ----

  /** From the first of a month to the first of the next one. */
  lemma MonthPasses(first: nat, year: nat, month: nat)
    requires DateOf(first) == Date(year, month, 1) && 1 <= month <= 12
    ensures DateOf(first + DaysIn(year, month)) == if month < 12 then Date(year, month + 1, 1) else Date(year + 1, 1, 1)
  {
    DaysPass(first, year, month, DaysIn(year, month) - 1);
  }

  lemma {:induction false} DaysPass(first: nat, year: nat, month: nat, n: nat)
    requires DateOf(first) == Date(year, month, 1) && 1 <= month <= 12 && n < DaysIn(year, month)
    ensures DateOf(first + n) == Date(year, month, 1 + n)
  {
    if n > 0 {
      DaysPass(first, year, month, n - 1);
    }
  }

  /** The days of the leap year 0 before a month. */
  function DaysBefore(month: nat): nat
    requires 1 <= month <= 13
  {
    if month == 1 then 0 else DaysBefore(month - 1) + DaysIn(0, month - 1)
  }

  function FirstOf(month: nat): Date {
    if month <= 12 then Date(0, month, 1) else Date(1, 1, 1)
  }

  lemma {:induction false} MonthsPass(month: nat)
    requires 1 <= month <= 13
    ensures DateOf(DaysBefore(month)) == FirstOf(month)
  {
    if month > 1 {
      MonthsPass(month - 1);
      MonthPasses(DaysBefore(month - 1), 0, month - 1);
    }
  }

  lemma {:induction false} DayStarts(seconds: nat, days: nat)
    requires seconds == days * DAY
    ensures StampOf(seconds) == Stamp(DateOf(days), 0, 0, 0)
  {
    assert seconds / DAY == days && seconds % DAY == 0;
  }

  lemma LeapYearDays()
    ensures DaysBefore(13) == 366
  {
    assert DaysBefore(7) == 182;
  }

  /** The zero time is the start of the first of January of the year 1. */
  lemma ZeroIsYearOne()
    ensures StampOf(Floor(ZERO)) == Stamp(Date(1, 1, 1), 0, 0, 0) && ZERO % SECOND == 0
  {
    MonthsPass(13);
    LeapYearDays();
    DayStarts(Floor(ZERO), 366);
  }

  /** Counts days as if every month had 31 of them. */
  function Rank(d: Date): nat {
    (d.year * 12 + d.month) * 31 + d.day
  }

  lemma {:induction false} RankGrows(days: nat)
    ensures Rank(DateOf(days)) >= days
  {
    if days > 0 {
      RankGrows(days - 1);
    }
  }

  lemma {:induction false} FirstPast(seconds: nat) returns (last: nat)
    requires StampOf(seconds).date.year >= 10_000
    ensures StampOf(last).date.year < 10_000 <= StampOf(last + 1).date.year
  {
    assert StampOf(0).date.year == 0;
    if StampOf(seconds - 1).date.year < 10_000 {
      last := seconds - 1;
    } else {
      last := FirstPast(seconds - 1);
    }
  }

  lemma YearsPass(days: nat)
    requires days >= 372 * 10_001
    ensures StampOf(days * DAY).date.year >= 10_000
  {
    RankGrows(days);
    DayStarts(days * DAY, days);
  }

  /** The failing bound exists. */
  lemma LastSecondExists() returns (until: Instant)
    ensures LastSecond(until) && until != ZERO
  {
    var days: nat :| days >= 372 * 10_001;
    YearsPass(days);
    var last := FirstPast(days * DAY);
    FloorOf(last);
    until := last * SECOND;
    EndOfRange(last, last);
    ZeroIsYearOne();
  }

  lemma FloorOf(seconds: nat)
    ensures Floor(seconds * SECOND) == seconds && Floor(seconds * SECOND + SECOND) == seconds + 1
  {
  }
}
