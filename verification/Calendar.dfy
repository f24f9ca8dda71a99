/** Civil dates and timestamps (src/token_metrics.rs). The two loops that peel
    off years and months are proved against a closed-form day count, with the
    leap-year rule of Appendix C of RFC 3339. */
module Calendar {
  import opened Text
  import opened Decimal

  datatype Date = Date(year: nat, month: nat, day: nat)

  predicate IsLeap(y: nat) {
    (y % 4 == 0 && y % 100 != 0) || y % 400 == 0
  }

  function YearLength(y: nat): nat {
    if IsLeap(y) then 366 else 365
  }

  function MonthLengths(leap: bool): (m: seq<nat>)
    ensures |m| == 12
  {
    if leap then [31, 29, 31, 30, 31, 30, 31, 31, 30, 31, 30, 31]
    else [31, 28, 31, 30, 31, 30, 31, 31, 30, 31, 30, 31]
  }

  predicate ValidDate(d: Date) {
    && 1970 <= d.year
    && 1 <= d.month <= 12
    && 1 <= d.day <= MonthLengths(IsLeap(d.year))[d.month - 1]
  }

  // ------------------------------------------------ the independent day count

  /** Leap years up to and including `y`. */
  function LeapsThrough(y: nat): int {
    y / 4 - y / 100 + y / 400
  }

  function DaysBeforeYear(y: nat): int
    requires y >= 1970
  {
    365 * (y - 1970) + LeapsThrough(y - 1) - LeapsThrough(1969)
  }

  function DaysBeforeMonth(month: nat, leap: bool): int {
    (367 * month - 362) / 12 - if month <= 2 then 0 else if leap then 1 else 2
  }

  /** Days from 1970-01-01 to `d`, in closed form. */
  function DayNumber(d: Date): int
    requires ValidDate(d)
  {
    DaysBeforeYear(d.year) + DaysBeforeMonth(d.month, IsLeap(d.year)) + d.day - 1
  }

  lemma YearStep(y: nat)
    requires y >= 1970
    ensures DaysBeforeYear(y + 1) == DaysBeforeYear(y) + YearLength(y)
  {
    var p := y - 1;
    assert y / 4 == p / 4 + if y % 4 == 0 then 1 else 0;
    assert y / 100 == p / 100 + if y % 100 == 0 then 1 else 0;
    assert y / 400 == p / 400 + if y % 400 == 0 then 1 else 0;
  }

  lemma MonthStep(month: nat, leap: bool)
    requires 1 <= month <= 12
    ensures DaysBeforeMonth(1, leap) == 0
    ensures DaysBeforeMonth(month, leap) + MonthLengths(leap)[month - 1]
            == if month == 12 then (if leap then 366 else 365) else DaysBeforeMonth(month + 1, leap)
  {
  }

  // ------------------------------------------------ order, existence, bijection

  predicate DateBefore(a: Date, b: Date) {
    a.year < b.year || (a.year == b.year && (a.month < b.month || (a.month == b.month && a.day < b.day)))
  }

  lemma {:induction false} YearsIncrease(y: nat, z: nat)
    requires 1970 <= y < z
    ensures DaysBeforeYear(y) + YearLength(y) <= DaysBeforeYear(z)
  {
    YearStep(z - 1);
    if y < z - 1 { YearsIncrease(y, z - 1); }
  }

  lemma {:induction false} MonthsIncrease(m: nat, n: nat, leap: bool)
    requires 1 <= m < n <= 12
    ensures DaysBeforeMonth(m, leap) + MonthLengths(leap)[m - 1] <= DaysBeforeMonth(n, leap)
  {
    MonthStep(n - 1, leap);
    if m < n - 1 { MonthsIncrease(m, n - 1, leap); }
  }

  lemma WithinYear(d: Date)
    requires ValidDate(d)
    ensures DaysBeforeYear(d.year) <= DayNumber(d) < DaysBeforeYear(d.year) + YearLength(d.year)
  {
    var leap := IsLeap(d.year);
    MonthStep(d.month, leap);
    if d.month > 1 { MonthsIncrease(1, d.month, leap); }
    if d.month < 12 { MonthsIncrease(d.month, 12, leap); MonthStep(12, leap); }
  }

  /** Later dates have larger day numbers. */
  lemma DayNumberIncreases(a: Date, b: Date)
    requires ValidDate(a) && ValidDate(b) && DateBefore(a, b)
    ensures DayNumber(a) < DayNumber(b)
  {
    if a.year < b.year {
      WithinYear(a);
      WithinYear(b);
      YearsIncrease(a.year, b.year);
    } else if a.month < b.month {
      MonthsIncrease(a.month, b.month, IsLeap(a.year));
    }
  }

  lemma DayNumberInjective(a: Date, b: Date)
    requires ValidDate(a) && ValidDate(b) && DayNumber(a) == DayNumber(b)
    ensures a == b
  {
    if DateBefore(a, b) { DayNumberIncreases(a, b); }
    if DateBefore(b, a) { DayNumberIncreases(b, a); }
  }

  function NextDay(d: Date): (n: Date)
    requires ValidDate(d)
    ensures ValidDate(n)
  {
    if d.day < MonthLengths(IsLeap(d.year))[d.month - 1] then d.(day := d.day + 1)
    else if d.month < 12 then Date(d.year, d.month + 1, 1)
    else Date(d.year + 1, 1, 1)
  }

  lemma NextDayNumber(d: Date)
    requires ValidDate(d)
    ensures DayNumber(NextDay(d)) == DayNumber(d) + 1
  {
    hide IsLeap, MonthLengths, LeapsThrough, DaysBeforeYear, DaysBeforeMonth;
    MonthStep(d.month, IsLeap(d.year));
    MonthStep(1, IsLeap(d.year + 1));
    YearStep(d.year);
  }

  lemma {:induction false} DateExists(days: nat)
    ensures exists d :: ValidDate(d) && DayNumber(d) == days
  {
    if days == 0 {
      assert DayNumber(Date(1970, 1, 1)) == 0;
    } else {
      DateExists(days - 1);
      var d :| ValidDate(d) && DayNumber(d) == days - 1;
      NextDayNumber(d);
    }
  }

  ghost function DateOf(days: nat): (d: Date)
    ensures ValidDate(d) && DayNumber(d) == days
  {
    DateExists(days);
    var d :| ValidDate(d) && DayNumber(d) == days;
    d
  }

  /** The day count and the date determine each other, in both directions and
      in order. */
  lemma CalendarBijection(d: Date, a: nat, b: nat)
    requires ValidDate(d)
    ensures DayNumber(d) >= 0 && DateOf(DayNumber(d)) == d
    ensures a < b <==> DateBefore(DateOf(a), DateOf(b))
  {
    WithinYear(d);
    if d.year > 1970 { YearsIncrease(1970, d.year); }
    DayNumberInjective(DateOf(DayNumber(d)), d);
    var x, y := DateOf(a), DateOf(b);
    if DateBefore(x, y) { DayNumberIncreases(x, y); }
    if DateBefore(y, x) { DayNumberIncreases(y, x); }
  }

  /** The loops of the source: they terminate, the month never reaches 13, and
      the result is the one valid date with this day number. */
  method EpochDaysToYmd(epochDays: nat) returns (date: Date)
    ensures ValidDate(date) && DayNumber(date) == epochDays
    ensures date == DateOf(epochDays)
  {
    var days: int, year: nat := epochDays, 1970;
    while true
      invariant days >= 0 && year >= 1970
      invariant days + DaysBeforeYear(year) == epochDays
      decreases days
    {
      var dy := if IsLeap(year) then 366 else 365;
      if days < dy {
        break;
      }
      YearStep(year);
      days := days - dy;
      year := year + 1;
    }
    var monthDays := MonthLengths(IsLeap(year));
    var month: nat := 1;
    MonthStep(1, IsLeap(year));
    for i := 0 to 12
      invariant month == i + 1 && days >= 0
      invariant days + DaysBeforeYear(year)
                + (if month == 13 then YearLength(year) else DaysBeforeMonth(month, IsLeap(year))) == epochDays
    {
      if days < monthDays[i] {
        break;
      }
      MonthStep(month, IsLeap(year));
      days := days - monthDays[i];
      month := month + 1;
    }
    date := Date(year, month, days + 1);
    DayNumberInjective(date, DateOf(epochDays));
  }

  // ------------------------------------------------ timestamps

  const SECONDS_PER_DAY: nat := 86400

  function FormatIso(d: Date, h: nat, m: nat, s: nat): string {
    Padded(d.year, 4) + ("-" + (Padded(d.month, 2) + ("-" + (Padded(d.day, 2)
    + ("T" + (Padded(h, 2) + (":" + (Padded(m, 2) + (":" + (Padded(s, 2) + "Z"))))))))))
  }

  ghost function Iso(secs: nat): string {
    FormatIso(DateOf(secs / SECONDS_PER_DAY), (secs / 3600) % 24, (secs / 60) % 60, secs % 60)
  }

  /** `totalSecs` is the system clock; before the epoch the source reads it as 0. */
  method NowIso(totalSecs: nat) returns (text: string)
    ensures text == Iso(totalSecs)
  {
    var s := totalSecs % 60;
    var m := (totalSecs / 60) % 60;
    var h := (totalSecs / 3600) % 24;
    var date := EpochDaysToYmd(totalSecs / 86400);
    text := FormatIso(date, h, m, s);
  }

  /** A rendered list of numbers: four digits, then two-digit fields, each
      followed by its separator. */
  function Render(fields: seq<nat>, seps: string, width: nat): string
    requires |seps| == |fields|
  {
    if fields == [] then ""
    else Padded(fields[0], width) + ([seps[0]] + Render(fields[1..], seps[1..], 2))
  }

  ghost predicate Fits(fields: seq<nat>, width: nat) {
    fields != [] ==>
      fields[0] < Power10(width) && forall i :: 1 <= i < |fields| ==> fields[i] < 100
  }

  ghost predicate Smaller(a: seq<nat>, b: seq<nat>)
    requires |a| == |b|
  {
    a != [] && (a[0] < b[0] || (a[0] == b[0] && Smaller(a[1..], b[1..])))
  }

  lemma {:induction false} RenderOrder(a: seq<nat>, b: seq<nat>, seps: string, width: nat)
    requires |a| == |b| == |seps| && width > 0
    requires Fits(a, width) && Fits(b, width) && Smaller(a, b)
    ensures Before(Render(a, seps, width), Render(b, seps, width))
  {
    var restA := [seps[0]] + Render(a[1..], seps[1..], 2);
    var restB := [seps[0]] + Render(b[1..], seps[1..], 2);
    if a[0] < b[0] {
      PaddedOrder(a[0], b[0], width);
      BeforeExtended(Padded(a[0], width), Padded(b[0], width), restA, restB);
    } else {
      assert Power10(2) == 100;
      RenderOrder(a[1..], b[1..], seps[1..], 2);
      BeforeSamePrefix([seps[0]], Render(a[1..], seps[1..], 2), Render(b[1..], seps[1..], 2));
      BeforeSamePrefix(Padded(a[0], width), restA, restB);
    }
  }

  ghost function Fields(secs: nat): seq<nat> {
    var d := DateOf(secs / SECONDS_PER_DAY);
    [d.year, d.month, d.day, (secs / 3600) % 24, (secs / 60) % 60, secs % 60]
  }

  lemma RenderFirst(x: nat, rest: seq<nat>, sep: char, seps: string, width: nat)
    requires |rest| == |seps|
    ensures Render([x] + rest, [sep] + seps, width) == Padded(x, width) + ([sep] + Render(rest, seps, 2))
  {
    assert ([x] + rest)[1..] == rest && ([sep] + seps)[1..] == seps;
  }

  lemma RenderTime(h: nat, m: nat, sec: nat)
    ensures Render([h, m, sec], "::Z", 2)
            == Padded(h, 2) + (":" + (Padded(m, 2) + (":" + (Padded(sec, 2) + "Z"))))
  {
    RenderFirst(sec, [], 'Z', "", 2);
    assert [sec] + [] == [sec] && ['Z'] + Render([], "", 2) == "Z";
    RenderFirst(m, [sec], ':', "Z", 2);
    assert [m] + [sec] == [m, sec];
    RenderFirst(h, [m, sec], ':', ":Z", 2);
    assert [h] + [m, sec] == [h, m, sec];
  }

  lemma IsoIsRendered(secs: nat)
    ensures Iso(secs) == Render(Fields(secs), "--T::Z", 4)
  {
    var f := Fields(secs);
    var time := [f[3], f[4], f[5]];
    RenderTime(f[3], f[4], f[5]);
    RenderFirst(f[2], time, 'T', "::Z", 2);
    RenderFirst(f[1], [f[2]] + time, '-', "T::Z", 2);
    RenderFirst(f[0], [f[1]] + ([f[2]] + time), '-', "-T::Z", 4);
    assert [f[0]] + ([f[1]] + ([f[2]] + time)) == f;
  }

  const FIRST_SECOND_OF_10000: nat := 253402300800

  lemma YearBelow10000(secs: nat)
    requires secs < FIRST_SECOND_OF_10000
    ensures DateOf(secs / SECONDS_PER_DAY).year <= 9999
  {
    var d := DateOf(secs / SECONDS_PER_DAY);
    WithinYear(d);
    assert DaysBeforeYear(10000) == 2932897;
  }

  lemma FieldsOrder(a: nat, b: nat)
    requires a < b
    ensures Smaller(Fields(a), Fields(b))
  {
    var x, y := Fields(a), Fields(b);
    var da, db := a / SECONDS_PER_DAY, b / SECONDS_PER_DAY;
    assert da <= db;
    if da < db {
      CalendarBijection(DateOf(0), da, db);
      if x[0] == y[0] && x[1] == y[1] {
        assert Smaller(x[2..], y[2..]);
        assert x[1..][1..] == x[2..] && y[1..][1..] == y[2..];
      }
      if x[0] == y[0] { assert Smaller(x[1..], y[1..]); }
    } else {
      TimeOfDayOrder(a, b);
      assert x[3..] == [x[3], x[4], x[5]] && y[3..] == [y[3], y[4], y[5]];
      assert x[2..][1..] == x[3..] && y[2..][1..] == y[3..];
      assert x[1..][1..] == x[2..] && y[1..][1..] == y[2..];
      assert Smaller(x[2..], y[2..]);
      assert Smaller(x[1..], y[1..]);
    }
  }

  lemma TimeOfDayOrder(a: nat, b: nat)
    requires a < b && a / SECONDS_PER_DAY == b / SECONDS_PER_DAY
    ensures Smaller([(a / 3600) % 24, (a / 60) % 60, a % 60], [(b / 3600) % 24, (b / 60) % 60, b % 60])
  {
    var x, y := [(a / 3600) % 24, (a / 60) % 60, a % 60], [(b / 3600) % 24, (b / 60) % 60, b % 60];
    var day := a / SECONDS_PER_DAY;
    SplitSeconds(a);
    SplitSeconds(b);
    assert x[1..] == [x[1], x[2]] && y[1..] == [y[1], y[2]];
    assert x[1..][1..] == [x[2]] && y[1..][1..] == [y[2]];
    if x[0] == y[0] {
      if x[1] == y[1] {
        assert Smaller([x[2]], [y[2]]);
      }
      assert Smaller(x[1..], y[1..]);
    }
  }

  lemma SplitSeconds(t: nat)
    ensures t == t / SECONDS_PER_DAY * 86400 + (t / 3600) % 24 * 3600 + (t / 60) % 60 * 60 + t % 60
  {
    var m := t / 60;
    var h := m / 60;
    assert t / 3600 == h;
    assert t / SECONDS_PER_DAY == h / 24;
  }

  /** Exactly up to the end of year 9999 do printed timestamps sort as the
      instants do (section 5.1 of RFC 3339 fixes a four-digit year). */
  lemma IsoSortsExactly(limit: nat)
    ensures (forall a: nat, b: nat :: a < b < limit ==> Before(Iso(a), Iso(b)))
            <==> limit <= FIRST_SECOND_OF_10000
  {
    if limit <= FIRST_SECOND_OF_10000 {
      forall a: nat, b: nat | a < b < limit ensures Before(Iso(a), Iso(b)) {
        IsoSorts(a, b);
      }
    } else {
      LastSecondSortsLate();
    }
  }

  lemma IsoSorts(a: nat, b: nat)
    requires a < b < FIRST_SECOND_OF_10000
    ensures Before(Iso(a), Iso(b))
  {
    FieldsOrder(a, b);
    FieldsFit(a);
    FieldsFit(b);
    IsoIsRendered(a);
    IsoIsRendered(b);
    RenderOrder(Fields(a), Fields(b), "--T::Z", 4);
  }

  lemma FieldsFit(secs: nat)
    requires secs < FIRST_SECOND_OF_10000
    ensures Fits(Fields(secs), 4)
  {
    YearBelow10000(secs);
    assert Power10(4) == 10000 by { assert Power10(2) == 100; }
  }

  /** 9999-12-31T23:59:59Z does not sort before 10000-01-01T00:00:00Z. */
  lemma LastSecondSortsLate()
    ensures !Before(Iso(FIRST_SECOND_OF_10000 - 1), Iso(FIRST_SECOND_OF_10000))
  {
    YearDigits();
    IsoStartsWithYear(FIRST_SECOND_OF_10000 - 1, Date(9999, 12, 31));
    IsoStartsWithYear(FIRST_SECOND_OF_10000, Date(10000, 1, 1));
  }

  lemma IsoStartsWithYear(secs: nat, d: Date)
    requires ValidDate(d) && DayNumber(d) == secs / SECONDS_PER_DAY
    ensures Padded(d.year, 4) <= Iso(secs)
  {
    DayNumberInjective(DateOf(secs / SECONDS_PER_DAY), d);
  }

  lemma YearDigits()
    ensures Padded(9999, 4) != "" && Padded(9999, 4)[0] == '9'
    ensures Padded(10000, 4) != "" && Padded(10000, 4)[0] == '1'
  {
    assert Print(10) == Print(1) + "0" == "10";
    assert Print(100) == Print(10) + "0" == "100";
    assert Print(1000) == Print(100) + "0" == "1000";
    assert Print(10000) == Print(1000) + "0" == "10000";
    assert Print(99) == Print(9) + "9" == "99";
    assert Print(999) == Print(99) + "9" == "999";
    assert Print(9999) == Print(999) + "9" == "9999";
  }

  function Two(n: nat): string
    requires n < 100
  {
    [Digit(n / 10), Digit(n % 10)]
  }

  function Four(n: nat): string
    requires n < 10000
  {
    [Digit(n / 1000), Digit(n / 100 % 10), Digit(n / 10 % 10), Digit(n % 10)]
  }

  lemma TwoDigits(n: nat)
    requires n < 100
    ensures Padded(n, 2) == Two(n)
  {
    assert Power10(2) == 100;
    PaddedIsFixed(n, 2);
    assert Fixed(n, 2) == Fixed(n / 10, 1) + [Digit(n % 10)];
    assert Fixed(n / 10, 1) == Fixed(n / 10 / 10, 0) + [Digit(n / 10 % 10)];
  }

  lemma LastTwo(n: nat, w: nat)
    ensures Fixed(n, w + 2) == Fixed(n / 100, w) + [Digit(n / 10 % 10), Digit(n % 10)]
  {
    assert n / 10 / 10 == n / 100;
    assert Fixed(n, w + 2) == Fixed(n / 10, w + 1) + [Digit(n % 10)];
    assert Fixed(n / 10, w + 1) == Fixed(n / 100, w) + [Digit(n / 10 % 10)];
  }

  lemma FourDigits(n: nat)
    requires n < 10000
    ensures Padded(n, 4) == Four(n)
  {
    assert Power10(4) == 10000 by { assert Power10(2) == 100; }
    hide Fixed, Padded;
    PaddedIsFixed(n, 4);
    LastTwo(n, 2);
    LastTwo(n / 100, 0);
    assert n / 100 / 10 == n / 1000 && n / 1000 % 10 == n / 1000;
    assert Fixed(n / 100 / 100, 0) == "";
  }

  /** A date and time as it is written: year, month, day, `T`, hour, minute, second, `Z`. */
  lemma FormatText(d: Date, h: nat, m: nat, s: nat)
    requires d.year < 10000 && d.month < 100 && d.day < 100 && h < 100 && m < 100 && s < 100
    ensures FormatIso(d, h, m, s)
            == Four(d.year) + "-" + Two(d.month) + "-" + Two(d.day) + "T" + Two(h) + ":" + Two(m) + ":" + Two(s) + "Z"
  {
    hide Padded, Two, Four;
    FourDigits(d.year);
    TwoDigits(d.month);
    TwoDigits(d.day);
    TwoDigits(h);
    TwoDigits(m);
    TwoDigits(s);
  }

  /** Up to year 9999 the text of a second is its date and time of day in digits. */
  lemma IsoText(secs: nat, d: Date)
    requires ValidDate(d) && d.year < 10000 && DayNumber(d) == secs / 86400
    ensures Iso(secs)
            == Four(d.year) + "-" + Two(d.month) + "-" + Two(d.day)
               + "T" + Two(secs / 3600 % 24) + ":" + Two(secs / 60 % 60) + ":" + Two(secs % 60) + "Z"
  {
    hide FormatIso, Two, Four;
    DayNumberInjective(DateOf(secs / SECONDS_PER_DAY), d);
    FormatText(d, secs / 3600 % 24, secs / 60 % 60, secs % 60);
  }
}
