/**
 * Python's proleptic Gregorian `date`, as the day number `date.toordinal()` gives it
 * (0001-01-01 is day 1, 9999-12-31 is day `MaxOrdinal`), and the two text formats the
 * scheduler reads and writes: ISO 8601 calendar dates `YYYY-MM-DD` and `HH:MM` clock times.
 *
 * Clock times are whole minutes counted from 1900-01-01 00:00, the day `strptime('%H:%M')`
 * puts a parsed time on; adding a duration may carry past midnight, and `HH:MM` prints
 * the time of day only.
 */
module Calendar {
  import opened Results
  import opened Text

  const MaxYear := 9999
  const MaxOrdinal := 3652059

  predicate IsLeap(y: int) {
    y % 4 == 0 && (y % 100 != 0 || y % 400 == 0)
  }

  function DaysInYear(y: int): int {
    if IsLeap(y) then 366 else 365
  }

  /** `calendar.monthrange(y, m)[1]`: the number of days in month `m` of year `y`. */
  function DaysInMonth(y: int, m: int): (n: int)
    requires 1 <= m <= 12
    ensures 28 <= n <= 31
    ensures n == 29 <==> m == 2 && IsLeap(y)
  {
    if m == 2 then (if IsLeap(y) then 29 else 28)
    else if m == 4 || m == 6 || m == 9 || m == 11 then 30
    else 31
  }

  /** Days in the months of year `y` before month `m`. */
  function DaysBeforeMonth(y: int, m: int): int
    requires 1 <= m <= 12
  {
    [0, 31, 59, 90, 120, 151, 181, 212, 243, 273, 304, 334][m - 1] + (if m > 2 && IsLeap(y) then 1 else 0)
  }

  /** Days in the years before year `y`. */
  function DaysBeforeYear(y: int): int
    requires y >= 1
  {
    var p := y - 1;
    p * 365 + p / 4 - p / 100 + p / 400
  }

  /** The months of a year follow each other without gap and fill the year exactly. */
  lemma MonthsTileYear(y: int, m: int)
    requires 1 <= m <= 12
    ensures m < 12 ==> DaysBeforeMonth(y, m + 1) == DaysBeforeMonth(y, m) + DaysInMonth(y, m)
    ensures m == 12 ==> DaysBeforeMonth(y, m) + DaysInMonth(y, m) == DaysInYear(y)
  {
  }

  /** The closed form of `DaysBeforeYear` counts each year with its own length. */
  lemma DaysBeforeNextYear(y: int)
    requires y >= 1
    ensures DaysBeforeYear(y + 1) == DaysBeforeYear(y) + DaysInYear(y)
  {
    var p := y - 1;
    LeapDivisions(y);
    var b4, b100, b400 := y % 4 == 0, y % 100 == 0, y % 400 == 0;
    assert (b400 ==> b100) && (b100 ==> b4) by {
      if b400 {
        CenturyOf400(y);
      }
      if b100 {
        LeapOfCentury(y);
      }
    }
    assert DaysInYear(y) == if b4 && (!b100 || b400) then 366 else 365;
    assert DaysBeforeYear(y + 1) == y * 365 + y / 4 - y / 100 + y / 400;
    assert DaysBeforeYear(y) == p * 365 + p / 4 - p / 100 + p / 400;
    YearCount(y, y / 4, p / 4, y / 100, p / 100, y / 400, p / 400, b4, b100, b400);
  }

  /** The day count of one year, from how the three counts of multiples step at it. */
  lemma YearCount(y: int, a4: int, p4: int, a100: int, p100: int, a400: int, p400: int, b4: bool, b100: bool, b400: bool)
    requires a4 == p4 + (if b4 then 1 else 0)
    requires a100 == p100 + (if b100 then 1 else 0)
    requires a400 == p400 + (if b400 then 1 else 0)
    requires (b400 ==> b100) && (b100 ==> b4)
    ensures y * 365 + a4 - a100 + a400 == (y - 1) * 365 + p4 - p100 + p400 + (if b4 && (!b100 || b400) then 366 else 365)
  {
  }

  /** A multiple of 400 is a multiple of 100. */
  lemma CenturyOf400(y: int)
    requires y % 400 == 0
    ensures y % 100 == 0
  {
    var k := y / 400;
    assert y == 100 * (4 * k);
  }

  /** A multiple of 100 is a multiple of 4. */
  lemma LeapOfCentury(y: int)
    requires y % 100 == 0
    ensures y % 4 == 0
  {
    var k := y / 100;
    assert y == 4 * (25 * k);
  }

  /** Going from year `y - 1` to `y` adds one to each count of multiples exactly when `y` is one. */
  lemma LeapDivisions(y: int)
    ensures y / 4 == (y - 1) / 4 + (if y % 4 == 0 then 1 else 0)
    ensures y / 100 == (y - 1) / 100 + (if y % 100 == 0 then 1 else 0)
    ensures y / 400 == (y - 1) / 400 + (if y % 400 == 0 then 1 else 0)
  {
  }

  lemma {:induction false} DaysBeforeYearGrows(a: int, b: int)
    requires 1 <= a <= b
    ensures DaysBeforeYear(a) + 365 * (b - a) <= DaysBeforeYear(b)
    decreases b - a
  {
    if a < b {
      DaysBeforeNextYear(a);
      DaysBeforeYearGrows(a + 1, b);
    }
  }

  predicate ValidCivil(y: int, m: int, d: int) {
    1 <= y <= MaxYear && 1 <= m <= 12 && 1 <= d <= DaysInMonth(y, m)
  }

  predicate ValidOrdinal(n: int) {
    1 <= n <= MaxOrdinal
  }

  /** `date(y, m, d).toordinal()`. */
  function FromCivil(y: int, m: int, d: int): (n: int)
    requires ValidCivil(y, m, d)
    ensures ValidOrdinal(n)
  {
    MonthsTileYear(y, m);
    DaysBeforeYearGrows(y, MaxYear);
    DaysBeforeNextYear(MaxYear);
    InYear(y, m, d);
    DaysBeforeYear(y) + DaysBeforeMonth(y, m) + d
  }

  /** Day `d` of month `m` lies within year `y`. */
  lemma InYear(y: int, m: int, d: int)
    requires 1 <= m <= 12 && 1 <= d <= DaysInMonth(y, m)
    ensures DaysBeforeMonth(y, m) + d <= DaysInYear(y)
  {
    if m < 12 {
      MonthsTileYear(y, m);
      MonthsTileYear(y, 12);
      LaterMonth(y, m + 1, 12);
    } else {
      MonthsTileYear(y, 12);
    }
  }

  lemma LaterMonth(y: int, m1: int, m2: int)
    requires 1 <= m1 <= m2 <= 12
    ensures DaysBeforeMonth(y, m1) <= DaysBeforeMonth(y, m2)
  {
  }

  datatype Civil = Civil(year: int, month: int, day: int)

  /** `date.fromordinal(n)`: the year, month and day of day number `n`. */
  function ToCivil(n: int): (c: Civil)
    requires ValidOrdinal(n)
    ensures ValidCivil(c.year, c.month, c.day)
    ensures FromCivil(c.year, c.month, c.day) == n
  {
    var y := YearOf(n, 1);
    if y > MaxYear then
      DaysBeforeYearGrows(MaxYear + 1, y);
      DaysBeforeNextYear(MaxYear);
      assert false;
      Civil(1, 1, 1)
    else
      DaysBeforeNextYear(y);
      var r := n - DaysBeforeYear(y) - 1;
      var m := MonthOf(r, y, 1);
      Civil(y, m, r - DaysBeforeMonth(y, m) + 1)
  }

  /** The year holding day `n`, searched from year `y` on. */
  function YearOf(n: int, y: int): (r: int)
    requires y >= 1 && DaysBeforeYear(y) < n
    ensures r >= y && DaysBeforeYear(r) < n <= DaysBeforeYear(r + 1)
    decreases n - DaysBeforeYear(y)
  {
    DaysBeforeNextYear(y);
    if n <= DaysBeforeYear(y + 1) then y else YearOf(n, y + 1)
  }

  /** The month holding day `r` (counted from 0) of year `y`, searched from month `m` on. */
  function MonthOf(r: int, y: int, m: int): (k: int)
    requires 1 <= m <= 12 && DaysBeforeMonth(y, m) <= r < DaysInYear(y)
    ensures m <= k <= 12
    ensures DaysBeforeMonth(y, k) <= r < DaysBeforeMonth(y, k) + DaysInMonth(y, k)
    decreases 12 - m
  {
    MonthsTileYear(y, m);
    if r < DaysBeforeMonth(y, m) + DaysInMonth(y, m) then m else MonthOf(r, y, m + 1)
  }

  /** Later civil dates have larger day numbers, so `toordinal` is one-to-one. */
  lemma CivilOrder(a: Civil, b: Civil)
    requires ValidCivil(a.year, a.month, a.day) && ValidCivil(b.year, b.month, b.day)
    requires a.year < b.year
          || (a.year == b.year && a.month < b.month)
          || (a.year == b.year && a.month == b.month && a.day < b.day)
    ensures FromCivil(a.year, a.month, a.day) < FromCivil(b.year, b.month, b.day)
  {
    InYear(a.year, a.month, a.day);
    if a.year < b.year {
      DaysBeforeNextYear(a.year);
      DaysBeforeYearGrows(a.year + 1, b.year);
    } else if a.month < b.month {
      MonthsTileYear(a.year, a.month);
      LaterMonth(a.year, a.month + 1, b.month);
    }
  }

  /** `date.fromordinal(date(y, m, d).toordinal()) == date(y, m, d)`. */
  lemma ToCivilFromCivil(y: int, m: int, d: int)
    requires ValidCivil(y, m, d)
    ensures ToCivil(FromCivil(y, m, d)) == Civil(y, m, d)
  {
    var c := ToCivil(FromCivil(y, m, d));
    var e := Civil(y, m, d);
    if c != e {
      if c.year < y || (c.year == y && c.month < m) || (c.year == y && c.month == m && c.day < d) {
        CivilOrder(c, e);
      } else {
        CivilOrder(e, c);
      }
    }
  }

  /** `date.weekday()`: Monday is 0 and Sunday is 6 (day 1, 0001-01-01, was a Monday). */
  function Weekday(n: int): (w: int)
    ensures 0 <= w < 7
  {
    (n + 6) % 7
  }

  /** The weekday moves on by one each day, wrapping from Sunday to Monday. */
  lemma WeekdayNext(n: int)
    ensures Weekday(n + 1) == (Weekday(n) + 1) % 7
  {
  }

  /** `n - weekday(n)` is the Monday of the week holding `n`; `k` days later is weekday `k`. */
  lemma MondayOfWeek(n: int, k: int)
    requires 0 <= k < 7
    ensures Weekday(n - Weekday(n) + k) == k
  {
  }

  /** `date + timedelta(days=k)`: Python raises `OverflowError` outside 0001-01-01 … 9999-12-31. */
  function AddDays(n: int, k: int): (r: Result<int, string>)
    ensures r.Ok? <==> ValidOrdinal(n + k)
    ensures r.Ok? ==> r.value == n + k
    ensures r.Err? ==> r.error == "date value out of range"
  {
    if ValidOrdinal(n + k) then Ok(n + k) else Err("date value out of range")
  }

  /** `timedelta(days=k)`: Python refuses more than 999999999 days either way. */
  function Timedelta(k: int): (r: Result<int, string>)
    ensures r.Ok? <==> -999999999 <= k <= 999999999
    ensures r.Ok? ==> r.value == k
  {
    if -999999999 <= k <= 999999999 then Ok(k)
    else Err("days=" + PadInt(k, 0) + "; must have magnitude <= 999999999")
  }

  /** `d.strftime('%Y-%m-%d')` (ISO 8601 `YYYY-MM-DD`). */
  function FormatDate(n: int): (s: string)
    requires ValidOrdinal(n)
    ensures |s| == 10
  {
    var c := ToCivil(n);
    Padded(c.year, 4);
    Padded(c.month, 2);
    Padded(c.day, 2);
    PadNat(c.year, 4) + "-" + PadNat(c.month, 2) + "-" + PadNat(c.day, 2)
  }

  /** A printed date is digits and dashes, with a digit at each end. */
  lemma FormatDateLayout(n: int)
    requires ValidOrdinal(n)
    ensures var s := FormatDate(n);
      && |s| == 10 && IsDigit(s[0]) && IsDigit(s[9])
      && forall k :: 0 <= k < |s| ==> IsDigit(s[k]) || s[k] == '-'
  {
    var c := ToCivil(n);
    Padded(c.year, 4);
    Padded(c.month, 2);
    Padded(c.day, 2);
    DateLayout(PadNat(c.year, 4), PadNat(c.month, 2), PadNat(c.day, 2));
  }

  /** Four, two and two digits joined by dashes: ten characters, digits at both ends. */
  lemma DateLayout(ys: string, ms: string, ds: string)
    requires |ys| == 4 && |ms| == 2 && |ds| == 2 && AllDigits(ys) && AllDigits(ms) && AllDigits(ds)
    ensures var s := ys + "-" + ms + "-" + ds;
      && |s| == 10 && IsDigit(s[0]) && IsDigit(s[9])
      && forall k :: 0 <= k < |s| ==> IsDigit(s[k]) || s[k] == '-'
  {
    var s := ys + "-" + ms + "-" + ds;
    forall k | 0 <= k < |s| ensures IsDigit(s[k]) || s[k] == '-' {
      if k < 4 {
        assert s[k] == ys[k];
      } else if 5 <= k < 7 {
        assert s[k] == ms[k - 5];
      } else if 8 <= k {
        assert s[k] == ds[k - 8];
      }
    }
  }

  /** A `strptime` numeric field of one or two ASCII digits whose value lies in `lo..hi`. */
  function DigitField(t: string, lo: int, hi: int): (r: Option<int>)
    ensures r.Some? <==> 1 <= |t| <= 2 && AllDigits(t) && lo <= DigitsValue(t) <= hi
    ensures r.Some? ==> r.value == DigitsValue(t)
  {
    if 1 <= |t| <= 2 && AllDigits(t) && lo <= DigitsValue(t) <= hi then Some(DigitsValue(t)) else None
  }

  /** `%d` also accepts a blank before a single non-zero digit. */
  function DayField(t: string): (r: Option<int>)
    ensures r.Some? ==> 1 <= r.value <= 31
  {
    if |t| == 2 && t[0] == ' ' && '1' <= t[1] <= '9' then Some(t[1] as int - '0' as int)
    else DigitField(t, 1, 31)
  }

  /**
   * `datetime.strptime(s, '%Y-%m-%d').date()`: four digits, `-`, a month of one or two digits,
   * `-`, a day of one or two digits, nothing after, and a real calendar date;
   * `None` where Python raises `ValueError`.
   */
  function ParseDate(s: string): (r: Option<int>)
    ensures r.Some? ==> ValidOrdinal(r.value)
  {
    if |s| < 5 || !AllDigits(s[..4]) || s[4] != '-' || '-' !in s[5..] then None
    else
      var rest := s[5..];
      var k := IndexOf(rest, '-');
      var y := DigitsValue(s[..4]);
      DigitsValueBound(s[..4]);
      var m := DigitField(rest[..k], 1, 12);
      var d := DayField(rest[k + 1..]);
      if m.Some? && d.Some? && 1 <= y && d.value <= DaysInMonth(y, m.value)
      then Some(FromCivil(y, m.value, d.value))
      else None
  }

  /** `f"{n:02d}"` and `f"{n:04d}"` print exactly two and four digits for numbers that fit. */
  lemma Padded(n: nat, width: nat)
    requires (width == 2 && n < 100) || (width == 4 && n < 10000)
    ensures |PadNat(n, width)| == width && AllDigits(PadNat(n, width)) && DigitsValue(PadNat(n, width)) == n
  {
    assert Pow10(2) == 100;
    assert Pow10(4) == 10000;
    PadNatWidth(n, width);
  }

  /** The value of a two-digit text. */
  lemma DigitPairValue(t: string)
    requires |t| == 2 && IsDigit(t[0]) && IsDigit(t[1])
    ensures AllDigits(t) && DigitsValue(t) == (t[0] as int - '0' as int) * 10 + (t[1] as int - '0' as int)
  {
    var front := t[..1];
    assert t[..|t| - 1] == front && front[..|front| - 1] == [] && front[0] == t[0];
    assert DigitsValue(front) == t[0] as int - '0' as int;
  }

  /** How `ParseDate` reads a text laid out as `YYYY-MM-DD`. */
  lemma ParseDateText(ys: string, ms: string, ds: string)
    requires |ys| == 4 && |ms| == 2 && |ds| == 2 && AllDigits(ys) && AllDigits(ms) && AllDigits(ds)
    requires 1 <= DigitsValue(ys) && 1 <= DigitsValue(ms) <= 12 && 1 <= DigitsValue(ds) <= 31
    ensures DigitsValue(ys) <= MaxYear
    ensures ParseDate(ys + "-" + ms + "-" + ds)
         == if DigitsValue(ds) <= DaysInMonth(DigitsValue(ys), DigitsValue(ms))
            then Some(FromCivil(DigitsValue(ys), DigitsValue(ms), DigitsValue(ds))) else None
  {
    DigitsValueBound(ys);
    DateTextLayout(ys, ms, ds);
  }

  /** Where the fields of `YYYY-MM-DD` sit. */
  lemma DateTextLayout(ys: string, ms: string, ds: string)
    requires |ys| == 4 && |ms| == 2 && |ds| == 2 && AllDigits(ms)
    ensures var s := ys + "-" + ms + "-" + ds;
      |s| == 10 && s[..4] == ys && s[4] == '-' && s[5..] == ms + "-" + ds
    ensures var rest := ms + "-" + ds;
      '-' in rest && IndexOf(rest, '-') == 2 && rest[..2] == ms && rest[3..] == ds
  {
    var s := ys + "-" + ms + "-" + ds;
    assert s[..4] == ys && s[5..] == ms + "-" + ds;
    var rest := ms + "-" + ds;
    assert rest[2] == '-' && rest[..2] == ms && rest[3..] == ds;
    assert IndexOf(rest, '-') == 2 by {
      assert rest[0] != '-' && rest[1] != '-' && rest[1..][1..] == rest[2..];
    }
  }

  /** Reading back a printed date gives the same date. */
  lemma ParseFormatDate(n: int)
    requires ValidOrdinal(n)
    ensures ParseDate(FormatDate(n)) == Some(n)
  {
    var c := ToCivil(n);
    Padded(c.year, 4);
    Padded(c.month, 2);
    Padded(c.day, 2);
    ParseDateText(PadNat(c.year, 4), PadNat(c.month, 2), PadNat(c.day, 2));
  }

  /** Any two dates that print the same are the same date. */
  lemma FormatDateInjective(a: int, b: int)
    requires ValidOrdinal(a) && ValidOrdinal(b) && FormatDate(a) == FormatDate(b)
    ensures a == b
  {
    ParseFormatDate(a);
    ParseFormatDate(b);
  }

  /** Minutes in a day. */
  const Day := 1440

  /** `t.hour` of a time `t` in minutes. */
  function Hour(t: int): (h: int)
    ensures 0 <= h < 24
  {
    (t / 60) % 24
  }

  /** `t.strftime('%H:%M')`: the time of day, carried past midnight if need be. */
  function FormatHM(t: int): (s: string)
    ensures |s| == 5 && s[2] == ':'
  {
    TwoDigits(Hour(t)) + ":" + TwoDigits(t % 60)
  }

  /** `%02d` for a number below 100. */
  function TwoDigits(n: nat): (s: string)
    requires n < 100
    ensures |s| == 2
  {
    [DigitChar(n / 10), DigitChar(n % 10)]
  }

  /** Two printed digits read back as the number they print. */
  lemma TwoDigitsValue(n: nat)
    requires n < 100
    ensures AllDigits(TwoDigits(n)) && DigitsValue(TwoDigits(n)) == n
  {
    var s := TwoDigits(n);
    assert s[..1] == [DigitChar(n / 10)] && s[..1][..0] == [];
    assert DigitsValue(s[..1]) == n / 10;
  }

  /**
   * `datetime.strptime(s, '%H:%M')` as minutes: an hour of one or two digits up to 23, `:`,
   * a minute of one or two digits up to 59, nothing after; `None` where Python raises `ValueError`.
   */
  function ParseHM(s: string): (r: Option<int>)
    ensures r.Some? ==> 0 <= r.value < Day
  {
    if ':' !in s then None
    else
      var k := IndexOf(s, ':');
      var h := DigitField(s[..k], 0, 23);
      var m := DigitField(s[k + 1..], 0, 59);
      if h.Some? && m.Some? then Some(h.value * 60 + m.value) else None
  }

  /** How `ParseHM` reads a text laid out as `HH:MM`. */
  lemma ParseHMText(hs: string, ms: string)
    requires |hs| == 2 && |ms| == 2 && AllDigits(hs) && AllDigits(ms)
    requires DigitsValue(hs) <= 23 && DigitsValue(ms) <= 59
    ensures ParseHM(hs + ":" + ms) == Some(DigitsValue(hs) * 60 + DigitsValue(ms))
  {
    var s := hs + ":" + ms;
    assert IndexOf(s, ':') == 2;
    assert s[..2] == hs && s[3..] == ms;
  }

  /** `ParseHMText` for fields whose values are already named. */
  lemma ParseHMFields(hs: string, ms: string, h: int, m: int)
    requires |hs| == 2 && |ms| == 2 && AllDigits(hs) && AllDigits(ms)
    requires DigitsValue(hs) == h && DigitsValue(ms) == m && h <= 23 && m <= 59
    ensures ParseHM(hs + ":" + ms) == Some(h * 60 + m)
  {
    ParseHMText(hs, ms);
  }

  /** Reading back a printed time gives its time of day. */
  lemma ParseFormatHM(t: int)
    ensures ParseHM(FormatHM(t)) == Some(t % Day)
  {
    var h, m := Hour(t), t % 60;
    TwoDigitsValue(h);
    TwoDigitsValue(m);
    ParseHMText(TwoDigits(h), TwoDigits(m));
    TimeOfDay(t);
  }

  /** The hour and minute of `t` make up its time of day. */
  lemma TimeOfDay(t: int)
    ensures Hour(t) * 60 + t % 60 == t % Day
  {
    var q, r := t / 60, t % 60;
    assert t == 60 * q + r;
    var w, h := q / 24, q % 24;
    assert q == 24 * w + h;
    assert t == Day * w + (60 * h + r);
    assert 0 <= 60 * h + r < Day;
  }
}
