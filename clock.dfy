/** The observation window of a coordinate request: the current UTC time with its
    minutes, seconds and microseconds dropped, and the instant one hour later.

    Times are civil date-times with the fields and ranges of a naive Python
    `datetime`. `Micros` counts microseconds from 0001-01-01T00:00:00 and is the
    independent yardstick against which truncation and the one-hour step are proved. */
module Clock {

  import opened Wrappers

  const MinYear := 1
  const MaxYear := 9999
  const MicrosPerSecond := 1_000_000
  const MicrosPerHour := 3_600_000_000

  datatype DateTime = DateTime(year: int, month: int, day: int,
                               hour: int, minute: int, second: int, microsecond: int)

  /** The observation window `[start, end)` requested from both upstream providers. */
  datatype Window = Window(start: DateTime, end: DateTime)

  predicate IsLeap(y: int) {
    y % 4 == 0 && (y % 100 != 0 || y % 400 == 0)
  }

  function DaysInYear(y: int): int {
    if IsLeap(y) then 366 else 365
  }

  function DaysInMonth(y: int, m: int): int
    requires 1 <= m <= 12
  {
    if m == 2 then (if IsLeap(y) then 29 else 28)
    else if m == 4 || m == 6 || m == 9 || m == 11 then 30
    else 31
  }

  /** The ranges a Python `datetime` enforces on its fields. */
  predicate Valid(t: DateTime) {
    && MinYear <= t.year <= MaxYear
    && 1 <= t.month <= 12
    && 1 <= t.day <= DaysInMonth(t.year, t.month)
    && 0 <= t.hour < 24
    && 0 <= t.minute < 60
    && 0 <= t.second < 60
    && 0 <= t.microsecond < MicrosPerSecond
  }

  /** Days in the years before `y` (the proleptic Gregorian count). */
  function DaysBeforeYear(y: int): int
    requires y >= 1
  {
    var p := y - 1;
    p * 365 + p / 4 - p / 100 + p / 400
  }

  /** Days in the months of year `y` before month `m`. */
  function DaysBeforeMonth(y: int, m: int): int
    requires 1 <= m <= 12
  {
    [0, 31, 59, 90, 120, 151, 181, 212, 243, 273, 304, 334][m - 1]
      + (if m > 2 && IsLeap(y) then 1 else 0)
  }

  /** Days from 0001-01-01 to the date of `t`. */
  function DayNumber(t: DateTime): int
    requires Valid(t)
  {
    DaysBeforeYear(t.year) + DaysBeforeMonth(t.year, t.month) + t.day - 1
  }

  /** Microseconds from 0001-01-01T00:00:00 to `t`. */
  function Micros(t: DateTime): int
    requires Valid(t)
  {
    (((DayNumber(t) * 24 + t.hour) * 60 + t.minute) * 60 + t.second) * MicrosPerSecond
      + t.microsecond
  }

  lemma MonthStep(y: int, m: int)
    requires 1 <= m < 12
    ensures DaysBeforeMonth(y, m + 1) == DaysBeforeMonth(y, m) + DaysInMonth(y, m)
  {
  }

  /** Stepping `n` up by one adds one to `n / k` exactly when `k` divides the new value. */
  lemma DivStep(n: int, k: int)
    requires n >= 1 && k >= 1
    ensures (n - 1) / k + (if n % k == 0 then 1 else 0) == n / k
  {
    var q, r := (n - 1) / k, (n - 1) % k;
    assert n - 1 == q * k + r && 0 <= r < k;
    if r == k - 1 {
      assert n == (q + 1) * k;
      DivOfMultiple(n, k, q + 1, 0);
    } else {
      assert n == q * k + (r + 1);
      DivOfMultiple(n, k, q, r + 1);
    }
  }

  lemma DivOfMultiple(n: int, k: int, q: int, r: int)
    requires k >= 1 && 0 <= r < k && n == q * k + r
    ensures n / k == q && n % k == r
  {
    var q', r' := n / k, n % k;
    var d := q - q';
    assert d * k == r' - r by {
      assert q' * k + r' == n;
      assert d * k == q * k - q' * k;
    }
    assert d > 0 ==> (d - 1) * k >= 0;
    assert d < 0 ==> (-d - 1) * k >= 0;
  }

  /** A multiple of 400 is a multiple of 100, and a multiple of 100 a multiple of 4. */
  lemma CenturyDivisors(y: int)
    ensures y % 400 == 0 ==> y % 100 == 0
    ensures y % 100 == 0 ==> y % 4 == 0
  {
    var q, h := y / 400, y / 100;
    assert y % 400 == 0 ==> y == (4 * q) * 100 + 0;
    if y % 400 == 0 {
      DivOfMultiple(y, 100, 4 * q, 0);
    }
    assert y % 100 == 0 ==> y == (25 * h) * 4 + 0;
    if y % 100 == 0 {
      DivOfMultiple(y, 4, 25 * h, 0);
    }
  }

  lemma YearStep(y: int)
    requires y >= 1
    ensures DaysBeforeYear(y + 1) == DaysBeforeYear(y) + DaysInYear(y)
  {
    DivStep(y, 4);
    DivStep(y, 100);
    DivStep(y, 400);
    CenturyDivisors(y);
    var p := y - 1;
    assert DaysBeforeYear(y + 1) - DaysBeforeYear(y)
           == 365 + (y / 4 - p / 4) - (y / 100 - p / 100) + (y / 400 - p / 400);
  }

  /** `now.replace(minute=0, second=0, microsecond=0)`: the start of the hour that
      contains `t`, never later than `t` and less than an hour before it. */
  function Truncate(t: DateTime): (s: DateTime)
    requires Valid(t)
    ensures Valid(s)
    ensures s.minute == 0 && s.second == 0 && s.microsecond == 0
    ensures Micros(s) <= Micros(t) < Micros(s) + MicrosPerHour
    ensures Micros(s) % MicrosPerHour == 0
  {
    var s := t.(minute := 0, second := 0, microsecond := 0);
    assert Micros(s) == (DayNumber(t) * 24 + t.hour) * MicrosPerHour;
    DivOfMultiple(Micros(s), MicrosPerHour, DayNumber(t) * 24 + t.hour, 0);
    s
  }

  /** Truncation, not rounding to the nearest hour: the start of the window is the
      latest whole hour that is not after `t`. */
  lemma TruncateIsLatestHourStart(t: DateTime, u: DateTime)
    requires Valid(t) && Valid(u)
    requires Micros(u) % MicrosPerHour == 0 && Micros(u) <= Micros(t)
    ensures Micros(u) <= Micros(Truncate(t))
  {
    var s := Truncate(t);
    var a, b := Micros(u) / MicrosPerHour, Micros(s) / MicrosPerHour;
    assert Micros(u) == a * MicrosPerHour;
    assert Micros(s) == b * MicrosPerHour;
    assert a * MicrosPerHour < (b + 1) * MicrosPerHour;
    assert a <= b;
  }

  /** `t + timedelta(hours=1)`, or None where Python raises OverflowError because the
      result would fall after year 9999. */
  function AddHour(t: DateTime): (r: Option<DateTime>)
    requires Valid(t)
    ensures r.None? <==> t.year == MaxYear && t.month == 12 && t.day == 31 && t.hour == 23
    ensures r.Some? ==> Valid(r.value) && Micros(r.value) == Micros(t) + MicrosPerHour
    ensures r.Some? ==> r.value.minute == t.minute && r.value.second == t.second
                        && r.value.microsecond == t.microsecond
  {
    if t.hour < 23 then
      Some(t.(hour := t.hour + 1))
    else if t.day < DaysInMonth(t.year, t.month) then
      Some(t.(day := t.day + 1, hour := 0))
    else if t.month < 12 then
      MonthStep(t.year, t.month);
      Some(t.(month := t.month + 1, day := 1, hour := 0))
    else if t.year < MaxYear then
      YearStep(t.year);
      Some(t.(year := t.year + 1, month := 1, day := 1, hour := 0))
    else
      None
  }

  /** The window of main.py: the truncated current time and one hour after it; None
      when the hour after falls outside the representable range. */
  function ObservationWindow(now: DateTime): (w: Option<Window>)
    requires Valid(now)
    ensures w.None? <==> now.year == MaxYear && now.month == 12 && now.day == 31 && now.hour == 23
    ensures w.Some? ==> Valid(w.value.start) && Valid(w.value.end)
    ensures w.Some? ==> w.value.start.minute == 0 && w.value.start.second == 0
                        && w.value.start.microsecond == 0
    ensures w.Some? ==> Micros(w.value.start) <= Micros(now) < Micros(w.value.end)
    ensures w.Some? ==> Micros(w.value.end) == Micros(w.value.start) + MicrosPerHour
  {
    var start := Truncate(now);
    match AddHour(start)
    case None => None
    case Some(end) => Some(Window(start, end))
  }
}
