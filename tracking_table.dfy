/** The vehicle grid (components/vehicle-tracking-table.tsx): the day columns of the
    selected month, the per-vehicle statistics, the default for a day missing from a
    record, and the tooltip label of a status. */
module TrackingTable {
  import opened Wrappers
  import opened Seqs
  import opened JsText
  import opened Calendar
  import opened Fleet
  import opened DayMaps
  import DailyStatus

  /** One entry of `daysOfMonth`. */
  datatype DayColumn = DayColumn(day: string, dayOfWeek: string, dateStr: string, isWeekend: bool, isSunday: bool)

  function WeekdayLabels(): seq<string> {
    ["DOM", "SEG", "TER", "QUA", "QUI", "SEX", "SAB"]
  }

  /** The column of day `day`, from `new Date(year, month, day)`. */
  function DayColumnOf(year: int, month: int, day: int): DayColumn {
    var w := JsWeekday(year, month, day);
    var dayStr := Pad2(day);
    DayColumn(dayStr, WeekdayLabels()[w], DateStr(month, day), w == 0 || w == 6, w == 0)
  }

  /** The "DD/MM" label of a day column. */
  function DateStr(month: int, day: int): string {
    Pad2(day) + "/" + Pad2(month + 1)
  }

  /** The flags and the label of a column all follow the weekday of its date: Sunday
      and Saturday are the weekend, a Sunday is a weekend day, and the label is the
      abbreviation of that weekday. */
  lemma DayColumnFlags(year: int, month: int, day: int)
    ensures var c := DayColumnOf(year, month, day);
            var w := JsWeekday(year, month, day);
            (c.isWeekend <==> w == 0 || w == 6) && (c.isSunday <==> w == 0) &&
            (c.isSunday ==> c.isWeekend) && c.dayOfWeek == WeekdayLabels()[w] &&
            c.day == Pad2(day) && c.dateStr == DateStr(month, day)
  {
  }

  /** `daysOfMonth` as a value: one column per day of the month, in order. */
  function DaysOfMonthOf(year: int, month: int): (r: seq<DayColumn>)
    ensures |r| == JsDaysInMonth(year, month)
  {
    JsDaysInMonthIsGregorian(year, month);
    Tabulate(JsDaysInMonth(year, month), ColumnOf(year, month))
  }

  /** Column `i` of the month is the column of day `i + 1`. */
  lemma DaysOfMonthAt(year: int, month: int, i: int)
    requires 0 <= i < JsDaysInMonth(year, month)
    ensures DaysOfMonthOf(year, month)[i] == DayColumnOf(year, month, i + 1)
  {
    JsDaysInMonthIsGregorian(year, month);
    assert DaysOfMonthOf(year, month)[i] == ColumnOf(year, month)(i + 1);
  }

  function ColumnOf(year: int, month: int): int -> DayColumn {
    day => DayColumnOf(year, month, day)
  }

  /** `daysOfMonth`: the length of the month, then one column per day. */
  method DaysOfMonth(year: int, month: int) returns (days: seq<DayColumn>)
    ensures days == DaysOfMonthOf(year, month)
  {
    var daysInMonth := JsDaysInMonth(year, month);
    assert daysInMonth >= 28 by {
      JsDaysInMonthIsGregorian(year, month);
    }
    days := PushColumns(year, month, daysInMonth);
  }

  /** The loop of `daysOfMonth`, pushing the column of each day 1 .. n. */
  method PushColumns(year: int, month: int, n: nat) returns (days: seq<DayColumn>)
    ensures days == Tabulate(n, ColumnOf(year, month))
  {
    days := [];
    var day := 1;
    while day <= n
      invariant 1 <= day <= n + 1
      invariant days == Tabulate(day - 1, ColumnOf(year, month))
    {
      TabulateNext(day - 1, ColumnOf(year, month));
      days := days + [DayColumnOf(year, month, day)];
      day := day + 1;
    }
    assert day - 1 == n;
  }

  /** The columns are keyed "01", "02", .. in increasing order, and their keys are
      exactly the keys of a month of that many days. */
  lemma DayColumnKeys(year: int, month: int)
    ensures var d := DaysOfMonthOf(year, month);
            (forall i :: 0 <= i < |d| ==> DayOfKey(d[i].day) == i + 1) &&
            (set i | 0 <= i < |d| :: d[i].day) == DayKeys(|d|)
  {
    var d := DaysOfMonthOf(year, month);
    JsDaysInMonthIsGregorian(year, month);
    forall i | 0 <= i < |d| ensures d[i].day == Pad2(i + 1) {
      DaysOfMonthAt(year, month, i);
    }
    PaddedKeys(d);
  }

  /** Columns keyed by the padded day numbers 1 .. n read back in order and carry
      exactly the keys of an n-day record. */
  lemma PaddedKeys(d: seq<DayColumn>)
    requires |d| < 100 && forall i :: 0 <= i < |d| ==> d[i].day == Pad2(i + 1)
    ensures forall i :: 0 <= i < |d| ==> DayOfKey(d[i].day) == i + 1
    ensures (set i | 0 <= i < |d| :: d[i].day) == DayKeys(|d|)
  {
    forall i | 0 <= i < |d| ensures DayOfKey(d[i].day) == i + 1 {
      DayOfKeyInverse(i + 1);
    }
    forall k | k in DayKeys(|d|) ensures k in (set i | 0 <= i < |d| :: d[i].day) {
      var day :| 1 <= day <= |d| && k == Pad2(day);
      assert d[day - 1].day == k;
    }
  }

  /** For a four-digit-era month the weekend flag follows the proleptic Gregorian
      weekday of the date, and the server's weekend test marks the same days. */
  lemma WeekendFollowsCalendar(year: int, month: int, day: int)
    requires year >= 100 && 0 <= month < 12
    ensures var w := Weekday(DayNumber(Date(year, month, day)));
            DayColumnOf(year, month, day).isWeekend <==> (w == 0 || w == 6)
    ensures DayColumnOf(year, month, day).isWeekend <==> DailyStatus.IsWeekend(year, month, day)
  {
    MakeDayPlain(year, month, day);
  }

  /** The column label is "DD/MM": two digits of the day, a slash, two digits of the
      1-based month, each reading back as its number. */
  lemma DateLabel(month: int, day: int)
    requires 1 <= day <= 31 && 0 <= month < 12
    ensures var s := DateStr(month, day);
            |s| == 5 && s[2] == '/' && DayOfKey(s[..2]) == day && DayOfKey(s[3..]) == month + 1
  {
    PadKeyReadsBack(day);
    PadKeyReadsBack(month + 1);
    SplitAtSlash(Pad2(day), Pad2(month + 1));
  }

  lemma SplitAtSlash(a: string, b: string)
    requires |a| == 2
    ensures var s := a + "/" + b; s[..2] == a && s[2] == '/' && s[3..] == b
  {
  }

  lemma PadKeyReadsBack(n: int)
    requires 0 <= n < 100
    ensures DayOfKey(Pad2(n)) == n && |Pad2(n)| == 2
  {
    DayOfKeyInverse(n);
    Pad2Digits(n);
  }

  /** `dailyStatus[day] || { status: "sem-rota", routeInfo: null }`. */
  function DayOrDefault(dailyStatus: Fleet.DailyStatus, key: string): (e: DayStatus)
    ensures key in dailyStatus ==> e == dailyStatus[key]
    ensures key !in dailyStatus ==> e.status == SemRota && e.routeInfo.None?
  {
    if key in dailyStatus then dailyStatus[key] else DayStatus(SemRota, None)
  }

  /** For data the server built from the spreadsheets, every column of the month finds
      its day in the record: the default is never needed. */
  lemma ColumnsFoundInServerData(placa: string, routes: seq<RouteRecord>, month: int, year: int)
    ensures var d := DaysOfMonthOf(year, month);
            forall i :: 0 <= i < |d| ==> d[i].day in DailyStatus.DailyStatusOf(placa, routes, month, year)
  {
    var d := DaysOfMonthOf(year, month);
    JsDaysInMonthIsGregorian(year, month);
    forall i | 0 <= i < |d| ensures d[i].day in DailyStatus.DailyStatusOf(placa, routes, month, year) {
      DaysOfMonthAt(year, month, i);
      assert d[i].day == Pad2(i + 1);
    }
  }

  /** The keys whose day ran. */
  function RanKeys(dailyStatus: Fleet.DailyStatus): (r: set<string>)
    ensures r <= dailyStatus.Keys
    ensures forall k :: k in r <==> k in dailyStatus && dailyStatus[k].status == Rodou
  {
    set k | k in dailyStatus && dailyStatus[k].status == Rodou
  }

  /** `Math.round(num / den)` on exact rationals: the nearest integer, halves rounded up. */
  function RoundHalfUp(num: int, den: int): (r: int)
    requires den > 0
    ensures 2 * r * den <= 2 * num + den < 2 * (r + 1) * den
  {
    var q := (2 * num + den) / (2 * den);
    assert q * (2 * den) <= 2 * num + den < (q + 1) * (2 * den);
    q
  }

  /** A ratio in [0, 1] rounds to a percentage in 0 .. 100. */
  lemma PercentBounds(part: int, whole: int)
    requires 0 <= part <= whole && whole > 0
    ensures 0 <= RoundHalfUp(part * 100, whole) <= 100
  {
    var r := RoundHalfUp(part * 100, whole);
    assert (r + 1) * (2 * whole) > 0 * (2 * whole);
    LessByFactor(0, r + 1, 2 * whole);
    assert r * (2 * whole) < 101 * (2 * whole);
    LessByFactor(r, 101, 2 * whole);
  }

  /** Comparing multiples of one positive factor compares the multiplicands. */
  lemma LessByFactor(a: int, b: int, w: int)
    requires w > 0 && a * w < b * w
    ensures a < b
  {
    assert b * w - a * w == (b - a) * w;
  }

  /** The figures `calculateStats` returns. */
  datatype Stats = Stats(workedDays: int, percentage: int)

  /** `calculateStats(dailyStatus)`: the days that ran and their share of all the
      record's keys, whatever month they belong to. */
  function CalculateStats(dailyStatus: Fleet.DailyStatus): (s: Stats)
    ensures s.workedDays == |RanKeys(dailyStatus)| <= |dailyStatus.Keys|
    ensures |dailyStatus| == 0 ==> s.percentage == 0
    ensures |dailyStatus| > 0 ==>
              2 * s.percentage * |dailyStatus| <= 200 * s.workedDays + |dailyStatus| < 2 * (s.percentage + 1) * |dailyStatus|
    ensures 0 <= s.percentage <= 100
  {
    var totalDays := |dailyStatus.Keys|;
    var workedDays := |RanKeys(dailyStatus)|;
    SubsetCard(RanKeys(dailyStatus), dailyStatus.Keys);
    if totalDays > 0 then
      PercentBounds(workedDays, totalDays);
      Stats(workedDays, RoundHalfUp(workedDays * 100, totalDays))
    else
      Stats(workedDays, 0)
  }

  lemma {:induction false} SubsetCard<T>(a: set<T>, b: set<T>)
    requires a <= b
    ensures |a| <= |b|
    decreases |b|
  {
    if a != {} {
      var x :| x in a;
      SubsetCard(a - {x}, b - {x});
    }
  }

  /** The tooltip label: `labels[status] || "✗ Não rodou"`. */
  function StatusLabel(status: Status): (r: string)
    ensures r == RanLabel() <==> status == Rodou
    ensures status != Rodou ==> r == "\U{2717} N\U{E3}o rodou"
  {
    if status == Rodou then RanLabel() else "\U{2717} N\U{E3}o rodou"
  }

  function RanLabel(): string {
    "\U{2713} Ve\U{ED}culo rodou"
  }
}
