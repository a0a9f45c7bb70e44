/** The spreadsheet export (components/export-button.tsx): the header row, one row object
    per vehicle with a cell per day of the selected month, the count of days that ran and
    its percentage, and the name of the downloaded file. */
module ExportButton {
  import opened Wrappers
  import opened JsText
  import opened Calendar
  import opened Fleet
  import opened DayMaps
  import opened Months
  import TrackingTable
  import Seqs

  /** A cell of a row object: a string or a number. */
  datatype Cell = Text(s: string) | Number(n: int)

  /** A row object as its properties in insertion order, the order in which the sheet
      writer reads them (none of the keys is an array index, so JavaScript keeps that
      order). */
  type Row = seq<(string, Cell)>

  /** `Object.keys(row)`. */
  function Keys(row: Row): (r: seq<string>)
    ensures |r| == |row|
    ensures forall i :: 0 <= i < |row| ==> r[i] == row[i].0
  {
    if row == [] then [] else [row[0].0] + Keys(row[1..])
  }

  lemma {:induction false} KeysAppend(a: Row, b: Row)
    ensures Keys(a + b) == Keys(a) + Keys(b)
  {
    assert Keys(a + b) == Keys(a) + Keys(b) by {
      assert |Keys(a + b)| == |Keys(a) + Keys(b)|;
      forall i | 0 <= i < |a + b| ensures Keys(a + b)[i] == (Keys(a) + Keys(b))[i] {
        if i < |a| {
          assert (a + b)[i] == a[i];
        } else {
          assert (a + b)[i] == b[i - |a|];
        }
      }
    }
  }

  /** Rows whose property names match a list name by name have that list as keys. */
  lemma KeysPointwise(row: Row, names: seq<string>)
    requires |row| == |names| && forall i :: 0 <= i < |row| ==> row[i].0 == names[i]
    ensures Keys(row) == names
  {
  }

  /** `row[key]`: the value of the property named `key`, `None` for `undefined`. */
  function Get(row: Row, key: string): (r: Option<Cell>)
    ensures r.Some? <==> key in Keys(row)
  {
    if row == [] then None
    else if row[0].0 == key then Some(row[0].1)
    else
      assert Keys(row) == [row[0].0] + Keys(row[1..]);
      Get(row[1..], key)
  }

  /** `row[key] = value`: an existing property keeps its place and takes the new value,
      a new one goes last; every other property is left alone. */
  function Put(row: Row, key: string, value: Cell): (r: Row)
    ensures key in Keys(row) ==> Keys(r) == Keys(row)
    ensures key !in Keys(row) ==> r == row + [(key, value)]
  {
    if row == [] then [(key, value)]
    else if row[0].0 == key then [(key, value)] + row[1..]
    else
      var rest := Put(row[1..], key, value);
      assert ([row[0]] + rest)[1..] == rest;
      assert row == [row[0]] + row[1..];
      [row[0]] + rest
  }

  /** After `row[key] = value`, reading `key` gives `value` and reading any other key
      gives what it gave before. */
  lemma {:induction false} PutThenGet(row: Row, key: string, value: Cell, other: string)
    requires other != key
    ensures Get(Put(row, key, value), key) == Some(value)
    ensures Get(Put(row, key, value), other) == Get(row, other)
  {
    if row != [] && row[0].0 != key {
      PutThenGet(row[1..], key, value, other);
      var r := Put(row, key, value);
      assert r[1..] == Put(row[1..], key, value);
    }
  }

  /** The eight columns that come before the days. */
  function FixedHeaders(): seq<string> {
    ["Placa", "Modelo", "Contrato Meli", "Categoria", "Base", "Coordenador", "Gerente", "Tipo Frota"]
  }

  /** The "DD/MM" header of each day 1 .. n, the same label the grid shows. */
  function DayHeaders(month: int, n: nat): (r: seq<string>)
    ensures |r| == n && forall i :: 0 <= i < n ==> r[i] == TrackingTable.DateStr(month, i + 1)
  {
    seq(n, i => TrackingTable.DateStr(month, i + 1))
  }

  /** The header list `exportToXLSX` builds: the fixed columns, one per day of the
      selected month, then the two totals. */
  function HeadersOf(month: int, year: int): seq<string> {
    FixedHeaders() + DayHeaders(month, DaysInMonthOf(month, year)) + ["Total Dias", "Percentual"]
  }

  /** `new Date(selectedYear, selectedMonth + 1, 0).getDate()`, always 28 .. 31. */
  function DaysInMonthOf(month: int, year: int): (n: nat)
    ensures 28 <= n <= 31
  {
    JsDaysInMonthIsGregorian(year, month);
    JsDaysInMonth(year, month)
  }

  /** The header loop: the fixed columns, a push per day, then the totals. */
  method Headers(month: int, year: int) returns (headers: seq<string>)
    ensures headers == HeadersOf(month, year)
  {
    headers := FixedHeaders();
    var daysInMonth := DaysInMonthOf(month, year);
    var day := 1;
    while day <= daysInMonth
      invariant 1 <= day <= daysInMonth + 1
      invariant headers == FixedHeaders() + DayHeaders(month, day - 1)
    {
      headers := headers + [TrackingTable.DateStr(month, day)];
      DayHeadersNext(month, day);
      day := day + 1;
    }
    headers := headers + ["Total Dias", "Percentual"];
  }

  lemma DayHeadersNext(month: int, n: nat)
    requires n >= 1
    ensures DayHeaders(month, n) == DayHeaders(month, n - 1) + [TrackingTable.DateStr(month, n)]
  {
    var a := DayHeaders(month, n);
    var b := DayHeaders(month, n - 1) + [TrackingTable.DateStr(month, n)];
    forall i | 0 <= i < n ensures a[i] == b[i] {
      if i < n - 1 {
        assert b[i] == DayHeaders(month, n - 1)[i];
      }
    }
  }

  /** A day header has its slash third; no other header does. */
  predicate SlashThird(s: string) {
    |s| >= 3 && s[2] == '/'
  }

  /** None of the named columns looks like a day. */
  lemma NamedHeadersNoSlash()
    ensures forall x :: x in FixedHeaders() ==> !SlashThird(x)
    ensures !SlashThird("Total Dias") && !SlashThird("Percentual") && "Total Dias" != "Percentual"
  {
  }

  lemma DayHeaderShape(month: int, day: int)
    requires 1 <= day <= 31
    ensures var s := TrackingTable.DateStr(month, day);
            SlashThird(s) && DayOfKey(s[..2]) == day
  {
    TrackingTable.PadKeyReadsBack(day);
    TrackingTable.SplitAtSlash(Pad2(day), Pad2(month + 1));
  }

  /** A day's header is new when it is pushed: no fixed column and no earlier day has it. */
  lemma DayHeaderFresh(month: int, day: int)
    requires 1 <= day <= 31
    ensures TrackingTable.DateStr(month, day) !in FixedHeaders() + DayHeaders(month, day - 1)
  {
    var s := TrackingTable.DateStr(month, day);
    var earlier := DayHeaders(month, day - 1);
    DayHeaderShape(month, day);
    NamedHeadersNoSlash();
    forall i | 0 <= i < day - 1 ensures earlier[i] != s {
      DayHeaderShape(month, i + 1);
    }
    assert s !in FixedHeaders() && s !in earlier;
  }

  /** Every day header has its slash third. */
  lemma DayHeadersSlashed(month: int, n: nat)
    requires n <= 31
    ensures forall x :: x in DayHeaders(month, n) ==> SlashThird(x)
  {
    var days := DayHeaders(month, n);
    forall i | 0 <= i < n ensures SlashThird(days[i]) {
      DayHeaderShape(month, i + 1);
    }
  }

  /** The two totals are new after the day columns, and differ from each other. */
  lemma TotalsFresh(month: int, n: nat)
    requires n <= 31
    ensures "Total Dias" !in FixedHeaders() + DayHeaders(month, n)
    ensures "Percentual" !in FixedHeaders() + DayHeaders(month, n) + ["Total Dias"]
  {
    NamedHeadersNoSlash();
    DayHeadersSlashed(month, n);
  }

  /** No value occurs twice. */
  predicate NoRepeats(s: seq<string>) {
    forall i, j :: 0 <= i < j < |s| ==> s[i] != s[j]
  }

  lemma NoRepeatsAppend(a: seq<string>, b: seq<string>)
    requires NoRepeats(a) && NoRepeats(b)
    requires forall x :: x in b ==> x !in a
    ensures NoRepeats(a + b)
  {
    var s := a + b;
    forall i, j | 0 <= i < j < |s| ensures s[i] != s[j] {
      if j >= |a| {
        assert s[j] == b[j - |a|] && s[j] in b;
        if i >= |a| {
          assert s[i] == b[i - |a|];
        } else {
          assert s[i] == a[i] && s[i] in a;
        }
      }
    }
  }

  /** Different days have different headers. */
  lemma DayHeadersNoRepeats(month: int, n: nat)
    requires n <= 31
    ensures NoRepeats(DayHeaders(month, n))
  {
    var h := DayHeaders(month, n);
    forall i, j | 0 <= i < j < n ensures h[i] != h[j] {
      DayHeadersDiffer(month, i + 1, j + 1);
    }
  }

  lemma DayHeadersDiffer(month: int, d: int, e: int)
    requires 1 <= d < e <= 31
    ensures TrackingTable.DateStr(month, d) != TrackingTable.DateStr(month, e)
  {
    DayHeaderShape(month, d);
    DayHeaderShape(month, e);
  }

  lemma FixedAndDaysNoRepeats(month: int, n: nat)
    requires n <= 31
    ensures NoRepeats(FixedHeaders() + DayHeaders(month, n))
  {
    NamedHeadersNoSlash();
    DayHeadersSlashed(month, n);
    DayHeadersNoRepeats(month, n);
    NoRepeatsAppend(FixedHeaders(), DayHeaders(month, n));
  }

  /** Every column of the sheet is named once: the header list has no repeats. */
  lemma HeadersDistinct(month: int, year: int)
    ensures NoRepeats(HeadersOf(month, year))
  {
    var n := DaysInMonthOf(month, year);
    var days := DayHeaders(month, n);
    FixedAndDaysNoRepeats(month, n);
    TotalsFresh(month, n);
    NamedHeadersNoSlash();
    NoRepeatsAppend(FixedHeaders() + days, ["Total Dias", "Percentual"]);
  }

  /** `getStatusLabel(status)`. */
  function ExportLabel(status: Status): string {
    if status == Rodou then "Rodou" else "N\U{E3}o rodou"
  }

  /** The sheet and the grid agree on which days ran: a cell reads "Rodou" exactly when
      the grid's tooltip reads "✓ Veículo rodou", and reads "Não rodou" otherwise. */
  lemma LabelsAgree(status: Status)
    ensures ExportLabel(status) == "Rodou" <==> TrackingTable.StatusLabel(status) == TrackingTable.RanLabel()
    ensures ExportLabel(status) != "Rodou" ==> ExportLabel(status) == "N\U{E3}o rodou"
  {
  }

  /** The object literal with the eight vehicle fields. */
  function FixedCells(v: Vehicle): (r: Row)
    ensures Keys(r) == FixedHeaders()
  {
    [("Placa", Text(v.placa)), ("Modelo", Text(v.modelo)), ("Contrato Meli", Text(v.contratoMeli)),
     ("Categoria", Text(v.categoria)), ("Base", Text(v.base)), ("Coordenador", Text(v.coordenador)),
     ("Gerente", Text(v.gerente)), ("Tipo Frota", Text(v.tipoFrota))]
  }

  /** The cell of one day: the label of the day's status, "sem-rota" when it is missing. */
  function DayCell(dailyStatus: Fleet.DailyStatus, month: int, day: int): (string, Cell) {
    (TrackingTable.DateStr(month, day), Text(ExportLabel(TrackingTable.DayOrDefault(dailyStatus, Pad2(day)).status)))
  }

  /** The cells of days 1 .. n. */
  function DayCells(dailyStatus: Fleet.DailyStatus, month: int, n: nat): (r: Row)
    ensures |r| == n && forall i :: 0 <= i < n ==> r[i] == DayCell(dailyStatus, month, i + 1)
  {
    seq(n, i => DayCell(dailyStatus, month, i + 1))
  }

  /** The day cells are named by the day headers, in order. */
  lemma DayCellsKeys(dailyStatus: Fleet.DailyStatus, month: int, n: nat)
    ensures Keys(DayCells(dailyStatus, month, n)) == DayHeaders(month, n)
  {
    var r := DayCells(dailyStatus, month, n);
    forall i | 0 <= i < n ensures r[i].0 == DayHeaders(month, n)[i] {
      assert r[i] == DayCell(dailyStatus, month, i + 1);
    }
    KeysPointwise(r, DayHeaders(month, n));
  }

  /** `parseInt(day) <= daysInMonth`; a key that is not a number (`NaN`) fails. */
  predicate KeyInMonth(key: string, daysInMonth: int) {
    var p := ParseInt(key, true);
    p.Some? && p.value <= daysInMonth
  }

  /** The keys the `workedDays` filters keep. */
  function WorkedKeys(dailyStatus: Fleet.DailyStatus, daysInMonth: int): (r: set<string>)
    ensures forall k :: k in r <==> k in dailyStatus && KeyInMonth(k, daysInMonth) && dailyStatus[k].status == Rodou
  {
    set k | k in dailyStatus && KeyInMonth(k, daysInMonth) && dailyStatus[k].status == Rodou
  }

  /** `totalPossibleDays > 0 ? Math.round(workedDays / totalPossibleDays * 100) : 0`. */
  function Percentage(workedDays: int, totalPossibleDays: int): (p: int)
    ensures totalPossibleDays > 0 && 0 <= workedDays <= totalPossibleDays ==> 0 <= p <= 100
    ensures totalPossibleDays > 0 ==> 2 * p * totalPossibleDays <= 200 * workedDays + totalPossibleDays < 2 * (p + 1) * totalPossibleDays
    ensures totalPossibleDays <= 0 ==> p == 0
  {
    if totalPossibleDays > 0 then
      var p := TrackingTable.RoundHalfUp(workedDays * 100, totalPossibleDays);
      if 0 <= workedDays <= totalPossibleDays then TrackingTable.PercentBounds(workedDays, totalPossibleDays); p else p
    else 0
  }

  /** The row `exportToXLSX` builds for a vehicle. */
  function ExportRowOf(v: Vehicle, month: int, year: int): Row {
    var daysInMonth := DaysInMonthOf(month, year);
    var workedDays := |WorkedKeys(v.dailyStatus, daysInMonth)|;
    FixedCells(v) + DayCells(v.dailyStatus, month, daysInMonth)
      + [("Total Dias", Number(workedDays)),
         ("Percentual", Text(IntToString(Percentage(workedDays, daysInMonth)) + "%"))]
  }

  /** The body of `vehicles.map`: the literal, one assignment per day, then the totals. */
  method BuildRow(v: Vehicle, month: int, year: int) returns (row: Row)
    ensures row == ExportRowOf(v, month, year)
  {
    var daysInMonth := DaysInMonthOf(month, year);
    row := FixedCells(v);
    var day := 1;
    while day <= daysInMonth
      invariant 1 <= day <= daysInMonth + 1
      invariant row == FixedCells(v) + DayCells(v.dailyStatus, month, day - 1)
    {
      row := PutDay(row, v, month, day);
      day := day + 1;
    }
    var workedDays := |WorkedKeys(v.dailyStatus, daysInMonth)|;
    var percentage := Percentage(workedDays, daysInMonth);
    TotalsOfRow(v, month, year, row);
    row := Put(row, "Total Dias", Number(workedDays));
    row := Put(row, "Percentual", Text(IntToString(percentage) + "%"));
  }

  /** Assigning the two totals to the row of fixed and day cells completes the row. */
  lemma TotalsOfRow(v: Vehicle, month: int, year: int, row: Row)
    requires row == FixedCells(v) + DayCells(v.dailyStatus, month, DaysInMonthOf(month, year))
    ensures var daysInMonth := DaysInMonthOf(month, year);
            var workedDays := |WorkedKeys(v.dailyStatus, daysInMonth)|;
            Put(Put(row, "Total Dias", Number(workedDays)), "Percentual",
                Text(IntToString(Percentage(workedDays, daysInMonth)) + "%"))
            == ExportRowOf(v, month, year)
  {
    var daysInMonth := DaysInMonthOf(month, year);
    var workedDays := |WorkedKeys(v.dailyStatus, daysInMonth)|;
    KeysAppend(FixedCells(v), DayCells(v.dailyStatus, month, daysInMonth));
    DayCellsKeys(v.dailyStatus, month, daysInMonth);
    TotalsFresh(month, daysInMonth);
    TotalsAppended(row, Number(workedDays), Text(IntToString(Percentage(workedDays, daysInMonth)) + "%"));
  }

  /** `row[`${dayStr}/${monthStr}`] = getStatusLabel(status)` for one day. */
  method PutDay(row: Row, v: Vehicle, month: int, day: int) returns (next: Row)
    requires 1 <= day <= 31
    requires row == FixedCells(v) + DayCells(v.dailyStatus, month, day - 1)
    ensures next == FixedCells(v) + DayCells(v.dailyStatus, month, day)
  {
    var dayStr := Pad2(day);
    var dayData := TrackingTable.DayOrDefault(v.dailyStatus, dayStr);
    KeysAppend(FixedCells(v), DayCells(v.dailyStatus, month, day - 1));
    DayCellsKeys(v.dailyStatus, month, day - 1);
    DayHeaderFresh(month, day);
    assert Keys(row) == FixedHeaders() + DayHeaders(month, day - 1);
    next := Put(row, TrackingTable.DateStr(month, day), Text(ExportLabel(dayData.status)));
    var cell := DayCell(v.dailyStatus, month, day);
    var before := DayCells(v.dailyStatus, month, day - 1);
    assert next == row + [cell];
    DayCellsNext(v.dailyStatus, month, day);
    SeqAssoc(FixedCells(v), before, [cell]);
  }

  lemma DayCellsNext(dailyStatus: Fleet.DailyStatus, month: int, n: nat)
    requires n >= 1
    ensures DayCells(dailyStatus, month, n) == DayCells(dailyStatus, month, n - 1) + [DayCell(dailyStatus, month, n)]
  {
    var a := DayCells(dailyStatus, month, n);
    var b := DayCells(dailyStatus, month, n - 1) + [DayCell(dailyStatus, month, n)];
    forall i | 0 <= i < n ensures a[i] == b[i] {
      if i < n - 1 {
        assert b[i] == DayCells(dailyStatus, month, n - 1)[i];
      }
    }
  }

  /** The two total assignments append the two totals, in order. */
  lemma TotalsAppended(cells: Row, total: Cell, share: Cell)
    requires "Total Dias" !in Keys(cells) && "Percentual" !in Keys(cells)
    ensures Put(Put(cells, "Total Dias", total), "Percentual", share)
            == cells + [("Total Dias", total), ("Percentual", share)]
  {
    var t, p := ("Total Dias", total), ("Percentual", share);
    var withTotal := Put(cells, "Total Dias", total);
    assert withTotal == cells + [t];
    assert "Percentual" !in Keys(withTotal) by {
      KeysAppend(cells, [t]);
      assert Keys([t]) == ["Total Dias"];
    }
    assert [t] + [p] == [t, p];
    SeqAssoc(cells, [t], [p]);
  }

  lemma SeqAssoc<T>(a: seq<T>, b: seq<T>, c: seq<T>)
    ensures (a + b) + c == a + (b + c)
  {
  }

  /** The columns of every row are exactly the header list, in order: the header list,
      which the sheet writer never receives, names the columns the rows produce. */
  lemma RowColumns(v: Vehicle, month: int, year: int)
    ensures Keys(ExportRowOf(v, month, year)) == HeadersOf(month, year)
  {
    var n := DaysInMonthOf(month, year);
    var w := |WorkedKeys(v.dailyStatus, n)|;
    RowColumnsOfMonth(v, month, n, [("Total Dias", Number(w)), ("Percentual", Text(IntToString(Percentage(w, n)) + "%"))]);
  }

  /** `RowColumns` for a month of `n` days and any two totals cells. */
  lemma RowColumnsOfMonth(v: Vehicle, month: int, n: nat, totals: Row)
    requires |totals| == 2 && totals[0].0 == "Total Dias" && totals[1].0 == "Percentual"
    ensures Keys(FixedCells(v) + DayCells(v.dailyStatus, month, n) + totals)
            == FixedHeaders() + DayHeaders(month, n) + ["Total Dias", "Percentual"]
  {
    KeysAppend(FixedCells(v), DayCells(v.dailyStatus, month, n));
    DayCellsKeys(v.dailyStatus, month, n);
    KeysAppend(FixedCells(v) + DayCells(v.dailyStatus, month, n), totals);
    assert Keys(totals) == ["Total Dias", "Percentual"];
  }

  /** How many cells of a row read "Rodou". */
  function RodouCount(cells: Row): (n: nat)
    ensures n <= |cells|
  {
    if cells == [] then 0
    else (if cells[|cells| - 1].1 == Text("Rodou") then 1 else 0) + RodouCount(cells[..|cells| - 1])
  }

  /** For a record keyed by two-digit days (as both the server and the demonstration data
      build them), "Total Dias" is the number of day cells that read "Rodou": a key counts
      exactly when its day is in the month and ran. */
  lemma {:induction false} TotalCountsRodouCells(dailyStatus: Fleet.DailyStatus, month: int, n: nat)
    requires dailyStatus.Keys <= DayKeys(31) && n <= 31
    ensures |WorkedKeys(dailyStatus, n)| == RodouCount(DayCells(dailyStatus, month, n))
  {
    if n == 0 {
      NoWorkedKeysBeforeDayOne(dailyStatus);
      NoCellsBeforeDayOne(dailyStatus, month);
    } else {
      TotalCountsRodouCells(dailyStatus, month, n - 1);
      CountsAgreeNext(dailyStatus, month, n);
    }
  }

  lemma CountsAgreeNext(dailyStatus: Fleet.DailyStatus, month: int, n: nat)
    requires dailyStatus.Keys <= DayKeys(31) && 1 <= n <= 31
    requires |WorkedKeys(dailyStatus, n - 1)| == RodouCount(DayCells(dailyStatus, month, n - 1))
    ensures |WorkedKeys(dailyStatus, n)| == RodouCount(DayCells(dailyStatus, month, n))
  {
    RodouCountNext(dailyStatus, month, n);
    WorkedCountNext(dailyStatus, n);
  }

  lemma NoCellsBeforeDayOne(dailyStatus: Fleet.DailyStatus, month: int)
    ensures RodouCount(DayCells(dailyStatus, month, 0)) == 0
  {
    assert DayCells(dailyStatus, month, 0) == [];
  }

  lemma NoWorkedKeysBeforeDayOne(dailyStatus: Fleet.DailyStatus)
    requires dailyStatus.Keys <= DayKeys(31)
    ensures |WorkedKeys(dailyStatus, 0)| == 0
  {
    forall k | k in dailyStatus ensures !KeyInMonth(k, 0) {
      assert k in DayKeys(31);
      var d :| 1 <= d <= 31 && k == Pad2(d);
      ParseIntPad2(d, true);
    }
  }

  /** Whether day n ran, as the counts see it. */
  predicate DayRan(dailyStatus: Fleet.DailyStatus, n: int) {
    Pad2(n) in dailyStatus && dailyStatus[Pad2(n)].status == Rodou
  }

  lemma RodouCountNext(dailyStatus: Fleet.DailyStatus, month: int, n: nat)
    requires n >= 1
    ensures RodouCount(DayCells(dailyStatus, month, n))
            == RodouCount(DayCells(dailyStatus, month, n - 1)) + (if DayRan(dailyStatus, n) then 1 else 0)
  {
    var cells := DayCells(dailyStatus, month, n);
    DayCellsNext(dailyStatus, month, n);
    assert cells[..n - 1] == DayCells(dailyStatus, month, n - 1);
    assert cells[n - 1].1 == Text("Rodou") <==> DayRan(dailyStatus, n);
  }

  lemma WorkedCountNext(dailyStatus: Fleet.DailyStatus, n: int)
    requires dailyStatus.Keys <= DayKeys(31) && 1 <= n <= 31
    ensures |WorkedKeys(dailyStatus, n)| == |WorkedKeys(dailyStatus, n - 1)| + (if DayRan(dailyStatus, n) then 1 else 0)
  {
    if DayRan(dailyStatus, n) {
      DayKeyCounts(dailyStatus, n);
      WorkedKeysAddDay(dailyStatus, n);
      AddFreshCard(WorkedKeys(dailyStatus, n - 1), Pad2(n));
    } else {
      WorkedKeysSameDay(dailyStatus, n);
    }
  }

  lemma AddFreshCard(s: set<string>, x: string)
    requires x !in s
    ensures |s + {x}| == |s| + 1
  {
  }

  /** Day n's key counts up to day n exactly when the day ran, and never up to day n - 1. */
  lemma DayKeyCounts(dailyStatus: Fleet.DailyStatus, n: int)
    requires 1 <= n <= 31
    ensures Pad2(n) !in WorkedKeys(dailyStatus, n - 1)
    ensures Pad2(n) in WorkedKeys(dailyStatus, n) <==> DayRan(dailyStatus, n)
  {
    ParseIntPad2(n, true);
  }

  /** When day n ran, moving the bound from n - 1 to n adds its key. */
  lemma WorkedKeysAddDay(dailyStatus: Fleet.DailyStatus, n: int)
    requires dailyStatus.Keys <= DayKeys(31) && 1 <= n <= 31 && DayRan(dailyStatus, n)
    ensures WorkedKeys(dailyStatus, n) == WorkedKeys(dailyStatus, n - 1) + {Pad2(n)}
  {
    DayKeyCounts(dailyStatus, n);
    WorkedKeysOnlyGrowByDay(dailyStatus, n);
    WorkedKeysMonotone(dailyStatus, n);
  }

  /** When day n did not run, moving the bound changes nothing. */
  lemma WorkedKeysSameDay(dailyStatus: Fleet.DailyStatus, n: int)
    requires dailyStatus.Keys <= DayKeys(31) && 1 <= n <= 31 && !DayRan(dailyStatus, n)
    ensures WorkedKeys(dailyStatus, n) == WorkedKeys(dailyStatus, n - 1)
  {
    DayKeyCounts(dailyStatus, n);
    WorkedKeysOnlyGrowByDay(dailyStatus, n);
    WorkedKeysMonotone(dailyStatus, n);
  }

  lemma WorkedKeysMonotone(dailyStatus: Fleet.DailyStatus, n: int)
    ensures WorkedKeys(dailyStatus, n - 1) <= WorkedKeys(dailyStatus, n)
  {
  }

  lemma WorkedKeysOnlyGrowByDay(dailyStatus: Fleet.DailyStatus, n: int)
    requires dailyStatus.Keys <= DayKeys(31) && 1 <= n <= 31
    ensures WorkedKeys(dailyStatus, n) <= WorkedKeys(dailyStatus, n - 1) + {Pad2(n)}
  {
    forall k | k in WorkedKeys(dailyStatus, n) && k !in WorkedKeys(dailyStatus, n - 1) ensures k == Pad2(n) {
      NewKeyIsDay(dailyStatus, n, k);
    }
  }

  /** A key that counts up to day n but not up to day n - 1 is day n's. */
  lemma NewKeyIsDay(dailyStatus: Fleet.DailyStatus, n: int, k: string)
    requires dailyStatus.Keys <= DayKeys(31) && k in dailyStatus
    requires KeyInMonth(k, n) && !KeyInMonth(k, n - 1)
    ensures k == Pad2(n)
  {
    assert k in DayKeys(31);
    var d :| 1 <= d <= 31 && k == Pad2(d);
    ParseIntPad2(d, true);
  }

  /** With such a record the total never exceeds the days of the month, and the
      percentage stays within 0 .. 100. */
  lemma TotalsBounded(v: Vehicle, month: int, year: int)
    requires v.dailyStatus.Keys <= DayKeys(31)
    ensures var n := DaysInMonthOf(month, year);
            var w := |WorkedKeys(v.dailyStatus, n)|;
            w <= n && 0 <= Percentage(w, n) <= 100
  {
    var n := DaysInMonthOf(month, year);
    TotalCountsRodouCells(v.dailyStatus, month, n);
  }

  /** `monthNames[selectedMonth]`, with `undefined` spelled as the template writes it. */
  function FileMonth(month: int): string {
    match LowerMonthName(month)
    case Some(name) => name
    case None => "undefined"
  }

  /** `controle-rodagem-${monthName}-${selectedYear}.xlsx`. */
  function Filename(month: int, year: int): string {
    "controle-rodagem-" + FileMonth(month) + "-" + IntToString(year) + ".xlsx"
  }

  /** The file is named after the month the page shows, lower-cased, and the year;
      outside 0 .. 11 the name carries "undefined". */
  lemma FilenameNamesPeriod(month: int, year: int)
    ensures 0 <= month < 12 ==>
              Filename(month, year) == "controle-rodagem-" + ToLower(MonthName(month).value) + "-" + IntToString(year) + ".xlsx"
    ensures !(0 <= month < 12) ==> Filename(month, year) == "controle-rodagem-undefined-" + IntToString(year) + ".xlsx"
  {
    if 0 <= month < 12 {
      LowerMonthNameAgrees(month);
    }
  }

  /** The year in the file name reads back as the selected year. */
  lemma FilenameYear(month: int, year: int)
    ensures var f := Filename(month, year);
            var start := |"controle-rodagem-" + FileMonth(month) + "-"|;
            start <= |f| - 5 && f[|f| - 5..] == ".xlsx" && ParseInt(f[start..|f| - 5], false) == Some(year)
  {
    var f := Filename(month, year);
    var prefix := "controle-rodagem-" + FileMonth(month) + "-";
    assert f == prefix + IntToString(year) + ".xlsx";
    assert f[|prefix|..|f| - 5] == IntToString(year);
    ParseIntToString(year, false);
  }

  /** `exportToXLSX`: the header list, the row of every vehicle in order, and the file
      name. */
  method ExportToXlsx(vehicles: seq<Vehicle>, month: int, year: int)
    returns (headers: seq<string>, data: seq<Row>, filename: string)
    ensures headers == HeadersOf(month, year)
    ensures |data| == |vehicles|
    ensures forall i :: 0 <= i < |data| ==> data[i] == ExportRowOf(vehicles[i], month, year)
    ensures filename == Filename(month, year)
  {
    headers := Headers(month, year);
    data := BuildRows(vehicles, month, year);
    assert forall i :: 0 <= i < |data| ==> data[i] == RowMaker(month, year)(vehicles[i]);
    filename := Filename(month, year);
  }

  /** `vehicles.map(...)`: the row of every vehicle, in order. */
  method BuildRows(vehicles: seq<Vehicle>, month: int, year: int) returns (data: seq<Row>)
    ensures data == Seqs.Map(vehicles, RowMaker(month, year))
  {
    data := [];
    var i := 0;
    while i < |vehicles|
      invariant 0 <= i <= |vehicles|
      invariant data == Seqs.Map(vehicles[..i], RowMaker(month, year))
    {
      var row := BuildRow(vehicles[i], month, year);
      Seqs.MapPrefixNext(vehicles, RowMaker(month, year), i);
      data := data + [row];
      i := i + 1;
    }
    assert vehicles[..i] == vehicles;
  }

  /** The function `vehicles.map` applies. */
  function RowMaker(month: int, year: int): Vehicle -> Row {
    v => ExportRowOf(v, month, year)
  }
}
