/** `generateDailyStatusFromRoutes` (app/api/vehicles/route.ts): for one plate and a
    selected month, one entry per calendar day, keyed "01", "02", ...; a day is "rodou",
    with a copy of the route, when a route of the plate is dated that day, and otherwise
    gets a pseudo-random status drawn from the plate's first character and the day. */
module DailyStatus {
  import opened Wrappers
  import opened JsText
  import opened Calendar
  import opened Lcg
  import opened Fleet
  import opened Seqs
  import opened DayMaps

  /** `s.toLowerCase().trim()`: the form plates are compared in. */
  function PlateKey(s: string): string {
    Trim(ToLower(s))
  }

  /** `s.split('T')[0]`: the text before the first 'T' (all of it when there is none). */
  function DatePart(s: string): (r: string)
    ensures |r| <= |s| && r == s[..|r|]
    ensures forall i :: 0 <= i < |r| ==> r[i] != 'T'
    ensures |r| < |s| ==> s[|r|] == 'T'
  {
    if s == [] || s[0] == 'T' then [] else [s[0]] + DatePart(s[1..])
  }

  /** The `${year}-${monthStr}-${dayStr}` a route date is compared with. */
  function DateStr(year: int, month: int, day: int): string {
    IntToString(year) + "-" + Pad2(month + 1) + "-" + Pad2(day)
  }

  /** The route belongs to the plate: the same once lower-cased and trimmed. */
  predicate SamePlate(placa: string, r: RouteRecord) {
    PlateKey(r.placa) == PlateKey(placa)
  }

  /** The route is dated `dateStr` (its time part ignored). */
  predicate DatedOn(dateStr: string, r: RouteRecord) {
    DatePart(r.dataRota) == dateStr
  }

  /** The tests `filter` and `find` are given, as values. */
  function SamePlateTest(placa: string): RouteRecord -> bool {
    r => SamePlate(placa, r)
  }

  function DatedOnTest(dateStr: string): RouteRecord -> bool {
    r => DatedOn(dateStr, r)
  }

  /** The `routeInfo` copied from a route. */
  function SnapshotOf(r: RouteRecord): RouteInfo {
    Snapshot(r.idRota, r.milha, r.cluster, r.motorista, r.placaModal, r.performance, r.dataRota, r.kmPlanejado)
  }

  /** `placa.charCodeAt(0) + day`; `None` is `NaN`, for an empty plate. */
  function Seed(placa: string, day: int): Option<int> {
    match CharCodeAt0(placa)
    case None => None
    case Some(c) => Some(c + day)
  }

  /** `new Date(year, month, day)` falls on a Sunday or a Saturday. */
  predicate IsWeekend(year: int, month: int, day: int) {
    JsWeekday(year, month, day) == 0 || JsWeekday(year, month, day) == 6
  }

  /** The status of a day without a route, from `random = Step(seed) / 233280`. A `NaN`
      seed fails every comparison and leaves "sem-rota". */
  function PseudoStatus(seed: Option<int>, weekend: bool): (st: Status)
    ensures st != Rodou
    ensures seed.None? ==> st == SemRota
    ensures seed.Some? && weekend ==>
              (st == Folga <==> (Step(seed.value) as real) / 233280.0 < 0.7) &&
              (st == SemRota <==> !((Step(seed.value) as real) / 233280.0 < 0.7))
    ensures seed.Some? && !weekend ==>
              var random := (Step(seed.value) as real) / 233280.0;
              (st == Manutencao <==> random < 0.1) &&
              (st == Folga <==> 0.1 <= random < 0.15) &&
              (st == Falta <==> 0.15 <= random < 0.18) &&
              (st == SemRota <==> 0.18 <= random)
  {
    match seed
    case None => SemRota
    case Some(s) =>
      var v := Step(s);
      ThresholdsExact(v);
      if weekend then (if v < Below070 then Folga else SemRota)
      else if v < Below010 then Manutencao
      else if v < Below015 then Folga
      else if v < Below018 then Falta
      else SemRota
  }

  /** The entry of one day: the first route of the plate dated that day, if any. */
  function DayEntry(placa: string, routes: seq<RouteRecord>, month: int, year: int, day: int): DayStatus {
    var vehicleRoutes := Filter(routes, SamePlateTest(placa));
    match Find(vehicleRoutes, DatedOnTest(DateStr(year, month, day)))
    case Some(r) => DayStatus(Rodou, Some(SnapshotOf(r)))
    case None => DayStatus(PseudoStatus(Seed(placa, day), IsWeekend(year, month, day)), None)
  }

  /** The `dailyStatus` record built for the plate and month. */
  function DailyStatusOf(placa: string, routes: seq<RouteRecord>, month: int, year: int): (m: DailyStatus)
    ensures m.Keys == DayKeys(JsDaysInMonth(year, month))
  {
    JsDaysInMonthIsGregorian(year, month);
    DayMap(JsDaysInMonth(year, month), EntryOf(placa, routes, month, year))
  }

  function EntryOf(placa: string, routes: seq<RouteRecord>, month: int, year: int): int -> DayStatus {
    day => DayEntry(placa, routes, month, year, day)
  }

  /** The loop of `generateDailyStatusFromRoutes`, day by day. */
  method GenerateDailyStatusFromRoutes(placa: string, routes: seq<RouteRecord>, month: int, year: int)
    returns (dailyStatus: DailyStatus)
    ensures dailyStatus == DailyStatusOf(placa, routes, month, year)
  {
    var entry := EntryOf(placa, routes, month, year);
    dailyStatus := map[];
    var vehicleRoutes := Filter(routes, SamePlateTest(placa));
    var daysInMonth := JsDaysInMonth(year, month);
    assert 28 <= daysInMonth by {
      JsDaysInMonthIsGregorian(year, month);
    }
    var day := 1;
    while day <= daysInMonth
      invariant 1 <= day <= daysInMonth + 1
      invariant dailyStatus == DayMap(day - 1, entry)
    {
      var e := StatusOfDay(placa, routes, vehicleRoutes, month, year, day);
      DayMapNext(day, entry);
      dailyStatus := dailyStatus[Pad2(day) := e];
      day := day + 1;
    }
    assert day - 1 == daysInMonth;
  }

  /** The body of the loop for one day: the route found for it, or the unmatched
      status. */
  method StatusOfDay(placa: string, routes: seq<RouteRecord>, vehicleRoutes: seq<RouteRecord>,
                     month: int, year: int, day: int) returns (e: DayStatus)
    requires vehicleRoutes == Filter(routes, SamePlateTest(placa))
    ensures e == DayEntry(placa, routes, month, year, day)
  {
    var dateStr := DateStr(year, month, day);
    var dayRoute := Find(vehicleRoutes, DatedOnTest(dateStr));
    if dayRoute.Some? {
      e := DayStatus(Rodou, Some(SnapshotOf(dayRoute.value)));
    } else {
      var status := UnmatchedStatus(Seed(placa, day), IsWeekend(year, month, day));
      e := DayStatus(status, None);
    }
  }

  /** The threshold ladder of a day without a route. */
  method UnmatchedStatus(seed: Option<int>, isWeekend: bool) returns (status: Status)
    ensures status == PseudoStatus(seed, isWeekend)
  {
    status := SemRota;
    if seed.Some? {
      var v := Step(seed.value);
      if isWeekend {
        status := if v < Below070 then Folga else SemRota;
      } else {
        if v < Below010 {
          status := Manutencao;
        } else if v < Below015 {
          status := Folga;
        } else if v < Below018 {
          status := Falta;
        }
      }
    }
  }

  /** The record has exactly the keys "01" .. "NN" of the month's days: the Gregorian
      length of the month (after `Date`'s carrying of an out-of-range month into the
      year, and its reading of years 0 .. 99 as 1900 .. 1999). */
  lemma DailyStatusKeys(placa: string, routes: seq<RouteRecord>, month: int, year: int)
    ensures DailyStatusOf(placa, routes, month, year).Keys ==
              DayKeys(DaysIn(JsFullYear(year) + month / 12, month % 12))
  {
    JsDaysInMonthIsGregorian(year, month);
    assert DailyStatusOf(placa, routes, month, year).Keys == DayKeys(JsDaysInMonth(year, month));
  }

  /** For a month 0 .. 11 of a year from 100 on, the keys are the days of that month. */
  lemma DailyStatusKeysPlain(placa: string, routes: seq<RouteRecord>, month: int, year: int)
    requires 0 <= month < 12 && year >= 100
    ensures DailyStatusOf(placa, routes, month, year).Keys == DayKeys(DaysIn(year, month))
  {
    MonthLengthPlain(month, year);
    assert DailyStatusOf(placa, routes, month, year).Keys == DayKeys(JsDaysInMonth(year, month));
  }

  /** For a month 0 .. 11 of a year from 100 on, `Date` neither carries the month nor
      remaps the year, so the month's length is its Gregorian length. */
  lemma MonthLengthPlain(month: int, year: int)
    requires 0 <= month < 12 && year >= 100
    ensures JsDaysInMonth(year, month) == DaysIn(year, month)
  {
    JsDaysInMonthIsGregorian(year, month);
    assert JsFullYear(year) + month / 12 == year && month % 12 == month;
  }

  /** A route of the plate dated `day` of the month. */
  predicate RouteOn(placa: string, year: int, month: int, day: int, r: RouteRecord) {
    SamePlate(placa, r) && DatedOn(DateStr(year, month, day), r)
  }

  /** Day `day` is "rodou" exactly when some route of the plate is dated that day; its
      `routeInfo` is then the copy of the first such route `routes[i]`. Otherwise the
      day has the unmatched status and no `routeInfo`. */
  lemma DayRodouIffRoute(placa: string, routes: seq<RouteRecord>, month: int, year: int, day: int)
    returns (i: nat)
    requires 1 <= day <= JsDaysInMonth(year, month)
    ensures var e := DailyStatusOf(placa, routes, month, year)[Pad2(day)];
            e.status == Rodou <==> exists k :: 0 <= k < |routes| && RouteOn(placa, year, month, day, routes[k])
    ensures var e := DailyStatusOf(placa, routes, month, year)[Pad2(day)];
            e.status == Rodou ==>
              i < |routes| && RouteOn(placa, year, month, day, routes[i]) &&
              (forall j :: 0 <= j < i ==> !RouteOn(placa, year, month, day, routes[j])) &&
              e.routeInfo == Some(SnapshotOf(routes[i]))
    ensures var e := DailyStatusOf(placa, routes, month, year)[Pad2(day)];
            e.status != Rodou ==>
              e == DayStatus(PseudoStatus(Seed(placa, day), IsWeekend(year, month, day)), None)
  {
    assert DailyStatusOf(placa, routes, month, year)[Pad2(day)] == DayEntry(placa, routes, month, year, day) by {
      JsDaysInMonthIsGregorian(year, month);
      DayMapAt(JsDaysInMonth(year, month), EntryOf(placa, routes, month, year), day);
    }
    i := EntryRodouIffRoute(placa, routes, month, year, day);
  }

  /** `DayRodouIffRoute` for the entry of one day. */
  lemma EntryRodouIffRoute(placa: string, routes: seq<RouteRecord>, month: int, year: int, day: int)
    returns (i: nat)
    ensures var e := DayEntry(placa, routes, month, year, day);
            e.status == Rodou <==> exists k :: 0 <= k < |routes| && RouteOn(placa, year, month, day, routes[k])
    ensures var e := DayEntry(placa, routes, month, year, day);
            e.status == Rodou ==>
              i < |routes| && RouteOn(placa, year, month, day, routes[i]) &&
              (forall j :: 0 <= j < i ==> !RouteOn(placa, year, month, day, routes[j])) &&
              e.routeInfo == Some(SnapshotOf(routes[i]))
    ensures var e := DayEntry(placa, routes, month, year, day);
            e.status != Rodou ==>
              e == DayStatus(PseudoStatus(Seed(placa, day), IsWeekend(year, month, day)), None)
  {
    var dateStr := DateStr(year, month, day);
    i := FindAfterFilter(routes, SamePlateTest(placa), DatedOnTest(dateStr));
    assert forall k :: 0 <= k < |routes| ==>
      (SamePlateTest(placa)(routes[k]) && DatedOnTest(dateStr)(routes[k]) <==> RouteOn(placa, year, month, day, routes[k]));
  }

  /** Every day carries a `routeInfo` exactly when it is "rodou". */
  lemma RouteInfoIffRodou(placa: string, routes: seq<RouteRecord>, month: int, year: int)
    ensures forall k :: k in DailyStatusOf(placa, routes, month, year) ==>
              (DailyStatusOf(placa, routes, month, year)[k].routeInfo.Some? <==>
               DailyStatusOf(placa, routes, month, year)[k].status == Rodou)
  {
    var m := DailyStatusOf(placa, routes, month, year);
    JsDaysInMonthIsGregorian(year, month);
    forall k | k in m ensures m[k].routeInfo.Some? <==> m[k].status == Rodou {
      var day :| 1 <= day <= JsDaysInMonth(year, month) && k == Pad2(day);
      var _ := DayRodouIffRoute(placa, routes, month, year, day);
    }
  }

  /** Without routes no day is "rodou". */
  lemma NoRoutesNoRodou(placa: string, month: int, year: int)
    ensures forall k :: k in DailyStatusOf(placa, [], month, year) ==>
              DailyStatusOf(placa, [], month, year)[k].status != Rodou
  {
    var m := DailyStatusOf(placa, [], month, year);
    JsDaysInMonthIsGregorian(year, month);
    forall k | k in m ensures m[k].status != Rodou {
      var day :| 1 <= day <= JsDaysInMonth(year, month) && k == Pad2(day);
      var _ := DayRodouIffRoute(placa, [], month, year, day);
    }
  }
}
