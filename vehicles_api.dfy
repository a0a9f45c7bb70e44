/** The rest of the data route (app/api/vehicles/route.ts): `processExcelData`, which
    joins the loaded registry with the route log; the built-in demonstration fleet with
    its 31-day `generateFallbackStatus`; and `GET`, which reads `month` and `year` from
    the query and answers with the spreadsheet data or, when there is none, the
    demonstration fleet. */
module VehiclesApi {
  import opened Wrappers
  import opened JsText
  import opened Cells
  import opened Lcg
  import opened Fleet
  import opened DayMaps
  import opened Loaders
  import opened DailyStatus

  /** The vehicle assembled from a registry record and its day statuses. */
  function VehicleOf(id: int, v: VehicleRecord, dailyStatus: Fleet.DailyStatus): (r: Vehicle)
    ensures r.id == id && SameRecord(r, v) && r.dailyStatus == dailyStatus
  {
    Vehicle(id, v.placa, v.modelo, v.contratoMeli, v.categoria, v.base, v.coordenador,
            v.gerente, v.tipoFrota, dailyStatus)
  }

  /** The vehicle carries the registry fields of the record unchanged. */
  predicate SameRecord(v: Vehicle, rec: VehicleRecord) {
    v.placa == rec.placa && v.modelo == rec.modelo && v.contratoMeli == rec.contratoMeli &&
    v.categoria == rec.categoria && v.base == rec.base && v.coordenador == rec.coordenador &&
    v.gerente == rec.gerente && v.tipoFrota == rec.tipoFrota
  }

  /** The day statuses `generateDailyStatusFromRoutes` gives each plate for the month. */
  function StatusesOf(routes: seq<RouteRecord>, month: int, year: int): string -> Fleet.DailyStatus {
    placa => DailyStatusOf(placa, routes, month, year)
  }

  /** `vehiclesData.map((vehicle, index) => ...)`: one vehicle per registry record, in
      order, numbered from 1, with the registry fields copied and the day statuses
      `statusOf` gives its plate. */
  function Assemble(vehicles: seq<VehicleRecord>, statusOf: string -> Fleet.DailyStatus): (r: seq<Vehicle>)
    ensures |r| == |vehicles|
    ensures forall i :: 0 <= i < |r| ==> r[i].id == i + 1
    ensures forall i :: 0 <= i < |r| ==> SameRecord(r[i], vehicles[i])
    ensures forall i :: 0 <= i < |r| ==> r[i].dailyStatus == statusOf(vehicles[i].placa)
  {
    var r := seq(|vehicles|, i requires 0 <= i < |vehicles| => VehicleOf(i + 1, vehicles[i], statusOf(vehicles[i].placa)));
    assert forall i :: 0 <= i < |r| ==> r[i] == VehicleOf(i + 1, vehicles[i], statusOf(vehicles[i].placa));
    r
  }

  /** `processExcelData(month, year)` over the two sheets (`None`: file missing or
      unreadable); `epochMs` is the local time value of 1900-01-01 the date cells are
      read against. */
  function ProcessExcelData(vehiclesSheet: Option<seq<Row>>, routesSheet: Option<seq<Row>>,
                            epochMs: int, month: int, year: int): (r: seq<Vehicle>)
    ensures |r| == |ReadVehiclesFile(vehiclesSheet)|
    ensures forall i :: 0 <= i < |r| ==> r[i].id == i + 1
  {
    Assemble(ReadVehiclesFile(vehiclesSheet), StatusesOf(ReadRoutesFile(routesSheet, epochMs), month, year))
  }

  /** Every vehicle the route serves from the spreadsheets has a plate, and the ids are
      1 .. n in order. */
  lemma ProcessedVehicles(vehiclesSheet: Option<seq<Row>>, routesSheet: Option<seq<Row>>,
                          epochMs: int, month: int, year: int)
    ensures var r := ProcessExcelData(vehiclesSheet, routesSheet, epochMs, month, year);
            |r| == |ReadVehiclesFile(vehiclesSheet)| &&
            forall i :: 0 <= i < |r| ==>
              (r[i].id == i + 1 && r[i].placa != "" && Trim(r[i].placa) != "" &&
               r[i].dailyStatus == DailyStatusOf(r[i].placa, ReadRoutesFile(routesSheet, epochMs), month, year))
  {
    AssembledRecords(ReadVehiclesFile(vehiclesSheet), ReadRoutesFile(routesSheet, epochMs), month, year);
  }

  /** Assembling records that all have a plate gives vehicles that all have a plate. */
  lemma AssembledRecords(vs: seq<VehicleRecord>, routes: seq<RouteRecord>, month: int, year: int)
    requires forall v :: v in vs ==> HasPlate(v)
    ensures var r := Assemble(vs, StatusesOf(routes, month, year));
            |r| == |vs| &&
            forall i :: 0 <= i < |r| ==>
              (r[i].id == i + 1 && r[i].placa != "" && Trim(r[i].placa) != "" &&
               r[i].dailyStatus == DailyStatusOf(r[i].placa, routes, month, year))
  {
    var r := Assemble(vs, StatusesOf(routes, month, year));
    forall i | 0 <= i < |r|
      ensures r[i].id == i + 1 && r[i].placa != "" && Trim(r[i].placa) != "" &&
              r[i].dailyStatus == DailyStatusOf(r[i].placa, routes, month, year)
    {
      assert vs[i] in vs;
    }
  }

  /** The fallback route id `R` followed by `id * 13 + day` padded to three digits. */
  function FallbackRouteId(vehicleId: int, day: int): string {
    "R" + PadStart(IntToString(vehicleId * 13 + day), 3, '0')
  }

  /** The status ladder of the fallback data over `random = Step(seed) / 233280`. */
  function FallbackStatus(seed: int): (st: Status)
    ensures var random := (Step(seed) as real) / 233280.0;
            (st == Rodou <==> random < 0.55) &&
            (st == Folga <==> 0.55 <= random < 0.65) &&
            (st == Manutencao <==> 0.65 <= random < 0.75) &&
            (st == Falta <==> 0.75 <= random < 0.85) &&
            (st == SemRota <==> 0.85 <= random)
  {
    var v := Step(seed);
    ThresholdsExact(v);
    if v < Below055 then Rodou
    else if v < Below065 then Folga
    else if v < Below075 then Manutencao
    else if v < Below085 then Falta
    else SemRota
  }

  /** The fallback entry of one day; only `idRota` of its route information is kept. */
  function FallbackEntry(vehicleId: int, day: int): DayStatus {
    var status := FallbackStatus(vehicleId * 100 + day);
    DayStatus(status, if status == Rodou then Some(FallbackInfo(FallbackRouteId(vehicleId, day))) else None)
  }

  function FallbackEntryOf(vehicleId: int): int -> DayStatus {
    day => FallbackEntry(vehicleId, day)
  }

  /** `generateFallbackStatus(vehicleId)` as a value: 31 days, whatever the month. */
  function FallbackStatusOf(vehicleId: int): (m: Fleet.DailyStatus)
    ensures m.Keys == DayKeys(31)
  {
    DayMap(31, FallbackEntryOf(vehicleId))
  }

  /** The loop of `generateFallbackStatus`. */
  method GenerateFallbackStatus(vehicleId: int) returns (dailyStatus: Fleet.DailyStatus)
    ensures dailyStatus == FallbackStatusOf(vehicleId)
  {
    dailyStatus := map[];
    var day := 1;
    while day <= 31
      invariant 1 <= day <= 32
      invariant dailyStatus == DayMap(day - 1, FallbackEntryOf(vehicleId))
    {
      var e := FallbackDay(vehicleId, day);
      DayMapNext(day, FallbackEntryOf(vehicleId));
      dailyStatus := dailyStatus[Pad2(day) := e];
      day := day + 1;
    }
    assert day - 1 == 31;
  }

  /** The body of the loop for one day. */
  method FallbackDay(vehicleId: int, day: int) returns (e: DayStatus)
    ensures e == FallbackEntry(vehicleId, day)
  {
    var v := Step(vehicleId * 100 + day);
    var status := SemRota;
    if v < Below055 {
      status := Rodou;
    } else if v < Below065 {
      status := Folga;
    } else if v < Below075 {
      status := Manutencao;
    } else if v < Below085 {
      status := Falta;
    }
    if status == Rodou {
      e := DayStatus(status, Some(FallbackInfo(FallbackRouteId(vehicleId, day))));
    } else {
      e := DayStatus(status, None);
    }
  }

  /** The fallback record has the keys "01" .. "31", and a day has route information
      exactly when it is "rodou". */
  lemma FallbackStatusShape(vehicleId: int)
    ensures FallbackStatusOf(vehicleId).Keys == DayKeys(31)
    ensures forall day :: 1 <= day <= 31 ==>
              (FallbackStatusOf(vehicleId)[Pad2(day)].routeInfo.Some? <==>
               FallbackStatusOf(vehicleId)[Pad2(day)].status == Rodou)
  {
  }

  /** For ids and days whose number fits three digits, the route id is `R` and three
      digits that read back as `id * 13 + day`. */
  lemma FallbackRouteIdDigits(vehicleId: int, day: int)
    requires 0 <= vehicleId * 13 + day < 1000
    ensures var s := FallbackRouteId(vehicleId, day);
            |s| == 4 && s[0] == 'R' && ParseInt(s[1..], false) == Some(vehicleId * 13 + day)
  {
    var n := vehicleId * 13 + day;
    var digits := PadStart(NatToString(n), 3, '0');
    PaddedDigits(n, 3);
    assert FallbackRouteId(vehicleId, day)[1..] == digits;
    ParseUnsignedDigits(digits, false);
    ParseIntPlain(digits, false);
  }

  /** The two vehicles of the demonstration fleet. */
  function FallbackVehicles(): (r: seq<Vehicle>)
    ensures |r| == 2 && r[0].id == 1 && r[1].id == 2
    ensures r[0].dailyStatus == FallbackStatusOf(1) && r[1].dailyStatus == FallbackStatusOf(2)
  {
    [ Vehicle(1, "ABC-1234", "Mercedes Sprinter 415", "CT-001-MELI", "Van", "Base Central SP",
              "Jo\U{E3}o Silva", "Ana Paula Rodrigues", Propria, FallbackStatusOf(1)),
      Vehicle(2, "DEF-5678", "Volkswagen Crafter", "CT-002-MELI", "Caminh\U{E3}o", "Base Norte RJ",
              "Maria Oliveira", "Roberto Mendes", "Terceirizada", FallbackStatusOf(2)) ]
  }

  /** The query of the request: `None` when its URL cannot be parsed. */
  datatype Query = Query(month: Option<string>, year: Option<string>)

  datatype Source = Excel | Fallback

  /** The JSON body of the response (always with status 200). */
  datatype Response = Response(success: bool, data: seq<Vehicle>, source: Source, message: string)

  /** `parseInt(param, 10)`, with `dflt` when the parameter is absent or not a number. */
  function ParamOr(param: Option<string>, dflt: int): int {
    match param
    case None => dflt
    case Some(s) =>
      match ParseInt(s, false)
      case None => dflt
      case Some(n) => n
  }

  /** The month (0-based) and year `GET` settles on: July 2025 unless the query says
      otherwise. */
  function SelectedMonth(query: Option<Query>): int {
    if query.None? then 6 else ParamOr(query.value.month, 6)
  }

  function SelectedYear(query: Option<Query>): int {
    if query.None? then 2025 else ParamOr(query.value.year, 2025)
  }

  const FallbackMessage: string := "Usando dados de demonstra\U{E7}\U{E3}o (Excel n\U{E3}o encontrado)"

  /** `${n} veículos carregados do Excel para ${month + 1}/${year}`. */
  function ExcelMessage(n: int, month: int, year: int): string {
    IntToString(n) + (" ve\U{ED}culos carregados do Excel para " + IntToString(month + 1) + "/" + IntToString(year))
  }

  /** The count message begins with the count: `parseInt` reads it back. */
  lemma ExcelMessageCount(n: int, month: int, year: int)
    ensures ParseInt(ExcelMessage(n, month, year), false) == Some(n)
  {
    var rest := " ve\U{ED}culos carregados do Excel para " + IntToString(month + 1) + "/" + IntToString(year);
    ParseIntToStringFollowed(n, rest);
  }

  /** `GET /api/vehicles`. */
  method Get(query: Option<Query>, vehiclesSheet: Option<seq<Row>>, routesSheet: Option<seq<Row>>, epochMs: int)
    returns (resp: Response)
    ensures resp.success
    ensures var excel := ProcessExcelData(vehiclesSheet, routesSheet, epochMs, SelectedMonth(query), SelectedYear(query));
            (resp.source == Excel <==> |excel| > 0) &&
            (|excel| > 0 ==>
               (resp.data == excel &&
                resp.message == ExcelMessage(|excel|, SelectedMonth(query), SelectedYear(query)))) &&
            (|excel| == 0 ==> (resp.data == FallbackVehicles() && resp.message == FallbackMessage))
  {
    var month := 6;
    var year := 2025;
    if query.Some? {
      month := ReadParam(query.value.month, 6);
      year := ReadParam(query.value.year, 2025);
    }
    assert month == SelectedMonth(query) && year == SelectedYear(query);
    var excelData := ProcessExcelData(vehiclesSheet, routesSheet, epochMs, month, year);
    resp := Respond(excelData, month, year);
  }

  /** The response of `GET`: the spreadsheet vehicles when there are any, otherwise the
      fallback list. */
  method Respond(excelData: seq<Vehicle>, month: int, year: int) returns (resp: Response)
    ensures resp.success
    ensures resp.source == Excel <==> |excelData| > 0
    ensures |excelData| > 0 ==> resp.data == excelData && resp.message == ExcelMessage(|excelData|, month, year)
    ensures |excelData| == 0 ==> resp.data == FallbackVehicles() && resp.message == FallbackMessage
  {
    if |excelData| > 0 {
      resp := Response(true, excelData, Excel, ExcelMessage(|excelData|, month, year));
    } else {
      resp := Response(true, FallbackVehicles(), Fallback, FallbackMessage);
    }
  }

  /** `parseInt(param, 10)` falling back to `dflt` when the result is `NaN`. */
  method ReadParam(param: Option<string>, dflt: int) returns (n: int)
    ensures n == ParamOr(param, dflt)
  {
    n := dflt;
    if param.Some? {
      var parsed := ParseInt(param.value, false);
      if parsed.Some? {
        n := parsed.value;
      }
    }
  }

  /** A month or year written as a number is read back as that number; a missing or
      non-numeric parameter gives the default. */
  lemma ParamRoundTrip(n: int, dflt: int)
    ensures ParamOr(Some(IntToString(n)), dflt) == n
    ensures ParamOr(None, dflt) == dflt
  {
    ParseIntToString(n, false);
  }
}
