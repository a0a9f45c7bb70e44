/** The records the dashboard passes between the data route, the page and the
    components: registry and route rows after loading, the per-day status, the
    unified vehicle, and the page's filter values. */
module Fleet {
  import opened Wrappers
  import opened Cells

  /** One row of the vehicle registry after loading. */
  datatype VehicleRecord = VehicleRecord(
    placa: string, modelo: string, contratoMeli: string, categoria: string,
    base: string, coordenador: string, gerente: string, tipoFrota: string)

  /** One row of the route log after loading. */
  datatype RouteRecord = RouteRecord(
    dataRota: string, placa: string, idRota: string, milha: string, cluster: string,
    motorista: string, placaModal: string, performance: JsNumber, kmPlanejado: string)

  /** The day statuses: "rodou", "folga", "manutencao", "falta", "sem-rota". */
  datatype Status = Rodou | Folga | Manutencao | Falta | SemRota

  /** The `routeInfo` object attached to a day that ran. */
  datatype RouteInfo =
    /** Copied from the matching route record. */
    | Snapshot(idRota: string, milha: string, cluster: string, motorista: string,
               placaModal: string, performance: JsNumber, dataRota: string, kmPlanejado: string)
    /** Built by the server's fallback data; its floating-point fields are not modelled. */
    | FallbackInfo(idRota: string)
    /** Built by the page's mock data: the six generator states the fields are drawn
        from, in draw order, and the route date. */
    | MockInfo(draws: seq<int>, dataRota: string)

  datatype DayStatus = DayStatus(status: Status, routeInfo: Option<RouteInfo>)

  /** A vehicle's `dailyStatus` record, keyed by two-digit day strings. */
  type DailyStatus = map<string, DayStatus>

  datatype Vehicle = Vehicle(
    id: int, placa: string, modelo: string, contratoMeli: string, categoria: string,
    base: string, coordenador: string, gerente: string, tipoFrota: string,
    dailyStatus: DailyStatus)

  /** The page's filter values; "all" (or "") means "no restriction", and the plate
      filter uses "" for that. */
  datatype Filters = Filters(
    coordenador: string, gerente: string, placa: string, contratoMeli: string,
    categoria: string, base: string, tipoFrota: string)

  /** The filter values the page starts with and that "clear filters" restores. */
  function DefaultFilters(): Filters {
    Filters("all", "all", "", "all", "all", "all", "all")
  }
}
