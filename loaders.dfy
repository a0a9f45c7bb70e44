/** The two spreadsheet loaders of the data route, `ExcelReader.readVehiclesFile` and
    `ExcelReader.readRoutesFile` (app/api/vehicles/route.ts), from the rows the
    spreadsheet reader produced onward: each row is mapped field by field through the
    normalisers with its `||` default, and rows without a key are dropped. */
module Loaders {
  import opened Wrappers
  import opened JsText
  import opened Cells
  import opened Normalize
  import opened Fleet
  import opened Seqs

  /** A row as the reader builds it from a sheet: column header to cell value. Empty
      cells have no entry. */
  type Row = map<string, Value>

  /** `row[col]`: `undefined` when the row has no such column. */
  function Cell(row: Row, col: string): Value {
    if col in row then row[col] else Undefined
  }

  /** `normalizeString(row[col] || dflt)`. */
  function TextField(row: Row, col: string, dflt: string): string {
    NormalizeString(Or(Cell(row, col), Str(dflt)))
  }

  /** The fleet type a row without one gets. */
  const Propria: string := "Pr\U{F3}pria"

  /** The record one registry row is mapped to. */
  function VehicleOfRow(row: Row): VehicleRecord {
    VehicleRecord(
      TextField(row, "Placa", ""), TextField(row, "Modelo", ""),
      TextField(row, "Contrato Meli", ""), TextField(row, "Categoria", ""),
      TextField(row, "Base", ""), TextField(row, "Coordenador", ""),
      TextField(row, "Gerente", ""), TextField(row, "Tipo de Frota", Propria))
  }

  /** `v.placa && v.placa.trim() !== ''`. */
  predicate HasPlate(v: VehicleRecord) {
    v.placa != "" && Trim(v.placa) != ""
  }

  /** `readVehiclesFile`: `None` is a file that is missing or cannot be read, which
      gives no vehicles. The records kept are those with a plate, in row order. */
  function ReadVehiclesFile(sheet: Option<seq<Row>>): (r: seq<VehicleRecord>)
    ensures sheet.None? ==> r == []
    ensures forall v :: v in r ==> HasPlate(v)
    ensures sheet.Some? ==> IsSubsequence(r, Map(sheet.value, VehicleOfRow))
    ensures sheet.Some? ==> forall i :: 0 <= i < |sheet.value| && HasPlate(VehicleOfRow(sheet.value[i])) ==>
              VehicleOfRow(sheet.value[i]) in r
  {
    match sheet
    case None => []
    case Some(rows) => Filter(Map(rows, VehicleOfRow), HasPlate)
  }

  /** A registry row is kept exactly when its plate cell is truthy and is not a string
      of white space only. */
  lemma VehicleRowKept(row: Row)
    ensures HasPlate(VehicleOfRow(row)) <==>
              Truthy(Cell(row, "Placa")) && !(Cell(row, "Placa").Str? && AllSpace(Cell(row, "Placa").s))
  {
    var v := Cell(row, "Placa");
    NormalizeStringEmpty(Or(v, Str("")));
  }

  /** A falsy "Tipo de Frota" cell (missing, empty, 0 or false) gives "Própria". */
  lemma TipoFrotaDefault(row: Row)
    requires !Truthy(Cell(row, "Tipo de Frota"))
    ensures VehicleOfRow(row).tipoFrota == Propria
  {
    PropriaTrimmed();
    FalsyCellDefault(row, "Tipo de Frota", Propria);
  }

  /** A "Tipo de Frota" cell of white space only is truthy, so it does not take the
      default: it is kept and trims to "". */
  lemma TipoFrotaBlank(row: Row)
    requires Cell(row, "Tipo de Frota").Str? && Cell(row, "Tipo de Frota").s != ""
    requires AllSpace(Cell(row, "Tipo de Frota").s)
    ensures VehicleOfRow(row).tipoFrota == ""
  {
    SpaceCellEmpty(row, "Tipo de Frota", Propria);
  }

  lemma PropriaTrimmed()
    ensures Trim(Propria) == Propria
  {
    var c := Propria[|Propria| - 1];
    assert c == 'a';
    assert !IsSpace(Propria[0]) && !IsSpace(c);
    TrimNoSpaceEnds(Propria);
  }

  /** A falsy cell takes the default, which is already trimmed. */
  lemma FalsyCellDefault(row: Row, col: string, dflt: string)
    requires !Truthy(Cell(row, col)) && Trim(dflt) == dflt
    ensures TextField(row, col, dflt) == dflt
  {
    assert Or(Cell(row, col), Str(dflt)) == Str(dflt);
    NormalizeStr(dflt);
  }

  /** A non-empty cell of white space only is kept, and trims to "". */
  lemma SpaceCellEmpty(row: Row, col: string, dflt: string)
    requires Cell(row, col).Str? && Cell(row, col).s != "" && AllSpace(Cell(row, col).s)
    ensures TextField(row, col, dflt) == ""
  {
    var s := Cell(row, col).s;
    assert Or(Cell(row, col), Str(dflt)) == Str(s);
    NormalizeStr(s);
    TrimEmptyIffAllSpace(s);
  }

  /** The record one route row is mapped to; `None` when its date cell makes
      `normalizeDate` throw. */
  function RouteOfRow(row: Row, epochMs: int): Option<RouteRecord> {
    match NormalizeDate(Or(Cell(row, "Data Rota"), Str("")), epochMs)
    case None => None
    case Some(date) =>
      Some(RouteRecord(
        date, TextField(row, "Placa", ""), TextField(row, "ID Rota", ""),
        TextField(row, "Milha", ""), TextField(row, "Cluster", ""),
        TextField(row, "Motorista", ""), TextField(row, "Modal", ""),
        PerformanceOf(row),
        TextField(row, "KM Planejado", "")))
  }

  /** `rows.map(...)` for the route rows: `None` when any row throws. */
  function MapRoutes(rows: seq<Row>, epochMs: int): Option<seq<RouteRecord>> {
    MapAll(rows, row => RouteOfRow(row, epochMs))
  }

  /** `r.placa && r.dataRota`. */
  predicate HasPlateAndDate(r: RouteRecord) {
    r.placa != "" && r.dataRota != ""
  }

  /** `readRoutesFile`: a missing or unreadable file, or a row whose date throws, gives
      no routes; otherwise the records with a plate and a date, in row order. */
  function ReadRoutesFile(sheet: Option<seq<Row>>, epochMs: int): (r: seq<RouteRecord>)
    ensures sheet.None? ==> r == []
    ensures sheet.Some? && MapRoutes(sheet.value, epochMs).None? ==> r == []
    ensures forall x :: x in r ==> x.placa != "" && x.dataRota != ""
    ensures sheet.Some? && MapRoutes(sheet.value, epochMs).Some? ==>
              IsSubsequence(r, MapRoutes(sheet.value, epochMs).value) &&
              forall x :: x in MapRoutes(sheet.value, epochMs).value && HasPlateAndDate(x) ==> x in r
  {
    match sheet
    case None => []
    case Some(rows) =>
      match MapRoutes(rows, epochMs)
      case None => []
      case Some(rs) => Filter(rs, HasPlateAndDate)
  }

  /** A falsy "Data Rota" cell becomes "", so the row never reaches the route list. */
  lemma MissingDateDropped(row: Row, epochMs: int)
    requires !Truthy(Cell(row, "Data Rota"))
    ensures RouteOfRow(row, epochMs).Some? && !HasPlateAndDate(RouteOfRow(row, epochMs).value)
  {
  }

  /** A date cell holding text is taken as it is, without trimming. */
  lemma DateTextKept(row: Row, epochMs: int, s: string)
    requires Cell(row, "Data Rota") == Str(s) && s != ""
    ensures RouteOfRow(row, epochMs).Some? && RouteOfRow(row, epochMs).value.dataRota == s
  {
  }

  /** `normalizeNumber(row['Performance'] || 1)`. */
  function PerformanceOf(row: Row): JsNumber {
    NormalizeNumber(Or(Cell(row, "Performance"), Num(Decimal(1, 0))))
  }

  /** The performance of a route is never `NaN`: a falsy cell (missing, empty, 0 or
      false) gives 1 and a text that is not a number gives 0. */
  lemma PerformanceDefault(row: Row)
    ensures !PerformanceOf(row).NaN?
    ensures !Truthy(Cell(row, "Performance")) ==> PerformanceOf(row) == Finite(Sci(1, 0))
    ensures (Cell(row, "Performance").Str? && Cell(row, "Performance").s != "" &&
             StringToNumber(Cell(row, "Performance").s).NaN?) ==> PerformanceOf(row) == Finite(Sci(0, 0))
  {
    var v := Cell(row, "Performance");
    if !Truthy(v) {
      assert Or(v, Num(Decimal(1, 0))) == Num(Decimal(1, 0));
    } else if v.Str? {
      assert Or(v, Num(Decimal(1, 0))) == v;
    }
  }

  /** A recorded performance of zero, or a `false` cell, is reported as 1 (100%):
      `|| 1` replaces every falsy value, not only a missing one. */
  lemma PerformanceZeroIsOne(row: Row, scale: nat)
    requires Cell(row, "Performance") == Num(Decimal(0, scale)) || Cell(row, "Performance") == Bool(false)
    ensures PerformanceOf(row) == Finite(Sci(1, 0))
  {
    PerformanceDefault(row);
  }
}
