/** The dashboard page (app/page.tsx): the client-side demonstration data with its
    seeded generator, the filtered vehicle list, the pagination arithmetic, the option
    lists of the filter panel, and the page state with its handlers. */
module Dashboard {
  import opened Wrappers
  import opened JsText
  import opened Lcg
  import opened Fleet
  import opened Seqs
  import opened DayMaps
  import opened StringOrder
  import opened VehiclesApi
  import PaginationControls

  // ---------------------------------------------------------------- mock data

  /** `seedValue / 233280`, the value `seededRandom` returns. */
  function Random(v: int): real {
    (v as real) / 233280.0
  }

  /** The closure `seededRandom` over its captured `seedValue`. */
  class SeededRandom {
    var seedValue: int

    constructor(seed: int)
      ensures seedValue == seed
    {
      seedValue := seed;
    }

    /** One call: advance the state and return it scaled to [0, 1). */
    method Next() returns (random: real)
      modifies this
      ensures seedValue == Step(old(seedValue)) && random == Random(seedValue)
      ensures old(seedValue) >= 0 ==> 0.0 <= random < 1.0
    {
      seedValue := JsRem(seedValue * 9301 + 49297);
      random := (seedValue as real) / 233280.0;
    }
  }

  /** A day's entry and the generator state it leaves. */
  datatype MockDraw = MockDraw(entry: DayStatus, next: int)

  /** The statuses of a day that did not run, by `random`. */
  function MockLadder(random: real): Status {
    if random < 0.85 then Manutencao
    else if random < 0.90 then Folga
    else if random < 0.95 then Falta
    else SemRota
  }

  /** The six states drawn for the route fields of a day that ran, in the order the
      object literal draws them (idRota, milha, cluster, motorista, placaModal,
      performance). */
  function RouteDraws(v: int): (r: seq<int>)
    ensures |r| == 6 && forall i :: 0 <= i < 6 ==> r[i] == Iterate(v, i + 1)
  {
    [Iterate(v, 1), Iterate(v, 2), Iterate(v, 3), Iterate(v, 4), Iterate(v, 5), Iterate(v, 6)]
  }

  /** The fixed July 2025 date the mock route carries. */
  function MockRouteDate(day: int): string {
    "2025-07-" + Pad2(day)
  }

  /** One day of `generateMockDailyStatus` from generator state `s`. */
  function MockDay(s: int, day: int): MockDraw {
    var v := Step(s);
    if Random(v) < 0.75 then
      MockDraw(DayStatus(Rodou, Some(MockInfo(RouteDraws(v), MockRouteDate(day)))), Iterate(v, 6))
    else
      MockDraw(DayStatus(MockLadder(Random(v)), None), v)
  }

  /** The generator state before day `day` of the vehicle's mock month. */
  function StateBefore(vehicleId: int, day: int): int
    decreases day
  {
    if day <= 1 then vehicleId * 12345 else MockDay(StateBefore(vehicleId, day - 1), day - 1).next
  }

  /** The entry of day `day` of the vehicle's mock month. */
  function MockEntry(vehicleId: int, day: int): DayStatus {
    MockDay(StateBefore(vehicleId, day), day).entry
  }

  function MockEntryOf(vehicleId: int): int -> DayStatus {
    day => MockEntry(vehicleId, day)
  }

  /** `generateMockDailyStatus(vehicleId)` as a value. */
  function MockDailyStatusOf(vehicleId: int): (m: Fleet.DailyStatus)
    ensures m.Keys == DayKeys(31)
  {
    DayMap(31, MockEntryOf(vehicleId))
  }

  /** `generateMockDailyStatus(vehicleId)`: 31 days drawn from one generator. */
  method GenerateMockDailyStatus(vehicleId: int) returns (dailyStatus: Fleet.DailyStatus)
    ensures dailyStatus == MockDailyStatusOf(vehicleId)
  {
    var rng := new SeededRandom(vehicleId * 12345);
    dailyStatus := FillMockDays(rng, vehicleId);
  }

  /** The `for (let day = 1; day <= 31; day++)` loop over the generator. */
  method FillMockDays(rng: SeededRandom, vehicleId: int) returns (dailyStatus: Fleet.DailyStatus)
    requires rng.seedValue == StateBefore(vehicleId, 1)
    modifies rng
    ensures dailyStatus == DayMap(31, MockEntryOf(vehicleId))
  {
    dailyStatus := map[];
    var day := 1;
    while day <= 31
      invariant 1 <= day <= 32
      invariant rng.seedValue == StateBefore(vehicleId, day)
      invariant dailyStatus == DayMap(day - 1, MockEntryOf(vehicleId))
    {
      var e := MockDayEntry(rng, vehicleId, day);
      DayMapNext(day, MockEntryOf(vehicleId));
      dailyStatus := dailyStatus[Pad2(day) := e];
      day := day + 1;
    }
    assert day - 1 == 31;
  }

  /** One pass of the loop: the entry of day `day`, leaving the generator at the state
      before the next day. */
  method MockDayEntry(rng: SeededRandom, vehicleId: int, day: int) returns (e: DayStatus)
    requires day >= 1 && rng.seedValue == StateBefore(vehicleId, day)
    modifies rng
    ensures e == MockEntry(vehicleId, day) && rng.seedValue == StateBefore(vehicleId, day + 1)
  {
    e := MockDayStep(rng, day);
    StateBeforeNext(vehicleId, day);
  }

  lemma StateBeforeNext(vehicleId: int, day: int)
    requires day >= 1
    ensures StateBefore(vehicleId, day + 1) == MockDay(StateBefore(vehicleId, day), day).next
  {
  }

  /** The body of the loop for one day. */
  method MockDayStep(rng: SeededRandom, day: int) returns (e: DayStatus)
    modifies rng
    ensures MockDay(old(rng.seedValue), day) == MockDraw(e, rng.seedValue)
  {
    var random := rng.Next();
    if random < 0.75 {
      var draws := RouteFieldDraws(rng);
      e := DayStatus(Rodou, Some(MockInfo(draws, "2025-07-" + Pad2(day))));
    } else if random < 0.85 {
      e := DayStatus(Manutencao, None);
    } else if random < 0.90 {
      e := DayStatus(Folga, None);
    } else if random < 0.95 {
      e := DayStatus(Falta, None);
    } else {
      e := DayStatus(SemRota, None);
    }
  }

  /** The six `seededRandom()` calls of the route object, recording each state. */
  method RouteFieldDraws(rng: SeededRandom) returns (draws: seq<int>)
    modifies rng
    ensures draws == RouteDraws(old(rng.seedValue)) && rng.seedValue == Iterate(old(rng.seedValue), 6)
  {
    ghost var v := rng.seedValue;
    draws := [];
    var k := 0;
    while k < 6
      invariant 0 <= k <= 6
      invariant rng.seedValue == Iterate(v, k)
      invariant draws == RouteDraws(v)[..k]
    {
      var _ := rng.Next();
      draws := draws + [rng.seedValue];
      k := k + 1;
    }
  }

  /** The mock record has the keys "01" .. "31" and a day carries route information
      exactly when it ran. */
  lemma MockShape(vehicleId: int)
    ensures MockDailyStatusOf(vehicleId).Keys == DayKeys(31)
    ensures forall day :: 1 <= day <= 31 ==>
              (MockDailyStatusOf(vehicleId)[Pad2(day)].routeInfo.Some? <==>
               MockDailyStatusOf(vehicleId)[Pad2(day)].status == Rodou)
  {
    var m := MockDailyStatusOf(vehicleId);
    forall day | 1 <= day <= 31
      ensures m[Pad2(day)].routeInfo.Some? <==> m[Pad2(day)].status == Rodou
    {
      DayMapAt(31, MockEntryOf(vehicleId), day);
      MockDayShape(StateBefore(vehicleId, day), day);
    }
  }

  /** A single mock day carries route information exactly when it ran. */
  lemma MockDayShape(s: int, day: int)
    ensures MockDay(s, day).entry.routeInfo.Some? <==> MockDay(s, day).entry.status == Rodou
  {
    var v := Step(s);
    if Random(v) >= 0.75 {
      assert MockLadder(Random(v)) != Rodou;
    }
  }

  /** The day's status follows the 0.75 / 0.85 / 0.90 / 0.95 ladder on the first draw of
      the day. */
  lemma MockStatusLadder(vehicleId: int, day: int)
    requires 1 <= day <= 31
    ensures var random := Random(Step(StateBefore(vehicleId, day)));
            var st := MockDailyStatusOf(vehicleId)[Pad2(day)].status;
            (st == Rodou <==> random < 0.75) &&
            (st == Manutencao <==> 0.75 <= random < 0.85) &&
            (st == Folga <==> 0.85 <= random < 0.90) &&
            (st == Falta <==> 0.90 <= random < 0.95) &&
            (st == SemRota <==> 0.95 <= random)
  {
    DayMapAt(31, MockEntryOf(vehicleId), day);
    MockDayLadder(StateBefore(vehicleId, day), day);
  }

  lemma MockDayLadder(s: int, day: int)
    ensures var random := Random(Step(s));
            var st := MockDay(s, day).entry.status;
            (st == Rodou <==> random < 0.75) &&
            (st == Manutencao <==> 0.75 <= random < 0.85) &&
            (st == Folga <==> 0.85 <= random < 0.90) &&
            (st == Falta <==> 0.90 <= random < 0.95) &&
            (st == SemRota <==> 0.95 <= random)
  {
  }

  /** A day that ran advances the generator seven times, any other day once. */
  lemma MockStateAdvance(vehicleId: int, day: int)
    requires day >= 1
    ensures var s := StateBefore(vehicleId, day);
            var ran := MockDay(s, day).entry.status == Rodou;
            StateBefore(vehicleId, day + 1) == Iterate(s, if ran then 7 else 1)
  {
    var s := StateBefore(vehicleId, day);
    IterateShift(s, 6);
  }

  /** For a non-negative vehicle id every state the generator reaches after its first
      call is in [0, 233280), so every draw lies in [0, 1). */
  lemma {:induction false} MockStatesInRange(vehicleId: int, day: int)
    requires vehicleId >= 0 && day >= 1
    ensures 0 <= StateBefore(vehicleId, day)
    ensures day >= 2 ==> StateBefore(vehicleId, day) < Modulus
    ensures var v := Step(StateBefore(vehicleId, day));
            0.0 <= Random(v) < 1.0 &&
            forall i :: 0 <= i < 6 ==> 0 <= RouteDraws(v)[i] < Modulus
    decreases day
  {
    if day > 1 {
      MockStatesInRange(vehicleId, day - 1);
      var v := Step(StateBefore(vehicleId, day - 1));
      IterateRange(v, 6);
    }
    var v := Step(StateBefore(vehicleId, day));
    forall i | 0 <= i < 6 ensures 0 <= RouteDraws(v)[i] < Modulus {
      IterateRange(v, i + 1);
    }
  }

  /** The registry fields of the page's six demonstration vehicles. */
  function MockRecords(): (r: seq<VehicleRecord>)
    ensures |r| == 6
  {
    [ VehicleRecord("ABC-1234", "Mercedes Sprinter 415", "CT-001-MELI", "Van", "Base Central SP",
                    "Jo\U{E3}o Silva", "Ana Paula Rodrigues", "Pr\U{F3}pria"),
      VehicleRecord("DEF-5678", "Volkswagen Crafter", "CT-002-MELI", "Caminh\U{E3}o", "Base Norte RJ",
                    "Maria Oliveira", "Roberto Mendes", "Terceirizada"),
      VehicleRecord("GHI-9012", "Iveco Daily 35S14", "CT-003-MELI", "Van", "Base Sul RS",
                    "Jo\U{E3}o Silva", "Ana Paula Rodrigues", "Pr\U{F3}pria"),
      VehicleRecord("JKL-3456", "Mercedes Benz Atego", "CT-004-MELI", "Caminh\U{E3}o", "Base Leste MG",
                    "Roberto Lima", "Carlos Alberto Silva", "Pr\U{F3}pria"),
      VehicleRecord("MNO-7890", "Volvo VM 270", "CT-005-MELI", "Caminh\U{E3}o", "Base Oeste PR",
                    "Maria Oliveira", "Roberto Mendes", "Terceirizada"),
      VehicleRecord("PQR-8901", "Fiat Ducato", "CT-006-MELI", "Van", "Base Central SP",
                    "Fernando Santos", "Ana Paula Rodrigues", "Pr\U{F3}pria") ]
  }

  /** `mockVehicles`: the six demonstration vehicles, numbered 1 .. 6, each with the mock
      record of its own id. */
  function MockVehicles(): (r: seq<Vehicle>)
    ensures |r| == 6
    ensures forall i :: 0 <= i < 6 ==>
              r[i].id == i + 1 && SameRecord(r[i], MockRecords()[i]) && r[i].dailyStatus == MockDailyStatusOf(i + 1)
  {
    NumberedVehicles(MockRecords(), MockStatusesById())
  }

  function MockStatusesById(): int -> Fleet.DailyStatus {
    id => MockDailyStatusOf(id)
  }

  /** Vehicles numbered 1, 2, .. in the order of their registry records, vehicle `id`
      carrying the day statuses `statusOf(id)`. */
  function NumberedVehicles(records: seq<VehicleRecord>, statusOf: int -> Fleet.DailyStatus): (r: seq<Vehicle>)
    ensures |r| == |records|
    ensures forall i :: 0 <= i < |r| ==>
              r[i].id == i + 1 && SameRecord(r[i], records[i]) && r[i].dailyStatus == statusOf(i + 1)
  {
    seq(|records|, i requires 0 <= i < |records| => VehicleOf(i + 1, records[i], statusOf(i + 1)))
  }

  // ---------------------------------------------------------------- filtering

  /** An equality filter: empty or "all" lets everything through. */
  predicate FieldMatches(filter: string, value: string) {
    filter == "" || filter == "all" || value == filter
  }

  /** The plate filter: a case-insensitive substring test; empty lets everything through. */
  predicate PlateMatches(filter: string, placa: string) {
    filter == "" || Includes(ToLower(placa), ToLower(filter))
  }

  /** The test `filteredVehicles` applies to one vehicle. */
  predicate Matches(f: Filters, v: Vehicle) {
    FieldMatches(f.coordenador, v.coordenador) &&
    FieldMatches(f.gerente, v.gerente) &&
    PlateMatches(f.placa, v.placa) &&
    FieldMatches(f.contratoMeli, v.contratoMeli) &&
    FieldMatches(f.categoria, v.categoria) &&
    FieldMatches(f.base, v.base) &&
    FieldMatches(f.tipoFrota, v.tipoFrota)
  }

  function MatchesTest(f: Filters): Vehicle -> bool {
    v => Matches(f, v)
  }

  /** `filteredVehicles`: the vehicles that pass every filter, in their order. */
  function FilteredVehicles(vehicles: seq<Vehicle>, f: Filters): (r: seq<Vehicle>)
    ensures IsSubsequence(r, vehicles)
    ensures forall v :: v in r <==> v in vehicles && Matches(f, v)
  {
    Filter(vehicles, MatchesTest(f))
  }

  /** No filter restricts anything: the plate is empty and the others are "all" or "". */
  predicate Unrestricted(f: Filters) {
    f.placa == "" &&
    (f.coordenador == "" || f.coordenador == "all") && (f.gerente == "" || f.gerente == "all") &&
    (f.contratoMeli == "" || f.contratoMeli == "all") && (f.categoria == "" || f.categoria == "all") &&
    (f.base == "" || f.base == "all") && (f.tipoFrota == "" || f.tipoFrota == "all")
  }

  /** With no filter set the list is the whole fleet, as the page starts. */
  lemma UnrestrictedKeepsAll(vehicles: seq<Vehicle>, f: Filters)
    requires Unrestricted(f)
    ensures FilteredVehicles(vehicles, f) == vehicles
  {
    assert forall v :: v in vehicles ==> MatchesTest(f)(v);
  }

  /** Every vehicle kept carries the selected value of each active equality filter and
      contains the plate text, ignoring case. */
  lemma KeptSatisfyFilters(vehicles: seq<Vehicle>, f: Filters, v: Vehicle)
    requires v in FilteredVehicles(vehicles, f)
    ensures f.coordenador != "" && f.coordenador != "all" ==> v.coordenador == f.coordenador
    ensures f.gerente != "" && f.gerente != "all" ==> v.gerente == f.gerente
    ensures f.contratoMeli != "" && f.contratoMeli != "all" ==> v.contratoMeli == f.contratoMeli
    ensures f.categoria != "" && f.categoria != "all" ==> v.categoria == f.categoria
    ensures f.base != "" && f.base != "all" ==> v.base == f.base
    ensures f.tipoFrota != "" && f.tipoFrota != "all" ==> v.tipoFrota == f.tipoFrota
    ensures f.placa != "" ==> Includes(ToLower(v.placa), ToLower(f.placa))
  {
  }

  // ---------------------------------------------------------------- pagination

  /** `Math.ceil(n / d)` for a positive page size. */
  function CeilDiv(n: nat, d: int): (q: nat)
    requires d >= 1
    ensures q * d >= n
    ensures q == 0 || (q - 1) * d < n
    ensures q == 0 <==> n == 0
  {
    var q := (n + d - 1) / d;
    assert q * d <= n + d - 1 < q * d + d;
    assert (q - 1) * d == q * d - d;
    q
  }

  /** The object `paginationData` computes. */
  datatype PaginationData = PaginationData(
    totalItems: int, totalPages: int, currentPage: int, itemsPerPage: int,
    startIndex: int, endIndex: int, currentItems: seq<Vehicle>,
    hasNextPage: bool, hasPrevPage: bool)

  /** `filteredVehicles.slice(start, end)` for `0 <= start <= end`: both ends clamped to
      the length. */
  function Slice(s: seq<Vehicle>, start: int, end: int): (r: seq<Vehicle>)
    requires 0 <= start <= end
    ensures |r| <= end - start
    ensures start < |s| ==> r == s[start..if end <= |s| then end else |s|]
    ensures start >= |s| ==> r == []
  {
    var n := |s|;
    var lo := if start <= n then start else n;
    var hi := if end <= n then end else n;
    s[lo..hi]
  }

  /** `paginationData` for the current page and page size. */
  function PaginationOf(filtered: seq<Vehicle>, currentPage: int, itemsPerPage: int): (r: PaginationData)
    requires currentPage >= 1 && itemsPerPage >= 1
    ensures r.totalItems == |filtered| && r.totalPages == CeilDiv(|filtered|, itemsPerPage)
    ensures |r.currentItems| <= itemsPerPage
    ensures r.hasNextPage <==> currentPage < r.totalPages
    ensures r.hasPrevPage <==> currentPage > 1
  {
    var totalItems := |filtered|;
    var totalPages := CeilDiv(totalItems, itemsPerPage);
    var startIndex := (currentPage - 1) * itemsPerPage;
    var endIndex := startIndex + itemsPerPage;
    PaginationData(totalItems, totalPages, currentPage, itemsPerPage, startIndex, endIndex,
                   Slice(filtered, startIndex, endIndex), currentPage < totalPages, currentPage > 1)
  }

  /** `a <= b` scales by a non-negative factor. */
  lemma MulMono(a: int, b: int, c: int)
    requires a <= b && c >= 0
    ensures a * c <= b * c
  {
    assert b * c - a * c == (b - a) * c;
  }

  /** A page up to the last one holds the items at positions `(p - 1) * size ..` up to
      `p * size`, and is not empty. */
  lemma PageContents(filtered: seq<Vehicle>, p: int, size: int)
    requires p >= 1 && size >= 1
    requires p <= CeilDiv(|filtered|, size)
    ensures (p - 1) * size < |filtered|
    ensures var d := PaginationOf(filtered, p, size);
            (p - 1) * size < |filtered| &&
            d.currentItems != [] &&
            d.currentItems == filtered[(p - 1) * size .. if p * size <= |filtered| then p * size else |filtered|]
  {
    var q := CeilDiv(|filtered|, size);
    var start := (p - 1) * size;
    MulMono(p - 1, q - 1, size);
    assert start < |filtered|;
    assert p * size == start + size;
    var d := PaginationOf(filtered, p, size);
    assert d.startIndex == start && d.endIndex == p * size;
    assert d.currentItems == Slice(filtered, start, p * size);
  }

  /** Every page before the last is full. */
  lemma PageFull(filtered: seq<Vehicle>, p: int, size: int)
    requires p >= 1 && size >= 1
    requires p < CeilDiv(|filtered|, size)
    ensures |PaginationOf(filtered, p, size).currentItems| == size
  {
    var q := CeilDiv(|filtered|, size);
    MulMono(p, q - 1, size);
    assert p * size == (p - 1) * size + size;
  }

  /** A page past the last one is empty. */
  lemma PagePastEnd(filtered: seq<Vehicle>, p: int, size: int)
    requires p >= 1 && size >= 1
    requires p > CeilDiv(|filtered|, size)
    ensures PaginationOf(filtered, p, size).currentItems == []
  {
    var q := CeilDiv(|filtered|, size);
    MulMono(q, p - 1, size);
  }

  /** Pages 1 .. k one after the other. */
  function PagesUpTo(filtered: seq<Vehicle>, size: int, k: nat): seq<Vehicle>
    requires size >= 1
  {
    if k == 0 then [] else PagesUpTo(filtered, size, k - 1) + PaginationOf(filtered, k, size).currentItems
  }

  lemma {:induction false} PagesUpToPrefix(filtered: seq<Vehicle>, size: int, k: nat)
    requires size >= 1
    ensures PagesUpTo(filtered, size, k) == filtered[..if k * size <= |filtered| then k * size else |filtered|]
  {
    if k > 0 {
      PagesUpToPrefix(filtered, size, k - 1);
      assert k * size == (k - 1) * size + size;
      var n := |filtered|;
      var a := if (k - 1) * size <= n then (k - 1) * size else n;
      var b := if k * size <= n then k * size else n;
      assert filtered[..a] + filtered[a..b] == filtered[..b];
    }
  }

  /** Reading pages 1 .. totalPages in turn gives back the whole filtered list. */
  lemma PagesReassemble(filtered: seq<Vehicle>, size: int)
    requires size >= 1
    ensures PagesUpTo(filtered, size, CeilDiv(|filtered|, size)) == filtered
  {
    PagesUpToPrefix(filtered, size, CeilDiv(|filtered|, size));
  }

  /** The "showing X to Y" figures of the pagination bar number exactly the vehicles of
      the current page. */
  lemma ShowingMatchesPage(filtered: seq<Vehicle>, p: int, size: int)
    requires p >= 1 && size >= 1
    ensures var d := PaginationOf(filtered, p, size);
            var first := PaginationControls.ShowingStart(d.startIndex, d.totalItems);
            var last := PaginationControls.ShowingEnd(d.endIndex, d.totalItems);
            d.currentItems != [] ==> first == d.startIndex + 1 && last - first + 1 == |d.currentItems|
  {
  }

  // ---------------------------------------------------------------- option lists

  /** The values kept for the option lists: non-empty and not only white space. */
  predicate NonBlank(value: string) {
    value != "" && Trim(value) != ""
  }

  /** `[...new Set(vehicles.map(field).filter(nonBlank))].sort()`: the non-blank values of
      one field, each once, in sort order. */
  function FieldOptions(vehicles: seq<Vehicle>, field: Vehicle -> string): (r: seq<string>)
    ensures StrictlySorted(r)
    ensures forall x :: x in r <==> NonBlank(x) && exists v :: v in vehicles && field(v) == x
  {
    var values := Map(vehicles, field);
    var kept := Filter(values, NonBlank);
    assert forall x :: x in values <==> exists v :: v in vehicles && field(v) == x by {
      forall x ensures x in values <==> exists v :: v in vehicles && field(v) == x {
        if x in values {
          var i :| 0 <= i < |values| && values[i] == x;
          assert vehicles[i] in vehicles;
        }
        if v :| v in vehicles && field(v) == x {
          var i :| 0 <= i < |vehicles| && vehicles[i] == v;
          assert values[i] == x;
        }
      }
    }
    SortedDistinct(kept)
  }

  /** The six lists of `uniqueValues`. */
  datatype OptionLists = OptionLists(
    coordenadores: seq<string>, gerentes: seq<string>, contratosMeli: seq<string>,
    categorias: seq<string>, bases: seq<string>, tiposFrota: seq<string>)

  function CoordenadorOf(v: Vehicle): string { v.coordenador }
  function GerenteOf(v: Vehicle): string { v.gerente }
  function ContratoMeliOf(v: Vehicle): string { v.contratoMeli }
  function CategoriaOf(v: Vehicle): string { v.categoria }
  function BaseOf(v: Vehicle): string { v.base }
  function TipoFrotaOf(v: Vehicle): string { v.tipoFrota }

  /** An option list for a field: strictly sorted, holding exactly the field's non-blank
      values. */
  ghost predicate ListsField(vehicles: seq<Vehicle>, field: Vehicle -> string, options: seq<string>) {
    StrictlySorted(options) &&
    forall x :: x in options <==> NonBlank(x) && exists v :: v in vehicles && field(v) == x
  }

  function UniqueValuesOf(vehicles: seq<Vehicle>): (r: OptionLists)
    ensures ListsField(vehicles, CoordenadorOf, r.coordenadores)
    ensures ListsField(vehicles, GerenteOf, r.gerentes)
    ensures ListsField(vehicles, ContratoMeliOf, r.contratosMeli)
    ensures ListsField(vehicles, CategoriaOf, r.categorias)
    ensures ListsField(vehicles, BaseOf, r.bases)
    ensures ListsField(vehicles, TipoFrotaOf, r.tiposFrota)
  {
    OptionLists(FieldOptions(vehicles, CoordenadorOf), FieldOptions(vehicles, GerenteOf),
                FieldOptions(vehicles, ContratoMeliOf), FieldOptions(vehicles, CategoriaOf),
                FieldOptions(vehicles, BaseOf), FieldOptions(vehicles, TipoFrotaOf))
  }

  // ---------------------------------------------------------------- page state

  /** The state of `VehicleTrackingPage`. */
  class DashboardPage {
    var selectedMonth: int
    var selectedYear: int
    var vehicles: seq<Vehicle>
    var isLoading: bool
    var error: Option<string>
    var currentPage: int
    var itemsPerPage: int
    var filters: Filters

    /** The page number and the page size stay positive. */
    ghost predicate Valid()
      reads this
    {
      currentPage >= 1 && itemsPerPage >= 1
    }

    /** The initial state: July 2025, loading, first page of ten, no filter. */
    constructor()
      ensures Valid()
      ensures selectedMonth == 6 && selectedYear == 2025 && vehicles == [] && isLoading && error.None?
      ensures currentPage == 1 && itemsPerPage == 10 && filters == DefaultFilters()
    {
      selectedMonth := 6;
      selectedYear := 2025;
      vehicles := [];
      isLoading := true;
      error := None;
      currentPage := 1;
      itemsPerPage := 10;
      filters := DefaultFilters();
    }

    function Filtered(): seq<Vehicle>
      reads this
    {
      FilteredVehicles(vehicles, filters)
    }

    function Pagination(): PaginationData
      reads this
      requires Valid()
    {
      PaginationOf(Filtered(), currentPage, itemsPerPage)
    }

    function Options(): OptionLists
      reads this
    {
      UniqueValuesOf(vehicles)
    }

    /** `handlePageChange(page)`; the page buttons only offer pages from 1 on. */
    method HandlePageChange(page: int)
      requires Valid() && page >= 1
      modifies this
      ensures Valid() && currentPage == page
      ensures itemsPerPage == old(itemsPerPage) && filters == old(filters) && vehicles == old(vehicles)
      ensures selectedMonth == old(selectedMonth) && selectedYear == old(selectedYear)
      ensures isLoading == old(isLoading) && error == old(error)
    {
      currentPage := page;
    }

    /** `handleItemsPerPageChange(n)`: new page size, back to the first page. */
    method HandleItemsPerPageChange(newItemsPerPage: int)
      requires Valid() && newItemsPerPage >= 1
      modifies this
      ensures Valid() && itemsPerPage == newItemsPerPage && currentPage == 1
      ensures filters == old(filters) && vehicles == old(vehicles)
      ensures selectedMonth == old(selectedMonth) && selectedYear == old(selectedYear)
      ensures isLoading == old(isLoading) && error == old(error)
    {
      itemsPerPage := newItemsPerPage;
      currentPage := 1;
    }

    /** New filter values from the panel, followed by the effect that returns to page 1. */
    method ChangeFilters(f: Filters)
      requires Valid()
      modifies this
      ensures Valid() && filters == f && currentPage == 1
      ensures itemsPerPage == old(itemsPerPage) && vehicles == old(vehicles)
      ensures selectedMonth == old(selectedMonth) && selectedYear == old(selectedYear)
      ensures isLoading == old(isLoading) && error == old(error)
    {
      filters := f;
      currentPage := 1;
    }

    /** A new month or year from the panel; the load effect starts over. */
    method ChangePeriod(month: int, year: int)
      requires Valid()
      modifies this
      ensures Valid() && selectedMonth == month && selectedYear == year && isLoading && error.None?
      ensures currentPage == old(currentPage) && itemsPerPage == old(itemsPerPage)
      ensures filters == old(filters) && vehicles == old(vehicles)
    {
      selectedMonth := month;
      selectedYear := year;
      isLoading := true;
      error := None;
    }

    /** The API answered: show its vehicles, and its message when it fell back to the
        demonstration fleet. */
    method LoadSucceeded(resp: Response)
      requires Valid()
      modifies this
      ensures Valid() && vehicles == resp.data && !isLoading
      ensures error == (if resp.source == Fallback then Some(resp.message) else old(error))
      ensures currentPage == old(currentPage) && itemsPerPage == old(itemsPerPage) && filters == old(filters)
      ensures selectedMonth == old(selectedMonth) && selectedYear == old(selectedYear)
    {
      vehicles := resp.data;
      if resp.source == Fallback {
        error := Some(resp.message);
      }
      isLoading := false;
    }

    /** The request failed or timed out: show the page's own demonstration fleet. */
    method LoadFailed(errorMessage: string)
      requires Valid()
      modifies this
      ensures Valid() && vehicles == MockVehicles() && !isLoading
      ensures error == Some("Erro ao carregar dados: " + errorMessage + ". Usando dados de demonstra\U{E7}\U{E3}o.")
      ensures currentPage == old(currentPage) && itemsPerPage == old(itemsPerPage) && filters == old(filters)
      ensures selectedMonth == old(selectedMonth) && selectedYear == old(selectedYear)
    {
      error := Some("Erro ao carregar dados: " + errorMessage + ". Usando dados de demonstra\U{E7}\U{E3}o.");
      vehicles := MockVehicles();
      isLoading := false;
    }
  }
}
