/** The filter panel (components/filter-controls.tsx): replacing one filter value,
    clearing all of them, the "some filter is active" test and the badge count. */
module FilterControls {
  import opened Fleet
  import opened Seqs

  /** The seven keys of the filter object, in the order the object lists them. */
  datatype FilterKey =
    | CoordenadorKey | GerenteKey | PlacaKey | ContratoMeliKey | CategoriaKey | BaseKey | TipoFrotaKey

  function AllKeys(): seq<FilterKey> {
    [CoordenadorKey, GerenteKey, PlacaKey, ContratoMeliKey, CategoriaKey, BaseKey, TipoFrotaKey]
  }

  /** `filters[key]`. */
  function Get(f: Filters, key: FilterKey): string {
    match key
    case CoordenadorKey => f.coordenador
    case GerenteKey => f.gerente
    case PlacaKey => f.placa
    case ContratoMeliKey => f.contratoMeli
    case CategoriaKey => f.categoria
    case BaseKey => f.base
    case TipoFrotaKey => f.tipoFrota
  }

  /** `handleFilterChange(key, value)`: `{ ...filters, [key]: value }`. */
  function HandleFilterChange(f: Filters, key: FilterKey, value: string): (r: Filters)
    ensures Get(r, key) == value
    ensures forall k :: k != key ==> Get(r, k) == Get(f, k)
  {
    match key
    case CoordenadorKey => f.(coordenador := value)
    case GerenteKey => f.(gerente := value)
    case PlacaKey => f.(placa := value)
    case ContratoMeliKey => f.(contratoMeli := value)
    case CategoriaKey => f.(categoria := value)
    case BaseKey => f.(base := value)
    case TipoFrotaKey => f.(tipoFrota := value)
  }

  /** The object `clearFilters` hands back: every key "all" except the plate, which is
      emptied; no filter is active afterwards. */
  function ClearFilters(): (r: Filters)
    ensures forall k :: Get(r, k) == if k == PlacaKey then "" else "all"
    ensures !HasActiveFilters(r)
  {
    DefaultFilters()
  }

  /** The test applied to each entry by `hasActiveFilters`. */
  predicate EntryActive(key: FilterKey, value: string) {
    if key == PlacaKey then value != "" else value != "all" && value != ""
  }

  /** `Object.entries(filters).some(...)`. */
  predicate HasActiveFilters(f: Filters) {
    exists i :: 0 <= i < |AllKeys()| && EntryActive(AllKeys()[i], Get(f, AllKeys()[i]))
  }

  /** The test the badge count applies to every value, the plate included. */
  predicate Counted(value: string) {
    value != "all" && value != ""
  }

  /** `Object.values(filters)`. */
  function Values(f: Filters): (r: seq<string>)
    ensures |r| == |AllKeys()| && forall i :: 0 <= i < |r| ==> r[i] == Get(f, AllKeys()[i])
  {
    [f.coordenador, f.gerente, f.placa, f.contratoMeli, f.categoria, f.base, f.tipoFrota]
  }

  /** The badge: how many filter values are neither "all" nor "". */
  function ActiveCount(f: Filters): (n: nat)
    ensures n == |Positions(Values(f), Counted)|
    ensures n <= 7
    ensures n == 0 <==> forall k :: !Counted(Get(f, k))
  {
    var vs := Values(f);
    var r := Filter(vs, Counted);
    FilterCountsPositions(vs, Counted);
    if r == [] then
      forall k ensures !Counted(Get(f, k)) {
        var i := KeyIndex(k);
        assert vs[i] in vs;
      }
      0
    else
      assert r[0] in r;
      |r|
  }

  /** The position of a key in `AllKeys()`. */
  function KeyIndex(k: FilterKey): (i: nat)
    ensures i < |AllKeys()| && AllKeys()[i] == k
  {
    match k
    case CoordenadorKey => 0
    case GerenteKey => 1
    case PlacaKey => 2
    case ContratoMeliKey => 3
    case CategoriaKey => 4
    case BaseKey => 5
    case TipoFrotaKey => 6
  }

  /** `hasActiveFilters` holds exactly when the plate is non-empty or some other filter
      is neither "all" nor "". */
  lemma ActiveIff(f: Filters)
    ensures HasActiveFilters(f) <==>
            (f.placa != "" || exists k :: k != PlacaKey && Get(f, k) != "all" && Get(f, k) != "")
  {
    if f.placa != "" {
      assert EntryActive(AllKeys()[2], Get(f, AllKeys()[2]));
    }
    if k :| k != PlacaKey && Get(f, k) != "all" && Get(f, k) != "" {
      var i := KeyIndex(k);
      assert EntryActive(AllKeys()[i], Get(f, AllKeys()[i]));
    }
  }

  /** The badge and the active test agree except for one value: a plate filter of
      exactly "all" makes the filters active while the badge counts it as nothing. */
  lemma CountVersusActive(f: Filters)
    ensures HasActiveFilters(f) <==> (ActiveCount(f) > 0 || f.placa == "all")
  {
    ActiveIff(f);
    if f.placa == "all" {
      assert EntryActive(AllKeys()[2], Get(f, AllKeys()[2]));
    }
    if ActiveCount(f) > 0 {
      var k :| Counted(Get(f, k));
      var i := KeyIndex(k);
      assert EntryActive(AllKeys()[i], Get(f, AllKeys()[i]));
    }
  }

  /** Concretely: only the plate filter set to "all" shows the clear button with a
      badge of 0. */
  lemma PlateAllShowsZero()
    ensures var f := DefaultFilters().(placa := "all");
            HasActiveFilters(f) && ActiveCount(f) == 0
  {
    var f := DefaultFilters().(placa := "all");
    CountVersusActive(f);
  }
}
