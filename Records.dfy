/** The records the application keeps: a batch row (a store address with its
    resolution), a geocode-cache entry and a postal-lookup (ViaCEP) entry,
    and the JavaScript coercions applied to their coordinates. */
module Records {
  import opened Options

  /** A JavaScript number: finite, or NaN / an infinity. Floating-point
      rounding of the finite values is not modelled. */
  datatype JsNumber = Finite(value: real) | NonFinite

  /** What a coordinate slot (`lat`, `lon`, `vlat`, `vlon`) holds: `Blank`
      stands for the empty string a row starts with and for JSON `null`,
      both of which `Number()` turns into 0; `Num` for a number or for a
      text `Number()` parses (to NaN when it is not numeric). */
  datatype CoordVal = Blank | Num(n: JsNumber)

  /** JavaScript's `Number(x)` on a coordinate slot. */
  function ToNumber(c: CoordVal): JsNumber {
    match c
    case Blank => Finite(0.0)
    case Num(n) => n
  }

  /** The test the code writes everywhere, `isFinite(Number(x))` (or the
      global `isFinite(x)`, which coerces the same way). */
  predicate PassesFiniteCheck(c: CoordVal) {
    ToNumber(c).Finite?
  }

  /** What that check is meant to establish: the slot holds a finite number. */
  predicate IsCoordinate(c: CoordVal) {
    c.Num? && c.n.Finite?
  }

  function CoordValue(c: CoordVal): real
    requires IsCoordinate(c)
  {
    c.n.value
  }

  function Coord(x: real): (c: CoordVal)
    ensures IsCoordinate(c) && CoordValue(c) == x
  {
    Num(Finite(x))
  }

  /** `Number(x)` written back into a slot: a blank becomes the number 0. */
  function AsNumber(c: CoordVal): (r: CoordVal)
    ensures r.Num? && ToNumber(r) == ToNumber(c)
    ensures IsCoordinate(r) <==> PassesFiniteCheck(c)
    ensures IsCoordinate(c) ==> r == c
  {
    Num(ToNumber(c))
  }

  /** The number a slot that passes the check stands for. */
  function NumberValue(c: CoordVal): real
    requires PassesFiniteCheck(c)
  {
    ToNumber(c).value
  }

  /** The two checks differ exactly on a blank slot, which the code takes
      for the coordinate 0. */
  lemma FiniteCheckAcceptsBlank(c: CoordVal)
    ensures IsCoordinate(c) ==> PassesFiniteCheck(c)
    ensures (PassesFiniteCheck(c) && !IsCoordinate(c)) <==> c == Blank
    ensures c == Blank ==> ToNumber(c) == Finite(0.0)
  {
  }

  /** One row of the working batch. `hc` is the head count after
      `toNumberBR`; `jitter` is the `_jitter` radius, set only for points that
      share their coordinate with others. */
  datatype Item = Item(
    rowId: int,
    nome: string,
    cep: string,
    uf: string,
    cidade: string,
    bairro: string,
    endereco: string,
    numero: string,
    complemento: string,
    hc: real,
    lat: CoordVal,
    lon: CoordVal,
    vlat: CoordVal,
    vlon: CoordVal,
    jitter: Option<int>,
    mode: string,
    q: string)

  /** `Number(s)` of a trimmed text field: a blank one is `Blank`, anything
      else is what the number parser makes of it. */
  function TextCoord(s: string, parse: string -> JsNumber): (c: CoordVal)
    ensures s == "" <==> c == Blank
    ensures s != "" ==> ToNumber(c) == parse(s)
  {
    if s == "" then Blank else Num(parse(s))
  }

  /** Both true coordinates are finite numbers. */
  predicate HasCoordinates(it: Item) {
    IsCoordinate(it.lat) && IsCoordinate(it.lon)
  }

  /** Both true coordinates pass `isFinite(Number(x))`, the test the code
      applies to a record. */
  predicate PassesCheck(it: Item) {
    PassesFiniteCheck(it.lat) && PassesFiniteCheck(it.lon)
  }

  /** A geocode-cache entry `{lat, lon, mode, q, ts}`; `ts` is an opaque
      time stamp. */
  datatype GeoEntry = GeoEntry(lat: CoordVal, lon: CoordVal, mode: string, q: string, ts: int)

  predicate EntryHasCoordinates(e: GeoEntry) {
    IsCoordinate(e.lat) && IsCoordinate(e.lon)
  }

  /** Both coordinates of an entry pass `isFinite(Number(x))`. */
  predicate EntryPassesCheck(e: GeoEntry) {
    PassesFiniteCheck(e.lat) && PassesFiniteCheck(e.lon)
  }

  /** A postal-lookup cache entry, keyed by the eight CEP digits. */
  datatype ViaEntry = ViaEntry(cep: string, uf: string, localidade: string, bairro: string, logradouro: string)

  /** JavaScript's `a || b` on strings. */
  function OrElse(a: string, b: string): (r: string)
    ensures a != "" ==> r == a
    ensures a == "" ==> r == b
  {
    if a != "" then a else b
  }

  /** Mode tags the core writes. */
  const ModeStreetNum := "street_num"
  const ModeStreetNumBairro := "street_num_bairro"
  const ModePostalCityState := "postalcode_city_state"
  const ModePostalOnly := "postalcode_only"
  const ModeCache := "cache"
  const ModeImport := "import"
  const ModeFailed := "falha"
  const ModeManual := "manual"
}
