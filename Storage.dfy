/** The browser state the core changes: the two persisted caches (geocode
    results by address key, postal lookups by CEP digits), the requests it
    sends and the waits it makes. `localStorage` becomes `Option` maps
    (`None`: absent or unparsable, which loads as `{}`), the network
    becomes parameters, and time advances only by the rate-limit waits. */
module Storage {
  import opened Options
  import opened Text
  import opened Normalize
  import opened Records
  import opened CacheKey
  import opened Resolver
  import Csv

  /** `RATE_LIMIT_NOMINATIM_MS` and `RATE_LIMIT_VIACEP_MS`. */
  const NominatimDelay := 1100
  const ViaCepDelay := 250

  /** What the core does to the outside world, in order. */
  datatype Event = ViaCepRequest(digits: string) | GeocodeRequest(params: Params) | Delay(ms: int)

  /** The fields of a ViaCEP reply (`""` for an absent one). */
  datatype ViaData = ViaData(cep: string, uf: string, localidade: string, bairro: string, logradouro: string)

  /** A ViaCEP request fails (network error, non-OK status, bad JSON), answers
      `{erro: true}` (or nothing), or answers an address. */
  datatype ViaReply = Failed | NotFound | Found(data: ViaData)

  /** The outside world the core calls into. */
  datatype Network = Network(viaCep: string -> ViaReply, geocode: Geocoder, sanitize: Sanitizer)

  type GeoCache = map<string, GeoEntry>
  type ViaCache = map<string, ViaEntry>

  /** A snapshot of everything the core changes. */
  datatype World = World(geo: Option<GeoCache>, via: Option<ViaCache>, trace: seq<Event>, now: int)

  /** `loadJsonCache`: an absent or unparsable store loads as `{}`. */
  function Load<V>(stored: Option<map<string, V>>): (m: map<string, V>)
    ensures stored.Some? ==> m == stored.value
    ensures stored.None? ==> m == map[]
  {
    stored.GetOr(map[])
  }

  /** The entry `viaCepLookup` stores for a reply. */
  function ViaOut(d: ViaData, cep: string): ViaEntry {
    ViaEntry(NormalizeCEP(OrElse(d.cep, cep)), Trim(d.uf), Trim(d.localidade), Trim(d.bairro), Trim(d.logradouro))
  }

  /** `viaCepLookup` once the code's eight digits `c` are known. */
  function LookupDigits(w: World, c: string, cep: string, viaCep: string -> ViaReply): (World, Option<ViaEntry>) {
    if c == "" || |c| != 8 then (w, None)
    else
      var cache := Load(w.via);
      if c in cache then (w, Some(cache[c]))
      else
        var w1 := w.(trace := w.trace + [ViaCepRequest(c)]);
        match viaCep(c)
        case Failed => (w1, None)
        case NotFound => (w1, None)
        case Found(d) => (w1.(via := Some(cache[c := ViaOut(d, cep)])), Some(ViaOut(d, cep)))
  }

  /** `viaCepLookup`: the new world and the entry (or null). */
  function ViaLookup(w: World, cep: string, viaCep: string -> ViaReply): (World, Option<ViaEntry>) {
    LookupDigits(w, CepDigits(cep), cep, viaCep)
  }

  /** A code that does not normalise to eight digits is answered with null
      before any request, and nothing changes. */
  lemma MalformedCepMakesNoRequest(w: World, cep: string, viaCep: string -> ViaReply)
    requires NormalizeCEP(cep) == ""
    ensures ViaLookup(w, cep, viaCep) == (w, None)
  {
    assert CepDigits(cep) == "";
  }

  lemma FoundIsCachedAt(w: World, c: string, cep: string, viaCep: string -> ViaReply)
    requires |c| == 8 && c !in Load(w.via) && viaCep(c).Found?
    ensures var (w1, r) := LookupDigits(w, c, cep, viaCep);
      && r.Some?
      && w1.trace == w.trace + [ViaCepRequest(c)]
      && w1.geo == w.geo && w1.now == w.now
      && LookupDigits(w1, c, cep, viaCep) == (w1, r)
  {
  }

  /** A found address is stored under its eight digits: asking again gives
      the same entry and makes no request. */
  lemma FoundIsCached(w: World, cep: string, viaCep: string -> ViaReply)
    requires NormalizeCEP(cep) != ""
    requires CepDigits(cep) !in Load(w.via) && viaCep(CepDigits(cep)).Found?
    ensures var (w1, r) := ViaLookup(w, cep, viaCep);
      && r.Some?
      && w1.trace == w.trace + [ViaCepRequest(CepDigits(cep))]
      && ViaLookup(w1, cep, viaCep) == (w1, r)
  {
    FoundIsCachedAt(w, CepDigits(cep), cep, viaCep);
  }

  lemma NotFoundIsNotCachedAt(w: World, c: string, cep: string, viaCep: string -> ViaReply)
    requires |c| == 8 && c !in Load(w.via) && !viaCep(c).Found?
    ensures var (w1, r) := LookupDigits(w, c, cep, viaCep);
      && r.None? && w1 == w.(trace := w.trace + [ViaCepRequest(c)])
      && LookupDigits(w1, c, cep, viaCep).0.trace == w1.trace + [ViaCepRequest(c)]
  {
  }

  /** A failed request and an `erro` reply are not stored: both stores stay
      as they were, and the next lookup of the same code asks the network
      again. */
  lemma NotFoundIsNotCached(w: World, cep: string, viaCep: string -> ViaReply)
    requires NormalizeCEP(cep) != ""
    requires CepDigits(cep) !in Load(w.via) && !viaCep(CepDigits(cep)).Found?
    ensures var (w1, r) := ViaLookup(w, cep, viaCep);
      && r.None? && w1 == w.(trace := w.trace + [ViaCepRequest(CepDigits(cep))])
      && ViaLookup(w1, cep, viaCep).0.trace == w1.trace + [ViaCepRequest(CepDigits(cep))]
  {
    NotFoundIsNotCachedAt(w, CepDigits(cep), cep, viaCep);
  }

  /** The request events of a list of geocoding requests. */
  function GeoEvents(ps: seq<Params>): (es: seq<Event>)
    ensures |es| == |ps| && forall k :: 0 <= k < |ps| ==> es[k] == GeocodeRequest(ps[k])
  {
    seq(|ps|, k requires 0 <= k < |ps| => GeocodeRequest(ps[k]))
  }

  /** The cascade's requests join the trace. */
  function Record(w: World, o: Outcome): (World, Option<Located>) {
    (w.(trace := w.trace + GeoEvents(o.calls)), o.result)
  }

  /** `geocodeBest` with its postal lookup: the new world and the result. */
  function GeoBest(w: World, it: Item, net: Network): (World, Option<Located>) {
    var (w1, via) := ViaLookup(w, NormalizeCEP(it.cep), net.viaCep);
    Record(w1, Resolver.GeocodeBest(it, via, net.sanitize, net.geocode))
  }

  /** `b` extends the trace `a`. */
  predicate Extends(a: seq<Event>, b: seq<Event>) {
    |a| <= |b| && b[..|a|] == a
  }

  /** `w1` is `w` with requests, and nothing else, appended: no store write,
      no wait. */
  predicate OnlyRequests(w: World, w1: World) {
    && w1.geo == w.geo && w1.now == w.now
    && Extends(w.trace, w1.trace)
    && forall k :: |w.trace| <= k < |w1.trace| ==> !w1.trace[k].Delay?
  }

  lemma LookupOnlyRequests(w: World, c: string, cep: string, viaCep: string -> ViaReply)
    ensures OnlyRequests(w, LookupDigits(w, c, cep, viaCep).0)
  {
  }

  lemma RecordOnlyRequests(w: World, o: Outcome)
    ensures OnlyRequests(w, Record(w, o).0)
  {
  }

  lemma OnlyRequestsTrans(a: World, b: World, c: World)
    requires OnlyRequests(a, b) && OnlyRequests(b, c)
    ensures OnlyRequests(a, c)
  {
    assert c.trace[..|a.trace|] == c.trace[..|b.trace|][..|a.trace|];
    forall k | |a.trace| <= k < |c.trace|
      ensures !c.trace[k].Delay?
    {
      if k < |b.trace| {
        assert c.trace[k] == c.trace[..|b.trace|][k];
      }
    }
  }

  /** A geocoding never writes the geocode store and never waits: it
      appends the postal request (if any) and then the geocoding requests. */
  lemma GeoBestOnlyRequests(w: World, it: Item, net: Network)
    ensures OnlyRequests(w, GeoBest(w, it, net).0)
  {
    var (w1, via) := ViaLookup(w, NormalizeCEP(it.cep), net.viaCep);
    LookupOnlyRequests(w, CepDigits(NormalizeCEP(it.cep)), NormalizeCEP(it.cep), net.viaCep);
    var o := Resolver.GeocodeBest(it, via, net.sanitize, net.geocode);
    RecordOnlyRequests(w1, o);
    OnlyRequestsTrans(w, w1, Record(w1, o).0);
  }

  /** `sleep(ms)`: the wait joins the trace and the clock moves. */
  function Pause(w: World, ms: nat): World {
    w.(trace := w.trace + [Delay(ms)], now := w.now + ms)
  }

  /** The two rate-limit waits after a miss. */
  function Wait(w: World): World {
    Pause(Pause(w, NominatimDelay), ViaCepDelay)
  }

  /** The cache entry `mapear` writes for a geocoding result. */
  function EntryOf(g: Located, ts: int): GeoEntry {
    GeoEntry(Coord(g.lat), Coord(g.lon), g.mode, g.q, ts)
  }

  /** A cache entry counts as a hit when both its coordinates pass the
      global `isFinite`, which coerces a blank to 0 and so lets it through. */
  predicate IsHit(cache: GeoCache, key: string) {
    key in cache && EntryPassesCheck(cache[key])
  }

  /** The item after a hit on entry `e`. */
  function FromEntry(it: Item, e: GeoEntry): Item {
    it.(lat := e.lat, lon := e.lon, mode := OrElse(e.mode, ModeCache), q := OrElse(e.q, ""))
  }

  /** The item after a successful geocoding. */
  function FromLocated(it: Item, g: Located): Item {
    it.(lat := Coord(g.lat), lon := Coord(g.lon), mode := g.mode, q := g.q)
  }

  /** One turn of the `mapear` loop. */
  datatype Turn = Turn(w: World, cache: GeoCache, item: Item, ok: bool)

  /** The end of a turn that missed: `g` is the world after the resolver
      and its result. A success is written back under `key` (and
      persisted), a failure marks the record; both then wait. */
  function SettleMiss(g: (World, Option<Located>), cache: GeoCache, it: Item, key: string): Turn {
    match g.1
    case Some(loc) =>
      var cache1 := cache[key := EntryOf(loc, g.0.now)];
      Turn(Wait(g.0.(geo := Some(cache1))), cache1, FromLocated(it, loc), true)
    case None =>
      Turn(Wait(g.0), cache, it.(mode := ModeFailed, q := ""), false)
  }

  /** One turn for an item whose key is `key`, with `g` what the resolver
      would give on a miss. */
  function ResolveAt(w: World, cache: GeoCache, it: Item, key: string, g: (World, Option<Located>)): Turn {
    if IsHit(cache, key) then Turn(w, cache, FromEntry(it, cache[key]), true)
    else SettleMiss(g, cache, it, key)
  }

  function ResolveItem(w: World, cache: GeoCache, it: Item, net: Network): Turn {
    ResolveAt(w, cache, it, MakeCacheKey(it), GeoBest(w, it, net))
  }

  lemma HitAt(w: World, cache: GeoCache, it: Item, key: string, g: (World, Option<Located>))
    requires IsHit(cache, key)
    ensures var t := ResolveAt(w, cache, it, key, g);
      && t.w == w && t.cache == cache && t.ok
      && PassesCheck(t.item) && t.item.lat == cache[key].lat && t.item.lon == cache[key].lon
      && (cache[key].mode == "" ==> t.item.mode == ModeCache)
      && (cache[key].mode != "" ==> t.item.mode == cache[key].mode)
      && t.item.q == OrElse(cache[key].q, "")
  {
  }

  /** A hit fills the item from the entry (its mode, or `cache`) and touches
      nothing else: no request, no wait, no store write. */
  lemma HitMakesNoRequest(w: World, cache: GeoCache, it: Item, net: Network)
    requires IsHit(cache, MakeCacheKey(it))
    ensures var t := ResolveItem(w, cache, it, net);
      && t.w == w && t.cache == cache && t.ok
      && PassesCheck(t.item)
      && t.item.lat == cache[MakeCacheKey(it)].lat && t.item.lon == cache[MakeCacheKey(it)].lon
      && (cache[MakeCacheKey(it)].mode == "" ==> t.item.mode == ModeCache)
      && (cache[MakeCacheKey(it)].mode != "" ==> t.item.mode == cache[MakeCacheKey(it)].mode)
      && t.item.q == OrElse(cache[MakeCacheKey(it)].q, "")
  {
    HitAt(w, cache, it, MakeCacheKey(it), GeoBest(w, it, net));
  }

  lemma MissAt(w: World, cache: GeoCache, it: Item, key: string, g: (World, Option<Located>))
    requires !IsHit(cache, key) && OnlyRequests(w, g.0)
    ensures var t := ResolveAt(w, cache, it, key, g);
      && t.w.trace == g.0.trace + [Delay(NominatimDelay), Delay(ViaCepDelay)]
      && t.w.now == w.now + 1350
      && t.w.via == g.0.via
      && (g.1.Some? ==>
            && t.ok && t.cache == cache[key := EntryOf(g.1.value, w.now)]
            && t.w.geo == Some(t.cache)
            && HasCoordinates(t.item) && t.item.mode == g.1.value.mode
            && t.item == it.(lat := Coord(g.1.value.lat), lon := Coord(g.1.value.lon),
                             mode := g.1.value.mode, q := g.1.value.q))
      && (g.1.None? ==>
            && !t.ok && t.cache == cache && t.w.geo == w.geo
            && t.item == it.(mode := ModeFailed, q := ""))
  {
  }

  /** A miss runs the resolver and then waits 1100 ms and 250 ms: the trace
      grows by the resolver's requests followed by exactly those two waits,
      and the clock by 1350 ms. A success is written back under the item's
      key (and persisted), a failure marks the item `falha` and leaves the
      geocode cache alone. */
  lemma MissWaitsAndWritesBack(w: World, cache: GeoCache, it: Item, net: Network)
    requires !IsHit(cache, MakeCacheKey(it))
    ensures var t := ResolveItem(w, cache, it, net);
      var (w1, r) := GeoBest(w, it, net);
      && OnlyRequests(w, w1)
      && t.w.trace == w1.trace + [Delay(NominatimDelay), Delay(ViaCepDelay)]
      && t.w.now == w.now + 1350
      && t.w.via == w1.via
      && (r.Some? ==>
            && t.ok && t.cache == cache[MakeCacheKey(it) := EntryOf(r.value, w.now)]
            && t.w.geo == Some(t.cache)
            && HasCoordinates(t.item) && t.item.mode == r.value.mode
            && t.item == it.(lat := Coord(r.value.lat), lon := Coord(r.value.lon),
                             mode := r.value.mode, q := r.value.q))
      && (r.None? ==>
            && !t.ok && t.cache == cache && t.w.geo == w.geo
            && t.item == it.(mode := ModeFailed, q := ""))
  {
    GeoBestOnlyRequests(w, it, net);
    MissAt(w, cache, it, MakeCacheKey(it), GeoBest(w, it, net));
  }

  lemma ResolvedHitsAt(w: World, cache: GeoCache, it: Item, key: string, g: (World, Option<Located>))
    requires ResolveAt(w, cache, it, key, g).ok
    ensures var t := ResolveAt(w, cache, it, key, g);
      IsHit(t.cache, key) && t.cache[key].lat == t.item.lat && t.cache[key].lon == t.item.lon
  {
  }

  /** Once resolved, an item resolves again from the cache: its key now hits
      with the coordinates just found, so a second run makes no request. */
  lemma ResolvedItemHitsNextTime(w: World, cache: GeoCache, it: Item, net: Network)
    requires ResolveItem(w, cache, it, net).ok
    ensures var t := ResolveItem(w, cache, it, net);
      var t2 := ResolveItem(t.w, t.cache, it, net);
      && t2.w == t.w && t2.cache == t.cache
      && t2.item.lat == t.item.lat && t2.item.lon == t.item.lon
  {
    var t := ResolveItem(w, cache, it, net);
    ResolvedHitsAt(w, cache, it, MakeCacheKey(it), GeoBest(w, it, net));
    HitAt(t.w, t.cache, it, MakeCacheKey(it), GeoBest(t.w, it, net));
  }

  /** An entry whose coordinates are blank (`""` or `null`) is a hit: the
      record takes the blanks as its coordinates and no request is made. */
  lemma BlankEntryHits(w: World, cache: GeoCache, it: Item, net: Network)
    requires MakeCacheKey(it) in cache
    requires cache[MakeCacheKey(it)].lat == Blank && cache[MakeCacheKey(it)].lon == Blank
    ensures var t := ResolveItem(w, cache, it, net);
      t.ok && t.w == w && t.cache == cache && t.item.lat == Blank && t.item.lon == Blank
  {
    HitMakesNoRequest(w, cache, it, net);
  }

  /** The state of the `mapear` loop after the first `i` items. */
  datatype Batch = Batch(w: World, cache: GeoCache, items: seq<Item>, ok: nat, fail: nat)

  /** A way of resolving one record against the cache in a world. */
  type Resolve = (World, GeoCache, Item) -> Turn

  /** The resolve loop with resolver `f`, after the first `i` items. */
  function Run(w0: World, items: seq<Item>, i: nat, f: Resolve): (b: Batch)
    requires i <= |items|
    ensures |b.items| == i && b.ok + b.fail == i
  {
    if i == 0 then Batch(w0, Load(w0.geo), [], 0, 0)
    else
      var b := Run(w0, items, i - 1, f);
      var t := f(b.w, b.cache, items[i - 1]);
      Batch(t.w, t.cache, b.items + [t.item], b.ok + (if t.ok then 1 else 0), b.fail + (if t.ok then 0 else 1))
  }

  /** One more item of the resolve loop: the turn `t` of the next item
      extends the batch. */
  lemma RunStep(w0: World, items: seq<Item>, i: nat, f: Resolve, t: Turn)
    requires i < |items|
    requires t == f(Run(w0, items, i, f).w, Run(w0, items, i, f).cache, items[i])
    ensures var b := Run(w0, items, i, f);
      Run(w0, items, i + 1, f)
        == Batch(t.w, t.cache, b.items + [t.item], b.ok + (if t.ok then 1 else 0), b.fail + (if t.ok then 0 else 1))
  {
  }

  /** `mapear`'s own resolver. */
  function MapearResolver(net: Network): Resolve {
    (w: World, cache: GeoCache, it: Item) => ResolveItem(w, cache, it, net)
  }

  /** The `mapear` loop after the first `i` items. */
  function ResolvePrefix(w0: World, items: seq<Item>, i: nat, net: Network): Batch
    requires i <= |items|
  {
    Run(w0, items, i, MapearResolver(net))
  }

  /** `f` agrees with `mapear`'s resolver on every turn. The trigger keeps
      the resolver's definition out of proofs that only pass `f` along. */
  ghost predicate IsMapear(f: Resolve, net: Network) {
    forall w, cache, it {:trigger ResolveItem(w, cache, it, net)} :: f(w, cache, it) == ResolveItem(w, cache, it, net)
  }

  lemma MapearIsMapear(net: Network)
    ensures IsMapear(MapearResolver(net), net)
  {
  }

  /** `it2` is the record `it` with, at most, new coordinates, mode and
      query. */
  predicate KeepsRecord(it: Item, it2: Item) {
    it2.(lat := it.lat, lon := it.lon, mode := it.mode, q := it.q) == it
  }

  lemma KeepsRecordAt(w: World, cache: GeoCache, it: Item, key: string, g: (World, Option<Located>))
    ensures KeepsRecord(it, ResolveAt(w, cache, it, key, g).item)
  {
  }

  lemma {:induction false} RunKeepsRecords(w0: World, items: seq<Item>, i: nat, f: Resolve)
    requires i <= |items|
    requires forall w, c, it :: KeepsRecord(it, f(w, c, it).item)
    ensures forall k :: 0 <= k < i ==> KeepsRecord(items[k], Run(w0, items, i, f).items[k])
  {
    if i > 0 {
      RunKeepsRecords(w0, items, i - 1, f);
    }
  }

  /** The loop keeps the records it resolves: only coordinates, mode and
      query change. */
  lemma ResolvePrefixKeepsRecords(w0: World, items: seq<Item>, i: nat, net: Network)
    requires i <= |items|
    ensures forall k :: 0 <= k < i ==> KeepsRecord(items[k], ResolvePrefix(w0, items, i, net).items[k])
  {
    forall w, c, it
      ensures KeepsRecord(it, MapearResolver(net)(w, c, it).item)
    {
      KeepsRecordAt(w, c, it, MakeCacheKey(it), GeoBest(w, it, net));
    }
    RunKeepsRecords(w0, items, i, MapearResolver(net));
  }

  /** The number of waits in a trace. */
  function Delays(t: seq<Event>): nat {
    if t == [] then 0 else Delays(t[..|t| - 1]) + (if t[|t| - 1].Delay? then 1 else 0)
  }

  lemma {:induction false} DelaysAppend(a: seq<Event>, b: seq<Event>)
    ensures Delays(a + b) == Delays(a) + Delays(b)
    decreases |b|
  {
    if b == [] {
      assert a + b == a;
    } else {
      assert (a + b)[..|a + b| - 1] == a + b[..|b| - 1];
      DelaysAppend(a, b[..|b| - 1]);
    }
  }

  lemma {:induction false} NoDelays(t: seq<Event>)
    requires forall k :: 0 <= k < |t| ==> !t[k].Delay?
    ensures Delays(t) == 0
  {
    if t != [] {
      NoDelays(t[..|t| - 1]);
    }
  }

  /** From `w` to `w1` the trace only grew, by `n` waits at most, and the
      clock moved by 675 ms per wait, that is 1350 ms per pair. */
  predicate Paced(w: World, w1: World, n: nat) {
    && Extends(w.trace, w1.trace)
    && Delays(w.trace) <= Delays(w1.trace) <= Delays(w.trace) + n
    && 2 * (w1.now - w.now) == 1350 * (Delays(w1.trace) - Delays(w.trace))
  }

  /** Requests followed by the two waits: the trace gains exactly two
      delays. */
  lemma WaitsTwice(t0: seq<Event>, t1: seq<Event>)
    requires Extends(t0, t1) && forall k :: |t0| <= k < |t1| ==> !t1[k].Delay?
    ensures var t2 := t1 + [Delay(NominatimDelay), Delay(ViaCepDelay)];
      Extends(t0, t2) && Delays(t2) == Delays(t0) + 2
  {
    var extra := t1[|t0|..];
    assert t1 == t0 + extra;
    NoDelays(extra);
    DelaysAppend(t0, extra);
    var first, second := [Delay(NominatimDelay)], [Delay(ViaCepDelay)];
    assert first[..0] == [] && second[..0] == [];
    DelaysAppend(t1, first);
    DelaysAppend(t1 + first, second);
    assert t1 + [Delay(NominatimDelay), Delay(ViaCepDelay)] == t1 + first + second;
    assert (t1 + first + second)[..|t0|] == t0;
  }

  /** One turn waits twice (1350 ms) on a miss and not at all on a hit. */
  lemma TurnWaits(w: World, cache: GeoCache, it: Item, key: string, g: (World, Option<Located>))
    requires OnlyRequests(w, g.0)
    ensures var t := ResolveAt(w, cache, it, key, g);
      && Extends(w.trace, t.w.trace)
      && (IsHit(cache, key) ==> Delays(t.w.trace) == Delays(w.trace) && t.w.now == w.now)
      && (!IsHit(cache, key) ==> Delays(t.w.trace) == Delays(w.trace) + 2 && t.w.now == w.now + 1350)
  {
    if !IsHit(cache, key) {
      MissAt(w, cache, it, key, g);
      WaitsTwice(w.trace, g.0.trace);
    }
  }

  lemma {:induction false} RunPaced(w0: World, items: seq<Item>, i: nat, f: Resolve)
    requires i <= |items|
    requires forall w, c, it :: Paced(w, f(w, c, it).w, 2)
    ensures Paced(w0, Run(w0, items, i, f).w, 2 * i)
  {
    if i > 0 {
      RunPaced(w0, items, i - 1, f);
      var b := Run(w0, items, i - 1, f);
      var t := f(b.w, b.cache, items[i - 1]);
      assert Paced(b.w, t.w, 2);
      assert t.w.trace[..|w0.trace|] == t.w.trace[..|b.w.trace|][..|w0.trace|];
    }
  }

  /** Over a whole batch the waits come in pairs, at most one pair per
      item, and the clock moves by 1350 ms per pair; with the two lemmas
      above on one turn: every miss, and only a miss, waits. */
  lemma BatchWaitsPerMiss(w0: World, items: seq<Item>, i: nat, net: Network)
    requires i <= |items|
    ensures Paced(w0, ResolvePrefix(w0, items, i, net).w, 2 * i)
  {
    forall w, c, it
      ensures Paced(w, MapearResolver(net)(w, c, it).w, 2)
    {
      GeoBestOnlyRequests(w, it, net);
      TurnWaits(w, c, it, MakeCacheKey(it), GeoBest(w, it, net));
    }
    RunPaced(w0, items, i, MapearResolver(net));
  }

  /** `saveCorrection`'s editor fields as typed. */
  datatype Editor = Editor(nome: string, cep: string, uf: string, cidade: string, bairro: string,
                           endereco: string, numero: string, complemento: string, hc: real,
                           lat: string, lon: string)

  /** `editLastGeo`: the last manual geocoding or map click. */
  datatype ManualGeo = ManualGeo(lat: real, lon: real, mode: string, q: string)

  /** The result of a correction. */
  datatype Correction = Correction(w: World, item: Item, saved: bool)

  /** The item as `saveCorrection` rewrites it from the editor. */
  function Corrected(it: Item, ed: Editor, lat: CoordVal, lon: CoordVal, mode: string, q: string): Item {
    it.(nome := OrElse(Trim(ed.nome), it.nome), cep := NormalizeCEP(ed.cep), uf := ToUpper(Trim(ed.uf)),
        cidade := Trim(ed.cidade), bairro := Trim(ed.bairro), endereco := Trim(ed.endereco),
        numero := Trim(ed.numero), complemento := Trim(ed.complemento), hc := ed.hc,
        lat := lat, lon := lon, mode := mode, q := q)
  }

  /** The store after writing one payload under the new key and then the
      old one. */
  function StoreBoth(w: World, oldKey: string, newKey: string, payload: GeoEntry): World {
    w.(geo := Some(Load(w.geo)[newKey := payload][oldKey := payload]))
  }

  /** Both keys hold the payload, every other key keeps its entry, and no
      other key is added; nothing but the geocode store changes. */
  lemma StoreBothMeaning(w: World, oldKey: string, newKey: string, payload: GeoEntry)
    ensures var w1 := StoreBoth(w, oldKey, newKey, payload);
      var cache := Load(w1.geo);
      && w1.trace == w.trace && w1.via == w.via && w1.now == w.now
      && oldKey in cache && newKey in cache && cache[oldKey] == payload && cache[newKey] == payload
      && (forall k :: k in Load(w.geo) && k != oldKey && k != newKey ==> k in cache && cache[k] == Load(w.geo)[k])
      && (forall k :: k in cache ==> k in Load(w.geo) || k == oldKey || k == newKey)
  {
  }

  /** The saving half of `saveCorrection`, once the coordinates `lat` and
      `lon` are accepted: the record is rewritten and one payload stored
      under its old and its new key. */
  function SaveAt(w: World, it: Item, ed: Editor, last: Option<ManualGeo>, lat: CoordVal, lon: CoordVal): Correction {
    var mode := if last.Some? && last.value.mode != "" then last.value.mode else ModeManual;
    var q := if last.Some? then last.value.q else "";
    var it2 := Corrected(it, ed, lat, lon, mode, q);
    Correction(StoreBoth(w, MakeCacheKey(it), MakeCacheKey(it2), GeoEntry(lat, lon, mode, q, w.now)), it2, true)
  }

  /** `saveCorrection`: both fields go through `Number()`, which reads a
      blank as 0, and are refused when that is not finite. */
  function Correct(w: World, it: Item, ed: Editor, last: Option<ManualGeo>, parse: string -> JsNumber): Correction {
    var lat := TextCoord(Trim(ed.lat), parse);
    var lon := TextCoord(Trim(ed.lon), parse);
    if !(PassesFiniteCheck(lat) && PassesFiniteCheck(lon)) then Correction(w, it, false)
    else SaveAt(w, it, ed, last, AsNumber(lat), AsNumber(lon))
  }

  /** A correction is refused exactly when `Number()` of a field is not
      finite (text that is not a number); a refused one changes nothing. */
  lemma RejectedCorrectionChangesNothing(w: World, it: Item, ed: Editor, last: Option<ManualGeo>, parse: string -> JsNumber)
    ensures var c := Correct(w, it, ed, last, parse);
      && (!c.saved <==> !PassesFiniteCheck(TextCoord(Trim(ed.lat), parse)) || !PassesFiniteCheck(TextCoord(Trim(ed.lon), parse)))
      && (!c.saved ==> c == Correction(w, it, false))
  {
  }

  /** A saved correction writes one payload, with the typed coordinates as
      numbers, under both the key the record had before and the key it has after;
      it touches no other key and adds none. The mode is the last manual
      geocoding's, or `manual`. */
  lemma CorrectionCoversBothKeys(w: World, it: Item, ed: Editor, last: Option<ManualGeo>, parse: string -> JsNumber)
    requires PassesFiniteCheck(TextCoord(Trim(ed.lat), parse)) && PassesFiniteCheck(TextCoord(Trim(ed.lon), parse))
    ensures var c := Correct(w, it, ed, last, parse);
      var cache := Load(c.w.geo);
      var oldKey, newKey := MakeCacheKey(it), MakeCacheKey(c.item);
      && c.saved && c.w.trace == w.trace && c.w.via == w.via
      && oldKey in cache && newKey in cache && cache[oldKey] == cache[newKey]
      && cache[oldKey].lat == AsNumber(TextCoord(Trim(ed.lat), parse))
      && cache[oldKey].lon == AsNumber(TextCoord(Trim(ed.lon), parse))
      && EntryHasCoordinates(cache[oldKey])
      && c.item.lat == cache[oldKey].lat && c.item.lon == cache[oldKey].lon
      && (last.None? || last.value.mode == "" ==> cache[oldKey].mode == ModeManual)
      && (forall k :: k in Load(w.geo) && k != oldKey && k != newKey ==> k in cache && cache[k] == Load(w.geo)[k])
      && (forall k :: k in cache ==> k in Load(w.geo) || k == oldKey || k == newKey)
  {
    var lat := AsNumber(TextCoord(Trim(ed.lat), parse));
    var lon := AsNumber(TextCoord(Trim(ed.lon), parse));
    var mode := if last.Some? && last.value.mode != "" then last.value.mode else ModeManual;
    var q := if last.Some? then last.value.q else "";
    var it2 := Corrected(it, ed, lat, lon, mode, q);
    StoreBothMeaning(w, MakeCacheKey(it), MakeCacheKey(it2), GeoEntry(lat, lon, mode, q, w.now));
  }

  /** A blank field reads as 0: an editor whose latitude and longitude are
      both blank saves the record, and the payload under its key, at
      (0, 0). */
  lemma BlankCorrectionSavesOrigin(w: World, it: Item, ed: Editor, last: Option<ManualGeo>, parse: string -> JsNumber)
    requires Trim(ed.lat) == "" && Trim(ed.lon) == ""
    ensures var c := Correct(w, it, ed, last, parse);
      var cache := Load(c.w.geo);
      && c.saved && c.item.lat == Coord(0.0) && c.item.lon == Coord(0.0)
      && MakeCacheKey(it) in cache
      && cache[MakeCacheKey(it)].lat == Coord(0.0) && cache[MakeCacheKey(it)].lon == Coord(0.0)
  {
    CorrectionCoversBothKeys(w, it, ed, last, parse);
  }

  /** `saveCorrection` as its message intends ("use the geocoding test or
      pick a point on the map"): a blank field is refused like any other
      that is not a number. */
  function CorrectStrict(w: World, it: Item, ed: Editor, last: Option<ManualGeo>, parse: string -> JsNumber): Correction {
    var lat := TextCoord(Trim(ed.lat), parse);
    var lon := TextCoord(Trim(ed.lon), parse);
    if !(IsCoordinate(lat) && IsCoordinate(lon)) then Correction(w, it, false)
    else SaveAt(w, it, ed, last, lat, lon)
  }

  /** The intended correction saves exactly when both fields are finite
      numbers: it refuses a blank field and otherwise agrees with
      `Correct`. */
  lemma StrictCorrectionRefusesBlank(w: World, it: Item, ed: Editor, last: Option<ManualGeo>, parse: string -> JsNumber)
    ensures var lat, lon := TextCoord(Trim(ed.lat), parse), TextCoord(Trim(ed.lon), parse);
      var c := CorrectStrict(w, it, ed, last, parse);
      && (c.saved <==> IsCoordinate(lat) && IsCoordinate(lon))
      && (Trim(ed.lat) == "" || Trim(ed.lon) == "" ==> c == Correction(w, it, false))
      && (IsCoordinate(lat) && IsCoordinate(lon) ==> c == Correct(w, it, ed, last, parse))
  {
    var lat, lon := TextCoord(Trim(ed.lat), parse), TextCoord(Trim(ed.lon), parse);
    if IsCoordinate(lat) && IsCoordinate(lon) {
      assert AsNumber(lat) == lat && AsNumber(lon) == lon;
      assert Correct(w, it, ed, last, parse) == SaveAt(w, it, ed, last, lat, lon);
    }
  }

  /** From then on both the corrected record and the record as it was
      before (if a spreadsheet brings it back) resolve from the cache to
      the corrected coordinates, without a request. */
  lemma CorrectedRecordsHit(w: World, it: Item, ed: Editor, last: Option<ManualGeo>, parse: string -> JsNumber, net: Network)
    requires PassesFiniteCheck(TextCoord(Trim(ed.lat), parse)) && PassesFiniteCheck(TextCoord(Trim(ed.lon), parse))
    ensures var c := Correct(w, it, ed, last, parse);
      var cache := Load(c.w.geo);
      && ResolveItem(c.w, cache, c.item, net).w == c.w
      && ResolveItem(c.w, cache, c.item, net).item.lat == AsNumber(TextCoord(Trim(ed.lat), parse))
      && ResolveItem(c.w, cache, it, net).w == c.w
      && ResolveItem(c.w, cache, it, net).item.lat == AsNumber(TextCoord(Trim(ed.lat), parse))
  {
    CorrectionCoversBothKeys(w, it, ed, last, parse);
    var c := Correct(w, it, ed, last, parse);
    var cache := Load(c.w.geo);
    assert EntryPassesCheck(cache[MakeCacheKey(it)]);
    HitMakesNoRequest(c.w, cache, c.item, net);
    HitMakesNoRequest(c.w, cache, it, net);
  }

  /** The editor is filled with the record's address in normalised form
      (postal code formatted, state upper-cased, the rest trimmed), and the
      key reads the address the same way; so correcting only the
      coordinates keeps the key and the two writes land on one entry. */
  lemma CoordinateOnlyCorrectionKeepsKey(it: Item, ed: Editor, lat: CoordVal, lon: CoordVal, mode: string, q: string)
    requires ed.cep == NormalizeCEP(it.cep) && ed.uf == ToUpper(Trim(it.uf)) && ed.cidade == Trim(it.cidade)
    requires ed.bairro == Trim(it.bairro) && ed.endereco == Trim(it.endereco) && ed.numero == Trim(it.numero)
    ensures MakeCacheKey(Corrected(it, ed, lat, lon, mode, q)) == MakeCacheKey(it)
  {
    KeyOfNormalizedFields(it);
    var norm := it.(cep := NormalizeCEP(it.cep), uf := ToUpper(Trim(it.uf)),
                    cidade := Trim(it.cidade), endereco := Trim(it.endereco),
                    bairro := Trim(it.bairro), numero := Trim(it.numero));
    NormalizeCEPIdempotent(it.cep);
    UpperTrimCanonical(it.uf);
    TrimIdempotent(it.cidade);
    TrimIdempotent(it.bairro);
    TrimIdempotent(it.endereco);
    TrimIdempotent(it.numero);
    KeyIgnoresOtherFields(Corrected(it, ed, lat, lon, mode, q), norm);
  }

  /** `importCacheJson`'s test on an incoming value: present, and both
      coordinates pass `isFinite(Number(x))` (so a blank one passes). */
  predicate ValidIncoming(v: Option<GeoEntry>) {
    v.Some? && EntryPassesCheck(v.value)
  }

  /** Key/value pairs in the order they are visited (`Object.keys` of a
      parsed JSON object, or the rows of an imported spreadsheet). */
  type Pairs = seq<(string, Option<GeoEntry>)>

  /** The cache after visiting `ps`: each valid value is written under its
      key, the others are skipped. */
  function Overlay(cache: GeoCache, ps: Pairs): GeoCache
    decreases |ps|
  {
    if ps == [] then cache
    else
      var n := |ps| - 1;
      var before := Overlay(cache, ps[..n]);
      if ValidIncoming(ps[n].1) then before[ps[n].0 := ps[n].1.value] else before
  }

  /** How many values are valid (the `merged` and `saved` counters). */
  function CountValid(ps: Pairs): nat {
    if ps == [] then 0 else CountValid(ps[..|ps| - 1]) + (if ValidIncoming(ps[|ps| - 1].1) then 1 else 0)
  }

  /** Visiting one more pair. */
  lemma OverlayStep(cache: GeoCache, ps: Pairs, i: nat)
    requires i < |ps|
    ensures Overlay(cache, ps[..i + 1])
      == if ValidIncoming(ps[i].1) then Overlay(cache, ps[..i])[ps[i].0 := ps[i].1.value] else Overlay(cache, ps[..i])
    ensures CountValid(ps[..i + 1]) == CountValid(ps[..i]) + if ValidIncoming(ps[i].1) then 1 else 0
  {
    assert ps[..i + 1][..i] == ps[..i];
  }

  /** Pair `j` is valid and has key `k`. */
  predicate Writes(ps: Pairs, j: int, k: string) {
    0 <= j < |ps| && ValidIncoming(ps[j].1) && ps[j].0 == k
  }

  /** The last valid pair with key `k`, or -1. */
  function LastWriter(ps: Pairs, k: string): (j: int)
    ensures -1 <= j < |ps|
    ensures j >= 0 ==> Writes(ps, j, k) && forall j2 :: j < j2 < |ps| ==> !Writes(ps, j2, k)
    ensures j == -1 ==> forall j2 :: 0 <= j2 < |ps| ==> !Writes(ps, j2, k)
    decreases |ps|
  {
    if ps == [] then -1
    else
      var n := |ps| - 1;
      if Writes(ps, n, k) then n
      else
        var j := LastWriter(ps[..n], k);
        assert forall j2 :: 0 <= j2 < n ==> (Writes(ps[..n], j2, k) <==> Writes(ps, j2, k));
        j
  }

  /** Under every key the result holds the value of the LAST valid pair with
      that key; a key no valid pair has keeps its entry (or stays absent).
      For a JSON object, whose keys are distinct, that is: exactly the
      incoming entries with finite coordinates are copied over the existing
      ones, and every other key is untouched. */
  lemma {:induction false} OverlayMeaning(cache: GeoCache, ps: Pairs, k: string)
    ensures var m := Overlay(cache, ps);
      var j := LastWriter(ps, k);
      && (k in m <==> k in cache || j >= 0)
      && (j >= 0 ==> m[k] == ps[j].1.value)
      && (j < 0 && k in cache ==> m[k] == cache[k])
    decreases |ps|
  {
    if ps != [] {
      OverlayMeaning(cache, ps[..|ps| - 1], k);
    }
  }

  /** Everything the overlay adds passes the finiteness test. */
  lemma OverlayAddsCheckedEntries(cache: GeoCache, ps: Pairs, k: string)
    requires k in Overlay(cache, ps) && (k !in cache || Overlay(cache, ps)[k] != cache[k])
    ensures EntryPassesCheck(Overlay(cache, ps)[k])
  {
    OverlayMeaning(cache, ps, k);
  }

  /** An incoming entry with blank coordinates (`null` or `""`) passes the
      test: it is merged as it is, blanks and all, and counted. */
  lemma BlankJsonEntryMerged(cache: GeoCache, k: string, e: GeoEntry)
    requires e.lat == Blank && e.lon == Blank
    ensures k in Overlay(cache, [(k, Some(e))]) && Overlay(cache, [(k, Some(e))])[k] == e
    ensures CountValid([(k, Some(e))]) == 1
  {
    OverlayMeaning(cache, [(k, Some(e))], k);
    assert [(k, Some(e))][..0] == [];
  }

  /** The test as intended: present, with both coordinates finite numbers. */
  predicate StrictIncoming(v: Option<GeoEntry>) {
    v.Some? && EntryHasCoordinates(v.value)
  }

  /** The pairs with every value the intended test refuses dropped to
      `None`; the two tests differ exactly on values with a blank
      coordinate. */
  function Strict(ps: Pairs): (qs: Pairs)
    ensures |qs| == |ps|
    ensures forall i :: 0 <= i < |ps| ==> qs[i].0 == ps[i].0 && (StrictIncoming(ps[i].1) ==> qs[i].1 == ps[i].1)
    ensures forall i :: 0 <= i < |ps| ==> (ValidIncoming(qs[i].1) <==> StrictIncoming(ps[i].1))
    ensures forall i :: 0 <= i < |ps| ==>
      (StrictIncoming(ps[i].1) <==> ValidIncoming(ps[i].1) && ps[i].1.value.lat != Blank && ps[i].1.value.lon != Blank)
  {
    seq(|ps|, i requires 0 <= i < |ps| => (ps[i].0, if StrictIncoming(ps[i].1) then ps[i].1 else None))
  }

  /** Through the intended test, everything an import adds has finite
      numeric coordinates. */
  lemma StrictOverlayAddsCoordinates(cache: GeoCache, ps: Pairs, k: string)
    requires k in Overlay(cache, Strict(ps)) && (k !in cache || Overlay(cache, Strict(ps))[k] != cache[k])
    ensures EntryHasCoordinates(Overlay(cache, Strict(ps))[k])
  {
    OverlayMeaning(cache, Strict(ps), k);
  }

  /** Through the intended test an entry with a blank coordinate is neither
      merged nor counted. */
  lemma StrictRefusesBlankEntry(cache: GeoCache, k: string, e: GeoEntry)
    requires e.lat == Blank || e.lon == Blank
    ensures Overlay(cache, Strict([(k, Some(e))])) == cache && CountValid(Strict([(k, Some(e))])) == 0
  {
    assert Strict([(k, Some(e))])[..0] == [];
  }

  /** Importing the same file twice is importing it once. */
  lemma OverlayIdempotent(cache: GeoCache, ps: Pairs)
    ensures Overlay(Overlay(cache, ps), ps) == Overlay(cache, ps)
  {
    var m1 := Overlay(cache, ps);
    forall k
      ensures k in Overlay(m1, ps) <==> k in m1
      ensures k in m1 ==> Overlay(m1, ps)[k] == m1[k]
    {
      OverlayMeaning(cache, ps, k);
      OverlayMeaning(m1, ps, k);
    }
  }

  /** Importing a file is importing its parts one after the other. */
  lemma {:induction false} OverlayAppend(cache: GeoCache, a: Pairs, b: Pairs)
    ensures Overlay(cache, a + b) == Overlay(Overlay(cache, a), b)
    decreases |b|
  {
    if b == [] {
      assert a + b == a;
    } else {
      var n := |b| - 1;
      assert (a + b)[..|a| + n] == a + b[..n];
      OverlayAppend(cache, a, b[..n]);
    }
  }

  /** After an import, a record whose key was last imported with finite
      coordinates resolves from the cache to them, without a request. */
  lemma ImportedKeyHits(cache: GeoCache, ps: Pairs, w: World, it: Item, net: Network)
    requires LastWriter(ps, MakeCacheKey(it)) >= 0
    ensures var t := ResolveItem(w, Overlay(cache, ps), it, net);
      var v := ps[LastWriter(ps, MakeCacheKey(it))].1.value;
      t.w == w && t.item.lat == v.lat && t.item.lon == v.lon
  {
    OverlayMeaning(cache, ps, MakeCacheKey(it));
    HitMakesNoRequest(w, Overlay(cache, ps), it, net);
  }

  /** The entry `importEnrichedCSV` writes for an imported row: the row's
      coordinates through `Number()`. */
  function ImportEntry(it: Item, ts: int): GeoEntry {
    GeoEntry(AsNumber(it.lat), AsNumber(it.lon), OrElse(it.mode, ModeImport), OrElse(it.q, ""), ts)
  }

  /** The pair `importEnrichedCSV` writes for a row: its key and entry,
      valid exactly when the row's coordinates pass the finiteness test;
      a valid entry holds finite numbers, the row's own when it has them. */
  function RowPair(it: Item, ts: int): (p: (string, Option<GeoEntry>))
    ensures p.0 == MakeCacheKey(it) && p.1 == Some(ImportEntry(it, ts))
    ensures ValidIncoming(p.1) <==> PassesCheck(it)
    ensures ValidIncoming(p.1) ==> EntryHasCoordinates(p.1.value)
    ensures HasCoordinates(it) ==> p.1.value.lat == it.lat && p.1.value.lon == it.lon
  {
    (MakeCacheKey(it), Some(ImportEntry(it, ts)))
  }

  /** A row with blank coordinates (a record that failed to geocode keeps
      them, and exporting writes them as empty cells) is written back at
      (0, 0) and counted; from then on the record resolves from the cache
      to (0, 0) without a request. */
  lemma BlankRowImportedAtOrigin(cache: GeoCache, it: Item, ts: int, w: World, net: Network)
    requires it.lat == Blank && it.lon == Blank
    ensures var m := Overlay(cache, [RowPair(it, ts)]);
      var t := ResolveItem(w, m, it, net);
      && CountValid([RowPair(it, ts)]) == 1
      && MakeCacheKey(it) in m && m[MakeCacheKey(it)].lat == Coord(0.0) && m[MakeCacheKey(it)].lon == Coord(0.0)
      && t.ok && t.w == w && t.item.lat == Coord(0.0) && t.item.lon == Coord(0.0)
  {
    var ps := [RowPair(it, ts)];
    assert ps[..0] == [];
    assert LastWriter(ps, MakeCacheKey(it)) == 0;
    ImportedKeyHits(cache, ps, w, it, net);
  }

  /** The write-back as intended: only a row whose coordinates are finite
      numbers gives a valid pair, holding those coordinates. */
  function StrictRowPair(it: Item, ts: int): (p: (string, Option<GeoEntry>))
    ensures p.0 == MakeCacheKey(it)
    ensures ValidIncoming(p.1) <==> HasCoordinates(it)
    ensures HasCoordinates(it) ==> p == RowPair(it, ts) && p.1.value.lat == it.lat && p.1.value.lon == it.lon
  {
    (MakeCacheKey(it), if HasCoordinates(it) then Some(ImportEntry(it, ts)) else None)
  }

  /** Through the intended write-back a blank row is neither stored nor
      counted. */
  lemma StrictSkipsBlankRow(cache: GeoCache, it: Item, ts: int)
    requires it.lat == Blank || it.lon == Blank
    ensures Overlay(cache, [StrictRowPair(it, ts)]) == cache && CountValid([StrictRowPair(it, ts)]) == 0
  {
    assert [StrictRowPair(it, ts)][..0] == [];
  }

  /** The rows as pairs, in row order. */
  function RowPairs(items: seq<Item>, ts: int): (ps: Pairs)
    ensures |ps| == |items|
    ensures forall i :: 0 <= i < |items| ==> ps[i] == RowPair(items[i], ts)
  {
    seq(|items|, i requires 0 <= i < |items| => RowPair(items[i], ts))
  }

  /** The persisted state and the trace, held by one object. */
  class Env {
    var geoStored: Option<GeoCache>
    var viaStored: Option<ViaCache>
    var trace: seq<Event>
    var now: int

    constructor (geo: Option<GeoCache>, via: Option<ViaCache>, start: int)
      ensures State() == World(geo, via, [], start)
    {
      geoStored, viaStored, trace, now := geo, via, [], start;
    }

    function State(): World
      reads this
    {
      World(geoStored, viaStored, trace, now)
    }

    /** `sleep(ms)`. */
    method Sleep(ms: nat)
      modifies this
      ensures State() == Pause(old(State()), ms)
    {
      trace := trace + [Delay(ms)];
      now := now + ms;
    }

    /** `viaCepLookup`. */
    method ViaCepLookup(cep: string, viaCep: string -> ViaReply) returns (r: Option<ViaEntry>)
      modifies this
      ensures (State(), r) == ViaLookup(old(State()), cep, viaCep)
    {
      var c := CepDigits(cep);
      if c == "" || |c| != 8 {
        return None;
      }
      var cache := Load(viaStored);
      if c in cache {
        return Some(cache[c]);
      }
      trace := trace + [ViaCepRequest(c)];
      var reply := viaCep(c);
      match reply
      case Failed =>
        r := None;
      case NotFound =>
        r := None;
      case Found(d) =>
        var out := ViaOut(d, cep);
        cache := cache[c := out];
        viaStored := Some(cache);
        r := Some(out);
    }

    /** `geocodeBest`: the postal lookup, then the tier cascade, whose
        requests join the trace. */
    method GeocodeBest(it: Item, net: Network) returns (r: Option<Located>)
      modifies this
      ensures (State(), r) == GeoBest(old(State()), it, net)
    {
      var via := ViaCepLookup(NormalizeCEP(it.cep), net.viaCep);
      var o := Resolver.GeocodeBest(it, via, net.sanitize, net.geocode);
      trace := trace + GeoEvents(o.calls);
      r := o.result;
    }

    /** The end of a turn that missed: write a success back to the
        in-memory and the persisted cache, or mark the record `falha`; then
        wait. */
    method Settle(cache: GeoCache, it: Item, key: string, geo: Option<Located>) returns (cache1: GeoCache, it1: Item, ok: bool)
      modifies this
      ensures Turn(State(), cache1, it1, ok) == SettleMiss((old(State()), geo), cache, it, key)
    {
      if geo.Some? {
        it1 := FromLocated(it, geo.value);
        cache1 := cache[key := EntryOf(geo.value, now)];
        geoStored := Some(cache1);
        ok := true;
      } else {
        it1 := it.(mode := ModeFailed, q := "");
        cache1 := cache;
        ok := false;
      }
      Sleep(NominatimDelay);
      Sleep(ViaCepDelay);
    }

    /** One turn of `mapear`'s resolve loop: a hit fills the record from
        the cache; a miss geocodes and settles. Returns the new cache, the
        record and whether it resolved. */
    method ResolveOne(cache: GeoCache, it: Item, net: Network, ghost f: Resolve) returns (cache1: GeoCache, it1: Item, ok: bool)
      requires IsMapear(f, net)
      modifies this
      ensures Turn(State(), cache1, it1, ok) == f(old(State()), cache, it)
    {
      ghost var w := State();
      var key := MakeCacheKey(it);
      if IsHit(cache, key) {
        cache1, it1, ok := cache, FromEntry(it, cache[key]), true;
      } else {
        var geo := GeocodeBest(it, net);
        cache1, it1, ok := Settle(cache, it, key, geo);
      }
      assert Turn(State(), cache1, it1, ok) == ResolveItem(w, cache, it, net);
    }

    /** The resolve loop of `mapear` over the (filtered) batch, which it
        updates in place. Returns the `ok` and `fail` counters. */
    method ResolveBatch(data: array<Item>, net: Network) returns (ok: nat, fail: nat)
      modifies this, data
      ensures var b := ResolvePrefix(old(State()), old(data[..]), data.Length, net);
        State() == b.w && data[..] == b.items && ok == b.ok && fail == b.fail
    {
      MapearIsMapear(net);
      ok, fail := ResolveLoop(data, net, MapearResolver(net));
    }

    /** The loop itself, for a resolver `f` known only to agree with
        `mapear`'s. */
    method ResolveLoop(data: array<Item>, net: Network, ghost f: Resolve) returns (ok: nat, fail: nat)
      requires IsMapear(f, net)
      modifies this, data
      ensures var b := Run(old(State()), old(data[..]), data.Length, f);
        State() == b.w && data[..] == b.items && ok == b.ok && fail == b.fail
    {
      ghost var w0 := State();
      ghost var items0 := data[..];
      var cache := Load(geoStored);
      ok, fail := 0, 0;
      var i := 0;
      while i < data.Length
        invariant 0 <= i <= data.Length
        invariant Run(w0, items0, i, f) == Batch(State(), cache, data[..i], ok, fail)
        invariant data[i..] == items0[i..]
      {
        assert data[i] == items0[i];
        assert data[i + 1..] == items0[i + 1..];
        var it, resolved;
        cache, it, resolved := ResolveOne(cache, data[i], net, f);
        RunStep(w0, items0, i, f, Turn(State(), cache, it, resolved));
        data[i] := it;
        if resolved {
          ok := ok + 1;
        } else {
          fail := fail + 1;
        }
        assert data[..i + 1] == data[..i] + [data[i]];
        i := i + 1;
      }
      assert data[..] == data[..data.Length];
    }

    /** `importCacheJson`. `incoming` is `None` when the file is not JSON or
        not an object, and otherwise its entries in `Object.keys` order; an
        incoming value is `None` when it is falsy. Returns the `merged`
        count, or null when nothing was imported. */
    method ImportCacheJson(incoming: Option<Pairs>) returns (merged: Option<nat>)
      modifies this
      ensures incoming.None? ==> merged.None? && State() == old(State())
      ensures incoming.Some? ==>
        && merged == Some(CountValid(incoming.value))
        && State() == old(State()).(geo := Some(Overlay(Load(old(geoStored)), incoming.value)))
    {
      if incoming.None? {
        return None;
      }
      var count := Merge(incoming.value);
      merged := Some(count);
    }

    /** The loop both imports share: every valid value is written under its
        key, in order, into the stored geocode cache (an empty one when
        there is none), which is then saved; returns how many were
        written. */
    method Merge(ps: Pairs) returns (count: nat)
      modifies this
      ensures count == CountValid(ps)
      ensures State() == old(State()).(geo := Some(Overlay(Load(old(geoStored)), ps)))
    {
      var existing := Load(geoStored);
      ghost var start := existing;
      count := 0;
      for i := 0 to |ps|
        invariant existing == Overlay(start, ps[..i])
        invariant count == CountValid(ps[..i])
        invariant unchanged(this)
      {
        var (k, v) := ps[i];
        OverlayStep(start, ps, i);
        if v.Some? && EntryPassesCheck(v.value) {
          existing := existing[k := v.value];
          count := count + 1;
        }
      }
      assert ps[..|ps|] == ps;
      geoStored := Some(existing);
    }

    /** The cache write-back of `importEnrichedCSV`: every row with
        coordinates is stored under its key; returns the `saved` count. The
        store is written even when nothing was saved. */
    method ImportWriteBack(items: seq<Item>) returns (saved: nat)
      modifies this
      ensures saved == CountValid(RowPairs(items, old(now)))
      ensures State() == old(State()).(geo := Some(Overlay(Load(old(geoStored)), RowPairs(items, old(now)))))
    {
      saved := Merge(RowPairs(items, now));
    }

    /** `importEnrichedCSV` on the text of a file: nothing is loaded and
        nothing changes without a header and a data row; otherwise the
        imported records are loaded and those with coordinates written back.
        Returns the records and the `saved` count. */
    method ImportEnrichedCSV(text: string, numberBR: string -> real, parse: string -> JsNumber)
      returns (loaded: Option<seq<Item>>, saved: nat)
      modifies this
      ensures loaded == Csv.ImportRows(Csv.Parse(text), numberBR, parse)
      ensures loaded.None? ==> saved == 0 && State() == old(State())
      ensures loaded.Some? ==>
        && saved == CountValid(RowPairs(loaded.value, old(now)))
        && State() == old(State()).(geo := Some(Overlay(Load(old(geoStored)), RowPairs(loaded.value, old(now)))))
    {
      var rows := Csv.ParseCSV(text);
      loaded := Csv.ImportRows(rows, numberBR, parse);
      if loaded.None? {
        return loaded, 0;
      }
      saved := ImportWriteBack(loaded.value);
    }

    /** `saveCorrection` on the record at index `edit` of the batch; `None`
        when no record is being edited. Returns whether it saved. */
    method SaveCorrection(data: array<Item>, edit: Option<nat>, ed: Editor, last: Option<ManualGeo>,
                          parse: string -> JsNumber) returns (saved: bool)
      requires edit.Some? ==> edit.value < data.Length
      modifies this, data
      ensures edit.None? ==> !saved && State() == old(State()) && data[..] == old(data[..])
      ensures edit.Some? ==>
        var c := Correct(old(State()), old(data[edit.value]), ed, last, parse);
        && saved == c.saved && State() == c.w && data[..] == old(data[..])[edit.value := c.item]
    {
      if edit.None? {
        return false;
      }
      var at := edit.value;
      var lat := TextCoord(Trim(ed.lat), parse);
      var lon := TextCoord(Trim(ed.lon), parse);
      if !(PassesFiniteCheck(lat) && PassesFiniteCheck(lon)) {
        return false;
      }
      lat, lon := AsNumber(lat), AsNumber(lon);
      var it := data[at];
      var oldKey := MakeCacheKey(it);
      var mode := if last.Some? && last.value.mode != "" then last.value.mode else ModeManual;
      var q := if last.Some? then last.value.q else "";
      var it2 := Corrected(it, ed, lat, lon, mode, q);
      data[at] := it2;
      var newKey := MakeCacheKey(it2);
      var payload := GeoEntry(lat, lon, mode, q, now);
      StoreUnder(oldKey, newKey, payload);
      saved := true;
    }

    /** The dual write of `saveCorrection`: the payload under the new key,
        then under the old one, and the cache saved. */
    method StoreUnder(oldKey: string, newKey: string, payload: GeoEntry)
      modifies this
      ensures State() == StoreBoth(old(State()), oldKey, newKey, payload)
    {
      var geoCache := Load(geoStored);
      geoCache := geoCache[newKey := payload];
      geoCache := geoCache[oldKey := payload];
      geoStored := Some(geoCache);
    }

    /** `resetCache`: both stores are removed. */
    method ResetCache()
      modifies this
      ensures State() == old(State()).(geo := None, via := None)
    {
      geoStored := None;
      viaStored := None;
    }
  }

  /** After a reset both stores load empty: every record misses and every
      postal code is asked again. */
  lemma ResetForgets(w: World, it: Item, cep: string, net: Network)
    requires NormalizeCEP(cep) != ""
    ensures var w1 := w.(geo := None, via := None);
      && !IsHit(Load(w1.geo), MakeCacheKey(it))
      && ViaLookup(w1, cep, net.viaCep).0.trace == w1.trace + [ViaCepRequest(CepDigits(cep))]
  {
  }
}
