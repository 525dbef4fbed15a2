/** `geocodeBest`: the record's address fields, completed from the postal
    lookup where the record leaves them blank, are sent to the structured
    geocoder in four tiers, each guarded by the fields it needs; the first
    hit wins and is tagged with the tier's mode. The geocoder and the street
    sanitiser are parameters. */
module Resolver {
  import opened Options
  import opened Text
  import opened Normalize
  import opened Records

  const Country := "Brazil"

  /** The parameters of one structured geocoding request. An empty value is
      left out of the request. */
  datatype Params = Params(street: string, postalcode: string, city: string, state: string, country: string)

  /** What the structured geocoder returns on success: finite coordinates of
      the first result and the request URL. */
  datatype Hit = Hit(lat: real, lon: real, q: string)

  /** `geocodeStructured`: a request either fails (network error, non-OK
      status, no result, non-finite coordinates) or gives a hit. */
  type Geocoder = Params -> Option<Hit>

  /** `sanitizeAddress`, uninterpreted. */
  type Sanitizer = string -> string

  /** The value `geocodeBest` returns: `{lat, lon, q, mode}`. */
  datatype Located = Located(lat: real, lon: real, q: string, mode: string)

  /** The fields the four tiers are built from. */
  datatype Query = Query(cep: string, city: string, state: string, bairro: string, street: string)

  /** One tier: its mode tag and its request. */
  datatype Attempt = Attempt(mode: string, params: Params)

  /** The outcome of the tier cascade and the requests it issued, in order. */
  datatype Outcome = Outcome(result: Option<Located>, calls: seq<Params>)

  /** `safeStr(via && via.<field>)`: a field of the lookup, or `""` without one. */
  function ViaField(via: Option<ViaEntry>, field: ViaEntry -> string): string {
    match via
    case None => ""
    case Some(e) => Trim(field(e))
  }

  /** The field preparation of `geocodeBest`: each field is the record's
      trimmed value, or the lookup's when the record's is blank. */
  function Enrich(it: Item, via: Option<ViaEntry>, sanitize: Sanitizer): Query {
    var city := OrElse(Trim(it.cidade), ViaField(via, (e: ViaEntry) => e.localidade));
    var state := OrElse(Trim(it.uf), ViaField(via, (e: ViaEntry) => e.uf));
    var bairro := OrElse(Trim(it.bairro), ViaField(via, (e: ViaEntry) => e.bairro));
    var logradouro := OrElse(Trim(it.endereco), ViaField(via, (e: ViaEntry) => e.logradouro));
    Query(NormalizeCEP(it.cep), city, state, bairro, BuildStreet(logradouro, it.numero, sanitize))
  }

  /** A non-blank record value wins over the lookup: whatever the lookup
      says, the field the tiers see is the record's, and the lookup is read
      only where the record is blank. */
  lemma RecordWinsOverLookup(it: Item, v1: Option<ViaEntry>, v2: Option<ViaEntry>, sanitize: Sanitizer)
    ensures Enrich(it, v1, sanitize).cep == Enrich(it, v2, sanitize).cep == NormalizeCEP(it.cep)
    ensures Trim(it.cidade) != "" ==> Enrich(it, v1, sanitize).city == Enrich(it, v2, sanitize).city == Trim(it.cidade)
    ensures Trim(it.uf) != "" ==> Enrich(it, v1, sanitize).state == Enrich(it, v2, sanitize).state == Trim(it.uf)
    ensures Trim(it.bairro) != "" ==> Enrich(it, v1, sanitize).bairro == Enrich(it, v2, sanitize).bairro == Trim(it.bairro)
    ensures Trim(it.endereco) != "" ==> Enrich(it, v1, sanitize).street == Enrich(it, v2, sanitize).street
    ensures Trim(it.cidade) == "" && v1.Some? ==> Enrich(it, v1, sanitize).city == Trim(v1.value.localidade)
    ensures Trim(it.uf) == "" && v1.Some? ==> Enrich(it, v1, sanitize).state == Trim(v1.value.uf)
    ensures Trim(it.bairro) == "" && v1.Some? ==> Enrich(it, v1, sanitize).bairro == Trim(v1.value.bairro)
    ensures Trim(it.cidade) == "" && v1.None? ==> Enrich(it, v1, sanitize).city == ""
  {
  }

  /** The four requests, in tier order. */
  function StreetRequest(f: Query): Params {
    Params(f.street, "", f.city, f.state, Country)
  }

  function StreetBairroRequest(f: Query): Params {
    Params(f.street + " - " + f.bairro, "", f.city, f.state, Country)
  }

  function PostalCityRequest(f: Query): Params {
    Params("", f.cep, f.city, f.state, Country)
  }

  function PostalRequest(f: Query): Params {
    Params("", f.cep, "", "", Country)
  }

  /** One guarded tier in front of the tiers after it: skipped when its guard
      fails, returned on a hit, followed by the rest on a miss. */
  function Tier(guard: bool, mode: string, p: Params, geocode: Geocoder, rest: Outcome): Outcome {
    if !guard then rest
    else
      match geocode(p)
      case Some(h) => Outcome(Some(Located(h.lat, h.lon, h.q, mode)), [p])
      case None => Outcome(rest.result, [p] + rest.calls)
  }

  /** The tier cascade of `geocodeBest` on prepared fields. */
  function Cascade(f: Query, geocode: Geocoder): Outcome {
    Tier(f.street != "" && f.city != "" && f.state != "", ModeStreetNum, StreetRequest(f), geocode,
    Tier(f.street != "" && f.bairro != "" && f.city != "" && f.state != "", ModeStreetNumBairro, StreetBairroRequest(f), geocode,
    Tier(f.cep != "" && f.city != "" && f.state != "", ModePostalCityState, PostalCityRequest(f), geocode,
    Tier(f.cep != "", ModePostalOnly, PostalRequest(f), geocode,
    Outcome(None, [])))))
  }

  /** The tiers whose guards hold, in order: the independent description of
      which requests `geocodeBest` may make. */
  function Eligible(f: Query): (atts: seq<Attempt>)
    ensures |atts| <= 4
  {
    (if f.street != "" && f.city != "" && f.state != "" then [Attempt(ModeStreetNum, StreetRequest(f))] else [])
    + (if f.street != "" && f.bairro != "" && f.city != "" && f.state != "" then [Attempt(ModeStreetNumBairro, StreetBairroRequest(f))] else [])
    + (if f.cep != "" && f.city != "" && f.state != "" then [Attempt(ModePostalCityState, PostalCityRequest(f))] else [])
    + (if f.cep != "" then [Attempt(ModePostalOnly, PostalRequest(f))] else [])
  }

  /** Reference semantics: try the attempts left to right, stop at the first hit. */
  function FirstSuccess(atts: seq<Attempt>, geocode: Geocoder): Outcome {
    if atts == [] then Outcome(None, [])
    else
      match geocode(atts[0].params)
      case Some(h) => Outcome(Some(Located(h.lat, h.lon, h.q, atts[0].mode)), [atts[0].params])
      case None =>
        var rest := FirstSuccess(atts[1..], geocode);
        Outcome(rest.result, [atts[0].params] + rest.calls)
  }

  function Requests(atts: seq<Attempt>): (ps: seq<Params>)
    ensures |ps| == |atts| && forall k :: 0 <= k < |atts| ==> ps[k] == atts[k].params
  {
    if atts == [] then [] else [atts[0].params] + Requests(atts[1..])
  }

  /** The index of the first attempt the geocoder answers, or `|atts|`. */
  function FirstHit(atts: seq<Attempt>, geocode: Geocoder): (k: nat)
    ensures k <= |atts|
    ensures forall j :: 0 <= j < k ==> geocode(atts[j].params).None?
    ensures k < |atts| ==> geocode(atts[k].params).Some?
  {
    if atts == [] || geocode(atts[0].params).Some? then 0 else 1 + FirstHit(atts[1..], geocode)
  }

  /** The located value a hit on attempt `a` gives. */
  function LocatedBy(a: Attempt, h: Hit): Located {
    Located(h.lat, h.lon, h.q, a.mode)
  }

  /** The first-hit semantics spelled out: with `k` the first attempt that
      hits, the requests made are exactly attempts 0..k and the result is
      that hit tagged with attempt `k`'s mode; with no hit every attempt was
      requested (and, by `FirstHit`, every one missed). */
  lemma {:induction false} FirstSuccessMeaning(atts: seq<Attempt>, geocode: Geocoder)
    ensures var k := FirstHit(atts, geocode);
      FirstSuccess(atts, geocode)
        == if k < |atts| then Outcome(Some(LocatedBy(atts[k], geocode(atts[k].params).value)), Requests(atts)[..k + 1])
           else Outcome(None, Requests(atts))
  {
    if atts != [] && geocode(atts[0].params).None? {
      FirstSuccessMeaning(atts[1..], geocode);
      var k := FirstHit(atts[1..], geocode);
      assert atts[1..][..] == atts[1..];
      if k < |atts[1..]| {
        assert atts[1..][k] == atts[k + 1];
        assert ([atts[0].params] + Requests(atts[1..]))[..k + 2] == [atts[0].params] + Requests(atts[1..])[..k + 1];
      }
    }
  }

  lemma TierPrepends(guard: bool, mode: string, p: Params, geocode: Geocoder, atts: seq<Attempt>)
    ensures Tier(guard, mode, p, geocode, FirstSuccess(atts, geocode))
            == FirstSuccess((if guard then [Attempt(mode, p)] else []) + atts, geocode)
  {
    if guard {
      assert ([Attempt(mode, p)] + atts)[1..] == atts;
    } else {
      assert [] + atts == atts;
    }
  }

  /** The cascade is the first success among the eligible tiers, in order:
      a tier is requested only when its guard holds and every eligible tier
      before it missed, and `null` comes back only when every eligible tier
      missed. */
  lemma CascadeIsFirstSuccess(f: Query, geocode: Geocoder)
    ensures Cascade(f, geocode) == FirstSuccess(Eligible(f), geocode)
  {
    var a4 := if f.cep != "" then [Attempt(ModePostalOnly, PostalRequest(f))] else [];
    var a3 := if f.cep != "" && f.city != "" && f.state != "" then [Attempt(ModePostalCityState, PostalCityRequest(f))] else [];
    var a2 := if f.street != "" && f.bairro != "" && f.city != "" && f.state != "" then [Attempt(ModeStreetNumBairro, StreetBairroRequest(f))] else [];
    var a1 := if f.street != "" && f.city != "" && f.state != "" then [Attempt(ModeStreetNum, StreetRequest(f))] else [];
    TierPrepends(f.cep != "", ModePostalOnly, PostalRequest(f), geocode, []);
    assert a4 + [] == a4;
    TierPrepends(f.cep != "" && f.city != "" && f.state != "", ModePostalCityState, PostalCityRequest(f), geocode, a4);
    TierPrepends(f.street != "" && f.bairro != "" && f.city != "" && f.state != "", ModeStreetNumBairro, StreetBairroRequest(f), geocode, a3 + a4);
    TierPrepends(f.street != "" && f.city != "" && f.state != "", ModeStreetNum, StreetRequest(f), geocode, a2 + (a3 + a4));
    assert Eligible(f) == a1 + (a2 + (a3 + a4));
  }

  /** The tier guards, one by one: each tier is eligible exactly when the
      fields it needs are non-blank, and the tiers keep their fixed order. */
  lemma EligibleGuards(f: Query)
    ensures (exists k :: 0 <= k < |Eligible(f)| && Eligible(f)[k].mode == ModeStreetNum)
            <==> f.street != "" && f.city != "" && f.state != ""
    ensures (exists k :: 0 <= k < |Eligible(f)| && Eligible(f)[k].mode == ModeStreetNumBairro)
            <==> f.street != "" && f.bairro != "" && f.city != "" && f.state != ""
    ensures (exists k :: 0 <= k < |Eligible(f)| && Eligible(f)[k].mode == ModePostalCityState)
            <==> f.cep != "" && f.city != "" && f.state != ""
    ensures (exists k :: 0 <= k < |Eligible(f)| && Eligible(f)[k].mode == ModePostalOnly)
            <==> f.cep != ""
    ensures forall j, k :: 0 <= j < k < |Eligible(f)| ==> TierRank(Eligible(f)[j].mode) < TierRank(Eligible(f)[k].mode)
  {
    var e := Eligible(f);
    if f.street != "" && f.city != "" && f.state != "" {
      assert e[0].mode == ModeStreetNum;
    }
    if f.street != "" && f.bairro != "" && f.city != "" && f.state != "" {
      assert e[1].mode == ModeStreetNumBairro;
    }
    if f.cep != "" && f.city != "" && f.state != "" {
      assert e[|e| - 2].mode == ModePostalCityState;
    }
    if f.cep != "" {
      assert e[|e| - 1].mode == ModePostalOnly;
    }
  }

  /** The position of a tier's mode in the fixed order. */
  function TierRank(mode: string): nat {
    if mode == ModeStreetNum then 1
    else if mode == ModeStreetNumBairro then 2
    else if mode == ModePostalCityState then 3
    else if mode == ModePostalOnly then 4
    else 0
  }

  /** An attempt carries one of the four tier tags, and its tag reads as
      approximate exactly when its request has no street. */
  predicate TierTagged(a: Attempt) {
    && a.mode in {ModeStreetNum, ModeStreetNumBairro, ModePostalCityState, ModePostalOnly}
    && (IsApproximate(a.mode) <==> a.params.street == "")
  }

  predicate AllTagged(atts: seq<Attempt>) {
    forall k :: 0 <= k < |atts| ==> TierTagged(atts[k])
  }

  lemma TaggedAppend(a: seq<Attempt>, b: seq<Attempt>)
    requires AllTagged(a) && AllTagged(b)
    ensures AllTagged(a + b)
  {
    forall k | 0 <= k < |a + b| ensures TierTagged((a + b)[k]) {
      if k >= |a| {
        assert (a + b)[k] == b[k - |a|];
      }
    }
  }

  lemma FourTiersTagged(f: Query)
    ensures f.street != "" ==> TierTagged(Attempt(ModeStreetNum, StreetRequest(f)))
    ensures TierTagged(Attempt(ModeStreetNumBairro, StreetBairroRequest(f)))
    ensures TierTagged(Attempt(ModePostalCityState, PostalCityRequest(f)))
    ensures TierTagged(Attempt(ModePostalOnly, PostalRequest(f)))
  {
    assert ModeStreetNum[..10][0] == 's' && ModeStreetNumBairro[..10][0] == 's';
    assert IsApproximate(ModePostalCityState) && IsApproximate(ModePostalOnly);
    assert |f.street + " - " + f.bairro| >= 3;
  }

  /** Every eligible tier carries one of the four tier tags, and its tag
      reads as approximate exactly when its request has no street. */
  lemma EligibleModes(f: Query)
    ensures forall k :: 0 <= k < |Eligible(f)| ==> TierTagged(Eligible(f)[k])
  {
    FourTiersTagged(f);
    var t1 := if f.street != "" && f.city != "" && f.state != "" then [Attempt(ModeStreetNum, StreetRequest(f))] else [];
    var t2 := if f.street != "" && f.bairro != "" && f.city != "" && f.state != "" then [Attempt(ModeStreetNumBairro, StreetBairroRequest(f))] else [];
    var t3 := if f.cep != "" && f.city != "" && f.state != "" then [Attempt(ModePostalCityState, PostalCityRequest(f))] else [];
    var t4 := if f.cep != "" then [Attempt(ModePostalOnly, PostalRequest(f))] else [];
    assert AllTagged(t1) && AllTagged(t2) && AllTagged(t3) && AllTagged(t4);
    TaggedAppend(t1, t2);
    TaggedAppend(t1 + t2, t3);
    TaggedAppend(t1 + t2 + t3, t4);
    assert Eligible(f) == t1 + t2 + t3 + t4;
  }

  /** What the cascade can return: a hit whose mode is one of the four tier
      tags, made by the last request it issued, labelled approximate exactly
      when that request carried no street; or `null` after at most four
      requests that all failed. Without a postal code and without a street
      nothing at all is requested. */
  lemma CascadeResult(f: Query, geocode: Geocoder)
    ensures var o := Cascade(f, geocode);
      && |o.calls| <= 4
      && (o.result.Some? ==>
            && o.result.value.mode in {ModeStreetNum, ModeStreetNumBairro, ModePostalCityState, ModePostalOnly}
            && |o.calls| > 0
            && geocode(o.calls[|o.calls| - 1]).Some?
            && o.result.value.lat == geocode(o.calls[|o.calls| - 1]).value.lat
            && o.result.value.lon == geocode(o.calls[|o.calls| - 1]).value.lon
            && (IsApproximate(o.result.value.mode) <==> o.calls[|o.calls| - 1].street == ""))
      && (o.result.None? ==> forall k :: 0 <= k < |o.calls| ==> geocode(o.calls[k]).None?)
    ensures f.cep == "" && f.street == "" ==> Cascade(f, geocode) == Outcome(None, [])
  {
    var atts := Eligible(f);
    CascadeIsFirstSuccess(f, geocode);
    FirstSuccessMeaning(atts, geocode);
    EligibleModes(f);
  }

  /** `geocodeBest` once the postal lookup has answered (or returned null). */
  function GeocodeBest(it: Item, via: Option<ViaEntry>, sanitize: Sanitizer, geocode: Geocoder): Outcome {
    Cascade(Enrich(it, via, sanitize), geocode)
  }

  /** `String(mode).startsWith("postalcode")`: the popup's approximate label. */
  predicate IsApproximate(mode: string) {
    |"postalcode"| <= |mode| && mode[..|"postalcode"|] == "postalcode"
  }

  /** The label reads only the prefix: the editor's `manual_` modes, a
      cached `cache` and a failed `falha` all read as precise. */
  lemma ManualAndFailedReadPrecise(mode: string)
    ensures !IsApproximate("manual_" + mode)
    ensures !IsApproximate(ModeFailed) && !IsApproximate(ModeCache) && !IsApproximate(ModeManual)
  {
    assert ("manual_" + mode)[0] == 'm';
  }
}
