/** The geocode-cache key: six canonical address fields joined with `::`
    and cut to 420 characters. */
module CacheKey {
  import opened Text
  import opened Normalize
  import opened Records

  const KeyLimit := 420

  /** The six fields after normalisation, in key order. */
  datatype KeyFields = KeyFields(cep: string, num: string, uf: string, city: string, end: string, bairro: string)

  function Canonical(it: Item): (f: KeyFields)
    ensures f.cep == "" || IsCepFormat(f.cep)
    ensures ':' !in f.cep && ':' !in f.num
  {
    CepHasNoColon(it.cep);
    NumeroHasNoColon(it.numero);
    KeyFields(NormalizeCEP(it.cep), CleanNumero(it.numero), ToUpper(Trim(it.uf)),
              ToUpper(Trim(it.cidade)), ToUpper(Trim(it.endereco)), ToUpper(Trim(it.bairro)))
  }

  lemma CepHasNoColon(v: string)
    ensures ':' !in NormalizeCEP(v)
  {
    var c := NormalizeCEP(v);
    if c != "" {
      assert c == c[..5] + [c[5]] + c[6..];
    }
  }

  lemma NumeroHasNoColon(v: string)
    ensures ':' !in CleanNumero(v)
  {
    var n := CleanNumero(v);
    assert forall k :: 0 <= k < |n| ==> IsNumeroChar(n[k]);
  }

  function Joined(f: KeyFields): string {
    f.cep + "::" + f.num + "::" + f.uf + "::" + f.city + "::" + f.end + "::" + f.bairro
  }

  /** `makeCacheKey`: never longer than 420 characters, a prefix of the
      joined canonical fields, and all of them when they fit. */
  function MakeCacheKey(it: Item): (r: string)
    ensures |r| <= KeyLimit
    ensures var full := Joined(Canonical(it));
      |r| == (if |full| <= KeyLimit then |full| else KeyLimit) && r == full[..|r|]
  {
    var full := Joined(Canonical(it));
    var n := if |full| <= KeyLimit then |full| else KeyLimit;
    full[..n]
  }

  /** The key reads the six address fields only: records that differ in
      name, complement, head count, coordinates or mode share their key. */
  lemma KeyIgnoresOtherFields(a: Item, b: Item)
    requires a.cep == b.cep && a.numero == b.numero && a.uf == b.uf
    requires a.cidade == b.cidade && a.endereco == b.endereco && a.bairro == b.bairro
    ensures MakeCacheKey(a) == MakeCacheKey(b)
  {
  }

  /** Writing fields in the form the correction editor stores them in
      (normalised postal code, trimmed and upper-cased state, trimmed
      text) leaves the key as it is. */
  lemma KeyOfNormalizedFields(it: Item)
    ensures MakeCacheKey(it.(cep := NormalizeCEP(it.cep), uf := ToUpper(Trim(it.uf)),
                             cidade := Trim(it.cidade), endereco := Trim(it.endereco),
                             bairro := Trim(it.bairro), numero := Trim(it.numero)))
            == MakeCacheKey(it)
  {
    var it2 := it.(cep := NormalizeCEP(it.cep), uf := ToUpper(Trim(it.uf)),
                   cidade := Trim(it.cidade), endereco := Trim(it.endereco),
                   bairro := Trim(it.bairro), numero := Trim(it.numero));
    NormalizeCEPIdempotent(it.cep);
    UpperTrimCanonical(it.uf);
    TrimIdempotent(it.cidade);
    TrimIdempotent(it.endereco);
    TrimIdempotent(it.bairro);
    CleanNumeroOfTrimmed(it.numero);
    assert Canonical(it2) == Canonical(it);
  }

  lemma CleanNumeroOfTrimmed(v: string)
    ensures CleanNumero(Trim(v)) == CleanNumero(v)
  {
    TrimIdempotent(v);
  }

  /** Index of the first `:` of `x`, or `|x|` when it has none. */
  function ColonAt(x: string): (n: nat)
    ensures n <= |x|
  {
    if x == [] || x[0] == ':' then 0 else 1 + ColonAt(x[1..])
  }

  lemma {:induction false} ColonAfterField(a: string, b: string)
    requires ':' !in a
    ensures ColonAt(a + "::" + b) == |a|
  {
    if a != [] {
      assert (a + "::" + b)[1..] == a[1..] + "::" + b;
      ColonAfterField(a[1..], b);
    }
  }

  lemma SplitAtSeparator(a: string, b: string, c: string, d: string)
    requires ':' !in a && ':' !in c
    requires a + "::" + b == c + "::" + d
    ensures a == c && b == d
  {
    var x := a + "::" + b;
    ColonAfterField(a, b);
    ColonAfterField(c, d);
    assert a == x[..|a|] == c;
    assert b == x[|a| + 2..] == d;
  }

  /** Equal joined fields have the same postal code and street number. */
  lemma JoinedSameCepAndNumber(fa: KeyFields, fb: KeyFields)
    requires ':' !in fa.cep && ':' !in fa.num && ':' !in fb.cep && ':' !in fb.num
    requires Joined(fa) == Joined(fb)
    ensures fa.cep == fb.cep && fa.num == fb.num
  {
    var ra := fa.uf + "::" + fa.city + "::" + fa.end + "::" + fa.bairro;
    var rb := fb.uf + "::" + fb.city + "::" + fb.end + "::" + fb.bairro;
    assert Joined(fa) == fa.cep + "::" + (fa.num + "::" + ra);
    assert Joined(fb) == fb.cep + "::" + (fb.num + "::" + rb);
    SplitAtSeparator(fa.cep, fa.num + "::" + ra, fb.cep, fb.num + "::" + rb);
    SplitAtSeparator(fa.num, ra, fb.num, rb);
  }

  /** Two keys that were not cut short and are equal come from the same
      postal code and the same street number: neither field can hold the
      separator. */
  lemma EqualKeysSameCepAndNumber(a: Item, b: Item)
    requires |Joined(Canonical(a))| <= KeyLimit && |Joined(Canonical(b))| <= KeyLimit
    requires MakeCacheKey(a) == MakeCacheKey(b)
    ensures NormalizeCEP(a.cep) == NormalizeCEP(b.cep)
    ensures CleanNumero(a.numero) == CleanNumero(b.numero)
  {
    var fa, fb := Canonical(a), Canonical(b);
    assert Joined(fa) == Joined(fb) by {
      KeyWhole(a);
      KeyWhole(b);
    }
    JoinedSameCepAndNumber(fa, fb);
    assert fa.cep == NormalizeCEP(a.cep) && fb.cep == NormalizeCEP(b.cep);
    assert fa.num == CleanNumero(a.numero) && fb.num == CleanNumero(b.numero);
  }

  lemma KeyWhole(it: Item)
    requires |Joined(Canonical(it))| <= KeyLimit
    ensures MakeCacheKey(it) == Joined(Canonical(it))
  {
  }
}
