/** The normalisers that feed both the geocoding queries and the cache keys:
    postal code (CEP), street number and "street, number" line. */
module Normalize {
  import opened Text

  predicate AllDigits(s: string) {
    forall k :: 0 <= k < |s| ==> IsDigit(s[k])
  }

  /** `\b` at position `p`: exactly one of the characters around `p` is a word
      character (a string's ends count as non-word). */
  predicate IsBoundary(s: string, p: nat)
    requires p <= |s|
  {
    (0 < p && IsWordChar(s[p - 1])) != (p < |s| && IsWordChar(s[p]))
  }

  /** `(\d{5})-(\d{3})\b` at `i`: the greedy `-?` takes a hyphen when there is one. */
  predicate HyphenMatch(s: string, i: nat) {
    i + 9 <= |s| && AllDigits(s[i..i + 5]) && s[i + 5] == '-'
    && AllDigits(s[i + 6..i + 9]) && IsBoundary(s, i + 9)
  }

  /** `(\d{5})(\d{3})\b` at `i`: the `-?` matched nothing. */
  predicate PlainMatch(s: string, i: nat) {
    i + 8 <= |s| && AllDigits(s[i..i + 8]) && IsBoundary(s, i + 8)
  }

  /** `\b(\d{5})-?(\d{3})\b` matches at position `i` of `s`. */
  predicate CepMatchAt(s: string, i: nat) {
    i < |s| && IsBoundary(s, i) && (HyphenMatch(s, i) || PlainMatch(s, i))
  }

  /** The two capture groups of a match, written `DDDDD-DDD`. */
  function CepGroups(s: string, i: nat): (r: string)
    requires CepMatchAt(s, i)
  {
    if HyphenMatch(s, i) then s[i..i + 5] + "-" + s[i + 6..i + 9]
    else s[i..i + 5] + "-" + s[i + 5..i + 8]
  }

  /** The canonical postal code: five digits, a hyphen and three digits. */
  predicate IsCepFormat(r: string) {
    |r| == 9 && AllDigits(r[..5]) && r[5] == '-' && AllDigits(r[6..])
  }

  lemma CepGroupsFormat(s: string, i: nat)
    requires CepMatchAt(s, i)
    ensures IsCepFormat(CepGroups(s, i))
  {
    var r := CepGroups(s, i);
    if HyphenMatch(s, i) {
      assert r == s[i..i + 5] + "-" + s[i + 6..i + 9];
      assert r[..5] == s[i..i + 5] && r[5] == '-' && r[6..] == s[i + 6..i + 9];
    } else {
      var d := s[i..i + 8];
      assert r == d[..5] + "-" + d[5..];
      forall k | 0 <= k < 5 ensures IsDigit(r[k]) {
        assert r[k] == d[k];
      }
      forall k | 6 <= k < 9 ensures IsDigit(r[k]) {
        assert r[k] == d[k - 1];
      }
    }
  }

  /** Where the regular-expression search succeeds first, trying start
      positions from `from` upwards; `|s|` when it fails everywhere. */
  function FirstCepMatch(s: string, from: nat): (i: nat)
    requires from <= |s|
    decreases |s| - from
    ensures from <= i <= |s|
    ensures i < |s| ==> CepMatchAt(s, i)
    ensures forall k :: from <= k < i ==> !CepMatchAt(s, k)
  {
    if from == |s| then |s|
    else if CepMatchAt(s, from) then from
    else FirstCepMatch(s, from + 1)
  }

  /** `normalizeCEP`: the leftmost postal code in the trimmed input, as
      `DDDDD-DDD`, or `""` when there is none. */
  function NormalizeCEP(v: string): (r: string)
    ensures r == "" || IsCepFormat(r)
  {
    var s := Trim(v);
    var i := FirstCepMatch(s, 0);
    if i < |s| then
      CepGroupsFormat(s, i);
      CepGroups(s, i)
    else ""
  }

  /** `normalizeCEP` gives `""` exactly when the trimmed input holds no
      match, and otherwise the groups of the leftmost match. */
  lemma NormalizeCEPLeftmost(v: string)
    ensures var s := Trim(v);
      && (NormalizeCEP(v) == "" <==> forall i :: 0 <= i < |s| ==> !CepMatchAt(s, i))
      && (NormalizeCEP(v) != "" ==>
            exists i :: 0 <= i < |s| && CepMatchAt(s, i) && NormalizeCEP(v) == CepGroups(s, i)
                        && forall k :: 0 <= k < i ==> !CepMatchAt(s, k))
  {
    var s := Trim(v);
    var i := FirstCepMatch(s, 0);
    if i < |s| {
      CepGroupsFormat(s, i);
    }
  }

  /** A canonical postal code normalises to itself. */
  lemma NormalizeCEPOfCanonical(r: string)
    requires IsCepFormat(r)
    ensures NormalizeCEP(r) == r
  {
    assert IsDigit(r[0]) && IsDigit(r[8]) by {
      assert r[0] == r[..5][0];
      assert r[8] == r[6..][2];
    }
    TrimOfTrimmed(r);
    assert HyphenMatch(r, 0) by {
      assert r[0..5] == r[..5];
      assert r[6..9] == r[6..];
    }
    assert CepMatchAt(r, 0);
    assert r == r[0..5] + "-" + r[6..9];
  }

  /** `normalizeCEP` is idempotent. */
  lemma NormalizeCEPIdempotent(v: string)
    ensures NormalizeCEP(NormalizeCEP(v)) == NormalizeCEP(v)
  {
    var r := NormalizeCEP(v);
    if r != "" {
      NormalizeCEPOfCanonical(r);
    }
  }

  lemma MatchStartsWithDigit(s: string, k: nat)
    requires CepMatchAt(s, k)
    ensures IsDigit(s[k])
  {
    assert s[k] == s[k..k + 5][0];
  }

  /** The regular expression matches a canonical or eight-digit code `code`
      standing at `n` between non-word characters. */
  lemma MatchAtCode(s: string, n: nat, code: string)
    requires IsCepFormat(code) || (|code| == 8 && AllDigits(code))
    requires n + |code| <= |s| && s[n..n + |code|] == code
    requires n == 0 || !IsWordChar(s[n - 1])
    requires n + |code| == |s| || !IsWordChar(s[n + |code|])
    ensures CepMatchAt(s, n)
    ensures CepGroups(s, n) == code[..5] + "-" + code[|code| - 3..]
  {
    assert s[n] == code[0];
    assert IsDigit(code[0]) by {
      if IsCepFormat(code) { assert code[0] == code[..5][0]; }
    }
    assert s[n..n + 5] == code[..5];
    if IsCepFormat(code) {
      assert s[n + 5] == code[5];
      assert s[n + 6..n + 9] == code[6..];
      assert IsDigit(s[n + 8]) by { assert s[n + 8] == code[6..][2]; }
      assert HyphenMatch(s, n);
    } else {
      assert s[n..n + 8] == code;
      assert s[n + 5] == code[5];
      assert IsDigit(s[n + 7]);
      assert PlainMatch(s, n);
      assert !HyphenMatch(s, n);
      assert s[n + 5..n + 8] == code[5..];
    }
  }

  /** A postal code written in a longer text, after a prefix holding no digit
      and ending in a non-word character, and before a suffix starting with a
      non-word character, is the one found. */
  lemma NormalizeCEPFindsCode(pre: string, code: string, post: string)
    requires IsCepFormat(code) || (|code| == 8 && AllDigits(code))
    requires forall k :: 0 <= k < |pre| ==> !IsDigit(pre[k])
    requires pre == [] || !IsWordChar(pre[|pre| - 1])
    requires post == [] || !IsWordChar(post[0])
    requires NoSpaceAtEnds(pre + code + post)
    ensures NormalizeCEP(pre + code + post) == code[..5] + "-" + code[|code| - 3..]
  {
    var s := pre + code + post;
    TrimOfTrimmed(s);
    var n := |pre|;
    forall k | 0 <= k < n ensures !CepMatchAt(s, k) {
      assert s[k] == pre[k];
      if CepMatchAt(s, k) { MatchStartsWithDigit(s, k); }
    }
    assert s[n..n + |code|] == code;
    assert n > 0 ==> s[n - 1] == pre[n - 1];
    assert n + |code| < |s| ==> s[n + |code|] == post[0];
    MatchAtCode(s, n, code);
    assert FirstCepMatch(s, 0) == n;
  }

  /** `cepDigits`: the eight digits of the normalised postal code, or `""`. */
  function CepDigits(cep: string): (r: string)
    ensures r == "" <==> NormalizeCEP(cep) == ""
    ensures r == "" || (|r| == 8 && AllDigits(r))
  {
    var c := NormalizeCEP(cep);
    if c == "" then ""
    else
      var r := RemoveFirst(c, '-');
      assert c == c[..5] + "-" + c[6..];
      assert '-' !in c[..5];
      RemoveFirstAfter(c[..5], '-', c[6..]);
      assert r[..5] == c[..5];
      r
  }

  lemma {:induction false} RemoveFirstAfter(a: string, x: char, b: string)
    requires x !in a
    ensures RemoveFirst(a + [x] + b, x) == a + b
  {
    if a != [] {
      assert (a + [x] + b)[1..] == a[1..] + [x] + b;
      RemoveFirstAfter(a[1..], x, b);
      assert [a[0]] + (a[1..] + b) == a + b;
    }
  }

  /** Characters of the street-number token, `[0-9A-Za-z./-]`. */
  predicate IsNumeroChar(c: char) {
    IsDigit(c) || IsAsciiLetter(c) || c == '.' || c == '-' || c == '/'
  }

  /** Index of the leftmost digit of `s`, or `|s|` when it holds none. */
  function FirstDigit(s: string): (i: nat)
    ensures i <= |s|
    ensures forall k :: 0 <= k < i ==> !IsDigit(s[k])
    ensures i < |s| ==> IsDigit(s[i])
  {
    if s == [] then 0
    else if IsDigit(s[0]) then 0
    else 1 + FirstDigit(s[1..])
  }

  /** End of the longest run of token characters that starts at `i` (the
      greedy `*`). */
  function TokenEnd(s: string, i: nat): (j: nat)
    requires i <= |s|
    decreases |s| - i
    ensures i <= j <= |s|
    ensures forall k :: i <= k < j ==> IsNumeroChar(s[k])
    ensures j < |s| ==> !IsNumeroChar(s[j])
  {
    if i == |s| || !IsNumeroChar(s[i]) then i else TokenEnd(s, i + 1)
  }

  /** `cleanNumero`: the leftmost token of the trimmed input that starts with
      a digit and runs over `[0-9A-Za-z./-]`, or `""` when there is no digit. */
  function CleanNumero(v: string): (r: string)
    ensures r != "" ==> IsDigit(r[0])
    ensures forall k :: 0 <= k < |r| ==> IsNumeroChar(r[k])
  {
    var s := Trim(v);
    if s == "" then ""
    else
      var i := FirstDigit(s);
      if i == |s| then ""
      else ReplaceChar(s[i..TokenEnd(s, i)], ',', '.')
  }

  /** `cleanNumero` is `""` exactly when the trimmed input holds no digit;
      otherwise it is the maximal token run starting at the leftmost digit. */
  lemma CleanNumeroLeftmost(v: string)
    ensures var s := Trim(v);
      && (CleanNumero(v) == "" <==> forall k :: 0 <= k < |s| ==> !IsDigit(s[k]))
      && (CleanNumero(v) != "" ==>
            var i := FirstDigit(s);
            i < |s| && CleanNumero(v) == s[i..TokenEnd(s, i)])
  {
    var s := Trim(v);
    var i := FirstDigit(s);
    if i < |s| {
      assert IsNumeroChar(s[i]);
      var t := s[i..TokenEnd(s, i)];
      assert ReplaceChar(t, ',', '.') == t;
    }
  }

  /** The token never holds a comma, so the `replaceAll(",", ".")` the source
      applies to it changes nothing. */
  lemma CleanNumeroHasNoComma(v: string)
    ensures ',' !in CleanNumero(v)
  {
  }

  /** A number already cleaned is its own clean form. */
  lemma CleanNumeroIdempotent(v: string)
    ensures CleanNumero(CleanNumero(v)) == CleanNumero(v)
  {
    var r := CleanNumero(v);
    if r != "" {
      assert IsNumeroChar(r[|r| - 1]);
      assert NoSpaceAtEnds(r);
      TrimOfTrimmed(r);
      assert FirstDigit(r) == 0;
      TokenEndAll(r, 0);
      assert r[0..|r|] == r;
      CleanNumeroHasNoComma(v);
      ReplaceAbsentChar(r, ',', '.');
    }
  }

  lemma {:induction false} TokenEndAll(s: string, i: nat)
    requires i <= |s|
    requires forall k :: i <= k < |s| ==> IsNumeroChar(s[k])
    decreases |s| - i
    ensures TokenEnd(s, i) == |s|
  {
    if i < |s| {
      TokenEndAll(s, i + 1);
    }
  }

  /** `buildStreet`: `"<street>, <number>"` from the sanitised street line and
      the cleaned number, whichever half is present, or `""`. The street-line
      sanitiser is a parameter. */
  function BuildStreet(logradouro: string, numero: string, sanitize: string -> string): (r: string)
    ensures var log := sanitize(logradouro);
      var num := CleanNumero(numero);
      && (r == "" <==> log == "" && num == "")
      && (log != "" && num != "" ==> r == log + ", " + num)
      && (log == "" ==> r == num)
      && (num == "" ==> r == log)
  {
    var log := sanitize(logradouro);
    var num := CleanNumero(numero);
    if log == "" && num == "" then ""
    else if log != "" && num != "" then log + ", " + num
    else if log != "" then log
    else num
  }
}
