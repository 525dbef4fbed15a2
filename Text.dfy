/** Character classes and string helpers with the meaning JavaScript gives
    them: `\d`, `\w` and `\b` of a regular expression without the `u` flag,
    `String.prototype.trim` and `toUpperCase`. */
module Text {

  /** `\d`: an ASCII decimal digit. */
  predicate IsDigit(c: char) { '0' <= c <= '9' }

  predicate IsAsciiLetter(c: char) { 'a' <= c <= 'z' || 'A' <= c <= 'Z' }

  /** `\w`: the characters a `\b` boundary separates from the others. */
  predicate IsWordChar(c: char) { IsDigit(c) || IsAsciiLetter(c) || c == '_' }

  /** White space and line terminators, the characters `trim` removes. */
  predicate IsSpace(c: char) {
    c == '\t' || c == '\n' || c == '\U{B}' || c == '\U{C}' || c == '\r' || c == ' '
    || c == '\U{A0}' || c == '\U{1680}' || ('\U{2000}' <= c <= '\U{200A}')
    || c == '\U{2028}' || c == '\U{2029}' || c == '\U{202F}' || c == '\U{205F}'
    || c == '\U{3000}' || c == '\U{FEFF}'
  }

  predicate NoSpaceAtEnds(s: string) {
    s == [] || (!IsSpace(s[0]) && !IsSpace(s[|s| - 1]))
  }

  /** How many white-space characters `s` starts with. */
  function LeadingSpace(s: string): (n: nat)
    ensures n <= |s|
    ensures forall k :: 0 <= k < n ==> IsSpace(s[k])
    ensures n < |s| ==> !IsSpace(s[n])
  {
    if s == [] || !IsSpace(s[0]) then 0 else 1 + LeadingSpace(s[1..])
  }

  /** How many white-space characters `s` ends with. */
  function TrailingSpace(s: string): (n: nat)
    ensures n <= |s|
    ensures forall k :: |s| - n <= k < |s| ==> IsSpace(s[k])
    ensures n < |s| ==> !IsSpace(s[|s| - 1 - n])
  {
    if s == [] || !IsSpace(s[|s| - 1]) then 0 else 1 + TrailingSpace(s[..|s| - 1])
  }

  /** `String(v).trim()`, the application's `safeStr`: `s` without its
      leading and trailing white space. */
  function Trim(s: string): (r: string)
    ensures NoSpaceAtEnds(r) && |r| <= |s|
  {
    var a := LeadingSpace(s);
    if a == |s| then []
    else
      var e := |s| - TrailingSpace(s);
      s[a..e]
  }

  /** Trimming keeps the infix of `s` that neither starts nor ends with white
      space and is surrounded only by white space. */
  lemma TrimIsInfix(s: string)
    ensures LeadingSpace(s) + |Trim(s)| <= |s|
    ensures Trim(s) == s[LeadingSpace(s)..LeadingSpace(s) + |Trim(s)|]
    ensures forall k :: 0 <= k < LeadingSpace(s) ==> IsSpace(s[k])
    ensures forall k :: LeadingSpace(s) + |Trim(s)| <= k < |s| ==> IsSpace(s[k])
  {
  }

  lemma TrimOfTrimmed(s: string)
    requires NoSpaceAtEnds(s)
    ensures Trim(s) == s
  {
    if s != [] {
      assert LeadingSpace(s) == 0 && TrailingSpace(s) == 0;
    }
  }

  /** Trimming twice is trimming once. */
  lemma TrimIdempotent(s: string)
    ensures Trim(Trim(s)) == Trim(s)
  {
    TrimOfTrimmed(Trim(s));
  }

  /** A digit is never white space, so a string holding one trims to a
      non-empty string. */
  lemma TrimKeepsDigits(s: string, k: nat)
    requires k < |s| && IsDigit(s[k])
    ensures Trim(s) != []
  {
    TrimIsInfix(s);
  }

  /** `toUpperCase` on the characters it maps one-to-one in ASCII and Latin-1:
      a-z and the lower-case letters U+00E0..U+00FE other than U+00F7. */
  function UpperChar(c: char): char {
    if 'a' <= c <= 'z' then (c as int - 32) as char
    else if '\U{E0}' <= c <= '\U{FE}' && c != '\U{F7}' then (c as int - 32) as char
    else c
  }

  /** `toLowerCase` on the same letters, the other way round. */
  function LowerChar(c: char): char {
    if 'A' <= c <= 'Z' then (c as int + 32) as char
    else if '\U{C0}' <= c <= '\U{DE}' && c != '\U{D7}' then (c as int + 32) as char
    else c
  }

  function ToLower(s: string): (r: string)
    ensures |r| == |s|
    ensures forall k :: 0 <= k < |s| ==> r[k] == LowerChar(s[k])
  {
    seq(|s|, k requires 0 <= k < |s| => LowerChar(s[k]))
  }

  function ToUpper(s: string): (r: string)
    ensures |r| == |s|
    ensures forall k :: 0 <= k < |s| ==> r[k] == UpperChar(s[k])
  {
    seq(|s|, k requires 0 <= k < |s| => UpperChar(s[k]))
  }

  lemma UpperCharIdempotent(c: char)
    ensures UpperChar(UpperChar(c)) == UpperChar(c)
  {
  }

  lemma UpperCharKeepsSpace(c: char)
    ensures IsSpace(UpperChar(c)) == IsSpace(c)
  {
  }

  lemma ToUpperIdempotent(s: string)
    ensures ToUpper(ToUpper(s)) == ToUpper(s)
  {
    var u := ToUpper(s);
    forall k | 0 <= k < |s| ensures ToUpper(u)[k] == u[k] {
      UpperCharIdempotent(s[k]);
    }
  }

  /** Upper-casing a trimmed string adds no white space at its ends, and
      upper-casing it again changes nothing. */
  lemma UpperTrimCanonical(s: string)
    ensures Trim(ToUpper(Trim(s))) == ToUpper(Trim(s))
    ensures ToUpper(ToUpper(Trim(s))) == ToUpper(Trim(s))
  {
    var t := Trim(s);
    if t != [] {
      UpperCharKeepsSpace(t[0]);
      UpperCharKeepsSpace(t[|t| - 1]);
    }
    TrimOfTrimmed(ToUpper(t));
    ToUpperIdempotent(t);
  }

  /** `s.replaceAll(from, to)` for one-character patterns. */
  function ReplaceChar(s: string, from: char, to: char): (r: string)
    ensures |r| == |s|
    ensures forall k :: 0 <= k < |s| ==> r[k] == if s[k] == from then to else s[k]
  {
    seq(|s|, k requires 0 <= k < |s| => if s[k] == from then to else s[k])
  }

  lemma ReplaceAbsentChar(s: string, from: char, to: char)
    requires from !in s
    ensures ReplaceChar(s, from, to) == s
  {
  }

  /** `s.replace(from, "")` for a one-character pattern: only the first
      occurrence goes. */
  function RemoveFirst(s: string, from: char): (r: string)
    ensures from in s ==> |r| == |s| - 1
    ensures from !in s ==> r == s
  {
    if s == [] then []
    else if s[0] == from then s[1..]
    else [s[0]] + RemoveFirst(s[1..], from)
  }
}
