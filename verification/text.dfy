/** Upper-casing of names, as Python's `str.upper` does it on ASCII letters. */
module Text {

  predicate IsLower(c: char) { 'a' <= c <= 'z' }

  predicate IsUpper(c: char) { 'A' <= c <= 'Z' }

  /** Distance between a lower-case ASCII letter and its upper-case form. */
  const CaseOffset: int := 'a' as int - 'A' as int

  function UpperChar(c: char): (u: char)
    ensures !IsLower(u)
    ensures IsLower(c) ==> IsUpper(u) && u as int + CaseOffset == c as int
    ensures !IsLower(c) ==> u == c
  {
    if IsLower(c) then (c as int - CaseOffset) as char else c
  }

  /** Two characters agree once case is ignored. */
  predicate SameIgnoringCase(c: char, d: char) {
    c == d
    || (IsLower(c) && d as int + CaseOffset == c as int)
    || (IsLower(d) && c as int + CaseOffset == d as int)
  }

  /** `name.upper()`: lower-case letters become upper-case, every other
      character is kept, and the length does not change. */
  function ToUpper(s: string): (u: string)
    ensures |u| == |s|
    ensures forall i :: 0 <= i < |u| ==> !IsLower(u[i])
    ensures forall i :: 0 <= i < |s| ==> SameIgnoringCase(s[i], u[i])
    ensures forall i :: 0 <= i < |s| && !IsLower(s[i]) ==> u[i] == s[i]
  {
    if s == [] then [] else [UpperChar(s[0])] + ToUpper(s[1..])
  }

  /** Upper-casing an upper-cased name changes nothing. */
  lemma ToUpperIdempotent(s: string)
    ensures ToUpper(ToUpper(s)) == ToUpper(s)
  {
  }

  /** Names that differ only in letter case upper-case to the same name, so a
      type stored under its upper-cased name is found whatever case the
      reference uses. */
  lemma {:induction false} ToUpperIgnoresCase(a: string, b: string)
    requires |a| == |b|
    requires forall i :: 0 <= i < |a| ==> SameIgnoringCase(a[i], b[i])
    ensures ToUpper(a) == ToUpper(b)
  {
    if a != [] {
      ToUpperIgnoresCase(a[1..], b[1..]);
    }
  }

  /** Conversely, names that upper-case to the same name differ only in case. */
  lemma SameUpperMeansSameIgnoringCase(a: string, b: string)
    requires ToUpper(a) == ToUpper(b)
    ensures |a| == |b|
    ensures forall i :: 0 <= i < |a| ==> SameIgnoringCase(a[i], b[i])
  {
    forall i | 0 <= i < |a|
      ensures SameIgnoringCase(a[i], b[i])
    {
      SharedUpperChar(a[i], b[i], ToUpper(a)[i]);
    }
  }

  /** Two characters that both agree with the same non-lower-case character
      when case is ignored agree with each other. */
  lemma SharedUpperChar(c: char, d: char, u: char)
    requires !IsLower(u)
    requires SameIgnoringCase(c, u) && SameIgnoringCase(d, u)
    ensures SameIgnoringCase(c, d)
  {
  }
}
