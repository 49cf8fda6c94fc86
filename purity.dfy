/** Normalisation of purity strings to ranks (fetchData.ts, PURITY_MAP and normalizePurity). */
module Purity {
  import opened Wrappers

  /** The lookup table; its keys are lower case. */
  const PurityMap: map<string, int> := map["impure" := 1, "normal" := 2, "pure" := 3]

  predicate IsUpper(c: char) { 'A' <= c <= 'Z' }
  predicate IsLower(c: char) { 'a' <= c <= 'z' }

  function LowerChar(c: char): char
  {
    if IsUpper(c) then (c as int + 32) as char else c
  }

  function UpperChar(c: char): char
  {
    if IsLower(c) then (c as int - 32) as char else c
  }

  /** `String.prototype.toLowerCase`, restricted to the ASCII letters: no other
      character lowercases to a single ASCII letter that occurs in the keys. */
  function ToLower(s: string): (r: string)
    ensures |r| == |s|
    ensures forall i :: 0 <= i < |s| ==> !IsUpper(r[i])
    ensures forall i :: 0 <= i < |s| && IsUpper(s[i]) ==> UpperChar(r[i]) == s[i]
    ensures forall i :: 0 <= i < |s| && !IsUpper(s[i]) ==> r[i] == s[i]
  {
    seq(|s|, i requires 0 <= i < |s| => LowerChar(s[i]))
  }

  /** `s` spells the lower-case word `key` in any mixture of letter cases. */
  predicate CaseVariantOf(s: string, key: string)
  {
    |s| == |key| && forall i :: 0 <= i < |s| ==> s[i] == key[i] || s[i] == UpperChar(key[i])
  }

  predicate AllLower(key: string)
  {
    forall i :: 0 <= i < |key| ==> IsLower(key[i])
  }

  /** Lowercasing gives a lower-case key exactly when the input is a case variant of it. */
  lemma ToLowerIsKey(s: string, key: string)
    requires AllLower(key)
    ensures ToLower(s) == key <==> CaseVariantOf(s, key)
  {
  }

  /** normalizePurity: the rank of a purity given in any letter case; `None` for a
      missing or empty string and for every string not in the table. Never fails. */
  function NormalizePurity(purity: Option<string>): (r: Option<int>)
    ensures r == Some(1) <==> purity.Some? && CaseVariantOf(purity.value, "impure")
    ensures r == Some(2) <==> purity.Some? && CaseVariantOf(purity.value, "normal")
    ensures r == Some(3) <==> purity.Some? && CaseVariantOf(purity.value, "pure")
    ensures r.None? <==>
              purity.None?
              || !(CaseVariantOf(purity.value, "impure")
                   || CaseVariantOf(purity.value, "normal")
                   || CaseVariantOf(purity.value, "pure"))
  {
    if purity.None? || purity.value == "" then
      None
    else
      var normalized := ToLower(purity.value);
      ToLowerIsKey(purity.value, "impure");
      ToLowerIsKey(purity.value, "normal");
      ToLowerIsKey(purity.value, "pure");
      if normalized in PurityMap then Some(PurityMap[normalized]) else None
  }
}
