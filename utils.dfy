/** String helpers of the player: ASCII lower-casing and case-insensitive substring search.
    Strings are sequences of characters; `std::tolower` in the "C" locale only maps 'A'..'Z'. */
module Utils {

  /** `std::tolower` on one character in the "C" locale. */
  function LowerChar(c: char): (r: char)
    ensures !('A' <= r <= 'Z')
    ensures 'A' <= c <= 'Z' ==> r as int == c as int + 32
    ensures !('A' <= c <= 'Z') ==> r == c
  {
    if 'A' <= c <= 'Z' then (c as int + 32) as char else c
  }

  /** `utils::to_lower`: the per-character map of LowerChar. */
  function ToLower(s: string): (r: string)
    ensures |r| == |s|
    ensures forall i :: 0 <= i < |s| ==> r[i] == LowerChar(s[i])
  {
    if s == [] then [] else [LowerChar(s[0])] + ToLower(s[1..])
  }

  lemma ToLowerIdempotent(s: string)
    ensures ToLower(ToLower(s)) == ToLower(s)
  {
    assert forall i :: 0 <= i < |s| ==> ToLower(ToLower(s))[i] == ToLower(s)[i];
  }

  /** Lower-casing commutes with taking a slice. */
  lemma ToLowerSlice(s: string, i: nat, j: nat)
    requires i <= j <= |s|
    ensures ToLower(s[i..j]) == ToLower(s)[i..j]
  {
    var a, b := ToLower(s[i..j]), ToLower(s)[i..j];
    forall k | 0 <= k < j - i
      ensures a[k] == b[k]
    {
      assert a[k] == LowerChar(s[i + k]);
    }
  }

  /** `n` occurs in `h` starting at position `k`. */
  predicate OccursAt(n: string, h: string, k: nat)
  {
    k + |n| <= |h| && h[k..k + |n|] == n
  }

  /** `n` is a contiguous substring of `h`: the reference definition for Find. */
  ghost predicate IsInfix(n: string, h: string)
  {
    exists k: nat :: OccursAt(n, h, k)
  }

  /** `std::string::find(n, from)`: the first position at or after `from` where `n` occurs,
      or -1 for `npos`. */
  function Find(h: string, n: string, from: nat): (r: int)
    decreases |h| - from
    ensures r == -1 || (from <= r && OccursAt(n, h, r))
    ensures r == -1 ==> forall k: nat :: from <= k ==> !OccursAt(n, h, k)
    ensures r >= 0 ==> forall k: nat :: from <= k < r ==> !OccursAt(n, h, k)
  {
    if from + |n| > |h| then -1
    else if h[from..from + |n|] == n then from
    else Find(h, n, from + 1)
  }

  /** `utils::contains_ignore_case`: true iff the lower-cased needle is a substring of the
      lower-cased haystack; the empty needle is found everywhere. */
  function ContainsIgnoreCase(haystack: string, needle: string): (r: bool)
    ensures r <==> IsInfix(ToLower(needle), ToLower(haystack))
  {
    if needle == [] then
      assert OccursAt(ToLower(needle), ToLower(haystack), 0);
      true
    else
      Find(ToLower(haystack), ToLower(needle), 0) != -1
  }

  lemma ContainsEmptyNeedle(haystack: string)
    ensures ContainsIgnoreCase(haystack, "")
  {
  }

  /** Matching ignores the case of both arguments. */
  lemma ContainsIgnoresCase(haystack: string, needle: string)
    ensures ContainsIgnoreCase(ToLower(haystack), ToLower(needle)) == ContainsIgnoreCase(haystack, needle)
  {
    ToLowerIdempotent(haystack);
    ToLowerIdempotent(needle);
  }

  /** A case-insensitive match of a slice of the haystack is found. */
  lemma ContainsSlice(haystack: string, i: nat, j: nat)
    requires i <= j <= |haystack|
    ensures ContainsIgnoreCase(haystack, haystack[i..j])
  {
    ToLowerSlice(haystack, i, j);
    assert OccursAt(ToLower(haystack[i..j]), ToLower(haystack), i);
  }
}
