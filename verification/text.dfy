/** The three Python string operations the bank relies on: str.strip() with
    no arguments, str.lower(), and the substring test `needle in hay`. */
module Text {

  /** The code points for which Python's str.isspace() holds; these are what
      str.strip() removes from both ends. */
  predicate IsSpace(c: char) {
    var n := c as int;
    || 9 <= n <= 13
    || 28 <= n <= 32
    || n == 0x85 || n == 0xA0 || n == 0x1680
    || 0x2000 <= n <= 0x200A
    || n == 0x2028 || n == 0x2029 || n == 0x202F || n == 0x205F || n == 0x3000
  }

  /** Every character of s is whitespace (Python's s.isspace(), except
      that it also holds of the empty string). */
  predicate AllSpace(s: string) {
    forall k :: 0 <= k < |s| ==> IsSpace(s[k])
  }

  /** Every character of s from position lo up to hi is whitespace. */
  predicate SpaceBetween(s: string, lo: int, hi: int) {
    forall k :: lo <= k < hi && 0 <= k < |s| ==> IsSpace(s[k])
  }

  /** Neither end of s is whitespace (true of the empty string). */
  predicate Trimmed(s: string) {
    s == [] || (!IsSpace(s[0]) && !IsSpace(s[|s| - 1]))
  }

  /** The first position from i on that is not whitespace, or |s|. */
  function FirstNonSpace(s: string, i: nat): (r: nat)
    requires i <= |s|
    ensures i <= r <= |s|
    ensures SpaceBetween(s, i, r)
    ensures r < |s| ==> !IsSpace(s[r])
    decreases |s| - i
  {
    if i == |s| || !IsSpace(s[i]) then i else FirstNonSpace(s, i + 1)
  }

  /** The end of s[lo..hi] once its trailing whitespace is cut off. */
  function EndNonSpace(s: string, lo: nat, hi: nat): (r: nat)
    requires lo <= hi <= |s|
    ensures lo <= r <= hi
    ensures SpaceBetween(s, r, hi)
    ensures r > lo ==> !IsSpace(s[r - 1])
    decreases hi - lo
  {
    if hi == lo || !IsSpace(s[hi - 1]) then hi else EndNonSpace(s, lo, hi - 1)
  }

  /** Python's s.strip(): s without its leading and trailing whitespace. */
  function Strip(s: string): (r: string)
    ensures Trimmed(r)
    ensures r == [] <==> AllSpace(s)
  {
    var i := FirstNonSpace(s, 0);
    var j := EndNonSpace(s, i, |s|);
    if i == j then
      assert AllSpace(s) by {
        forall k | 0 <= k < |s| ensures IsSpace(s[k]) {
          if k >= i {
            assert SpaceBetween(s, j, |s|);
          }
        }
      }
      []
    else
      assert !AllSpace(s) by {
        assert !IsSpace(s[i]);
      }
      s[i..j]
  }

  /** s is whitespace, then r from position i to j, then whitespace. */
  predicate IsCut(s: string, r: string, i: int, j: int) {
    0 <= i <= j <= |s| && r == s[i..j] && SpaceBetween(s, 0, i) && SpaceBetween(s, j, |s|)
  }

  /** strip() cuts s into whitespace, the result, and whitespace. */
  lemma StripSlice(s: string)
    ensures exists i, j :: IsCut(s, Strip(s), i, j)
  {
    var i := FirstNonSpace(s, 0);
    var j := EndNonSpace(s, i, |s|);
    assert IsCut(s, Strip(s), i, j);
  }

  /** A string that is already trimmed is left alone, so Strip is idempotent. */
  lemma StripTrimmed(s: string)
    requires Trimmed(s)
    ensures Strip(s) == s
  {
    if s != [] {
      assert FirstNonSpace(s, 0) == 0;
      assert EndNonSpace(s, 0, |s|) == |s|;
    }
  }

  lemma StripIdempotent(s: string)
    ensures Strip(Strip(s)) == Strip(s)
  {
    StripTrimmed(Strip(s));
  }

  /** Python's str.lower(), restricted to the ASCII letters. */
  function LowerChar(c: char): char {
    if 'A' <= c <= 'Z' then (c as int + 32) as char else c
  }

  /** Lower-casing keeps the length, leaves no ASCII capital behind, turns
      each capital into its small letter and keeps every other character. */
  function Lower(s: string): (r: string)
    ensures |r| == |s|
    ensures forall i :: 0 <= i < |r| ==> !('A' <= r[i] <= 'Z')
    ensures forall i :: 0 <= i < |s| && 'A' <= s[i] <= 'Z' ==> 'a' <= r[i] <= 'z' && r[i] as int - s[i] as int == 32
    ensures forall i :: 0 <= i < |s| && !('A' <= s[i] <= 'Z') ==> r[i] == s[i]
    ensures forall i :: 0 <= i < |s| ==> r[i] == LowerChar(s[i])
  {
    seq(|s|, i requires 0 <= i < |s| => LowerChar(s[i]))
  }

  /** Lower-casing twice is lower-casing once. */
  lemma LowerIdempotent(s: string)
    ensures Lower(Lower(s)) == Lower(s)
  {
  }

  /** True when needle occurs in hay starting at position i. */
  predicate OccursAt(hay: string, needle: string, i: int) {
    0 <= i && i + |needle| <= |hay| && hay[i..i + |needle|] == needle
  }

  /** Python's `needle in hay` for two strings. */
  function Contains(hay: string, needle: string): (b: bool)
    ensures b <==> exists i :: OccursAt(hay, needle, i)
    decreases |hay|
  {
    if |needle| > |hay| then false
    else if hay[..|needle|] == needle then
      assert OccursAt(hay, needle, 0);
      true
    else
      var b := Contains(hay[1..], needle);
      ShiftOccurrence(hay, needle);
      b
  }

  /** An occurrence in hay other than at position 0 is an occurrence in hay[1..]. */
  lemma ShiftOccurrence(hay: string, needle: string)
    requires hay != []
    requires !OccursAt(hay, needle, 0)
    ensures (exists i :: OccursAt(hay, needle, i)) <==> (exists i :: OccursAt(hay[1..], needle, i))
  {
    forall i | OccursAt(hay, needle, i) ensures OccursAt(hay[1..], needle, i - 1) {
      assert hay[1..][i - 1..i - 1 + |needle|] == hay[i..i + |needle|];
    }
    forall i | OccursAt(hay[1..], needle, i) ensures OccursAt(hay, needle, i + 1) {
      assert hay[1..][i..i + |needle|] == hay[i + 1..i + 1 + |needle|];
    }
  }
}
