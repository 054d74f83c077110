/** A few facts about sequences that several modules lean on. */
module Seqs {
  lemma SliceOfSlice<T>(s: seq<T>, a: nat, b: nat, i: nat, j: nat)
    requires a <= b <= |s| && i <= j <= b - a
    ensures s[a..b][i..j] == s[a + i..a + j]
  {
    var mid := s[a..b];
    forall k | 0 <= k < j - i ensures mid[i..j][k] == s[a + i..a + j][k] {
      assert mid[i + k] == s[a + i + k];
    }
  }

  lemma JoinSlices<T>(s: seq<T>, a: nat, b: nat, c: nat)
    requires a <= b <= c <= |s|
    ensures s[a..b] + s[b..c] == s[a..c]
  {}
}
