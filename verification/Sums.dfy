/** Sums of sequences whose neighbours are jointly large: the counting argument
    behind both the packing of batches and the number of UDP packets. */
module Sums {

  function Sum(s: seq<int>): int {
    if s == [] then 0 else s[0] + Sum(s[1..])
  }

  /** Pairing neighbours: if any two neighbours total at least `c`, the whole
      totals at least `c` for every disjoint pair. */
  lemma {:induction false} PairsBoundSum(s: seq<int>, c: int)
    requires forall i :: 0 <= i < |s| ==> s[i] >= 0
    requires forall i :: 0 <= i < |s| - 1 ==> s[i] + s[i + 1] >= c
    ensures Sum(s) >= |s| / 2 * c
  {
    if |s| >= 2 {
      var t := s[2..];
      forall i | 0 <= i < |t| - 1
        ensures t[i] + t[i + 1] >= c
      {
        assert s[i + 2] + s[i + 2 + 1] >= c;
      }
      PairsBoundSum(t, c);
      assert s[1..][1..] == t;
      assert Sum(s) == s[0] + s[1] + Sum(t);
      assert s[0] + s[0 + 1] >= c;
      assert (|t| / 2 + 1) * c == |t| / 2 * c + c;
    } else if |s| == 1 {
      assert Sum(s) == s[0] + Sum(s[1..]);
    }
  }
}
