/** A stream cut into consecutive pieces, by their lengths. */
module Cuts {
  function Sum(ns: seq<nat>): nat { if ns == [] then 0 else Sum(ns[..|ns| - 1]) + ns[|ns| - 1] }

  lemma SumMonotone(ns: seq<nat>, n: nat)
    requires n <= |ns|
    ensures Sum(ns[..n]) <= Sum(ns)
    decreases |ns| - n
  {
    if n < |ns| {
      SumMonotone(ns, n + 1);
      assert ns[..n + 1][..n] == ns[..n];
    } else {
      assert ns[..n] == ns;
    }
  }
}
