/** Numbers of rows: how many positions of a list have a property. */
module Counting {

  /** The positions below `n` with the property. */
  function Hits(n: nat, p: nat -> bool): set<nat> { set i: nat | i < n && p(i) }

  function HowMany(n: nat, p: nat -> bool): nat { |Hits(n, p)| }

  lemma OneMore(n: nat, p: nat -> bool)
    ensures HowMany(n + 1, p) == HowMany(n, p) + if p(n) then 1 else 0
  {
    if p(n) {
      assert Hits(n + 1, p) == Hits(n, p) + {n};
      assert n !in Hits(n, p);
    } else {
      assert Hits(n + 1, p) == Hits(n, p);
    }
  }
}
