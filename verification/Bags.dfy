/** Multisets with one element more or less. */
module Bags {

  /** One x less. */
  function Take(m: multiset<nat>, x: nat): multiset<nat> {
    m - multiset{x}
  }

  /** One x more. */
  function With(m: multiset<nat>, x: nat): multiset<nat> {
    m + multiset{x}
  }
}
