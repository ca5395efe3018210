/** Products as repeated sums. */
module Products {
  /** n times `each`. */
  function Times(n: nat, each: nat): nat {
    if n == 0 then 0 else Times(n - 1, each) + each
  }

  lemma {:induction false} TimesIsProduct(n: nat, each: nat)
    ensures Times(n, each) == n * each
  {
    if n > 0 {
      TimesIsProduct(n - 1, each);
      assert n * each == (n - 1) * each + each;
    }
  }

  lemma {:induction false} TimesGrows(n: nat, cap: nat, each: nat)
    requires n <= cap
    ensures Times(n, each) <= Times(cap, each)
  {
    if n < cap {
      TimesGrows(n, cap - 1, each);
    }
  }
}
