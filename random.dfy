/**
 * The random source. The source draws from a seeded `StdRng` through
 * `rand::distributions::Range`; here the generator is an abstract stream of
 * unit draws `rng(0), rng(1), ...`, each in [0, 1), and a caller keeps the
 * position of the next unread draw. `Range::new(lo, hi).sample(rng)` is the
 * affine image of one unit draw.
 */
module Random {
  import opened Numeric

  /** Every draw of the stream lies in [0, 1). */
  ghost predicate UnitDraws(rng: nat -> real) {
    forall k {:trigger rng(k)} :: 0.0 <= rng(k) < 1.0
  }

  /**
   * The same stream read as indices: `pick(k, n)` is draw `k` used as
   * `gen_range(0, n + 1)`, an index in `[0, n]`.
   */
  ghost predicate IndexDraws(pick: (nat, nat) -> nat) {
    forall k, n {:trigger pick(k, n)} :: pick(k, n) <= n
  }

  lemma SampleAbove(lo: real, hi: real, u: real)
    requires lo < hi && 0.0 <= u < 1.0
    ensures lo <= lo + (hi - lo) * u
  {
    var w := hi - lo;
    assert 0.0 <= w * u;
    assert w * u == (hi - lo) * u;
  }

  lemma SampleBelow(lo: real, hi: real, u: real)
    requires lo < hi && 0.0 <= u < 1.0
    ensures lo + (hi - lo) * u < hi
  {
    Cancel(1.0, u, hi - lo);
  }

  /** `Range::new(lo, hi).sample(..)` applied to the unit draw `u`. */
  function Sample(lo: real, hi: real, u: real): (r: real)
    requires lo < hi && 0.0 <= u < 1.0
    ensures lo <= r < hi
    ensures u == 0.0 ==> r == lo
  {
    SampleAbove(lo, hi, u);
    SampleBelow(lo, hi, u);
    lo + (hi - lo) * u
  }
}
