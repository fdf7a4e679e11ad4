/** Positions of an ever-growing log mapped onto a ring of slots. */
module RingIndex {
  /** Ring slot of a log position (pos & capacity_mask_). */
  function Idx(p: nat, cap: nat): (i: nat)
    requires 0 < cap
    ensures i < cap
  {
    p % cap
  }

  lemma MulAtLeast(a: int, b: int)
    requires a >= 1 && b >= 0
    ensures a * b >= b
  {
    assert a * b == (a - 1) * b + b;
    assert (a - 1) * b >= 0;
  }

  lemma ModUnique(x: nat, cap: nat, q: nat, m: nat)
    requires 0 < cap && x == q * cap + m && m < cap
    ensures x % cap == m
  {
    var d := x / cap;
    assert x == d * cap + x % cap;
    assert (q - d) * cap == x % cap - m;
    if q > d {
      MulAtLeast(q - d, cap);
    } else if d > q {
      MulAtLeast(d - q, cap);
    }
  }

  lemma ModShift(p: nat, cap: nat)
    requires 0 < cap
    ensures Idx(p + cap, cap) == Idx(p, cap)
  {
    var d, m := p / cap, p % cap;
    assert p == d * cap + m;
    assert p + cap == (d + 1) * cap + m;
    ModUnique(p + cap, cap, d + 1, m);
  }

  /** Two positions less than a capacity apart never share a ring slot. */
  lemma ModDistinct(p: nat, q: nat, cap: nat)
    requires 0 < cap && p < q < p + cap
    ensures Idx(p, cap) != Idx(q, cap)
  {
    var d, e := p / cap, q / cap;
    assert p == d * cap + p % cap && q == e * cap + q % cap;
    if p % cap == q % cap {
      assert (e - d) * cap == q - p;
      if e > d {
        MulAtLeast(e - d, cap);
      }
    }
  }
}
