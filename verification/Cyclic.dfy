/** Walking around a table of `cap` slots. */
module Cyclic {
  /** Steps from `a` forward to `b`. */
  function Dist(a: nat, b: nat, cap: nat): nat
    requires a < cap && b < cap
  {
    if a <= b then b - a else b + cap - a
  }

  function Next(i: nat, cap: nat): nat
    requires i < cap
  {
    if i + 1 == cap then 0 else i + 1
  }

  /** What the code computes with the mask `cap - 1`. */
  lemma {:induction false} Masked(i: nat, a: nat, b: nat, cap: nat)
    requires i < cap && a < cap && b < cap
    ensures (i + 1) % cap == Next(i, cap)
    ensures (b - a) % cap == Dist(a, b, cap)
  {
    ModIs(i + 1, if i + 1 == cap then 1 else 0, Next(i, cap), cap);
    ModIs(b - a, if a <= b then 0 else -1, Dist(a, b, cap), cap);
  }

  lemma {:induction false} ModIs(x: int, q: int, r: nat, m: nat)
    requires r < m && x == q * m + r
    ensures x % m == r
  {
    var d := x / m;
    assert x == d * m + x % m;
    assert (d - q) * m == r - x % m;
    Multiples(d - q, m);
  }

  lemma {:induction false} Multiples(k: int, m: nat)
    ensures k >= 1 ==> k * m >= m
    ensures k <= -1 ==> k * m <= -(m as int)
  {
  }

  lemma {:induction false} DistNext(h: nat, i: nat, cap: nat)
    requires h < cap && i < cap
    ensures Dist(h, Next(i, cap), cap) == if Next(i, cap) == h then 0 else Dist(h, i, cap) + 1
  {
  }

  /** `x` lies on the way from `h` to `p` just when it is no further from `p` than `h` is. */
  lemma {:induction false} OnTheWay(h: nat, x: nat, p: nat, cap: nat)
    requires h < cap && x < cap && p < cap
    ensures Dist(h, x, cap) <= Dist(h, p, cap) <==> Dist(x, p, cap) <= Dist(h, p, cap)
    ensures Dist(h, x, cap) <= Dist(h, p, cap) ==> Dist(h, p, cap) == Dist(h, x, cap) + Dist(x, p, cap)
  {
  }

  /** Positions less than a lap apart use different slots. */
  lemma {:induction false} SlotsApart(p: nat, q: nat, cap: nat)
    requires p < q < p + cap
    ensures p % cap != q % cap
  {
    assert q - p == (q / cap - p / cap) * cap + (q % cap - p % cap);
    Multiples(q / cap - p / cap, cap);
  }

  ghost predicate PowerOfTwo(n: nat) {
    n == 1 || (n % 2 == 0 && n > 0 && PowerOfTwo(n / 2))
  }

  lemma {:induction false} PowersDivide(a: nat, b: nat) returns (times: nat)
    requires PowerOfTwo(a) && PowerOfTwo(b) && a <= b
    ensures b == times * a
    decreases b
  {
    if a == 1 {
      times := b;
    } else {
      times := PowersDivide(a / 2, b / 2);
      assert b == 2 * (times * (a / 2)) == times * a;
    }
  }
}
