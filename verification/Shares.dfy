/** Shares of a real quantity: the only products and quotients of variables the quotes need. The
    product is named, so that each proof sees only the laws it asks for. */
module Shares {
  function Times(x: real, y: real): real {
    x * y
  }

  lemma {:induction false} TimesUnits(x: real)
    ensures Times(x, 0.0) == 0.0 && Times(0.0, x) == 0.0 && Times(x, 1.0) == x && Times(1.0, x) == x
  {
  }

  lemma {:induction false} TimesCommutes(x: real, y: real)
    ensures Times(x, y) == Times(y, x)
  {
  }

  lemma {:induction false} TimesMinus(x: real, y: real, k: real)
    ensures Times(x - y, k) == Times(x, k) - Times(y, k)
  {
  }

  lemma {:induction false} TimesPositive(x: real, y: real)
    requires x > 0.0 && y > 0.0
    ensures Times(x, y) > 0.0
  {
  }

  lemma {:induction false} NonNegative(d: real, w: real)
    requires Times(d, w) >= 0.0 && w > 0.0
    ensures d >= 0.0
  {
    hide Times;
    TimesUnits(w);
    TimesMinus(0.0, d, w);
    if d < 0.0 {
      TimesPositive(0.0 - d, w);
    }
  }

  lemma {:induction false} Scale(k: real, x: real, y: real)
    requires k >= 0.0 && x <= y
    ensures Times(k, x) <= Times(k, y)
  {
    hide Times;
    TimesCommutes(k, x);
    TimesCommutes(k, y);
    TimesMinus(y, x, k);
    if k == 0.0 {
      TimesUnits(x);
      TimesUnits(y);
    } else if x < y {
      TimesPositive(y - x, k);
    }
  }

  /** The share of `w` that `x` is. */
  function Share(x: real, w: real): (share: real)
    requires w > 0.0
    ensures Times(share, w) == x
  {
    x / w
  }

  lemma {:induction false} SharesOrdered(x: real, y: real, w: real)
    requires x <= y && w > 0.0
    ensures Share(x, w) <= Share(y, w)
  {
    hide Share, Times;
    TimesMinus(Share(y, w), Share(x, w), w);
    NonNegative(Share(y, w) - Share(x, w), w);
  }

  lemma {:induction false} ShareWithin(x: real, w: real)
    requires 0.0 <= x <= w && w > 0.0
    ensures 0.0 <= Share(x, w) <= 1.0
  {
    hide Share, Times;
    NonNegative(Share(x, w), w);
    TimesUnits(w);
    TimesMinus(1.0, Share(x, w), w);
    NonNegative(1.0 - Share(x, w), w);
  }

  /** The share `x / w` of `n`. */
  function Portion(x: real, w: real, n: real): real
    requires w > 0.0
  {
    Times(n, Share(x, w))
  }

  /** It is what taking the share out of the rest of `w` leaves of `x`. */
  lemma {:induction false} PortionLeft(x: real, w: real, n: real)
    requires w > 0.0
    ensures x - Times(w - n, Share(x, w)) == Portion(x, w, n)
  {
    hide Share, Times;
    TimesMinus(w, n, Share(x, w));
    TimesCommutes(w, Share(x, w));
  }

  /** It is at most `n` and at most `x`, and at least what taking all the rest of `w` out of `x`
      would leave. */
  lemma {:induction false} PortionBounds(x: real, w: real, n: real)
    requires 0.0 <= x <= w && 0.0 <= n < w
    ensures 0.0 <= Portion(x, w, n) <= n && Portion(x, w, n) <= x && x - (w - n) <= Portion(x, w, n)
  {
    hide Share, Times;
    var share := Share(x, w);
    ShareWithin(x, w);
    PortionLeft(x, w, n);
    TimesUnits(n);
    Scale(n, 0.0, share);
    Scale(n, share, 1.0);
    TimesUnits(w - n);
    Scale(w - n, 0.0, share);
    Scale(w - n, share, 1.0);
  }

  lemma {:induction false} PortionsOrdered(x: real, y: real, w: real, n: real)
    requires x <= y && w > 0.0 && n >= 0.0
    ensures Portion(x, w, n) <= Portion(y, w, n)
  {
    hide Share, Times;
    SharesOrdered(x, y, w);
    Scale(n, Share(x, w), Share(y, w));
  }
}
