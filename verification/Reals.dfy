/** Order and products of real numbers, one step at a time. */
module Reals {
  lemma TimesUp(k: real, x: real, y: real)
    requires k >= 0.0 && x <= y
    ensures k * x <= k * y
  {
  }

  lemma TimesOrder(k: real, x: real, y: real)
    requires k > 0.0
    ensures x < y <==> k * x < k * y
    ensures x == y <==> k * x == k * y
  {
  }

  lemma Positive(x: real, y: real)
    requires x > 0.0 && y > 0.0
    ensures x * y > 0.0
  {
  }

  lemma ProductsUp(a: real, b: real, x: real, y: real)
    requires 0.0 <= a <= b && 0.0 <= x <= y
    ensures 0.0 <= a * x <= b * y
  {
    TimesUp(a, 0.0, x);
    TimesUp(a, x, y);
    TimesUp(y, a, b);
  }

  lemma Quotient(x: real, d: real)
    requires d > 0.0
    ensures x / d * d == x
    ensures x >= 0.0 ==> x / d >= 0.0
    ensures x / d == 0.0 <==> x == 0.0
  {
  }

  /** Two quotients compare as their cross products do. */
  lemma CrossOrder(x: real, d: real, y: real, e: real)
    requires d > 0.0 && e > 0.0
    ensures x / d < y / e <==> x * e < y * d
    ensures x / d == y / e <==> x * e == y * d
  {
    var p, q := x / d, y / e;
    Quotient(x, d);
    Quotient(y, e);
    Positive(d, e);
    Regroup(p, d, e);
    Regroup(q, e, d);
    TimesOrder(d * e, p, q);
  }

  lemma Regroup(p: real, d: real, e: real)
    ensures d * e * p == p * d * e && e * d * p == p * d * e
  {
  }

  lemma FractionsUp(a: real, b: real, d: real, e: real)
    requires 0.0 <= a <= b && 0.0 < e <= d
    ensures a / d <= b / e
  {
    CrossOrder(b, e, a, d);
    ProductsUp(a, b, e, d);
  }

  lemma WorthUp(low: real, high: real, x: real, y: real, d: real, e: real)
    requires 0.0 <= low <= high && 0.0 <= x <= y && 0.0 < e <= d
    ensures low * x / d <= high * y / e
  {
    ProductsUp(low, high, x, y);
    FractionsUp(low * x, high * y, d, e);
  }

  lemma FractionsStrict(a: real, b: real, d: real, e: real)
    requires 0.0 < a <= b && 0.0 < e <= d && (a < b || e < d)
    ensures a / d < b / e
  {
    CrossOrder(a, d, b, e);
    TimesUp(a, e, d);
    TimesUp(d, a, b);
    if e < d {
      TimesOrder(a, e, d);
    } else {
      TimesOrder(d, a, b);
    }
  }

  /** A mean lies between. */
  lemma Between(alpha: real, x: real, y: real, least: real, most: real)
    requires 0.0 <= alpha <= 1.0 && least <= x <= most && least <= y <= most
    ensures least <= alpha * x + (1.0 - alpha) * y <= most
  {
    var beta := 1.0 - alpha;
    Shares(alpha, beta, least);
    Shares(alpha, beta, most);
    Means(alpha, beta, x, y, least, most);
  }

  lemma Means(a: real, b: real, x: real, y: real, least: real, most: real)
    requires a >= 0.0 && b >= 0.0 && least <= x <= most && least <= y <= most
    requires a * least + b * least == least && a * most + b * most == most
    ensures least <= a * x + b * y <= most
  {
    TimesUp(a, least, x);
    TimesUp(a, x, most);
    TimesUp(b, least, y);
    TimesUp(b, y, most);
    SumsBetween(a * least, a * x, a * most, b * least, b * y, b * most);
  }

  lemma SumsBetween(p: real, q: real, r: real, x: real, y: real, z: real)
    requires p <= q <= r && x <= y <= z
    ensures p + x <= q + y <= r + z
  {
  }

  lemma Shares(a: real, b: real, x: real)
    requires a + b == 1.0
    ensures a * x + b * x == x
  {
    assert a * x + b * x == (a + b) * x;
  }
}
