/** Small facts about real arithmetic, stated once so that the larger proofs stay linear. */
module Reals {

  datatype Option<+T> = None | Some(value: T)

  function Min(x: real, y: real): (m: real)
    ensures m <= x && m <= y && (m == x || m == y)
  {
    if x <= y then x else y
  }

  function Max(x: real, y: real): (m: real)
    ensures m >= x && m >= y && (m == x || m == y)
  {
    if x >= y then x else y
  }

  function Power(x: real, n: nat): real {
    if n == 0 then 1.0 else x * Power(x, n - 1)
  }

  lemma {:induction false} PowerPositive(x: real, n: nat)
    requires x > 0.0
    ensures Power(x, n) > 0.0
  {
    if n > 0 {
      PowerPositive(x, n - 1);
      ProductPositive(x, Power(x, n - 1));
    }
  }

  lemma ProductPositive(x: real, y: real)
    requires x > 0.0 && y > 0.0
    ensures x * y > 0.0
  {
  }

  lemma ProductNonNegative(x: real, y: real)
    requires x >= 0.0 && y >= 0.0
    ensures x * y >= 0.0
  {
  }

  lemma ProductMonotone(x: real, y: real, z: real)
    requires x <= y && z >= 0.0
    ensures x * z <= y * z
  {
  }

  lemma QuotientPositive(x: real, y: real)
    requires x > 0.0 && y > 0.0
    ensures x / y > 0.0
  {
  }

  /** x / y is the number that gives x back when multiplied by y. */
  lemma QuotientTimes(x: real, y: real)
    requires y != 0.0
    ensures x / y * y == x
  {
  }

  lemma Associate(x: real, y: real, z: real)
    ensures (x * y) * z == x * (y * z)
  {
  }

  lemma Swap(x: real, y: real, z: real)
    ensures x * y * z == x * z * y
  {
    Associate(x, y, z);
    Associate(x, z, y);
  }

  lemma Distribute(x: real, y: real, z: real)
    ensures (x + y) * z == x * z + y * z
    ensures (x - y) * z == x * z - y * z
  {
  }

  /** A positive factor can be cancelled from an equation and from a comparison. */
  lemma CancelFactor(x: real, y: real, z: real)
    requires z > 0.0 && x * z == y * z
    ensures x == y
  {
    Distribute(x, y, z);
  }

  lemma CompareProducts(x: real, y: real, z: real)
    requires z > 0.0
    ensures x <= y <==> x * z <= y * z
  {
    if x <= y { ProductMonotone(x, y, z); }
    if y < x { ProductPositive(x - y, z); Distribute(x, y, z); }
  }

  /** Comparing a price with a multiple of an average, without dividing. */
  lemma ScaledQuotient(price: real, cost: real, quantity: real, factor: real)
    requires quantity > 0.0
    ensures price <= cost / quantity * factor <==> price * quantity <= cost * factor
    ensures price >= cost / quantity * factor <==> price * quantity >= cost * factor
  {
    var average := cost / quantity;
    QuotientTimes(cost, quantity);
    Swap(average, factor, quantity);
    CompareProducts(price, average * factor, quantity);
    CompareProducts(average * factor, price, quantity);
  }

  lemma QuotientOrder(l: real, h: real, low: real, high: real)
    requires 0.0 < h <= high && 0.0 <= low <= l
    ensures low / high <= l / h
  {
    var x, y := low / high, l / h;
    QuotientTimes(low, high);
    QuotientTimes(l, h);
    CompareProducts(0.0, x, high);
    ProductMonotone(h, high, x);
    CompareProducts(x, y, h);
  }

  /** How many percent lower `to` is than `from`. */
  function PercentDrop(from: real, to: real): real
    requires from > 0.0
  {
    (from - to) / from * 100.0
  }

  lemma PercentDropIsComplement(from: real, to: real)
    requires from > 0.0
    ensures PercentDrop(from, to) == (1.0 - to / from) * 100.0
  {
    QuotientTimes(to, from);
    QuotientTimes(from - to, from);
    Distribute(1.0, to / from, from);
    CancelFactor((from - to) / from, 1.0 - to / from, from);
  }

  /** A drop from higher up to further down is larger. */
  lemma PercentDropGrows(h: real, l: real, high: real, low: real)
    requires 0.0 < h <= high && 0.0 <= low <= l
    ensures PercentDrop(h, l) <= PercentDrop(high, low)
  {
    PercentDropIsComplement(h, l);
    PercentDropIsComplement(high, low);
    QuotientOrder(l, h, low, high);
  }
}
