/** The taker fee (`autonomy/fees.py`), in exact arithmetic. */
module Fees {

  function Ceil(x: real): int { -(-x).Floor }

  /** `_fee_cents`: the published per-order formula in cents, less a 1e-12 guard, rounded up. */
  function FeeCents(price: int, count: int, rate: real, multiplier: int): int {
    if count <= 0 || multiplier <= 0 || !(1 <= price <= 99) then 0
    else
      var p := price as real / 100.0;
      Ceil(100.0 * multiplier as real * rate * count as real * p * (1.0 - p) - 0.000000000001)
  }

  /** `kalshi_taker_fee_cents`; `zeroFeeSeries` is the ticker's membership in the fee-free series. */
  function TakerFee(price: int, count: int, zeroFeeSeries: bool): int {
    FeeCents(price, count, 0.07, if zeroFeeSeries then 0 else 1)
  }

  lemma RawFee(price: int, count: int)
    ensures var p := price as real / 100.0;
            100.0 * 1.0 * 0.07 * count as real * p * (1.0 - p)
            == (7 * price * (100 - price) * count) as real / 10000.0
  {
    var p := price as real / 100.0;
    var k := price * (100 - price);
    assert p * (1.0 - p) == k as real / 10000.0;
    calc {
      100.0 * 1.0 * 0.07 * count as real * p * (1.0 - p);
      (7.0 * count as real) * (p * (1.0 - p));
      (7.0 * count as real) * (k as real / 10000.0);
      (7 * k * count) as real / 10000.0;
    }
  }

  lemma CeilCovers(k: int)
    ensures Ceil(k as real / 10000.0 - 0.000000000001) * 10000 >= k
  {
  }

  lemma CeilAtMost(x: real, n: int)
    requires x <= n as real
    ensures Ceil(x) <= n
  {
  }

  lemma ScaleUp(c: int, k: int, count: int)
    requires count >= 1 && c * 10000 >= k
    ensures (k * count) as real / 10000.0 <= (count * c) as real
  {
    assert k * count <= (c * 10000) * count == 10000 * (count * c);
  }

  lemma FeeValue(price: int, count: int)
    requires 1 <= price <= 99 && count >= 1
    ensures TakerFee(price, count, false)
            == Ceil((7 * price * (100 - price) * count) as real / 10000.0 - 0.000000000001)
  {
    RawFee(price, count);
  }

  /** One order for several contracts never pays more than as many orders for one. */
  lemma TakerFeeSubadditive(price: int, count: int, zeroFeeSeries: bool)
    requires count >= 1
    ensures TakerFee(price, count, zeroFeeSeries) <= count * TakerFee(price, 1, zeroFeeSeries)
  {
    if zeroFeeSeries || !(1 <= price <= 99) {
      assert TakerFee(price, 1, zeroFeeSeries) == 0;
    } else {
      hide FeeCents, TakerFee;
      FeeValue(price, 1);
      FeeValue(price, count);
      SubadditiveCeil(7 * price * (100 - price), count);
    }
  }

  lemma SubadditiveCeil(k: int, count: int)
    requires count >= 1
    ensures Ceil((k * count) as real / 10000.0 - 0.000000000001)
            <= count * Ceil((k * 1) as real / 10000.0 - 0.000000000001)
  {
    CeilCovers(k);
    var single := Ceil(k as real / 10000.0 - 0.000000000001);
    ScaleUp(single, k, count);
    CeilAtMost((k * count) as real / 10000.0 - 0.000000000001, count * single);
  }

  /**
   The fee of an order at a price of 1 to 99 cents is seven percent of count times price times the other side's price,
   rounded up to whole cents: the guard never takes a cent off. Off that range, and in a fee-free series, it is nothing.
   */
  lemma TakerFeeIs(price: int, count: int, zeroFeeSeries: bool)
    ensures var fee, exact := TakerFee(price, count, zeroFeeSeries), 7 * price * (100 - price) * count;
            if count >= 1 && 1 <= price <= 99 && !zeroFeeSeries then fee * 10000 >= exact > (fee - 1) * 10000 else fee == 0
  {
    if count >= 1 && 1 <= price <= 99 && !zeroFeeSeries {
      hide FeeCents, TakerFee;
      FeeValue(price, count);
      CeilCovers(7 * price * (100 - price) * count);
      CeilWastesNothing(7 * price * (100 - price) * count);
    }
  }

  lemma CeilWastesNothing(k: int)
    ensures k > (Ceil(k as real / 10000.0 - 0.000000000001) - 1) * 10000
  {
  }
}
