/**
 * The integer swap arithmetic of the pool (`math.rs`): fee rounding, the
 * constant-product output and the fee split that `swap` reports.  Every
 * `checked_*` that the Rust code propagates with `?` becomes `None`; every one it
 * `unwrap`s becomes a precondition, since it would panic.
 */
module FeeMath {
  import opened Bytes
  import opened Wrappers
  import opened Arith

  /** 100% in millionths: fee rates are parts per million of the amount. */
  const MAX_PERCENTAGE: nat := 1_000_000

  /** Rust's `as u64` on a non-negative value: keep the low 64 bits. */
  function AsU64(x: nat): (r: U64)
    ensures x < TWO_64 ==> r == x
  {
    x % TWO_64
  }

  /**
   * `ceil_div`: the rounded-up quotient of amount * numerator by denominator.  The
   * product is unwrapped (it panics on overflow); adding the denominator, taking one
   * away and dividing are checked, so an intermediate above `u128::MAX`, a zero
   * product with a zero denominator and a zero denominator all give `None`.
   */
  function CeilDiv(tokenAmount: U128, feeNumerator: U128, feeDenominator: U128): (r: Option<U128>)
    requires tokenAmount * feeNumerator < TWO_128
    ensures r.Some? <==> feeDenominator > 0 && tokenAmount * feeNumerator + feeDenominator < TWO_128
    ensures r.Some? ==> r.value * feeDenominator >= tokenAmount * feeNumerator
                        && (r.value - 1) * feeDenominator < tokenAmount * feeNumerator
  {
    var product := tokenAmount * feeNumerator;
    if product + feeDenominator >= TWO_128 then None
    else if product + feeDenominator == 0 then None
    else if feeDenominator == 0 then None
    else
      var q := (product + feeDenominator - 1) / feeDenominator;
      DivBounds(product + feeDenominator - 1, feeDenominator);
      Some(q)
  }

  /** `floor_div`: the rounded-down quotient; a product above `u128::MAX` or a zero denominator give `None`. */
  function FloorDiv(tokenAmount: U128, feeNumerator: U128, feeDenominator: U128): (r: Option<U128>)
    ensures r.Some? <==> tokenAmount * feeNumerator < TWO_128 && feeDenominator > 0
    ensures r.Some? ==> r.value * feeDenominator <= tokenAmount * feeNumerator
                        < (r.value + 1) * feeDenominator
  {
    var product := tokenAmount * feeNumerator;
    if product >= TWO_128 || feeDenominator == 0 then None
    else
      var q: nat := product / feeDenominator;
      DivBounds(product, feeDenominator);
      MulMonotone(1, feeDenominator, q);
      assert q <= product;
      Some(q)
  }

  /** `get_trade_fee`: the trade fee, rounded up in favour of the pool. */
  function GetTradeFee(amount: U128, tradeFeeRate: U64): (r: Option<U128>)
    requires amount * tradeFeeRate < TWO_128
    ensures r.Some? <==> amount * tradeFeeRate + MAX_PERCENTAGE < TWO_128
    ensures r.Some? ==> r.value * MAX_PERCENTAGE >= amount * tradeFeeRate
                        && (r.value - 1) * MAX_PERCENTAGE < amount * tradeFeeRate
  {
    CeilDiv(amount, tradeFeeRate, MAX_PERCENTAGE)
  }

  /** `get_protocol_fee`: the protocol's share of a trade fee, rounded down. */
  function GetProtocolFee(amount: U128, protocolFeeRate: U64): (r: Option<U128>)
    ensures r.Some? <==> amount * protocolFeeRate < TWO_128
    ensures r.Some? ==> r.value * MAX_PERCENTAGE <= amount * protocolFeeRate
                        < (r.value + 1) * MAX_PERCENTAGE
  {
    FloorDiv(amount, protocolFeeRate, MAX_PERCENTAGE)
  }

  /** A rate of at most 100% never takes more than the whole amount as trade fee. */
  lemma TradeFeeAtMostAmount(amount: U128, tradeFeeRate: U64)
    requires tradeFeeRate <= MAX_PERCENTAGE
    requires amount * tradeFeeRate + MAX_PERCENTAGE < TWO_128
    ensures GetTradeFee(amount, tradeFeeRate).value <= amount
  {
    var fee := GetTradeFee(amount, tradeFeeRate).value;
    MulMonotone(tradeFeeRate, MAX_PERCENTAGE, amount);
    MulCancelLt(fee as int - 1, amount, MAX_PERCENTAGE);
  }

  /** Above 100%, any positive amount is charged more than itself, which `swap` cannot subtract. */
  lemma TradeFeeAboveAmount(amount: U128, tradeFeeRate: U64)
    requires tradeFeeRate > MAX_PERCENTAGE && amount > 0
    requires amount * tradeFeeRate + MAX_PERCENTAGE < TWO_128
    ensures GetTradeFee(amount, tradeFeeRate).value > amount
  {
    var fee := GetTradeFee(amount, tradeFeeRate).value;
    MulMonotone(MAX_PERCENTAGE + 1, tradeFeeRate, amount);
    MulCancelLt(amount, fee, MAX_PERCENTAGE);
  }

  /** A rate of at most 100% never takes more than the whole trade fee as protocol fee. */
  lemma ProtocolFeeAtMostAmount(amount: U128, protocolFeeRate: U64)
    requires protocolFeeRate <= MAX_PERCENTAGE
    requires amount * protocolFeeRate < TWO_128
    ensures GetProtocolFee(amount, protocolFeeRate).value <= amount
  {
    var fee := GetProtocolFee(amount, protocolFeeRate).value;
    MulMonotone(protocolFeeRate, MAX_PERCENTAGE, amount);
    MulCancelLe(fee, amount, MAX_PERCENTAGE);
  }

  /** Trading more never costs a smaller trade fee. */
  lemma TradeFeeMonotonic(a: U128, b: U128, tradeFeeRate: U64)
    requires a <= b
    requires b * tradeFeeRate + MAX_PERCENTAGE < TWO_128
    ensures a * tradeFeeRate <= b * tradeFeeRate
    ensures GetTradeFee(a, tradeFeeRate).value <= GetTradeFee(b, tradeFeeRate).value
  {
    MulMonotone(a, b, tradeFeeRate);
    var fa := GetTradeFee(a, tradeFeeRate).value;
    var fb := GetTradeFee(b, tradeFeeRate).value;
    MulCancelLt(fa as int - 1, fb, MAX_PERCENTAGE);
  }

  /**
   * `swap_base_input_without_fees`: the constant-product output
   * floor(sourceAmount * y / (x + sourceAmount)).  The product, the sum and the
   * division are all unwrapped, so each must succeed.
   */
  function SwapBaseInputWithoutFees(sourceAmount: U128, swapSourceAmount: U128, swapDestinationAmount: U128): (r: nat)
    requires sourceAmount * swapDestinationAmount < TWO_128
    requires swapSourceAmount + sourceAmount < TWO_128
    requires swapSourceAmount + sourceAmount > 0
    ensures r * (swapSourceAmount + sourceAmount) <= sourceAmount * swapDestinationAmount
            < (r + 1) * (swapSourceAmount + sourceAmount)
    ensures r <= swapDestinationAmount
    ensures swapSourceAmount > 0 && swapDestinationAmount > 0 ==> r < swapDestinationAmount
  {
    var product: nat := sourceAmount * swapDestinationAmount;
    var newSource: nat := swapSourceAmount + sourceAmount;
    var q: nat := product / newSource;
    ConstantProductQuotient(sourceAmount, swapSourceAmount, swapDestinationAmount, q);
    q
  }

  /** The facts about floor(dx * y / (x + dx)) that `SwapBaseInputWithoutFees` promises. */
  lemma ConstantProductQuotient(dx: nat, x: nat, y: nat, q: nat)
    requires x + dx > 0 && q == (dx * y) / (x + dx)
    ensures q * (x + dx) <= dx * y < (q + 1) * (x + dx)
    ensures q <= y
    ensures x > 0 && y > 0 ==> q < y
  {
    DivBounds(dx * y, x + dx);
    QuotientBelowDestination(dx, x, y, q);
  }

  lemma QuotientBelowDestination(dx: nat, x: nat, y: nat, q: nat)
    requires x + dx > 0
    requires q * (x + dx) <= dx * y
    ensures q <= y
    ensures x > 0 && y > 0 ==> q < y
  {
    MulMonotone(dx, x + dx, y);
    MulCancelLe(q, y, x + dx);
    if x > 0 && y > 0 {
      assert dx * y < (x + dx) * y;
      MulCancelLt(q, y, x + dx);
    }
  }

  /** The pool's product x * y never falls: (x + dx) * (y - dy) >= x * y. */
  lemma ConstantProductKept(sourceAmount: U128, swapSourceAmount: U128, swapDestinationAmount: U128)
    requires sourceAmount * swapDestinationAmount < TWO_128
    requires swapSourceAmount + sourceAmount < TWO_128
    requires swapSourceAmount + sourceAmount > 0
    ensures var out := SwapBaseInputWithoutFees(sourceAmount, swapSourceAmount, swapDestinationAmount);
            (swapSourceAmount + sourceAmount) * (swapDestinationAmount - out) >= swapSourceAmount * swapDestinationAmount
  {
    var out := SwapBaseInputWithoutFees(sourceAmount, swapSourceAmount, swapDestinationAmount);
    var d := swapSourceAmount + sourceAmount;
    assert d * (swapDestinationAmount - out) == d * swapDestinationAmount - out * d;
    assert d * swapDestinationAmount == swapSourceAmount * swapDestinationAmount + sourceAmount * swapDestinationAmount;
  }

  datatype SwapResult = SwapResult(fromAmount: U64, toAmount: U64, tradeFee: U64, protocolFee: U64)

  datatype SwapResultWithFromToLock =
    SwapResultWithFromToLock(fromAmount: U64, toAmount: U64, tradeFee: U64, protocolFee: U64, fromToLock: U64)

  /**
   * When `swap` does not panic: the trade fee exists and is at most the amount, the
   * protocol fee exists, and the constant-product step neither overflows nor divides
   * by zero.
   */
  predicate SwapDefined(sourceAmount: U128, poolSourceAmount: U128, poolDestinationAmount: U128,
                        tradeFeeRate: U64, protocolFeeRate: U64)
  {
    && sourceAmount * tradeFeeRate + MAX_PERCENTAGE < TWO_128
    && var tradeFee := GetTradeFee(sourceAmount, tradeFeeRate).value;
    && tradeFee * protocolFeeRate < TWO_128
    && tradeFee <= sourceAmount
    && var postFees := sourceAmount - tradeFee;
    && postFees * poolDestinationAmount < TWO_128
    && poolSourceAmount + postFees < TWO_128
    && poolSourceAmount + postFees > 0
  }

  /**
   * `swap`: charge the trade fee (rounded up), split off the protocol's share
   * (rounded down), and swap what remains against the pool.  The four results are
   * cast to `u64` with `as`, which keeps the low 64 bits.
   */
  function Swap(sourceAmount: U128, poolSourceAmount: U128, poolDestinationAmount: U128,
                tradeFeeRate: U64, protocolFeeRate: U64): (r: Option<SwapResult>)
    requires SwapDefined(sourceAmount, poolSourceAmount, poolDestinationAmount, tradeFeeRate, protocolFeeRate)
    ensures r.Some?
    ensures sourceAmount < TWO_64 ==> r.value.fromAmount + r.value.tradeFee == sourceAmount
    ensures sourceAmount < TWO_64 && poolDestinationAmount < TWO_64 ==>
              r.value.toAmount * (poolSourceAmount + r.value.fromAmount) <= r.value.fromAmount * poolDestinationAmount
              < (r.value.toAmount + 1) * (poolSourceAmount + r.value.fromAmount)
    ensures sourceAmount < TWO_64 && poolDestinationAmount < TWO_64 && poolSourceAmount > 0 && poolDestinationAmount > 0 ==>
              r.value.toAmount < poolDestinationAmount
    ensures sourceAmount < TWO_64 && protocolFeeRate <= MAX_PERCENTAGE ==> r.value.protocolFee <= r.value.tradeFee
    // The fees charged are the ceil-div trade fee of the source and the protocol's floor-div share of it.
    ensures sourceAmount < TWO_64 ==> r.value.tradeFee == GetTradeFee(sourceAmount, tradeFeeRate).value
    ensures sourceAmount < TWO_64 && protocolFeeRate <= MAX_PERCENTAGE ==>
              r.value.protocolFee == GetProtocolFee(GetTradeFee(sourceAmount, tradeFeeRate).value, protocolFeeRate).value
  {
    var tradeFee := GetTradeFee(sourceAmount, tradeFeeRate).value;
    var protocolFee := GetProtocolFee(tradeFee, protocolFeeRate).value;
    var postFees := sourceAmount - tradeFee;
    var swapped := SwapBaseInputWithoutFees(postFees, poolSourceAmount, poolDestinationAmount);
    assert protocolFeeRate <= MAX_PERCENTAGE ==> protocolFee <= tradeFee by {
      if protocolFeeRate <= MAX_PERCENTAGE {
        ProtocolFeeAtMostAmount(tradeFee, protocolFeeRate);
      }
    }
    Some(SwapResult(AsU64(postFees), AsU64(swapped), AsU64(tradeFee), AsU64(protocolFee)))
  }

  /**
   * With a zero trade-fee rate the swap charges nothing, whatever the protocol's
   * rate (its share of a zero fee is zero), and is the plain constant-product output.
   */
  lemma ZeroFeeSwap(sourceAmount: U64, poolSourceAmount: U64, poolDestinationAmount: U64, protocolFeeRate: U64)
    requires poolSourceAmount + sourceAmount > 0
    ensures SwapDefined(sourceAmount, poolSourceAmount, poolDestinationAmount, 0, protocolFeeRate)
    ensures var r := Swap(sourceAmount, poolSourceAmount, poolDestinationAmount, 0, protocolFeeRate).value;
            r.tradeFee == 0 && r.protocolFee == 0 && r.fromAmount == sourceAmount
            && r.toAmount == (sourceAmount * poolDestinationAmount) / (poolSourceAmount + sourceAmount)
  {
    var tradeFee := GetTradeFee(sourceAmount, 0).value;
    MulCancelLt(tradeFee as int - 1, 0, MAX_PERCENTAGE);
    MulMonotone(poolDestinationAmount, TWO_64, sourceAmount);
    MulMonotone(sourceAmount, TWO_64, TWO_64);
    var protocolFee := GetProtocolFee(tradeFee, protocolFeeRate).value;
    MulCancelLe(protocolFee, 0, MAX_PERCENTAGE);
    var n := sourceAmount * poolDestinationAmount;
    var d := poolSourceAmount + sourceAmount;
    var out := SwapBaseInputWithoutFees(sourceAmount, poolSourceAmount, poolDestinationAmount);
    DivBounds(n, d);
    UniqueQuotient(n, d, out, n / d);
  }
  /**
   * For amounts that fit in `u64` (as the quote passes them), rates of at most 100%
   * and a non-empty source side, `swap` never panics.
   */
  lemma SwapDefinedForU64(sourceAmount: U64, poolSourceAmount: U64, poolDestinationAmount: U64,
                          tradeFeeRate: U64, protocolFeeRate: U64)
    requires tradeFeeRate <= MAX_PERCENTAGE && protocolFeeRate <= MAX_PERCENTAGE
    requires poolSourceAmount > 0
    ensures SwapDefined(sourceAmount, poolSourceAmount, poolDestinationAmount, tradeFeeRate, protocolFeeRate)
  {
    MulMonotone(tradeFeeRate, MAX_PERCENTAGE, sourceAmount);
    MulMonotone(sourceAmount, TWO_64, MAX_PERCENTAGE);
    TradeFeeAtMostAmount(sourceAmount, tradeFeeRate);
    var tradeFee := GetTradeFee(sourceAmount, tradeFeeRate).value;
    MulMonotone(protocolFeeRate, MAX_PERCENTAGE, tradeFee);
    MulMonotone(tradeFee, TWO_64, MAX_PERCENTAGE);
    var postFees := sourceAmount - tradeFee;
    MulMonotone(postFees, TWO_64, poolDestinationAmount);
    MulMonotone(poolDestinationAmount, TWO_64, TWO_64);
  }
}
