/**
 * Quoting a swap against a Darklake pool (`quote` / `quote_internal` in
 * `darklake-sdk/src/darklake_amm.rs`, its copy `qoute` in
 * `jupiter-core/src/amms/darklake_amm.rs`, and the post-processing of the
 * on-chain math crate's quote in `src/darklake_amm.rs`).
 *
 * The pool's state is a value here: quoting only reads it.  The token-2022
 * transfer-fee lookup (`calculate_epoch_fee`) is an uninterpreted function held
 * in the fee configuration, and the clock's epoch is a parameter that may be
 * missing (`Clock::get()?`).
 */
module Quote {
  import opened Bytes
  import opened Wrappers
  import opened FeeMath
  import opened Rebalance

  /** An account address: 32 bytes. */
  type Pubkey = Bytes32

  /** `Pubkey::default()`: all zeros. */
  const DEFAULT_PUBKEY: Pubkey := seq(32, _ => 0)

  datatype SwapMode = ExactIn | ExactOut

  datatype QuoteParams = QuoteParams(amount: U64, inputMint: Pubkey, outputMint: Pubkey, swapMode: SwapMode)

  /** A quote; the decimal `fee_pct` is not modelled. */
  datatype Quote = Quote(inAmount: U64, outAmount: U64, feeAmount: U64, feeMint: Pubkey)

  datatype QuoteError =
    | ExactOutNotSupported
    | ClockUnavailable
    | InputAmountTooSmall
    | MathOverflow
    | TradeTooBig
    | InsufficientPoolBalanceX
    | InsufficientPoolBalanceY
    | OutputAmountZero
    | DexQuoteFailed

  /** The parts of the pool account the quote reads. */
  datatype Pool = Pool(
    tokenMintX: Pubkey,
    tokenMintY: Pubkey,
    protocolFeeX: U64,
    protocolFeeY: U64,
    userLockedX: U64,
    userLockedY: U64,
    lockedX: U64,
    lockedY: U64)

  datatype AmmConfig = AmmConfig(
    tradeFeeRate: U64,
    protocolFeeRate: U64,
    ratioChangeToleranceRate: U64,
    halted: bool)

  /** A token-2022 transfer-fee extension: the fee it charges on an amount in an epoch. */
  datatype TransferFeeConfig = TransferFeeConfig(epochFee: (U64, U64) -> Option<U64>)

  /** The client-side view of one pool. */
  datatype DarklakeAmm = DarklakeAmm(
    key: Pubkey,
    pool: Pool,
    ammConfig: AmmConfig,
    reserveXBalance: U64,
    reserveYBalance: U64,
    tokenXTransferFeeConfig: Option<TransferFeeConfig>,
    tokenYTransferFeeConfig: Option<TransferFeeConfig>)

  /** `calculate_epoch_fee(..).unwrap()` does not panic. */
  predicate TransferFeeDefined(config: Option<TransferFeeConfig>, amount: U64, epoch: Option<U64>)
  {
    config.Some? && epoch.Some? ==> config.value.epochFee(epoch.value, amount).Some?
  }

  /**
   * `get_transfer_fee`: no extension means no fee; otherwise the clock is read
   * (which may fail) and the extension's fee for the current epoch is taken.
   */
  function GetTransferFee(config: Option<TransferFeeConfig>, amount: U64, epoch: Option<U64>): (r: Result<U64, QuoteError>)
    requires TransferFeeDefined(config, amount, epoch)
    ensures config.None? ==> r == Success(0)
    ensures r.Failure? <==> config.Some? && epoch.None?
    ensures r.Failure? ==> r.error == ClockUnavailable
    ensures r.Success? && config.Some? ==> config.value.epochFee(epoch.value, amount) == Some(r.value)
  {
    if config.None? then Success(0)
    else if epoch.None? then Failure(ClockUnavailable)
    else Success(config.value.epochFee(epoch.value, amount).value)
  }

  /** `saturating_sub` on `u64`. */
  function SaturatingSub(a: U64, b: U64): (r: U64)
    ensures r <= a
    ensures b <= a ==> r + b == a
    ensures a <= b ==> r == 0
  {
    if a >= b then a - b else 0
  }

  /** None of the `checked_sub(..).unwrap()` calls on the reserves panics. */
  predicate BalancesDefined(amm: DarklakeAmm)
  {
    && amm.pool.protocolFeeX + amm.pool.userLockedX + amm.pool.lockedX <= amm.reserveXBalance
    && amm.pool.protocolFeeY + amm.pool.userLockedY + amm.pool.lockedY <= amm.reserveYBalance
  }

  datatype Balances = Balances(totalX: U64, totalY: U64, availableX: U64, availableY: U64)

  /**
   * The per-side amounts the quote trades against: the total excludes protocol fees
   * and users' pending orders, the available amount also excludes locked liquidity.
   */
  function PoolBalances(amm: DarklakeAmm): (r: Balances)
    requires BalancesDefined(amm)
    ensures r.totalX + amm.pool.protocolFeeX + amm.pool.userLockedX == amm.reserveXBalance
    ensures r.totalY + amm.pool.protocolFeeY + amm.pool.userLockedY == amm.reserveYBalance
    ensures r.availableX + amm.pool.lockedX == r.totalX
    ensures r.availableY + amm.pool.lockedY == r.totalY
  {
    var totalX := amm.reserveXBalance - amm.pool.protocolFeeX - amm.pool.userLockedX;
    var totalY := amm.reserveYBalance - amm.pool.protocolFeeY - amm.pool.userLockedY;
    Balances(totalX, totalY, totalX - amm.pool.lockedX, totalY - amm.pool.lockedY)
  }

  /** The available amount on the side the trader pays into. */
  function SourceAvailable(b: Balances, isSwapXToY: bool): U64
  {
    if isSwapXToY then b.availableX else b.availableY
  }

  /** The available amount on the side the trader receives from. */
  function DestinationAvailable(b: Balances, isSwapXToY: bool): U64
  {
    if isSwapXToY then b.availableY else b.availableX
  }

  function InputFeeConfig(amm: DarklakeAmm, isSwapXToY: bool): Option<TransferFeeConfig>
  {
    if isSwapXToY then amm.tokenXTransferFeeConfig else amm.tokenYTransferFeeConfig
  }

  /**
   * The SDK picks the output side's fee extension by comparing the output mint with
   * mint X, so a pool whose two mints coincide uses X's extension both ways.
   */
  function OutputFeeConfig(amm: DarklakeAmm, isSwapXToY: bool): (r: Option<TransferFeeConfig>)
    ensures amm.pool.tokenMintX != amm.pool.tokenMintY ==>
              r == if isSwapXToY then amm.tokenYTransferFeeConfig else amm.tokenXTransferFeeConfig
  {
    var outputMint := if isSwapXToY then amm.pool.tokenMintY else amm.pool.tokenMintX;
    if outputMint == amm.pool.tokenMintX then amm.tokenXTransferFeeConfig else amm.tokenYTransferFeeConfig
  }

  /**
   * The inputs on which `quote_internal` does not panic: the reserves cover what is
   * excluded from them, both transfer-fee lookups succeed, `swap` is defined, and the
   * output fee does not exceed the swapped amount (`checked_sub(..).unwrap()`).
   * Each condition is demanded only where the Rust code reaches it.
   */
  predicate QuoteDefined(amm: DarklakeAmm, params: QuoteParams, epoch: Option<U64>, est: FloatEstimate)
  {
    && BalancesDefined(amm)
    && var isSwapXToY := params.inputMint == amm.pool.tokenMintX;
    && var b := PoolBalances(amm);
    && var src := SourceAvailable(b, isSwapXToY);
    && var dst := DestinationAvailable(b, isSwapXToY);
    && TransferFeeDefined(InputFeeConfig(amm, isSwapXToY), params.amount, epoch)
    && var inFee := GetTransferFee(InputFeeConfig(amm, isSwapXToY), params.amount, epoch);
    && (inFee.Success? && SaturatingSub(params.amount, inFee.value) > 0 ==>
          var exchangeIn := SaturatingSub(params.amount, inFee.value);
          && SwapDefined(exchangeIn, src, dst, amm.ammConfig.tradeFeeRate, amm.ammConfig.protocolFeeRate)
          && var toAmount := Swap(exchangeIn, src, dst, amm.ammConfig.tradeFeeRate, amm.ammConfig.protocolFeeRate).value.toAmount;
          && (!RebalanceSpec(toAmount, src, dst, est).value.isRateToleranceExceeded ==>
                && TransferFeeDefined(OutputFeeConfig(amm, isSwapXToY), toAmount, epoch)
                && var outFee := GetTransferFee(OutputFeeConfig(amm, isSwapXToY), toAmount, epoch);
                && (outFee.Success? ==> outFee.value <= toAmount)))
  }

  /**
   * `quote_internal` (and the Jupiter copy `qoute`), with the floating-point part of
   * `rebalance_pool_ratio` supplied as `est`.  The checks run in the source order:
   * transfer fee in, "Input amount too small", `swap`, rebalance, "Trade too big",
   * the reserve check (`>=` for X but `>` for Y), transfer fee out, "Output amount
   * is zero".  The overflow errors and both reserve checks can never fire: `swap`
   * is always defined here, and a lock that passes the tolerance check is strictly
   * below the source side.  A quote never promises the whole available destination.
   */
  function QuoteInternal(amm: DarklakeAmm, params: QuoteParams, epoch: Option<U64>, est: FloatEstimate): (r: Result<Quote, QuoteError>)
    requires QuoteDefined(amm, params, epoch, est)
    ensures r.Failure? ==> r.error in {ClockUnavailable, InputAmountTooSmall, TradeTooBig, OutputAmountZero}
    ensures r.Success? ==> r.value.inAmount == params.amount && r.value.feeMint == params.inputMint
    ensures r.Success? ==> 0 < r.value.outAmount
    ensures r.Success? ==>
              r.value.outAmount + r.value.feeAmount
              < DestinationAvailable(PoolBalances(amm), params.inputMint == amm.pool.tokenMintX)
    // The input transfer fee: a missing clock fails, an input it swallows is too small.
    ensures var inFee := GetTransferFee(InputFeeConfig(amm, params.inputMint == amm.pool.tokenMintX), params.amount, epoch);
            && (inFee.Failure? ==> r == Failure(ClockUnavailable))
            && (r == Failure(InputAmountTooSmall) <==> inFee.Success? && SaturatingSub(params.amount, inFee.value) == 0)
    // After the swap: the tolerance decides "Trade too big", the output fee decides the rest.
    ensures var isSwapXToY := params.inputMint == amm.pool.tokenMintX;
            var src := SourceAvailable(PoolBalances(amm), isSwapXToY);
            var dst := DestinationAvailable(PoolBalances(amm), isSwapXToY);
            var inFee := GetTransferFee(InputFeeConfig(amm, isSwapXToY), params.amount, epoch);
            inFee.Success? && SaturatingSub(params.amount, inFee.value) > 0 ==>
              var exchangeIn := SaturatingSub(params.amount, inFee.value);
              var swapped := Swap(exchangeIn, src, dst, amm.ammConfig.tradeFeeRate, amm.ammConfig.protocolFeeRate).value;
              var exceeded := RebalanceSpec(swapped.toAmount, src, dst, est).value.isRateToleranceExceeded;
              && (r == Failure(TradeTooBig) <==> exceeded)
              && (!exceeded ==>
                    var outFee := GetTransferFee(OutputFeeConfig(amm, isSwapXToY), swapped.toAmount, epoch);
                    && (r == Failure(ClockUnavailable) <==> outFee.Failure?)
                    && (r == Failure(OutputAmountZero) <==> outFee.Success? && outFee.value == swapped.toAmount)
                    && (r.Success? <==> outFee.Success? && outFee.value < swapped.toAmount)
                    && (r.Success? ==>
                          && r.value.feeAmount == outFee.value
                          && r.value.outAmount + r.value.feeAmount == swapped.toAmount))
  {
    var isSwapXToY := params.inputMint == amm.pool.tokenMintX;
    var b := PoolBalances(amm);
    var src := SourceAvailable(b, isSwapXToY);
    var dst := DestinationAvailable(b, isSwapXToY);
    var inFee := GetTransferFee(InputFeeConfig(amm, isSwapXToY), params.amount, epoch);
    if inFee.Failure? then Failure(inFee.error)
    else
      var exchangeIn := SaturatingSub(params.amount, inFee.value);
      if exchangeIn == 0 then Failure(InputAmountTooSmall)
      else
        var swapped := Swap(exchangeIn, src, dst, amm.ammConfig.tradeFeeRate, amm.ammConfig.protocolFeeRate);
        if swapped.None? then Failure(MathOverflow)
        else
          var toAmount := swapped.value.toAmount;
          var rebalance := RebalanceSpec(toAmount, src, dst, est);
          if rebalance.None? then Failure(MathOverflow)
          else if rebalance.value.isRateToleranceExceeded then Failure(TradeTooBig)
          else if isSwapXToY && rebalance.value.fromToLock >= src then Failure(InsufficientPoolBalanceX)
          else if !isSwapXToY && rebalance.value.fromToLock > src then Failure(InsufficientPoolBalanceY)
          else
            var outFee := GetTransferFee(OutputFeeConfig(amm, isSwapXToY), toAmount, epoch);
            if outFee.Failure? then Failure(outFee.error)
            else
              var actualOutput := toAmount - outFee.value;
              if actualOutput == 0 then Failure(OutputAmountZero)
              else Success(Quote(params.amount, actualOutput, outFee.value, params.inputMint))
  }

  /** `quote` in the SDK and the Jupiter copy: only exact-input quotes are served. */
  function QuoteSdk(amm: DarklakeAmm, params: QuoteParams, epoch: Option<U64>, est: FloatEstimate): (r: Result<Quote, QuoteError>)
    requires params.swapMode == ExactIn ==> QuoteDefined(amm, params, epoch, est)
    ensures params.swapMode == ExactOut ==> r == Failure(ExactOutNotSupported)
    ensures params.swapMode == ExactIn ==> r == QuoteInternal(amm, params, epoch, est)
  {
    if params.swapMode != ExactIn then Failure(ExactOutNotSupported)
    else QuoteInternal(amm, params, epoch, est)
  }

  /**
   * A quote on an input that the input transfer fee swallows entirely is rejected as
   * too small, whatever the pool holds.
   */
  lemma QuoteRejectsSwallowedInput(amm: DarklakeAmm, params: QuoteParams, epoch: Option<U64>, est: FloatEstimate)
    requires QuoteDefined(amm, params, epoch, est)
    requires InputFeeConfig(amm, params.inputMint == amm.pool.tokenMintX).None? || epoch.Some?
    requires var fee := GetTransferFee(InputFeeConfig(amm, params.inputMint == amm.pool.tokenMintX), params.amount, epoch);
             fee.value >= params.amount
    ensures QuoteInternal(amm, params, epoch, est) == Failure(InputAmountTooSmall)
  {
  }

  /**
   * A swap whose constant-product output would take the whole available
   * destination, or a pool with an empty available side, is refused as too big.
   */
  lemma QuoteRejectsDegenerateSwap(amm: DarklakeAmm, params: QuoteParams, epoch: Option<U64>, est: FloatEstimate)
    requires QuoteDefined(amm, params, epoch, est)
    requires var isSwapXToY := params.inputMint == amm.pool.tokenMintX;
             var b := PoolBalances(amm);
             SourceAvailable(b, isSwapXToY) == 0 || DestinationAvailable(b, isSwapXToY) == 0
    ensures QuoteInternal(amm, params, epoch, est).Failure?
  {
  }

  /**
   * With rates of at most 100%, fee extensions that always answer with a fee no larger
   * than the amount, reserves that cover what is excluded from them and a non-empty
   * source side, `quote_internal` never panics.
   */
  lemma QuoteDefinedForSanePool(amm: DarklakeAmm, params: QuoteParams, epoch: Option<U64>, est: FloatEstimate)
    requires BalancesDefined(amm)
    requires amm.ammConfig.tradeFeeRate <= MAX_PERCENTAGE && amm.ammConfig.protocolFeeRate <= MAX_PERCENTAGE
    requires FeeCapped(amm.tokenXTransferFeeConfig) && FeeCapped(amm.tokenYTransferFeeConfig)
    requires SourceAvailable(PoolBalances(amm), params.inputMint == amm.pool.tokenMintX) > 0
    ensures QuoteDefined(amm, params, epoch, est)
  {
    var isSwapXToY := params.inputMint == amm.pool.tokenMintX;
    var b := PoolBalances(amm);
    var inFee := GetTransferFee(InputFeeConfig(amm, isSwapXToY), params.amount, epoch);
    if inFee.Success? {
      SwapDefinedForU64(SaturatingSub(params.amount, inFee.value), SourceAvailable(b, isSwapXToY),
                        DestinationAvailable(b, isSwapXToY), amm.ammConfig.tradeFeeRate, amm.ammConfig.protocolFeeRate);
    }
  }

  /** A transfer-fee extension that always yields a fee, never above the amount (as token-2022 caps it). */
  predicate FeeCapped(config: Option<TransferFeeConfig>)
  {
    config.Some? ==>
      forall epoch: U64, amount: U64 ::
        config.value.epochFee(epoch, amount).Some? && config.value.epochFee(epoch, amount).value <= amount
  }

  /**
   * The inputs on which the `quote` of `src/darklake_amm.rs` does not panic: both
   * transfer-fee lookups succeed and neither fee exceeds the amount it is taken from
   * (`checked_sub(..).unwrap()`).
   */
  predicate QuoteSrcDefined(amm: DarklakeAmm, params: QuoteParams, epoch: Option<U64>,
                            dexQuote: (U64, bool) -> Option<SwapResult>)
  {
    params.swapMode == ExactIn ==>
      && var isSwapXToY := params.inputMint == amm.pool.tokenMintX;
      && var inCfg := if isSwapXToY then amm.tokenXTransferFeeConfig else amm.tokenYTransferFeeConfig;
      && TransferFeeDefined(inCfg, params.amount, epoch)
      && var inFee := GetTransferFee(inCfg, params.amount, epoch);
      && (inFee.Success? ==>
            && inFee.value <= params.amount
            && var result := dexQuote(params.amount - inFee.value, isSwapXToY);
            && (result.Some? ==>
                  && var outCfg := if isSwapXToY then amm.tokenYTransferFeeConfig else amm.tokenXTransferFeeConfig;
                  && TransferFeeDefined(outCfg, result.value.toAmount, epoch)
                  && var outFee := GetTransferFee(outCfg, result.value.toAmount, epoch);
                  && (outFee.Success? ==> outFee.value <= result.value.toAmount)))
  }

  /**
   * `quote` in `src/darklake_amm.rs`: the swap itself is delegated to the on-chain
   * math crate (`dex_math::quote`, here the parameter `dexQuote`, applied to the
   * amount after the input transfer fee and the direction).  The quote reports the
   * crate's input amount and trade fee, the output after the output transfer fee
   * ("Output is zero" if nothing is left), and the mint of the side paid into.
   */
  function QuoteSrc(amm: DarklakeAmm, params: QuoteParams, epoch: Option<U64>,
                    dexQuote: (U64, bool) -> Option<SwapResult>): (r: Result<Quote, QuoteError>)
    requires QuoteSrcDefined(amm, params, epoch, dexQuote)
    ensures params.swapMode == ExactOut ==> r == Failure(ExactOutNotSupported)
    ensures r.Failure? ==> r.error in {ExactOutNotSupported, ClockUnavailable, DexQuoteFailed, OutputAmountZero}
    ensures r.Success? ==> 0 < r.value.outAmount
    ensures r.Success? ==>
              (r.value.feeMint == params.inputMint
               <==> params.inputMint == amm.pool.tokenMintX || params.inputMint == amm.pool.tokenMintY)
    ensures r.Success? ==>
              var result := dexQuote(QuoteSrcExchangeIn(amm, params, epoch), params.inputMint == amm.pool.tokenMintX);
              && result.Some?
              && r.value.inAmount == result.value.fromAmount
              && r.value.feeAmount == result.value.tradeFee
              && r.value.outAmount <= result.value.toAmount
    // Which step decides the outcome, and the output after the output transfer fee.
    ensures params.swapMode == ExactIn ==>
              var isSwapXToY := params.inputMint == amm.pool.tokenMintX;
              var inCfg := if isSwapXToY then amm.tokenXTransferFeeConfig else amm.tokenYTransferFeeConfig;
              var inFee := GetTransferFee(inCfg, params.amount, epoch);
              && (inFee.Failure? ==> r == Failure(ClockUnavailable))
              && (inFee.Success? ==>
                    var result := dexQuote(params.amount - inFee.value, isSwapXToY);
                    && (r == Failure(DexQuoteFailed) <==> result.None?)
                    && (result.Some? ==>
                          var outCfg := if isSwapXToY then amm.tokenYTransferFeeConfig else amm.tokenXTransferFeeConfig;
                          var outFee := GetTransferFee(outCfg, result.value.toAmount, epoch);
                          && (r == Failure(ClockUnavailable) <==> outFee.Failure?)
                          && (r == Failure(OutputAmountZero) <==> outFee.Success? && outFee.value == result.value.toAmount)
                          && (r.Success? <==> outFee.Success? && outFee.value < result.value.toAmount)
                          && (r.Success? ==> r.value.outAmount == result.value.toAmount - outFee.value)))
  {
    if params.swapMode != ExactIn then Failure(ExactOutNotSupported)
    else
      var isSwapXToY := params.inputMint == amm.pool.tokenMintX;
      var inCfg := if isSwapXToY then amm.tokenXTransferFeeConfig else amm.tokenYTransferFeeConfig;
      var inFee := GetTransferFee(inCfg, params.amount, epoch);
      if inFee.Failure? then Failure(inFee.error)
      else
        var exchangeIn := params.amount - inFee.value;
        var result := dexQuote(exchangeIn, isSwapXToY);
        if result.None? then Failure(DexQuoteFailed)
        else
          var outCfg := if isSwapXToY then amm.tokenYTransferFeeConfig else amm.tokenXTransferFeeConfig;
          var outFee := GetTransferFee(outCfg, result.value.toAmount, epoch);
          if outFee.Failure? then Failure(outFee.error)
          else
            var actualOutput := result.value.toAmount - outFee.value;
            if actualOutput == 0 then Failure(OutputAmountZero)
            else
              Success(Quote(result.value.fromAmount, actualOutput, result.value.tradeFee,
                            if isSwapXToY then amm.pool.tokenMintX else amm.pool.tokenMintY))
  }

  /** The amount `src/darklake_amm.rs` hands to the math crate: the input less its transfer fee. */
  function QuoteSrcExchangeIn(amm: DarklakeAmm, params: QuoteParams, epoch: Option<U64>): (r: U64)
    requires TransferFeeDefined(if params.inputMint == amm.pool.tokenMintX then amm.tokenXTransferFeeConfig
                                else amm.tokenYTransferFeeConfig, params.amount, epoch)
    ensures r <= params.amount
  {
    var inCfg := if params.inputMint == amm.pool.tokenMintX then amm.tokenXTransferFeeConfig else amm.tokenYTransferFeeConfig;
    var inFee := GetTransferFee(inCfg, params.amount, epoch);
    if inFee.Success? && inFee.value <= params.amount then params.amount - inFee.value else 0
  }
}
