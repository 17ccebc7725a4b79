/**
 * `rebalance_pool_ratio`: after a swap, choose how much of the source side to lock
 * so that the pool's source/destination ratio stays as close as possible to the
 * ratio before the swap.  The Rust code estimates the exact amount in `f64`, then
 * tries every integer in a window around it and keeps the first one with the
 * smallest ratio difference.
 *
 * The floating-point arithmetic is not modelled bit by bit: the window bounds, the
 * ratio difference of each candidate and the final tolerance test arrive as a
 * `FloatEstimate`.  The integer search, the guard, the `continue`, the zero-ratio
 * exclusion and the strict `<` that keeps the first best candidate are modelled
 * exactly.
 */
module Rebalance {
  import opened Bytes
  import opened Wrappers

  /** A non-negative `f64` as the search compares it: a finite value, +infinity or NaN. */
  datatype RatioDiff = Finite(v: real) | Infinity | NaN

  /** IEEE 754 `<` on such values: NaN is not less than, nor greater than, anything. */
  predicate Less(a: RatioDiff, b: RatioDiff)
  {
    match (a, b)
    case (Finite(x), Finite(y)) => x < y
    case (Finite(_), Infinity) => true
    case _ => false
  }

  lemma LessIsStrictOrder(a: RatioDiff, b: RatioDiff, c: RatioDiff)
    ensures !Less(a, a)
    ensures Less(a, b) ==> !Less(b, a)
    ensures Less(a, b) && Less(b, c) ==> Less(a, c)
  {
  }

  /**
   * What the `f64` computations yield for one call: `start_val` and `end_val`
   * (already cast to `u64`), the `|new_ratio - original_ratio|` of each candidate,
   * and whether the percentage change of a chosen lock exceeds the tolerance.
   */
  datatype FloatEstimate = FloatEstimate(
    startVal: U64,
    endVal: U64,
    ratioDiff: U64 -> RatioDiff,
    exceedsTolerance: U64 -> bool)

  datatype RebalanceResult = RebalanceResult(fromToLock: U64, isRateToleranceExceeded: bool)

  /** The pair the search carries: the best lock so far and its ratio difference. */
  datatype Best = Best(lock: U64, diff: RatioDiff)

  /**
   * The search over candidates t..endVal.  Candidates above the current source are
   * skipped (`continue`); a candidate equal to it would leave a zero ratio
   * (`new_ratio != 0.0`) and is never chosen; otherwise a strictly smaller ratio
   * difference replaces the best so far.
   */
  function Scan(t: nat, endVal: U64, currentSource: U64, ratioDiff: U64 -> RatioDiff, best: Best): Best
    decreases endVal + 1 - t
  {
    if t > endVal then best
    else if t > currentSource then Scan(t + 1, endVal, currentSource, ratioDiff, best)
    else if Less(ratioDiff(t), best.diff) && t < currentSource then
      Scan(t + 1, endVal, currentSource, ratioDiff, Best(t, ratioDiff(t)))
    else Scan(t + 1, endVal, currentSource, ratioDiff, best)
  }

  /** The guard of `rebalance_pool_ratio`: a swap that empties the destination, or an empty side. */
  predicate Degenerate(toAmountSwapped: U64, currentSourceAmount: U64, currentDestinationAmount: U64)
  {
    toAmountSwapped >= currentDestinationAmount || currentSourceAmount == 0 || currentDestinationAmount == 0
  }

  /** The result of `rebalance_pool_ratio`, as a function of its inputs. */
  function RebalanceSpec(toAmountSwapped: U64, currentSourceAmount: U64, currentDestinationAmount: U64,
                         est: FloatEstimate): (r: Option<RebalanceResult>)
    ensures r.Some?
    ensures Degenerate(toAmountSwapped, currentSourceAmount, currentDestinationAmount) ==>
              r.value == RebalanceResult(0, true)
    ensures !Degenerate(toAmountSwapped, currentSourceAmount, currentDestinationAmount) ==>
              r.value.fromToLock < currentSourceAmount
  {
    if Degenerate(toAmountSwapped, currentSourceAmount, currentDestinationAmount) then
      Some(RebalanceResult(0, true))
    else
      var best := Scan(est.startVal, est.endVal, currentSourceAmount, est.ratioDiff, Best(0, Infinity));
      ScanBelowSource(est.startVal, est.endVal, currentSourceAmount, est.ratioDiff, Best(0, Infinity));
      Some(RebalanceResult(best.lock, est.exceedsTolerance(best.lock)))
  }

  /** The chosen lock always stays below the current source amount, so the pool keeps a positive source side. */
  lemma {:induction false} ScanBelowSource(t: nat, endVal: U64, currentSource: U64, ratioDiff: U64 -> RatioDiff, best: Best)
    requires best.lock < currentSource
    ensures Scan(t, endVal, currentSource, ratioDiff, best).lock < currentSource
    decreases endVal + 1 - t
  {
    if t <= endVal {
      if t <= currentSource && Less(ratioDiff(t), best.diff) && t < currentSource {
        ScanBelowSource(t + 1, endVal, currentSource, ratioDiff, Best(t, ratioDiff(t)));
      } else {
        ScanBelowSource(t + 1, endVal, currentSource, ratioDiff, best);
      }
    }
  }

  /**
   * The search result is either the starting best or a candidate in [t, endVal]
   * below the current source whose ratio difference it carries and which is
   * strictly better than the starting best; and no admissible candidate in
   * [t, endVal] beats it.
   */
  lemma {:induction false} ScanOptimal(t: nat, endVal: U64, currentSource: U64, ratioDiff: U64 -> RatioDiff, best: Best)
    ensures var r := Scan(t, endVal, currentSource, ratioDiff, best);
            && (r == best || (t <= r.lock <= endVal && r.lock < currentSource && r.diff == ratioDiff(r.lock)
                              && Less(r.diff, best.diff)))
            && forall c: U64 :: t <= c <= endVal && c < currentSource ==> !Less(ratioDiff(c), r.diff)
    decreases endVal + 1 - t
  {
    var r := Scan(t, endVal, currentSource, ratioDiff, best);
    if t <= endVal {
      if t > currentSource {
        ScanOptimal(t + 1, endVal, currentSource, ratioDiff, best);
      } else if Less(ratioDiff(t), best.diff) && t < currentSource {
        var b := Best(t, ratioDiff(t));
        ScanOptimal(t + 1, endVal, currentSource, ratioDiff, b);
        LessIsStrictOrder(r.diff, b.diff, best.diff);
        LessIsStrictOrder(b.diff, r.diff, best.diff);
      } else {
        ScanOptimal(t + 1, endVal, currentSource, ratioDiff, best);
        LessIsStrictOrder(ratioDiff(t), r.diff, best.diff);
      }
    }
  }

  /**
   * Outside the guard, the lock `rebalance_pool_ratio` returns has the smallest
   * ratio difference among the candidates of the window that leave a non-zero
   * source side, and it is the first such candidate: any earlier candidate is
   * strictly worse.  When no candidate is finite, the lock stays 0.
   */
  lemma RebalanceOptimal(toAmountSwapped: U64, currentSourceAmount: U64, currentDestinationAmount: U64,
                         est: FloatEstimate)
    requires !Degenerate(toAmountSwapped, currentSourceAmount, currentDestinationAmount)
    ensures var lock := RebalanceSpec(toAmountSwapped, currentSourceAmount, currentDestinationAmount, est).value.fromToLock;
            && (forall c: U64 :: est.startVal <= c <= est.endVal && c < currentSourceAmount ==>
                  !Less(est.ratioDiff(c), est.ratioDiff(lock)) || (lock == 0 && !Less(est.ratioDiff(c), Infinity)))
            && (lock == 0 || (est.startVal <= lock <= est.endVal && Less(est.ratioDiff(lock), Infinity)))
            && (forall c: U64 :: est.startVal <= c < lock ==>
                  est.ratioDiff(c) != est.ratioDiff(lock) && !Less(est.ratioDiff(c), est.ratioDiff(lock)))
  {
    var best := Scan(est.startVal, est.endVal, currentSourceAmount, est.ratioDiff, Best(0, Infinity));
    ScanOptimal(est.startVal, est.endVal, currentSourceAmount, est.ratioDiff, Best(0, Infinity));
    ScanFirstBest(est.startVal, est.endVal, currentSourceAmount, est.ratioDiff, Best(0, Infinity));
    if best.lock != 0 {
      LessIsStrictOrder(best.diff, Infinity, Infinity);
    }
  }

  /**
   * Ties go to the first candidate: when the search replaces the starting best, no
   * earlier admissible candidate has a ratio difference smaller than or equal to
   * the chosen one.
   */
  lemma {:induction false} ScanFirstBest(t: nat, endVal: U64, currentSource: U64, ratioDiff: U64 -> RatioDiff, best: Best)
    ensures var r := Scan(t, endVal, currentSource, ratioDiff, best);
            r == best
            || (Less(r.diff, best.diff)
                && forall c: U64 :: t <= c < r.lock && c < currentSource ==>
                     ratioDiff(c) != r.diff && !Less(ratioDiff(c), r.diff))
    decreases endVal + 1 - t
  {
    var r := Scan(t, endVal, currentSource, ratioDiff, best);
    if t <= endVal {
      if t > currentSource {
        ScanFirstBest(t + 1, endVal, currentSource, ratioDiff, best);
      } else if Less(ratioDiff(t), best.diff) && t < currentSource {
        var b := Best(t, ratioDiff(t));
        ScanFirstBest(t + 1, endVal, currentSource, ratioDiff, b);
        LessIsStrictOrder(r.diff, b.diff, best.diff);
        LessIsStrictOrder(b.diff, r.diff, best.diff);
      } else {
        ScanFirstBest(t + 1, endVal, currentSource, ratioDiff, best);
        LessIsStrictOrder(ratioDiff(t), r.diff, best.diff);
      }
    }
  }

  /**
   * `rebalance_pool_ratio` as the Rust code runs it: the guard, then a loop over
   * `start_val..=end_val` that keeps the best candidate.  The `checked_sub`s it
   * propagates with `?` never fail, so the result is always `Some`.
   */
  method RebalancePoolRatio(toAmountSwapped: U64, currentSourceAmount: U64, currentDestinationAmount: U64,
                            est: FloatEstimate) returns (r: Option<RebalanceResult>)
    ensures r == RebalanceSpec(toAmountSwapped, currentSourceAmount, currentDestinationAmount, est)
  {
    if Degenerate(toAmountSwapped, currentSourceAmount, currentDestinationAmount) {
      return Some(RebalanceResult(0, true));
    }
    var bestFromToLock: U64 := 0;
    var bestRatioDiff := Infinity;
    var test: nat := est.startVal;
    while test <= est.endVal
      // An empty range (start above end) never enters the loop, so `test` stays at the start.
      invariant test == est.startVal || est.startVal <= test <= est.endVal + 1
      invariant bestFromToLock < currentSourceAmount
      invariant Scan(test, est.endVal, currentSourceAmount, est.ratioDiff, Best(bestFromToLock, bestRatioDiff))
                == Scan(est.startVal, est.endVal, currentSourceAmount, est.ratioDiff, Best(0, Infinity))
      decreases est.endVal + 1 - test
    {
      if test > currentSourceAmount {
        test := test + 1;
        continue;
      }
      var ratioDiff := est.ratioDiff(test);
      if Less(ratioDiff, bestRatioDiff) && test < currentSourceAmount {
        bestRatioDiff := ratioDiff;
        bestFromToLock := test;
      }
      test := test + 1;
    }
    r := Some(RebalanceResult(bestFromToLock, est.exceedsTolerance(bestFromToLock)));
  }
}
