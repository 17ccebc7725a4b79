/**
 * 256-bit integers held as four 64-bit limbs, least significant limb first, as
 * `[u64; 4]` in the hash output and `ark_ff::BigInt<4>` in the curve library.
 */
module Limbs {
  import opened Bytes
  import opened Arith

  type Limbs4 = s: seq<U64> | |s| == 4 witness [0, 0, 0, 0]

  /** The integer the limbs stand for: the sum of limb i times 2^(64 i). */
  function LimbsValue(ls: seq<U64>): (r: nat)
    ensures r < Pow256(8 * |ls|)
  {
    if ls == [] then 0
    else
      var n := |ls| - 1;
      LimbBound(LimbsValue(ls[..n]), n, ls[n]);
      LimbsValue(ls[..n]) + Pow256(8 * n) * ls[n]
  }

  /** Adding limb n to a value of n limbs stays within n + 1 limbs. */
  lemma LimbBound(v: nat, n: nat, limb: U64)
    requires v < Pow256(8 * n)
    ensures v + Pow256(8 * n) * limb < Pow256(8 * n + 8)
  {
    Pow256Eight();
    Pow256Add(8 * n, 8);
    LimbStep(v, Pow256(8 * n), limb);
  }

  /** A value below `low` plus `low` times a limb stays below `low * 2^64`. */
  lemma LimbStep(v: nat, low: nat, limb: U64)
    requires v < low
    ensures v + low * limb < low * TWO_64
  {
    MulMonotone(limb, TWO_64 - 1, low);
    assert (TWO_64 - 1) * low + low == low * TWO_64;
  }

  /** Each limb written as its 8 little-endian bytes, limb after limb. */
  function LimbsLE(ls: seq<U64>): (r: seq<U8>)
    ensures |r| == 8 * |ls|
  {
    if ls == [] then []
    else
      Pow256Eight();
      LimbsLE(ls[..|ls| - 1]) + ToLE(ls[|ls| - 1], 8)
  }

  /** Byte j of limb i sits at offset 8 i + j of the limb bytes. */
  lemma {:induction false} LimbsLEAt(ls: seq<U64>, i: nat, j: nat)
    requires i < |ls| && j < 8
    ensures Pow256(8) == TWO_64 && LimbsLE(ls)[8 * i + j] == ToLE(ls[i], 8)[j]
  {
    Pow256Eight();
    var n := |ls| - 1;
    var front := LimbsLE(ls[..n]);
    var last := ToLE(ls[n], 8);
    var k := 8 * i + j;
    assert LimbsLE(ls) == front + last;
    if i < n {
      LimbsLEAt(ls[..n], i, j);
      assert (front + last)[k] == front[k];
    } else {
      assert (front + last)[k] == last[j];
    }
  }

  /** Reading the limb bytes little-endian gives the value of the limbs. */
  lemma {:induction false} LimbsLEValue(ls: seq<U64>)
    ensures LE(LimbsLE(ls)) == LimbsValue(ls)
  {
    if ls != [] {
      var init := ls[..|ls| - 1];
      Pow256Eight();
      LimbsLEValue(init);
      LEAppend(LimbsLE(init), ToLE(ls[|ls| - 1], 8));
    }
  }

  /** The value of four limbs written out. */
  lemma LimbsValue4(ls: Limbs4)
    ensures LimbsValue(ls) == ls[0] + TWO_64 * ls[1] + TWO_128 * ls[2] + TWO_128 * TWO_64 * ls[3]
  {
    Pow256Sixteen();
    Pow256Add(16, 8);
    assert ls[..3][..2][..1][..0] == [];
    assert LimbsValue(ls[..1]) == ls[0];
    assert LimbsValue(ls[..2]) == ls[0] + TWO_64 * ls[1] by {
      assert ls[..2][..1] == ls[..1];
    }
    assert LimbsValue(ls[..3]) == ls[0] + TWO_64 * ls[1] + TWO_128 * ls[2] by {
      assert ls[..3][..2] == ls[..2];
    }
  }

  /** The limb bytes are the little-endian encoding of the limbs' value, 8 bytes per limb. */
  lemma LimbsLEIsToLE(ls: seq<U64>)
    ensures LimbsValue(ls) < Pow256(8 * |ls|) && LimbsLE(ls) == ToLE(LimbsValue(ls), 8 * |ls|)
  {
    LimbsLEValue(ls);
    ToLEOfLE(LimbsLE(ls));
  }

  /** The limbs of a 256-bit value (`into_bigint`). */
  function ToLimbs(x: nat): (r: Limbs4)
    requires x < TWO_256
    ensures LimbsValue(r) == x
  {
    var q1 := x / TWO_64;
    var q2 := q1 / TWO_64;
    var q3 := q2 / TWO_64;
    assert x == x % TWO_64 + TWO_64 * q1;
    assert q1 == q1 % TWO_64 + TWO_64 * q2;
    assert q2 == q2 % TWO_64 + TWO_64 * q3;
    assert q3 < TWO_64;
    var r := [x % TWO_64, q1 % TWO_64, q2 % TWO_64, q3];
    LimbsValue4(r);
    r
  }
}
