/**
 * The commitment helpers of `proof/utils.rs`: the Poseidon hash of
 * (min_out, salt), its bytes, and the Montgomery-form reading of those bytes as a
 * BN254 scalar field element, which is the value the order stores as its
 * commitment and the circuit receives as a public input.
 */
module Commitment {
  import opened Bytes
  import opened Limbs
  import opened Arith

  /** The order of the BN254 scalar field. */
  const BN254_SCALAR_MODULUS: nat := 21888242871839275222246405745257275088548364400416034343698204186575808495617

  /** R^-1 mod p for the Montgomery radix R = 2^256. */
  const MONTGOMERY_R_INV: nat := 9915499612839321149637521777990102151350674507940716049588462388200839649614

  /** An 8-byte salt (`[u8; 8]`). */
  type Bytes8 = s: seq<U8> | |s| == 8 witness [0, 0, 0, 0, 0, 0, 0, 0]

  /**
   * `u64_array_to_u8_array_le`: each of the four limbs is written as its 8
   * little-endian bytes into its own slot of a 32-byte buffer.
   */
  method U64ArrayToU8ArrayLe(input: Limbs4) returns (output: Bytes32)
    ensures output == LimbsLE(input)
    ensures LE(output) == LimbsValue(input)
  {
    var buffer := new U8[32](_ => 0);
    Pow256Eight();
    for i := 0 to 4
      invariant forall k :: 0 <= k < 8 * i ==> buffer[k] == LimbsLE(input)[k]
    {
      var bytes := ToLE(input[i], 8);
      for j := 0 to 8
        invariant forall k :: 0 <= k < 8 * i + j ==> buffer[k] == LimbsLE(input)[k]
      {
        LimbsLEAt(input, i, j);
        buffer[8 * i + j] := bytes[j];
      }
    }
    output := buffer[..];
    LimbsLEValue(input);
  }

  /** `u64::from_le_bytes(salt)`: the salt's little-endian value, which encodes back to the same salt. */
  function SaltToU64(salt: Bytes8): (r: U64)
    ensures ToLE(r, 8) == salt
  {
    LEBound(salt);
    Pow256Eight();
    ToLEOfLE(salt);
    LE(salt)
  }

  /** Distinct salts are distinct hash inputs: reading the salt loses nothing. */
  lemma SaltToU64Injective(s1: Bytes8, s2: Bytes8)
    requires SaltToU64(s1) == SaltToU64(s2)
    ensures s1 == s2
  {
    Pow256Eight();
  }

  /**
   * `compute_poseidon_hash_with_salt`: the Poseidon hash, whose four result limbs
   * are `poseidon`'s, of min_out and the salt read little-endian.  The hash itself
   * is not part of this model and arrives as a parameter.
   */
  function ComputePoseidonHashWithSalt(minOut: U64, salt: Bytes8, poseidon: (U64, U64) -> Limbs4): (r: Limbs4)
    ensures exists s: U64 :: ToLE(s, 8) == salt && r == poseidon(minOut, s)
  {
    var s := SaltToU64(salt);
    assert ToLE(s, 8) == salt;
    poseidon(minOut, s)
  }

  /**
   * `bytes_to_bigint`: read the 32 bytes little-endian as a Montgomery
   * representation and convert it out of Montgomery form.  The result is the
   * unique field element x with x * 2^256 = value (mod p).
   */
  function BytesToBigint(bytes: Bytes32): (r: nat)
    ensures r < BN254_SCALAR_MODULUS
    ensures (r * TWO_256) % BN254_SCALAR_MODULUS == LE(bytes) % BN254_SCALAR_MODULUS
  {
    var r := (LE(bytes) * MONTGOMERY_R_INV) % BN254_SCALAR_MODULUS;
    MontgomeryInverse(LE(bytes), r);
    r
  }

  /** Multiplying by R^-1 and reducing undoes multiplying by R = 2^256, modulo p. */
  lemma MontgomeryInverse(v: nat, r: nat)
    requires r == (v * MONTGOMERY_R_INV) % BN254_SCALAR_MODULUS
    ensures (r * TWO_256) % BN254_SCALAR_MODULUS == v % BN254_SCALAR_MODULUS
  {
    var p := BN254_SCALAR_MODULUS;
    var k := (v * MONTGOMERY_R_INV) / p;
    var m := 52454480824480482120356829342366457550537710351690908576382634413609933864959;
    assert MONTGOMERY_R_INV * TWO_256 == 1 + m * p;
    assert v * MONTGOMERY_R_INV == k * p + r;
    calc {
      r * TWO_256;
      (v * MONTGOMERY_R_INV - k * p) * TWO_256;
      v * (MONTGOMERY_R_INV * TWO_256) - k * p * TWO_256;
      v * (1 + m * p) - k * p * TWO_256;
      v + p * (v * m - k * TWO_256);
    }
    ModAddMultiple(v, p, v * m - k * TWO_256);
  }
}
