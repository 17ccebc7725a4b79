/**
 * The Solana wire format of a Groth16 proof over BN254 (`proof_generator.rs`):
 * 32-byte big-endian field elements, uncompressed G1 points as x ‖ y (the
 * encoding of section "Encoding" of EIP-196) and G2 points with the imaginary
 * coefficient of each F_p^2 coordinate first (EIP-197), the negated A point the
 * on-chain verifier expects, and the two public signals.
 */
module ProofEncoding {
  import opened Bytes
  import opened Limbs
  import opened Wrappers

  /** The order of the BN254 base field, over which the curve points' coordinates live. */
  const BN254_BASE_MODULUS: nat := 21888242871839275222246405745257275088696311157297823662689037894645226208583

  /** An element of the base field, held in canonical form. */
  type Fq = x: nat | x < BN254_BASE_MODULUS

  /** A finite point of G1; the point at infinity has no affine coordinates and is not represented. */
  datatype G1Affine = G1Affine(x: Fq, y: Fq)

  /** c0 + c1 * u in the quadratic extension F_p^2. */
  datatype Fq2 = Fq2(c0: Fq, c1: Fq)

  /** A finite point of G2. */
  datatype G2Affine = G2Affine(x: Fq2, y: Fq2)

  datatype Groth16Proof = Groth16Proof(a: G1Affine, b: G2Affine, c: G1Affine)

  datatype PrivateProofInputs = PrivateProofInputs(minOut: U64, salt: U64)

  datatype PublicProofInputs = PublicProofInputs(realOut: U64, commitment: nat)

  /** The proof as the on-chain program receives it. */
  datatype GeneratedProof = GeneratedProof(proofA: seq<U8>, proofB: seq<U8>, proofC: seq<U8>, publicSignals: seq<Bytes32>)

  /**
   * `bigint_to_bytes_be`: write the limbs' little-endian bytes into a 32-byte
   * buffer, then reverse the buffer in place.  The result is the big-endian
   * encoding of the limbs' value.
   */
  method BigintToBytesBe(bigint: Limbs4) returns (r: Bytes32)
    ensures BE(r) == LimbsValue(bigint)
  {
    var bytes := new U8[32](_ => 0);
    Pow256Eight();
    for i := 0 to 4
      invariant forall k :: 0 <= k < 8 * i ==> bytes[k] == LimbsLE(bigint)[k]
    {
      var limb := ToLE(bigint[i], 8);
      for j := 0 to 8
        invariant forall k :: 0 <= k < 8 * i + j ==> bytes[k] == LimbsLE(bigint)[k]
      {
        LimbsLEAt(bigint, i, j);
        bytes[8 * i + j] := limb[j];
      }
    }
    assert bytes[..] == LimbsLE(bigint);
    LimbsLEValue(bigint);
    ReverseBytes(bytes);
    BEOfReverse(LimbsLE(bigint));
    r := bytes[..];
  }

  /** `<[u8]>::reverse`: swap the two ends inwards. */
  method ReverseBytes(a: array<U8>)
    modifies a
    ensures a[..] == Reverse(old(a[..]))
  {
    var n := a.Length;
    for i := 0 to n / 2
      invariant forall k :: 0 <= k < i ==> a[k] == old(a[n - 1 - k]) && a[n - 1 - k] == old(a[k])
      invariant forall k :: i <= k < n - i ==> a[k] == old(a[k])
    {
      a[i], a[n - 1 - i] := a[n - 1 - i], a[i];
    }
    forall k | 0 <= k < n
      ensures a[k] == Reverse(old(a[..]))[k]
    {
      ReverseAt(old(a[..]), k);
    }
  }

  /**
   * `to_32_byte_buffer`: the value as 64 hex digits, zero-padded on the left,
   * decoded to 32 bytes.  A value of 2^256 or more gives more than 32 bytes and
   * the copy into the buffer panics.
   */
  function To32ByteBuffer(x: nat): (r: Bytes32)
    requires x < TWO_256
    ensures BE(r) == x
  {
    Pow256ThirtyTwo();
    ToBE(x, 32)
  }

  /** `from_32_byte_buffer`: the buffer read as a big-endian number. */
  function From32ByteBuffer(buffer: Bytes32): (r: nat)
    ensures r < TWO_256
  {
    BEBound(buffer);
    Pow256ThirtyTwo();
    BE(buffer)
  }

  /** The two buffer conversions are inverse to each other, in both directions. */
  lemma BufferRoundTrips(x: nat, buffer: Bytes32)
    requires x < TWO_256
    ensures From32ByteBuffer(To32ByteBuffer(x)) == x
    ensures To32ByteBuffer(From32ByteBuffer(buffer)) == buffer
  {
    Pow256ThirtyTwo();
    ToBEOfBE(buffer);
  }

  /** A 32-byte buffer is the only one whose big-endian value is its value. */
  lemma BufferOfValue(buffer: seq<U8>, x: nat)
    requires |buffer| == 32 && BE(buffer) == x
    ensures x < TWO_256 && To32ByteBuffer(x) == buffer
  {
    BufferRoundTrips(0, buffer);
  }

  /** The uncompressed 64-byte encoding of a G1 point: x then y, each 32 bytes big-endian. */
  function G1Encoding(p: G1Affine): (r: seq<U8>)
    ensures |r| == 64
  {
    To32ByteBuffer(p.x) + To32ByteBuffer(p.y)
  }

  /** The uncompressed 128-byte encoding of a G2 point: x.c1, x.c0, y.c1, y.c0, each 32 bytes big-endian. */
  function G2Encoding(p: G2Affine): (r: seq<U8>)
    ensures |r| == 128
  {
    To32ByteBuffer(p.x.c1) + To32ByteBuffer(p.x.c0) + To32ByteBuffer(p.y.c1) + To32ByteBuffer(p.y.c0)
  }

  /** A 32-byte big-endian field element, rejected when it is not below the modulus. */
  function DecodeFq(bytes: seq<U8>): (r: Option<Fq>)
    requires |bytes| == 32
    ensures r.Some? <==> BE(bytes) < BN254_BASE_MODULUS
    ensures r.Some? ==> r.value == BE(bytes)
  {
    if BE(bytes) < BN254_BASE_MODULUS then Some(BE(bytes)) else None
  }

  /** Reading a G1 encoding back: the independent inverse of `G1Encoding`. */
  function G1Decode(bytes: seq<U8>): Option<G1Affine>
    requires |bytes| == 64
  {
    match (DecodeFq(bytes[..32]), DecodeFq(bytes[32..]))
    case (Some(x), Some(y)) => Some(G1Affine(x, y))
    case _ => None
  }

  /** Reading a G2 encoding back: the independent inverse of `G2Encoding`. */
  function G2Decode(bytes: seq<U8>): Option<G2Affine>
    requires |bytes| == 128
  {
    match (DecodeFq(bytes[..32]), DecodeFq(bytes[32..64]), DecodeFq(bytes[64..96]), DecodeFq(bytes[96..]))
    case (Some(x1), Some(x0), Some(y1), Some(y0)) => Some(G2Affine(Fq2(x0, x1), Fq2(y0, y1)))
    case _ => None
  }

  /** Every G1 point is recovered from its encoding, and no two points share one. */
  lemma G1RoundTrip(p: G1Affine)
    ensures G1Decode(G1Encoding(p)) == Some(p)
  {
    var e := G1Encoding(p);
    assert e[..32] == To32ByteBuffer(p.x);
    assert e[32..] == To32ByteBuffer(p.y);
  }

  /** Every G2 point is recovered from its encoding, imaginary coefficients first. */
  lemma G2RoundTrip(p: G2Affine)
    ensures G2Decode(G2Encoding(p)) == Some(p)
  {
    var e := G2Encoding(p);
    assert e[..32] == To32ByteBuffer(p.x.c1);
    assert e[32..64] == To32ByteBuffer(p.x.c0);
    assert e[64..96] == To32ByteBuffer(p.y.c1);
    assert e[96..] == To32ByteBuffer(p.y.c0);
  }

  /** Copy `src` into `out` from `offset` on (`copy_from_slice` on a sub-slice). */
  method CopyInto(out: array<U8>, offset: nat, src: seq<U8>)
    requires offset + |src| <= out.Length
    modifies out
    ensures forall i :: 0 <= i < offset ==> out[i] == old(out[i])
    ensures forall i :: offset <= i < offset + |src| ==> out[i] == src[i - offset]
    ensures forall i :: offset + |src| <= i < out.Length ==> out[i] == old(out[i])
  {
    for k := 0 to |src|
      invariant forall i :: 0 <= i < out.Length ==>
        out[i] == if offset <= i < offset + k then src[i - offset] else old(out[i])
    {
      out[offset + k] := src[k];
    }
  }

  /** A coordinate's limbs (`into_bigint`) written big-endian, as each `*_uncompressed` does per coordinate. */
  method CoordinateBytes(x: Fq) returns (r: seq<U8>)
    ensures r == To32ByteBuffer(x)
  {
    var bytes := BigintToBytesBe(ToLimbs(x));
    BufferOfValue(bytes, x);
    r := bytes;
  }

  /** `g1_uncompressed`: both coordinates converted to big-endian and copied into a 64-byte buffer. */
  method G1Uncompressed(point: G1Affine) returns (r: seq<U8>)
    ensures r == G1Encoding(point)
  {
    var out := new U8[64](_ => 0);
    var xBytes := CoordinateBytes(point.x);
    var yBytes := CoordinateBytes(point.y);
    ghost var e := xBytes + yBytes;
    CopyInto(out, 0, xBytes);
    assert forall i :: 0 <= i < 32 ==> out[i] == e[i];
    CopyInto(out, 32, yBytes);
    assert forall i :: 0 <= i < 64 ==> out[i] == e[i];
    r := out[..];
  }

  /** `g2_uncompressed`: the four coefficients converted to big-endian and copied as x1, x0, y1, y0. */
  method G2Uncompressed(point: G2Affine) returns (r: seq<U8>)
    ensures r == G2Encoding(point)
  {
    var out := new U8[128](_ => 0);
    var x0Bytes := CoordinateBytes(point.x.c0);
    var x1Bytes := CoordinateBytes(point.x.c1);
    var y0Bytes := CoordinateBytes(point.y.c0);
    var y1Bytes := CoordinateBytes(point.y.c1);
    ghost var e := x1Bytes + x0Bytes + y1Bytes + y0Bytes;
    CopyInto(out, 0, x1Bytes);
    assert forall i :: 0 <= i < 32 ==> out[i] == e[i];
    CopyInto(out, 32, x0Bytes);
    assert forall i :: 0 <= i < 64 ==> out[i] == e[i];
    CopyInto(out, 64, y1Bytes);
    assert forall i :: 0 <= i < 96 ==> out[i] == e[i];
    CopyInto(out, 96, y0Bytes);
    assert forall i :: 0 <= i < 128 ==> out[i] == e[i];
    r := out[..];
  }

  /**
   * `convert_proof_to_solana_proof`: A is negated before it is encoded (the
   * on-chain verifier checks e(-A, B) e(alpha, beta) ... = 1), B and C are encoded
   * as they are, and the public signals are real_out and the commitment as
   * 32-byte big-endian buffers.  Point negation is curve arithmetic outside this
   * model and arrives as `negate`.  A commitment of 2^256 or more panics.
   */
  function ConvertProofToSolanaProof(proof: Groth16Proof, publicInputs: PublicProofInputs,
                                     negate: G1Affine -> G1Affine): (r: GeneratedProof)
    requires publicInputs.commitment < TWO_256
    ensures |r.proofA| == 64 && |r.proofB| == 128 && |r.proofC| == 64 && |r.publicSignals| == 2
    ensures G1Decode(r.proofA) == Some(negate(proof.a))
    ensures G2Decode(r.proofB) == Some(proof.b)
    ensures G1Decode(r.proofC) == Some(proof.c)
    ensures From32ByteBuffer(r.publicSignals[0]) == publicInputs.realOut
    ensures From32ByteBuffer(r.publicSignals[1]) == publicInputs.commitment
  {
    G1RoundTrip(negate(proof.a));
    G2RoundTrip(proof.b);
    G1RoundTrip(proof.c);
    GeneratedProof(
      G1Encoding(negate(proof.a)),
      G2Encoding(proof.b),
      G1Encoding(proof.c),
      [To32ByteBuffer(publicInputs.realOut), To32ByteBuffer(publicInputs.commitment)])
  }
}
