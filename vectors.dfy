/**
 * The test vectors of `proof/utils.rs` and `proof_generator.rs`, proved against
 * the model: the Montgomery conversion of three hash outputs, the big-endian
 * bytes of 12345, and the Solana encoding of the proof points in the
 * conversion test.
 */
module Vectors {
  import opened Bytes
  import opened Limbs
  import opened Commitment
  import opened ProofEncoding
  import opened VectorBytes
  import opened Arith

  /** Coordinates of the proof in the conversion test. */
  const A_X: Fq := 21336970266497842767908716900339070049495537133979236291184473560261457202592
  const A_Y: Fq := 10357002110641456830517929333644944387172532981420682841938017904947253585119
  const B_X0: Fq := 10031611684880255122878343088918815315994982761231989012341296266256938728077
  const B_X1: Fq := 9864564115022077789419921627032874448498818722354799099437941413808450142573
  const B_Y0: Fq := 3480829982942279746431969300864501854801665728182328337962114289772946080951
  const B_Y1: Fq := 16235198704867435558683146462392128588420589574937794617432543654822315372734
  const C_X: Fq := 18355236746471312442545116245056291713255790355048937153933495531313019379566
  const C_Y: Fq := 18641767980306819609170870710163640532602332263544376747995786075293749543061

  /** Hash output bytes for min_out 0 and the zero salt. */
  const ZERO_INPUT_HASH: Bytes32 :=
    [130, 154, 1, 250, 228, 248, 226, 43] +
    [27, 76, 165, 173, 91, 84, 165, 131] +
    [78, 224, 152, 167, 123, 115, 91, 213] +
    [116, 49, 167, 101, 109, 41, 161, 8]

  /** Hash output bytes for min_out 1 and the zero salt. */
  const MIN_OUT_ONE_HASH: Bytes32 :=
    [153, 228, 180, 254, 17, 76, 70, 85] +
    [144, 220, 166, 91, 235, 153, 101, 2] +
    [209, 78, 60, 87, 166, 84, 127, 81] +
    [221, 96, 78, 137, 198, 139, 168, 47]

  /** Hash output bytes for min_out 0 and the salt [100, 0, ...]. */
  const SALT_HUNDRED_HASH: Bytes32 :=
    [1, 81, 179, 227, 61, 198, 154, 248] +
    [208, 143, 160, 176, 87, 254, 14, 196] +
    [209, 124, 218, 27, 125, 233, 182, 32] +
    [41, 138, 181, 91, 71, 156, 157, 9]

  /** The expected big-endian bytes of 12345. */
  const BE_12345: Bytes32 :=
    [0, 0, 0, 0, 0, 0, 0, 0] +
    [0, 0, 0, 0, 0, 0, 0, 0] +
    [0, 0, 0, 0, 0, 0, 0, 0] +
    [0, 0, 0, 0, 0, 0, 48, 57]

  /** The expected `proof_a`, in its two 32-byte halves. */
  const PROOF_A_X: Bytes32 :=
    [47, 44, 76, 21, 126, 202, 243, 46] +
    [235, 135, 162, 57, 164, 197, 50, 168] +
    [136, 199, 95, 241, 187, 183, 172, 191] +
    [78, 29, 130, 177, 191, 165, 205, 160]

  const PROOF_A_Y: Bytes32 :=
    [25, 126, 115, 115, 144, 158, 228, 128] +
    [166, 92, 240, 24, 9, 92, 227, 174] +
    [4, 13, 224, 148, 145, 54, 29, 196] +
    [70, 201, 135, 171, 249, 175, 88, 104]

  /** The expected `proof_b`, in its four 32-byte quarters. */
  const PROOF_B_X1: Bytes32 :=
    [21, 207, 37, 58, 228, 149, 76, 73] +
    [42, 190, 131, 167, 8, 96, 65, 141] +
    [60, 42, 155, 231, 62, 53, 119, 167] +
    [164, 75, 174, 175, 155, 229, 129, 109]

  const PROOF_B_X0: Bytes32 :=
    [22, 45, 176, 229, 160, 239, 161, 172] +
    [251, 6, 183, 217, 223, 47, 61, 31] +
    [164, 95, 104, 80, 187, 77, 120, 176] +
    [210, 23, 149, 124, 72, 120, 122, 141]

  const PROOF_B_Y1: Bytes32 :=
    [35, 228, 203, 252, 239, 240, 195, 63] +
    [59, 152, 45, 248, 188, 82, 131, 158] +
    [199, 96, 154, 166, 161, 115, 166, 70] +
    [103, 149, 25, 174, 62, 233, 48, 190]

  const PROOF_B_Y0: Bytes32 :=
    [7, 178, 20, 119, 210, 128, 22, 106] +
    [28, 244, 39, 249, 64, 232, 192, 108] +
    [234, 154, 115, 28, 39, 187, 185, 74] +
    [211, 132, 153, 121, 180, 81, 68, 183]

  /** The expected `proof_c`, in its two 32-byte halves. */
  const PROOF_C_X: Bytes32 :=
    [40, 148, 178, 34, 95, 147, 249, 78] +
    [211, 28, 202, 71, 162, 82, 131, 150] +
    [213, 244, 32, 183, 29, 233, 83, 95] +
    [38, 163, 180, 110, 53, 174, 95, 110]

  const PROOF_C_Y: Bytes32 :=
    [41, 54, 221, 228, 133, 189, 61, 191] +
    [111, 39, 198, 81, 208, 14, 69, 84] +
    [114, 25, 92, 155, 135, 247, 155, 114] +
    [173, 228, 136, 166, 9, 51, 0, 149]

  /** The hash bytes for (min_out 0, zero salt) read little-endian. */
  lemma ZeroInputHashLE()
    ensures LE(ZERO_INPUT_HASH) == 3903251087035176863716436905953604862679735826551275618631080009348721777282
  {
    ZeroInputHashValue(ZERO_INPUT_HASH);
  }

  /** The hash bytes for (min_out 1, zero salt) read little-endian. */
  lemma MinOutOneHashLE()
    ensures LE(MIN_OUT_ONE_HASH) == 21556498885567959757859502838713465178879076309391408607210170759797791843481
  {
    MinOutOneHashValue(MIN_OUT_ONE_HASH);
  }

  /** The hash bytes for (min_out 0, salt [100, 0, ...]) read little-endian. */
  lemma SaltHundredHashLE()
    ensures LE(SALT_HUNDRED_HASH) == 4349289222664016169421685059227965792448666724714792110008503204762931646721
  {
    SaltHundredHashValue(SALT_HUNDRED_HASH);
  }

  /** The conversion's value once the product's quotient by p is known. */
  lemma ConvertedValue(bytes: Bytes32, k: nat, r: nat)
    requires r < BN254_SCALAR_MODULUS
    requires LE(bytes) * MONTGOMERY_R_INV == k * BN254_SCALAR_MODULUS + r
    ensures BytesToBigint(bytes) == r
  {
    ModUnique(LE(bytes) * MONTGOMERY_R_INV, BN254_SCALAR_MODULUS, k, r);
  }

  /** The hash bytes for (min_out 0, zero salt) convert to the commitment 14744...9156. */
  lemma ZeroInputCommitment()
    ensures BytesToBigint(ZERO_INPUT_HASH)
            == 14744269619966411208579211824598458697587494354926760081771325075741142829156
  {
    ZeroInputHashLE();
    ConvertedValue(ZERO_INPUT_HASH, 1768195138774963625272522516092742493064982383233964960893169965014875864376, 14744269619966411208579211824598458697587494354926760081771325075741142829156);
  }

  /** The hash bytes for (min_out 1, zero salt) convert to the commitment 18423...9999. */
  lemma MinOutOneCommitment()
    ensures BytesToBigint(MIN_OUT_ONE_HASH)
            == 18423194802802147121294641945063302532319431080857859605204660473644265519999
  {
    MinOutOneHashLE();
    ConvertedValue(MIN_OUT_ONE_HASH, 9765217683554488075738267737915591906561136225842804953409442868750154292255, 18423194802802147121294641945063302532319431080857859605204660473644265519999);
  }

  /** The hash bytes for (min_out 0, salt [100, 0, ...]) convert to the commitment 8495...1449. */
  lemma SaltHundredCommitment()
    ensures BytesToBigint(SALT_HUNDRED_HASH)
            == 8495383626315836305837861875604061881947184042460352587383381292552921449
  {
    SaltHundredHashLE();
    ConvertedValue(SALT_HUNDRED_HASH, 1970252973523746672908484545853754806284262825872190635283225468341100160485, 8495383626315836305837861875604061881947184042460352587383381292552921449);
  }

  /** The salt [100, 0, 0, 0, 0, 0, 0, 0] enters the hash as the number 100. */
  lemma SaltHundredValue()
    ensures SaltToU64([100, 0, 0, 0, 0, 0, 0, 0]) == 100
  {
    var s: seq<U8> := [100, 0, 0, 0, 0, 0, 0, 0];
    LE8(s);
  }

  /** The expected bytes of 12345 read big-endian. */
  lemma Be12345BE()
    ensures BE(BE_12345) == 12345
  {
    Be12345Value(BE_12345);
  }

  /**
   * The limbs [12345, 0, 0, 0] come out of `BigintToBytesBe` as 24 zero bytes
   * followed by [0, 0, 0, 0, 0, 0, 48, 57]: any 32 bytes that read big-endian
   * as the limbs' value are exactly those.
   */
  lemma BigintToBytesBeVector(r: seq<U8>)
    requires |r| == 32 && BE(r) == LimbsValue([12345, 0, 0, 0])
    ensures r == BE_12345
  {
    LimbsValue4([12345, 0, 0, 0]);
    Be12345BE();
    BEInjective(r, BE_12345);
  }

  /** The encoding of the negated A point (x, p - y) is the expected `proof_a`. */
  lemma ProofAVector()
    ensures G1Encoding(G1Affine(A_X, BN254_BASE_MODULUS - A_Y)) == PROOF_A_X + PROOF_A_Y
  {
    ProofAXValue(PROOF_A_X);
    ProofAYValue(PROOF_A_Y);
    BufferOfValue(PROOF_A_X, A_X);
    BufferOfValue(PROOF_A_Y, BN254_BASE_MODULUS - A_Y);
  }

  /** The encoding of B is the expected `proof_b`: x.c1, x.c0, y.c1, y.c0. */
  lemma ProofBVector()
    ensures G2Encoding(G2Affine(Fq2(B_X0, B_X1), Fq2(B_Y0, B_Y1)))
            == PROOF_B_X1 + PROOF_B_X0 + PROOF_B_Y1 + PROOF_B_Y0
  {
    ProofBX1Value(PROOF_B_X1);
    ProofBX0Value(PROOF_B_X0);
    ProofBY1Value(PROOF_B_Y1);
    ProofBY0Value(PROOF_B_Y0);
    BufferOfValue(PROOF_B_X1, B_X1);
    BufferOfValue(PROOF_B_X0, B_X0);
    BufferOfValue(PROOF_B_Y1, B_Y1);
    BufferOfValue(PROOF_B_Y0, B_Y0);
  }

  /** The encoding of C is the expected `proof_c`, with no negation. */
  lemma ProofCVector()
    ensures G1Encoding(G1Affine(C_X, C_Y)) == PROOF_C_X + PROOF_C_Y
  {
    ProofCXValue(PROOF_C_X);
    ProofCYValue(PROOF_C_Y);
    BufferOfValue(PROOF_C_X, C_X);
    BufferOfValue(PROOF_C_Y, C_Y);
  }
}
