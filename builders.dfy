/**
 * The instruction builders of the pool client (`get_*_and_account_metas` in
 * `darklake-sdk/src/darklake_amm.rs` and `src/darklake_amm.rs`) and the order
 * helpers beside them.  Each builder checks its guards in the source order and
 * then appends the arguments to the discriminator one slice at a time; the result
 * is the layout `Instructions.Encode` describes.  The account lists, the
 * program-derived addresses and the proving system are outside this model:
 * proving arrives as `prover`, point negation as `negate`, and the order
 * address as `orderAddress`.
 */
module Builders {
  import opened Bytes
  import opened Wrappers
  import opened Limbs
  import opened Commitment
  import opened ProofEncoding
  import opened Instructions
  import opened Quote

  datatype BuildError =
    | OrderExpired
    | OrderNotExpired
    | ProofGenerationFailed
    | CannotSettle
    | CannotCancel
    | PoolNotInitialized

  /** `generate_proof(private, public, is_cancel)`: a proof, or `None` when proving fails. */
  type Prover = (PrivateProofInputs, PublicProofInputs, bool) -> Option<Groth16Proof>

  datatype SwapParams = SwapParams(sourceMint: Pubkey, inAmount: U64, minOut: U64, salt: Bytes8)

  /** The order an owner settles or cancels: its secret (min_out, salt), the pool's output and the timing. */
  datatype SettleParams = SettleParams(
    unwrapWsol: bool,
    minOut: U64,
    salt: Bytes8,
    output: U64,
    commitment: Bytes32,
    deadline: U64,
    currentSlot: U64)

  datatype CancelParams = CancelParams(
    minOut: U64,
    salt: Bytes8,
    output: U64,
    commitment: Bytes32,
    deadline: U64,
    currentSlot: U64)

  datatype SlashParams = SlashParams(deadline: U64, currentSlot: U64)

  /** `FinalizeParams` carries the same fields as `SettleParams`. */
  type FinalizeParams = SettleParams

  datatype AddLiquidityParams = AddLiquidityParams(amountLp: U64, maxAmountX: U64, maxAmountY: U64)

  datatype RemoveLiquidityParams = RemoveLiquidityParams(amountLp: U64, minAmountX: U64, minAmountY: U64)

  /** A built instruction: its discriminator, its arguments and its data. */
  datatype Built = Built(discriminator: seq<U8>, args: Instruction, data: seq<U8>)

  /**
   * The commitment a swap stores for (min_out, salt): the Poseidon hash's limbs as
   * little-endian bytes, read as a Montgomery-form field element, converted out of
   * Montgomery form and written as a 32-byte big-endian buffer.  It stands for a
   * field element x with x * 2^256 = hash (mod p).
   */
  function SwapCommitment(minOut: U64, salt: Bytes8, poseidon: (U64, U64) -> Limbs4): (r: Bytes32)
    ensures From32ByteBuffer(r) < BN254_SCALAR_MODULUS
    ensures (From32ByteBuffer(r) * TWO_256) % BN254_SCALAR_MODULUS
            == LimbsValue(poseidon(minOut, SaltToU64(salt))) % BN254_SCALAR_MODULUS
  {
    var hash := ComputePoseidonHashWithSalt(minOut, salt, poseidon);
    LimbsLEValue(hash);
    To32ByteBuffer(BytesToBigint(LimbsLE(hash)))
  }

  /**
   * `get_swap_and_account_metas`: the commitment to (min_out, salt), then the data
   * discriminator ++ in_amount ++ direction ++ commitment.  The direction byte is 1
   * exactly when the source mint is the pool's token X.
   */
  method GetSwapAndAccountMetas(amm: DarklakeAmm, params: SwapParams, poseidon: (U64, U64) -> Limbs4) returns (r: Built)
    ensures r.discriminator == SWAP_DISCRIMINATOR
    ensures r.args == SwapIx(params.inAmount, params.sourceMint == amm.pool.tokenMintX,
                             SwapCommitment(params.minOut, params.salt, poseidon))
    ensures r.data == Encode(r.args)
    ensures |r.data| == 49 && (r.data[16] == 1 <==> params.sourceMint == amm.pool.tokenMintX)
  {
    var hash := ComputePoseidonHashWithSalt(params.minOut, params.salt, poseidon);
    var bytes := U64ArrayToU8ArrayLe(hash);
    var commitment := To32ByteBuffer(BytesToBigint(bytes));
    var isSwapXToY := params.sourceMint == amm.pool.tokenMintX;
    var data := SWAP_DISCRIMINATOR;
    data := data + U64Bytes(params.inAmount);
    data := data + [BoolByte(isSwapXToY)];
    data := data + commitment;
    SwapBodyFields(U64Bytes(params.inAmount), BoolByte(isSwapXToY), commitment);
    SwapRoundTrip(params.inAmount, isSwapXToY, commitment);
    r := Built(SWAP_DISCRIMINATOR, SwapIx(params.inAmount, isSwapXToY, commitment), data);
  }

  /** The prover's secret inputs: min_out and the salt read little-endian. */
  function PrivateInputs(minOut: U64, salt: Bytes8): (r: PrivateProofInputs)
    ensures r.minOut == minOut && ToLE(r.salt, 8) == salt
  {
    PrivateProofInputs(minOut, SaltToU64(salt))
  }

  /** The prover's public inputs: the order's output and its commitment read big-endian. */
  function PublicInputs(output: U64, commitment: Bytes32): (r: PublicProofInputs)
    ensures r.realOut == output && r.commitment < TWO_256 && To32ByteBuffer(r.commitment) == commitment
  {
    BufferRoundTrips(0, commitment);
    PublicProofInputs(output, From32ByteBuffer(commitment))
  }

  /** The proof a settle (`isCancel` false) or a cancel (`isCancel` true) asks for. */
  function OrderProof(minOut: U64, salt: Bytes8, output: U64, commitment: Bytes32, prover: Prover, isCancel: bool): Option<Groth16Proof>
  {
    prover(PrivateInputs(minOut, salt), PublicInputs(output, commitment), isCancel)
  }

  /** The public signals sent on chain are the output and, byte for byte, the order's commitment. */
  lemma SignalsOfProof(proof: Groth16Proof, output: U64, commitment: Bytes32, negate: G1Affine -> G1Affine)
    ensures ConvertProofToSolanaProof(proof, PublicInputs(output, commitment), negate).publicSignals
            == [To32ByteBuffer(output), commitment]
  {
    var signals := ConvertProofToSolanaProof(proof, PublicInputs(output, commitment), negate).publicSignals;
    BufferRoundTrips(0, signals[0]);
    BufferRoundTrips(0, signals[1]);
  }

  /**
   * `get_settle_and_account_metas`: refuse an expired order, prove, refuse an
   * order whose output is below min_out, then append the proof and the signals and
   * the unwrap flag to the discriminator.  Converting the public signals to a
   * two-element array cannot fail: the conversion always yields two.
   */
  method GetSettleAndAccountMetas(params: SettleParams, prover: Prover, negate: G1Affine -> G1Affine)
    returns (r: Result<Built, BuildError>)
    ensures var proof := OrderProof(params.minOut, params.salt, params.output, params.commitment, prover, false);
            r.Failure? <==> params.currentSlot > params.deadline || proof.None? || params.minOut > params.output
    ensures var proof := OrderProof(params.minOut, params.salt, params.output, params.commitment, prover, false);
            r.Failure? ==>
              r.error == if params.currentSlot > params.deadline then OrderExpired
                         else if proof.None? then ProofGenerationFailed
                         else CannotSettle
    ensures r.Success? ==>
              var proof := OrderProof(params.minOut, params.salt, params.output, params.commitment, prover, false).value;
              var solana := ConvertProofToSolanaProof(proof, PublicInputs(params.output, params.commitment), negate);
              && r.value.discriminator == SETTLE_DISCRIMINATOR
              && r.value.args == SettleIx(solana.proofA, solana.proofB, solana.proofC, solana.publicSignals, params.unwrapWsol)
              && r.value.args.publicSignals == [To32ByteBuffer(params.output), params.commitment]
              && r.value.data == Encode(r.value.args)
  {
    if params.currentSlot > params.deadline {
      return Failure(OrderExpired);
    }
    var privateInputs := PrivateInputs(params.minOut, params.salt);
    var publicInputs := PublicInputs(params.output, params.commitment);
    var proof := prover(privateInputs, publicInputs, false);
    if proof.None? {
      return Failure(ProofGenerationFailed);
    }
    var solana := ConvertProofToSolanaProof(proof.value, publicInputs, negate);
    var signals := solana.publicSignals;
    var isSettle := params.minOut <= params.output;
    if !isSettle {
      return Failure(CannotSettle);
    }
    var data := SETTLE_DISCRIMINATOR;
    data := data + solana.proofA;
    data := data + solana.proofB;
    data := data + solana.proofC;
    data := data + signals[0];
    data := data + signals[1];
    data := data + [BoolByte(params.unwrapWsol)];
    SignalsOfProof(proof.value, params.output, params.commitment, negate);
    r := Success(Built(SETTLE_DISCRIMINATOR,
                       SettleIx(solana.proofA, solana.proofB, solana.proofC, signals, params.unwrapWsol), data));
  }

  /**
   * `get_cancel_and_account_metas`: refuse an expired order, prove (as a cancel),
   * refuse an order whose output meets min_out, then append the proof and the
   * signals to the discriminator.
   */
  method GetCancelAndAccountMetas(params: CancelParams, prover: Prover, negate: G1Affine -> G1Affine)
    returns (r: Result<Built, BuildError>)
    ensures var proof := OrderProof(params.minOut, params.salt, params.output, params.commitment, prover, true);
            r.Failure? <==> params.currentSlot > params.deadline || proof.None? || params.minOut <= params.output
    ensures var proof := OrderProof(params.minOut, params.salt, params.output, params.commitment, prover, true);
            r.Failure? ==>
              r.error == if params.currentSlot > params.deadline then OrderExpired
                         else if proof.None? then ProofGenerationFailed
                         else CannotCancel
    ensures r.Success? ==>
              var proof := OrderProof(params.minOut, params.salt, params.output, params.commitment, prover, true).value;
              var solana := ConvertProofToSolanaProof(proof, PublicInputs(params.output, params.commitment), negate);
              && r.value.discriminator == CANCEL_DISCRIMINATOR
              && r.value.args == CancelIx(solana.proofA, solana.proofB, solana.proofC, solana.publicSignals)
              && r.value.args.publicSignals == [To32ByteBuffer(params.output), params.commitment]
              && r.value.data == Encode(r.value.args)
  {
    if params.currentSlot > params.deadline {
      return Failure(OrderExpired);
    }
    var privateInputs := PrivateInputs(params.minOut, params.salt);
    var publicInputs := PublicInputs(params.output, params.commitment);
    var proof := prover(privateInputs, publicInputs, true);
    if proof.None? {
      return Failure(ProofGenerationFailed);
    }
    var solana := ConvertProofToSolanaProof(proof.value, publicInputs, negate);
    var signals := solana.publicSignals;
    var isCancel := params.minOut > params.output;
    if !isCancel {
      return Failure(CannotCancel);
    }
    var data := CANCEL_DISCRIMINATOR;
    data := data + solana.proofA;
    data := data + solana.proofB;
    data := data + solana.proofC;
    data := data + signals[0];
    data := data + signals[1];
    SignalsOfProof(proof.value, params.output, params.commitment, negate);
    r := Success(Built(CANCEL_DISCRIMINATOR, CancelIx(solana.proofA, solana.proofB, solana.proofC, signals), data));
  }

  /** `get_slash_and_account_metas`: only an expired order can be slashed; the data is the discriminator. */
  method GetSlashAndAccountMetas(params: SlashParams) returns (r: Result<Built, BuildError>)
    ensures r.Failure? <==> params.currentSlot <= params.deadline
    ensures r.Failure? ==> r.error == OrderNotExpired
    ensures r.Success? ==> r.value == Built(SLASH_DISCRIMINATOR, SlashIx, Encode(SlashIx))
  {
    if params.currentSlot <= params.deadline {
      return Failure(OrderNotExpired);
    }
    var data := SLASH_DISCRIMINATOR;
    r := Success(Built(SLASH_DISCRIMINATOR, SlashIx, data));
  }

  datatype Route = SlashRoute | SettleRoute | CancelRoute

  /**
   * The path `get_finalize_and_account_metas` takes: an expired order is slashed
   * whatever its amounts; otherwise it is settled when the output meets min_out
   * and cancelled when it does not.
   */
  function FinalizeRoute(currentSlot: U64, deadline: U64, minOut: U64, output: U64): (r: Route)
    ensures r == SlashRoute <==> currentSlot > deadline
    ensures r == SettleRoute <==> currentSlot <= deadline && minOut <= output
    ensures r == CancelRoute <==> currentSlot <= deadline && minOut > output
  {
    var isSettle := minOut <= output;
    var isSlash := currentSlot > deadline;
    if isSlash then SlashRoute else if isSettle then SettleRoute else CancelRoute
  }

  datatype FinalizeAndAccountMetas =
    | FinalizeSlash(slash: Built)
    | FinalizeSettle(settle: Built)
    | FinalizeCancel(cancel: Built)

  function RouteOf(f: FinalizeAndAccountMetas): Route
  {
    match f
    case FinalizeSlash(_) => SlashRoute
    case FinalizeSettle(_) => SettleRoute
    case FinalizeCancel(_) => CancelRoute
  }

  /**
   * `get_finalize_and_account_metas`: build the instruction of the path
   * `FinalizeRoute` picks.  The chosen builder's own time and amount guards always
   * pass, so the only way finalizing fails is that proving fails, and a slash,
   * which needs no proof, never fails.
   */
  method GetFinalizeAndAccountMetas(params: FinalizeParams, prover: Prover, negate: G1Affine -> G1Affine)
    returns (r: Result<FinalizeAndAccountMetas, BuildError>)
    ensures var route := FinalizeRoute(params.currentSlot, params.deadline, params.minOut, params.output);
            r.Failure? <==>
              route != SlashRoute
              && OrderProof(params.minOut, params.salt, params.output, params.commitment, prover, route == CancelRoute).None?
    ensures r.Failure? ==> r.error == ProofGenerationFailed
    ensures r.Success? ==> RouteOf(r.value) == FinalizeRoute(params.currentSlot, params.deadline, params.minOut, params.output)
    ensures r.Success? ==>
              match r.value
              case FinalizeSlash(b) => b.data == Encode(SlashIx)
              case FinalizeSettle(b) => b.args.SettleIx? && b.args.unwrapWsol == params.unwrapWsol && WellFormed(b.args) && b.data == Encode(b.args)
              case FinalizeCancel(b) => b.args.CancelIx? && WellFormed(b.args) && b.data == Encode(b.args)
    // A settle or cancel carries the order's own proof, converted, and the signals `[output, commitment]`.
    ensures r.Success? && r.value.FinalizeSettle? ==>
              var proof := OrderProof(params.minOut, params.salt, params.output, params.commitment, prover, false).value;
              var solana := ConvertProofToSolanaProof(proof, PublicInputs(params.output, params.commitment), negate);
              && r.value.settle.discriminator == SETTLE_DISCRIMINATOR
              && r.value.settle.args == SettleIx(solana.proofA, solana.proofB, solana.proofC, solana.publicSignals, params.unwrapWsol)
              && r.value.settle.args.publicSignals == [To32ByteBuffer(params.output), params.commitment]
    ensures r.Success? && r.value.FinalizeCancel? ==>
              var proof := OrderProof(params.minOut, params.salt, params.output, params.commitment, prover, true).value;
              var solana := ConvertProofToSolanaProof(proof, PublicInputs(params.output, params.commitment), negate);
              && r.value.cancel.discriminator == CANCEL_DISCRIMINATOR
              && r.value.cancel.args == CancelIx(solana.proofA, solana.proofB, solana.proofC, solana.publicSignals)
              && r.value.cancel.args.publicSignals == [To32ByteBuffer(params.output), params.commitment]
  {
    var isSettle := params.minOut <= params.output;
    var isSlash := params.currentSlot > params.deadline;
    if isSlash {
      var slash := GetSlashAndAccountMetas(SlashParams(params.deadline, params.currentSlot));
      r := Success(FinalizeSlash(slash.value));
    } else if isSettle {
      var settle := GetSettleAndAccountMetas(params, prover, negate);
      if settle.Failure? {
        r := Failure(settle.error);
      } else {
        r := Success(FinalizeSettle(settle.value));
      }
    } else {
      var cancel := GetCancelAndAccountMetas(
        CancelParams(params.minOut, params.salt, params.output, params.commitment, params.deadline, params.currentSlot),
        prover, negate);
      if cancel.Failure? {
        r := Failure(cancel.error);
      } else {
        r := Success(FinalizeCancel(cancel.value));
      }
    }
  }

  /** The fields of a stored order that the client reads. */
  datatype Order = Order(actualOut: U64, deadline: U64)

  /** `is_order_expired`: the deadline slot has passed. */
  function IsOrderExpired(order: Order, currentSlot: U64): bool
  {
    order.deadline < currentSlot
  }

  /** An order is expired exactly when finalizing it would slash it, whatever its amounts. */
  lemma ExpiredIffSlashed(order: Order, currentSlot: U64, minOut: U64)
    ensures IsOrderExpired(order, currentSlot)
            <==> FinalizeRoute(currentSlot, order.deadline, minOut, order.actualOut) == SlashRoute
  {
  }

  /**
   * `get_order_pubkey`: the address of a user's order in this pool, refused while
   * the pool's own address is the default key (the pool is not initialised).
   */
  function GetOrderPubkey(amm: DarklakeAmm, user: Pubkey, orderAddress: (Pubkey, Pubkey) -> Pubkey): (r: Result<Pubkey, BuildError>)
    ensures r.Failure? <==> amm.key == DEFAULT_PUBKEY
    ensures r.Failure? ==> r.error == PoolNotInitialized
    ensures r.Success? ==> r.value == orderAddress(amm.key, user)
  {
    if amm.key == DEFAULT_PUBKEY then Failure(PoolNotInitialized) else Success(orderAddress(amm.key, user))
  }

  /**
   * A settle or cancel of an order placed with (min_out, salt) hands the prover, as
   * its public commitment, exactly the field element the swap committed to: the
   * Montgomery reading of the Poseidon hash of the private inputs it is given.
   */
  lemma CommitmentConsistent(minOut: U64, salt: Bytes8, output: U64, poseidon: (U64, U64) -> Limbs4)
    ensures var privateInputs := PrivateInputs(minOut, salt);
            PublicInputs(output, SwapCommitment(minOut, salt, poseidon)).commitment
            == BytesToBigint(LimbsLE(poseidon(privateInputs.minOut, privateInputs.salt)))
  {
    var value := BytesToBigint(LimbsLE(poseidon(minOut, SaltToU64(salt))));
    BufferRoundTrips(value, To32ByteBuffer(value));
  }

  /**
   * `get_add_liquidity_and_account_metas` as written: the arguments record carries
   * the LP amount and the two maxima, but the data is the discriminator alone.
   */
  method GetAddLiquidityAndAccountMetas(params: AddLiquidityParams) returns (r: Built)
    ensures r.args == AddLiquidityIx(params.amountLp, params.maxAmountX, params.maxAmountY)
    ensures r.discriminator == ADD_LIQUIDITY_DISCRIMINATOR && r.data == ADD_LIQUIDITY_DISCRIMINATOR
  {
    var data := ADD_LIQUIDITY_DISCRIMINATOR;
    r := Built(ADD_LIQUIDITY_DISCRIMINATOR, AddLiquidityIx(params.amountLp, params.maxAmountX, params.maxAmountY), data);
  }

  /** `get_remove_liquidity_and_account_metas` as written: the data is the discriminator alone. */
  method GetRemoveLiquidityAndAccountMetas(params: RemoveLiquidityParams) returns (r: Built)
    ensures r.args == RemoveLiquidityIx(params.amountLp, params.minAmountX, params.minAmountY)
    ensures r.discriminator == REMOVE_LIQUIDITY_DISCRIMINATOR && r.data == REMOVE_LIQUIDITY_DISCRIMINATOR
  {
    var data := REMOVE_LIQUIDITY_DISCRIMINATOR;
    r := Built(REMOVE_LIQUIDITY_DISCRIMINATOR, RemoveLiquidityIx(params.amountLp, params.minAmountX, params.minAmountY), data);
  }

  /**
   * The data the two liquidity builders send carries none of their amounts: it
   * reads back as no instruction at all, and any two amounts give the same bytes,
   * whereas the full layout reads back as the arguments.
   */
  lemma LiquidityDataDropsAmounts(amountLp: U64, x: U64, y: U64)
    ensures Decode(ADD_LIQUIDITY_DISCRIMINATOR) == None
    ensures Decode(REMOVE_LIQUIDITY_DISCRIMINATOR) == None
    ensures Decode(Encode(AddLiquidityIx(amountLp, x, y))) == Some(AddLiquidityIx(amountLp, x, y))
    ensures Decode(Encode(RemoveLiquidityIx(amountLp, x, y))) == Some(RemoveLiquidityIx(amountLp, x, y))
  {
    AppendNothing(ADD_LIQUIDITY_DISCRIMINATOR);
    AppendNothing(REMOVE_LIQUIDITY_DISCRIMINATOR);
    DecodeDispatch([]);
    DecodeEncode(AddLiquidityIx(amountLp, x, y));
    DecodeEncode(RemoveLiquidityIx(amountLp, x, y));
  }

  /**
   * The add-liquidity data with its arguments appended after the discriminator,
   * as every other builder does; it reads back as the arguments.
   */
  method AddLiquidityData(params: AddLiquidityParams) returns (data: seq<U8>)
    ensures data == Encode(AddLiquidityIx(params.amountLp, params.maxAmountX, params.maxAmountY))
    ensures Decode(data) == Some(AddLiquidityIx(params.amountLp, params.maxAmountX, params.maxAmountY))
  {
    data := ADD_LIQUIDITY_DISCRIMINATOR;
    data := data + U64Bytes(params.amountLp);
    data := data + U64Bytes(params.maxAmountX);
    data := data + U64Bytes(params.maxAmountY);
    DecodeEncode(AddLiquidityIx(params.amountLp, params.maxAmountX, params.maxAmountY));
  }

  /** The remove-liquidity data with its arguments appended; it reads back as the arguments. */
  method RemoveLiquidityData(params: RemoveLiquidityParams) returns (data: seq<U8>)
    ensures data == Encode(RemoveLiquidityIx(params.amountLp, params.minAmountX, params.minAmountY))
    ensures Decode(data) == Some(RemoveLiquidityIx(params.amountLp, params.minAmountX, params.minAmountY))
  {
    data := REMOVE_LIQUIDITY_DISCRIMINATOR;
    data := data + U64Bytes(params.amountLp);
    data := data + U64Bytes(params.minAmountX);
    data := data + U64Bytes(params.minAmountY);
    DecodeEncode(RemoveLiquidityIx(params.amountLp, params.minAmountX, params.minAmountY));
  }
}
