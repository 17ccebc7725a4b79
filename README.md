# Darklake AMM client — verified model of the core

Darklake is a constant-product AMM on Solana. A swap hides its slippage bound: it
commits to `(min_out, salt)` with a Poseidon hash, and a Groth16 proof later shows
whether the order can be settled or must be cancelled. This project models three
parts of the Rust client that builds and quotes those transactions:

- **Fee and swap arithmetic** (`FeeMath`, `Rebalance`):
  - the trade fee, rounded up, and the protocol fee, rounded down, in parts per 1 000 000;
  - the constant-product output `floor(dx·y/(x+dx))`;
  - the fee-charging `swap`;
  - the integer skeleton of `rebalance_pool_ratio`: its degenerate-input guard and its candidate search with a running best.

  Every `u64`/`u128` checked operation is written out. An `unwrap` that can panic becomes a `requires`. A `None` becomes an explicit `None` result.
- **Commitment and wire encodings** (`Bytes`, `Limbs`, `Commitment`, `ProofEncoding`):
  - limbs packed little-endian;
  - the Montgomery-to-canonical conversion modulo the BN254 scalar field;
  - the 32-byte big-endian buffers;
  - the alt_bn128 point encodings of G1 and G2 (the "Encoding" sections of EIP-196 and EIP-197);
  - the conversion of a Groth16 proof into the bytes the chain verifies.

  The test vectors of the source are proved in `Vectors` and `VectorBytes`.
- **Quotes, builders and instruction data** (`Quote`, `Builders`, `Instructions`):
  - the quote pipelines of the SDK and of the older client, with every guard;
  - the builders of swap, settle, cancel, slash, add-liquidity and remove-liquidity instructions, with their guards;
  - the finalize routing;
  - the exact byte layout of each instruction, with a decoder that inverts it.

Three snapshots of the client share this logic. `darklake-sdk/`, `src/` and `jupiter-core/` differ in signatures, not in arithmetic, so the logic is modelled once. The quote is the exception: `src/darklake_amm.rs` delegates the swap to the on-chain math crate and reports the trade fee as `fee_amount`, so it is modelled separately as `Quote.QuoteSrc`. Each table row below cites every snapshot the member stands for.

External computations enter as function parameters:

- the Poseidon hash, `(u64, u64) -> [u64; 4]`;
- Groth16 proving, which may fail;
- G1 point negation;
- the token-2022 epoch fee;
- the older client's `dex_math::quote`;
- the order-address derivation.

Because these are parameters, every property holds for any behaviour of these computations.

Integers are unbounded in Dafny. `U8`, `U64` and `U128` are subset types, so every value that is stored is proved to fit its width.

## Model

| member | source | states |
|---|---|---|
| FeeMath.CeilDiv | darklake-sdk/src/math.rs:20-27 | `None` exactly when the denominator is 0 or `t·r + d` overflows `u128`; otherwise the result is the least `q` with `q·d ≥ t·r` (ceiling). An overflow of `t·r` itself panics, so it is required not to happen |
| FeeMath.FloorDiv | darklake-sdk/src/math.rs:29-35 | `None` exactly when `t·r` overflows `u128` or the denominator is 0; otherwise `q·d ≤ t·r < (q+1)·d` (floor) |
| FeeMath.GetTradeFee | darklake-sdk/src/math.rs:37-43 | `ceil(a·r / 1 000 000)`, `None` exactly when `a·r + 1 000 000` overflows `u128`. The same code is at jupiter-core/src/amms/darklake_amm.rs:266-292 |
| FeeMath.GetProtocolFee | darklake-sdk/src/math.rs:45-51 | `floor(t·r / 1 000 000)`, `None` exactly when `t·r` overflows `u128`. The same code is at jupiter-core/src/amms/darklake_amm.rs:277-300 |
| FeeMath.TradeFeeAtMostAmount | darklake-sdk/src/math.rs:73-76 | a rate of at most 100 % charges at most the amount, so `source − trade_fee` cannot underflow |
| FeeMath.TradeFeeAboveAmount | darklake-sdk/src/math.rs:73-76 | a rate above 100 % charges more than any positive amount, so the subtraction's `unwrap` would panic |
| FeeMath.ProtocolFeeAtMostAmount | darklake-sdk/src/math.rs:74 | a protocol rate of at most 100 % takes at most the trade fee |
| FeeMath.TradeFeeMonotonic | darklake-sdk/src/math.rs:37-43 | for a fixed rate, the trade fee does not decrease as the amount grows |
| FeeMath.SwapBaseInputWithoutFees | darklake-sdk/src/math.rs:53-64 | the result is `floor(dx·y/(x+dx))`; it is at most `y`, and strictly below `y` when both reserves are positive. The same code is at jupiter-core/src/amms/darklake_amm.rs:302-314 |
| FeeMath.ConstantProductQuotient | darklake-sdk/src/math.rs:60-62 | Dafny's quotient `(dx·y) / (x+dx)` satisfies the floor bounds and stays below `y` |
| FeeMath.ConstantProductKept | darklake-sdk/src/math.rs:53-64 | rounding down never lowers the pool's product: `(x+dx)·(y−out) ≥ x·y` |
| FeeMath.Swap | darklake-sdk/src/math.rs:66-90 | always `Some`. `trade_fee` is `get_trade_fee(source, rate)` and `protocol_fee` is `get_protocol_fee(trade_fee, protocol_rate)` (the latter when the protocol rate is at most 100 %). `from_amount + trade_fee = source`. `to_amount` is the floor constant-product output of `from_amount`, and it is below the destination reserve. `protocol_fee ≤ trade_fee` when the protocol rate is at most 100 %. The same code is at jupiter-core/src/amms/darklake_amm.rs:316-340 |
| FeeMath.ZeroFeeSwap | darklake-sdk/src/math.rs:66-90 | at trade-fee rate 0, whatever the protocol rate, both fees are 0 and `to_amount = floor(source·dst/(src+source))` |
| FeeMath.SwapDefinedForU64 | darklake-sdk/src/math.rs:66-90 | with rates of at most 100 % and a non-empty source reserve, no `unwrap` in `swap` can panic for any `u64` inputs |
| Rebalance.RebalanceSpec | darklake-sdk/src/math.rs:112-177 | always `Some`. Degenerate inputs (`swapped ≥ destination`, or either reserve 0) give lock 0 with the tolerance exceeded. Otherwise the lock is strictly below the current source amount, for any float estimate. The same code is at jupiter-core/src/amms/darklake_amm.rs:348-412 |
| Rebalance.RebalancePoolRatio | darklake-sdk/src/math.rs:112-177 | the loop over `start..=end` with its mutable best lock and best difference returns exactly `RebalanceSpec`. The same code is at jupiter-core/src/amms/darklake_amm.rs:377-399 |
| Rebalance.RebalanceOptimal | darklake-sdk/src/math.rs:148-161 | the chosen lock has the smallest ratio difference among the admissible candidates, and is the first candidate to reach it; 0 means no candidate beat infinity |
| Rebalance.ScanBelowSource | darklake-sdk/src/math.rs:149-151 | candidates above the current source are skipped, so the running best stays below it |
| Rebalance.ScanOptimal | darklake-sdk/src/math.rs:148-161 | the search returns its seed or a strictly better in-range candidate, and no scanned candidate beats the result |
| Rebalance.ScanFirstBest | darklake-sdk/src/math.rs:157 | the strict `<` keeps the first of equally good candidates |
| Rebalance.LessIsStrictOrder | darklake-sdk/src/math.rs:157 | the `<` on ratio differences (with NaN never less) is irreflexive, asymmetric and transitive |
| Commitment.U64ArrayToU8ArrayLe | darklake-sdk/src/proof/utils.rs:7-16 | the 32 bytes are the little-endian bytes of limb i at `8i..8i+8`, and read little-endian they are `Σ limb_i·2^(64i)` |
| Limbs.LimbsLEValue | darklake-sdk/src/proof/utils.rs:7-16 | reading packed limbs little-endian gives the limbs' value |
| Limbs.LimbsLEIsToLE | darklake-sdk/src/proof/utils.rs:7-16 | the packed limbs are the fixed-width little-endian encoding of that value |
| Limbs.LimbsValue4 | darklake-sdk/src/proof/utils.rs:46-48 | four limbs are worth `l0 + 2^64·l1 + 2^128·l2 + 2^192·l3` |
| Limbs.ToLimbs | src/proof/proof_generator.rs:38-47 | every value below 2^256 has a four-limb form |
| Commitment.SaltToU64 | darklake-sdk/src/proof/utils.rs:23-24 | the 8-byte salt enters the hash as the `u64` whose little-endian bytes it is |
| Commitment.SaltToU64Injective | darklake-sdk/src/proof/utils.rs:23-24 | distinct salts give distinct hash inputs |
| Commitment.ComputePoseidonHashWithSalt | darklake-sdk/src/proof/utils.rs:18-33 | the hash is taken of `min_out` and the salt's little-endian value |
| Commitment.BytesToBigint | darklake-sdk/src/proof/utils.rs:46-68 | the result is below the BN254 scalar modulus p, and `r·2^256 ≡ LE(bytes) (mod p)`: it is the canonical value of the Montgomery form |
| Commitment.MontgomeryInverse | darklake-sdk/src/proof/utils.rs:52-62 | the constant `Ri` is the inverse of 2^256 modulo p |
| Bytes.ToLEOfLE | darklake-sdk/src/proof/utils.rs:46-48 | little-endian decoding and fixed-width encoding are inverse |
| Bytes.ToBEOfBE | src/proof/proof_generator.rs:160-164 | big-endian decoding and fixed-width encoding are inverse |
| Bytes.BEOfReverse | src/proof/proof_generator.rs:38-47 | reversed bytes read big-endian give the little-endian value |
| Bytes.ReverseOfToLE | src/proof/proof_generator.rs:38-47 | the reversed little-endian encoding is the big-endian encoding |
| Bytes.BEInjective | src/proof/proof_generator.rs:38-47 | two buffers of equal length with the same big-endian value are the same bytes |
| ProofEncoding.BigintToBytesBe | src/proof/proof_generator.rs:38-47 | the limbs written little-endian and reversed in place are the big-endian encoding of the limbs' value |
| ProofEncoding.ReverseBytes | src/proof/proof_generator.rs:45 | the in-place `reverse` leaves the array reversed |
| ProofEncoding.To32ByteBuffer | src/proof/proof_generator.rs:152-158 | a value below 2^256 becomes its zero-padded 32-byte big-endian encoding |
| ProofEncoding.BufferRoundTrips | src/proof/proof_generator.rs:152-164 | `from(to(x)) = x` for every `x < 2^256`, and `to(from(b)) = b` for every 32-byte `b` |
| ProofEncoding.BufferOfValue | src/proof/proof_generator.rs:152-158 | a 32-byte buffer is the encoding of the value it reads as |
| ProofEncoding.G1RoundTrip | src/proof/proof_generator.rs:167-182 | the 64-byte `x ‖ y` encoding of a G1 point decodes back to the point |
| ProofEncoding.G2RoundTrip | src/proof/proof_generator.rs:191-218 | the 128-byte `x.c1 ‖ x.c0 ‖ y.c1 ‖ y.c0` encoding of a G2 point decodes back to the point |
| ProofEncoding.G1Uncompressed | src/proof/proof_generator.rs:167-182 | copying both coordinates into the output buffer yields the G1 encoding |
| ProofEncoding.G2Uncompressed | src/proof/proof_generator.rs:191-218 | copying the four coefficients, imaginary part first, yields the G2 encoding |
| ProofEncoding.CoordinateBytes | src/proof/proof_generator.rs:170-176 | a coordinate's bytes are its 32-byte big-endian buffer |
| ProofEncoding.CopyInto | src/proof/proof_generator.rs:177-180 | `copy_from_slice` writes the slice at the offset and leaves the rest of the buffer unchanged |
| ProofEncoding.ConvertProofToSolanaProof | src/proof/proof_generator.rs:126-149 | `proof_a` decodes to `−A`, and `proof_b`, `proof_c` to `B` and `C` (no negation). The sizes are 64/128/64. There are exactly two public signals, reading back as `real_out` and the commitment |
| Vectors.ZeroInputCommitment | darklake-sdk/src/proof/utils.rs:180-198 | the hash bytes `[130, 154, 1, 250, …]` convert to `14744…9156` |
| Vectors.MinOutOneCommitment | darklake-sdk/src/proof/utils.rs:136-151 | the hash bytes for `min_out` 1 convert to `18423…9999` |
| Vectors.SaltHundredCommitment | darklake-sdk/src/proof/utils.rs:162-177 | the hash bytes for salt `[100, 0, …]` convert to `8495…1449` |
| Vectors.ZeroInputHashLE | darklake-sdk/src/proof/utils.rs:111-114 | the expected hash bytes for (0, zero salt) read little-endian are 3903…7282, the value the conversion starts from |
| Vectors.MinOutOneHashLE | darklake-sdk/src/proof/utils.rs:136-139 | the expected hash bytes for `min_out` 1 read little-endian are 21556…3481 |
| Vectors.SaltHundredHashLE | darklake-sdk/src/proof/utils.rs:162-165 | the expected hash bytes for salt `[100, 0, …]` read little-endian are 4349…6721 |
| Vectors.SaltHundredValue | darklake-sdk/src/proof/utils.rs:157-159 | the salt `[100, 0, …, 0]` is the number 100 |
| Vectors.BigintToBytesBeVector | src/proof/proof_generator.rs:246-257 | 12345 becomes 24 zero bytes followed by `[0, 0, 0, 0, 0, 0, 48, 57]` |
| Vectors.Be12345BE | src/proof/proof_generator.rs:246-257 | the expected 32-byte buffer of the big-endian test reads back as 12345 |
| Vectors.ProofAVector | src/proof/proof_generator.rs:402-495 | the expected `proof_a` is the G1 encoding of `(A.x, q − A.y)`, the negation of A |
| Vectors.ProofBVector | src/proof/proof_generator.rs:402-495 | the expected `proof_b` is the G2 encoding of B's coordinates |
| Vectors.ProofCVector | src/proof/proof_generator.rs:402-495 | the expected `proof_c` is the G1 encoding of C, not negated |
| Quote.GetTransferFee | darklake-sdk/src/math.rs:5-16 | no fee config means fee 0. With a config, the fee is the config's epoch fee, and the call fails only when the clock is unavailable. The same code is at src/utils.rs:6-20 and jupiter-core/src/amms/darklake_amm.rs:252-263 |
| Quote.SaturatingSub | darklake-sdk/src/darklake_amm.rs:904 | `saturating_sub` is the difference when it is non-negative and 0 otherwise |
| Quote.PoolBalances | darklake-sdk/src/darklake_amm.rs:872-892 | per side, `total + protocol_fee + user_locked = reserve` and `available + locked = total`. The same code is at jupiter-core/src/amms/darklake_amm.rs:521-541 |
| Quote.OutputFeeConfig | darklake-sdk/src/darklake_amm.rs:991-1001 | the output side's fee config is chosen by comparing the output mint with token X. For a pool of two distinct mints it is the other side's config |
| Quote.QuoteInternal | darklake-sdk/src/darklake_amm.rs:859-1015 | decides the outcome step by step: a missing clock fails; "Input amount too small" exactly when the input transfer fee leaves nothing to swap; "Trade too big" exactly when the rebalance exceeds the tolerance; after that, the clock error exactly when the output fee lookup fails, "Output amount is zero" exactly when that fee equals the swapped amount, and success otherwise. On success `out_amount + fee_amount = to_amount` of `swap`, `fee_amount` is the output transfer fee, `in_amount = amount`, `fee_mint` is the input mint, and out plus fee stays below the available destination balance. "Insufficient pool balance" and the overflow errors are unreachable. The same code is at jupiter-core/src/amms/darklake_amm.rs:508-665 |
| Quote.QuoteSdk | darklake-sdk/src/darklake_amm.rs:191-197 | exact-out is refused; exact-in is `quote_internal`. The same code is at jupiter-core/src/amms/darklake_amm.rs:162-169 |
| Quote.QuoteRejectsSwallowedInput | darklake-sdk/src/darklake_amm.rs:900-908 | an input transfer fee that takes the whole amount gives "Input amount too small" |
| Quote.QuoteRejectsDegenerateSwap | darklake-sdk/src/darklake_amm.rs:910-931 | an empty available reserve on either side always fails the quote |
| Quote.QuoteDefinedForSanePool | darklake-sdk/src/darklake_amm.rs:859-1015 | with consistent balances, rates of at most 100 %, transfer fees of at most the amount and a non-empty source, no step of the quote panics |
| Quote.QuoteSrc | src/darklake_amm.rs:208-267 | exact-out is refused. On exact-in: a missing clock fails; "DexQuoteFailed" exactly when the math crate returns nothing; then the clock error exactly when the output fee lookup fails, "Output is zero" exactly when that fee equals `to_amount`, and success otherwise. On success `out_amount = to_amount − output transfer fee`, `in_amount = from_amount`, `fee_amount = trade_fee`, and `fee_mint` is the input mint exactly when that mint is one of the pool's |
| Quote.QuoteSrcExchangeIn | src/darklake_amm.rs:222-228 | the amount swapped is the input less its transfer fee, never more than the input |
| Instructions.Encode | darklake-sdk/src/darklake_amm.rs:220-229 | each layout starts with its discriminator. Swap is 49 bytes, settle 329, cancel 328, slash 8 |
| Instructions.BoolByte | src/darklake_amm.rs:306 | `b as u8` is 1 exactly for true, and at most 1 |
| Instructions.U64Bytes | src/darklake_amm.rs:305 | `to_le_bytes` is 8 bytes that read back as the amount |
| Instructions.DecodeEncode | src/darklake_amm.rs:301-307 | the data of every instruction (swap shown here, settle, cancel, slash and the liquidity pair alike) reads back as that instruction |
| Instructions.EncodeDecode | src/darklake_amm.rs:432-440 | any data that reads as an instruction is exactly that instruction's layout, so the layouts leave no slack bytes |
| Instructions.EncodeInjective | src/darklake_amm.rs:541-548 | no two distinct instructions share data: the settle and cancel layouts, alike but for the unwrap byte and the discriminator, are never confused |
| Instructions.DecodeDispatch | src/darklake_amm.rs:301-303 | data that starts with one of the six discriminators is read by that instruction's layout |
| Instructions.SwapRoundTrip | darklake-sdk/src/darklake_amm.rs:225-229 | swap data is `disc ‖ LE amount ‖ direction ‖ commitment`, and reads back |
| Instructions.SettleRoundTrip | darklake-sdk/src/darklake_amm.rs:351-357 | settle data is `disc ‖ a ‖ b ‖ c ‖ s0 ‖ s1 ‖ unwrap`, and reads back |
| Instructions.CancelRoundTrip | darklake-sdk/src/darklake_amm.rs:456-461 | cancel data is the same layout without the unwrap byte, and reads back |
| Instructions.AddLiquidityRoundTrip | src/darklake_amm.rs:736-740 | the add-liquidity arguments laid out after the discriminator read back |
| Instructions.RemoveLiquidityRoundTrip | src/darklake_amm.rs:794-798 | the same for remove-liquidity |
| Builders.SwapCommitment | darklake-sdk/src/darklake_amm.rs:221-223 | the stored commitment is below p, and times 2^256 it is congruent to the Poseidon hash of `(min_out, LE(salt))` modulo p |
| Builders.GetSwapAndAccountMetas | darklake-sdk/src/darklake_amm.rs:200-229 | the data appended step by step is the 49-byte swap layout of `(in_amount, source is X, commitment)`; byte 16 is 1 exactly when the source mint is token X. The same code is at src/darklake_amm.rs:269-307 |
| Builders.PrivateInputs | src/darklake_amm.rs:406-409 | the prover gets `min_out` and the salt read little-endian |
| Builders.PublicInputs | src/darklake_amm.rs:411-414 | the prover gets the output and the commitment read big-endian, which re-encodes to the same bytes |
| Builders.SignalsOfProof | src/darklake_amm.rs:420-424 | the two signals sent are the output's buffer and, byte for byte, the order's commitment, so the array conversion never fails |
| Builders.GetSettleAndAccountMetas | darklake-sdk/src/darklake_amm.rs:293-357 | fails exactly when expired, proving fails, or `min_out > output`, with the errors in that order. On success the data is the settle layout of the converted proof with signals `[output, commitment]`. The same code is at src/darklake_amm.rs:370-440 |
| Builders.GetCancelAndAccountMetas | darklake-sdk/src/darklake_amm.rs:399-461 | fails exactly when expired, proving fails, or `min_out ≤ output`, with the errors in that order. On success the data is the cancel layout. The same code is at src/darklake_amm.rs:480-548 |
| Builders.GetSlashAndAccountMetas | darklake-sdk/src/darklake_amm.rs:501-525 | fails exactly before the deadline; the data is the discriminator alone. The same code is at src/darklake_amm.rs:586-616 |
| Builders.FinalizeRoute | darklake-sdk/src/darklake_amm.rs:572-605 | slash exactly when past the deadline, whatever the amounts; otherwise settle exactly when `min_out ≤ output`, else cancel |
| Builders.GetFinalizeAndAccountMetas | darklake-sdk/src/darklake_amm.rs:558-605 | builds the route's instruction. Fails only when proving fails, never on the slash route. A settle or cancel carries the order's own proof converted for the chain, with signals `[output, commitment]`, and its data is that layout; a slash is the discriminator. The same code is at src/darklake_amm.rs:648-704 |
| Builders.ExpiredIffSlashed | darklake-sdk/src/darklake_amm.rs:287-290 | `is_order_expired` holds exactly when finalizing slashes. The same code is at src/darklake_amm.rs:364-367 |
| Builders.GetOrderPubkey | src/darklake_amm.rs:352-357 | fails exactly when the pool key is the default key; otherwise the order address of the pool and user. The same code is at darklake-sdk/src/darklake_amm.rs:275-280 |
| Builders.CommitmentConsistent | src/darklake_amm.rs:298-300 | the commitment a settle or cancel hands the prover is exactly the field element the swap committed to for the same private inputs |
| Builders.GetAddLiquidityAndAccountMetas | src/darklake_amm.rs:707-732 | as written: the arguments are recorded but the data is the discriminator alone |
| Builders.GetRemoveLiquidityAndAccountMetas | src/darklake_amm.rs:765-790 | as written: the data is the discriminator alone |
| Builders.LiquidityDataDropsAmounts | src/darklake_amm.rs:730-732 | the discriminator-only data reads back as no instruction, while the full layout reads back as the arguments |
| Builders.AddLiquidityData | src/darklake_amm.rs:736-740 | the corrected data is `disc ‖ amount_lp ‖ max_x ‖ max_y`, and reads back as the arguments |
| Builders.RemoveLiquidityData | src/darklake_amm.rs:794-798 | the corrected data is `disc ‖ amount_lp ‖ min_x ‖ min_y`, and reads back as the arguments |

## Left out

- Poseidon hashing, Groth16 proving, witness building and zkey loading are foreign libraries and I/O. They are parameters `poseidon` and `prover`, and a prover failure is modelled. `compute_poseidon_hash` draws a random salt and is not part of this model.
- G1 point negation is curve arithmetic in a foreign library and is the parameter `negate`. Points at infinity, where `x().unwrap()` would panic, are not modelled: points are finite affine coordinates below the base modulus.
- Rebalance.RebalanceSpec: the f64 body of `rebalance_pool_ratio` is not modelled. This covers the search bounds, the per-candidate ratio difference and the percentage tolerance test. They arrive as an opaque `FloatEstimate`. The ratio difference is a value that may be infinite or NaN, and `new_ratio != 0.0` is taken as `candidate < current_source`.
- The transfer-fee lookup (`calculate_epoch_fee`) is a parameter. `Clock::get` is modelled as an optional epoch: absent means the clock is unavailable.
- `dex_math::quote`, used by the older client's `quote`, is a parameter `dexQuote`.
- Account deserialisation, token-account and mint-extension parsing (`update`, `parse_token_account_balance`, `get_transfer_fee_config`, `get_order_output_and_deadline`) belong to foreign libraries. An order is modelled by its two fields `actual_out` and `deadline`.
- Program-derived addresses and the account lists of each builder are hash-based address derivations and host-ledger plumbing. The order address is the parameter `orderAddress`.
- The RPC client, its retry loop, and transaction and compute-budget assembly are asynchronous I/O. The client's own finalize routing duplicates `Builders.FinalizeRoute`.
- The optional `label` and `ref_code` arguments are never written into the data by the builders, so they are not part of the layouts.
- `fee_pct` as a decimal and random salt generation are not modelled.
- `is_active` only reads the `halted` flag of the pool's configuration; the flag is kept in `AmmConfig`, and there is nothing about the read to prove.
- Quote.QuoteInternal: the "Insufficient pool token X/Y balance" errors are not in the error set, because they are proved unreachable. The lock is strictly below the available source on both sides, so the `>=` check on X and the `>` check on Y never fire.
- Quote.QuoteInternal: the SDK reports the output-side transfer fee as `fee_amount`, and the model keeps that. The older client's `QuoteSrc` reports the trade fee.
- FeeMath.CeilDiv: an overflow of `t·r` panics in the source through `checked_mul(...).unwrap()`. It is a `requires`, not a `None`.
- Builders.GetFinalizeAndAccountMetas: the slash branch's `?` is never taken, since the route has already checked the deadline. The model reads the success value directly.

## Findings

| source | as written | input that shows it | evidently intended | confidence | as-written member | corrected member |
|---|---|---|---|---|---|---|
| src/darklake_amm.rs:730-732 | add-liquidity data is the 8-byte discriminator only; `amount_lp`, `max_amount_x`, `max_amount_y` are recorded in the arguments record but never serialised; the builder's own text is the evidence. The caller in src/sdk.rs (around line 973) sends the returned data as the instruction, but it comes from a different revision: it fills `label` and `ref_code`, which this builder's destructuring at lines 711-716 does not have | any `(amount_lp, max_x, max_y)`, e.g. `(1, 2, 3)`: the data is `[181, 157, 89, 67, 143, 182, 52, 72]`, which carries no amounts and reads back as no instruction | data = discriminator ‖ `amount_lp` LE ‖ `max_amount_x` LE ‖ `max_amount_y` LE, as every other builder appends its arguments | medium, not executed | Builders.GetAddLiquidityAndAccountMetas, Builders.LiquidityDataDropsAmounts | Builders.AddLiquidityData |
| src/darklake_amm.rs:788-790 | remove-liquidity data is the discriminator only; its amounts are dropped; as for add-liquidity, the src/sdk.rs caller (around line 1003) is from a different revision and is context only | any `(amount_lp, min_x, min_y)`: the data is `[80, 85, 209, 72, 24, 206, 177, 108]` | data = discriminator ‖ `amount_lp` LE ‖ `min_amount_x` LE ‖ `min_amount_y` LE | medium, not executed | Builders.GetRemoveLiquidityAndAccountMetas, Builders.LiquidityDataDropsAmounts | Builders.RemoveLiquidityData |
