/**
 * The instruction data the client sends to the Darklake program: an 8-byte
 * discriminator followed by the instruction's arguments, integers little-endian,
 * booleans as one byte (`as u8`) and byte arrays as they are.  The optional
 * `label` / `ref_code` arguments are never written by the client and are not part
 * of these layouts.
 *
 * `Encode` is the layout; `Decode` reads it back and is its inverse in both
 * directions, so the layouts are unambiguous: no two instructions share bytes.
 */
module Instructions {
  import opened Bytes
  import opened Wrappers

  const SWAP_DISCRIMINATOR: seq<U8> := [248, 198, 158, 145, 225, 117, 135, 200]
  const SETTLE_DISCRIMINATOR: seq<U8> := [175, 42, 185, 87, 144, 131, 102, 212]
  const CANCEL_DISCRIMINATOR: seq<U8> := [232, 219, 223, 41, 219, 236, 220, 190]
  const SLASH_DISCRIMINATOR: seq<U8> := [204, 141, 18, 161, 8, 177, 92, 142]
  const ADD_LIQUIDITY_DISCRIMINATOR: seq<U8> := [181, 157, 89, 67, 143, 182, 52, 72]
  const REMOVE_LIQUIDITY_DISCRIMINATOR: seq<U8> := [80, 85, 209, 72, 24, 206, 177, 108]

  /** The arguments of each instruction the client builds. */
  datatype Instruction =
    | SwapIx(amountIn: U64, isSwapXToY: bool, cMin: Bytes32)
    | SettleIx(proofA: seq<U8>, proofB: seq<U8>, proofC: seq<U8>, publicSignals: seq<Bytes32>, unwrapWsol: bool)
    | CancelIx(proofA: seq<U8>, proofB: seq<U8>, proofC: seq<U8>, publicSignals: seq<Bytes32>)
    | SlashIx
    | AddLiquidityIx(amountLp: U64, maxAmountX: U64, maxAmountY: U64)
    | RemoveLiquidityIx(amountLp: U64, minAmountX: U64, minAmountY: U64)

  /** The fixed-size arrays of the proof arguments: `[u8; 64]`, `[u8; 128]`, `[u8; 64]`, `[[u8; 32]; 2]`. */
  predicate WellFormed(ix: Instruction)
  {
    (ix.SettleIx? || ix.CancelIx?) ==>
      |ix.proofA| == 64 && |ix.proofB| == 128 && |ix.proofC| == 64 && |ix.publicSignals| == 2
  }

  function Discriminator(ix: Instruction): seq<U8>
  {
    match ix
    case SwapIx(_, _, _) => SWAP_DISCRIMINATOR
    case SettleIx(_, _, _, _, _) => SETTLE_DISCRIMINATOR
    case CancelIx(_, _, _, _) => CANCEL_DISCRIMINATOR
    case SlashIx => SLASH_DISCRIMINATOR
    case AddLiquidityIx(_, _, _) => ADD_LIQUIDITY_DISCRIMINATOR
    case RemoveLiquidityIx(_, _, _) => REMOVE_LIQUIDITY_DISCRIMINATOR
  }

  /** `b as u8`. */
  function BoolByte(b: bool): (r: U8)
    ensures r == 1 <==> b
    ensures r <= 1
  {
    if b then 1 else 0
  }

  /** `u64::from_le_bytes`: eight bytes read little-endian. */
  function ReadU64(b: seq<U8>): (r: U64)
    requires |b| == 8
    ensures ToLE(r, 8) == b
  {
    ToLEOfLE(b);
    Pow256Eight();
    LE(b)
  }

  /** `to_le_bytes` of a `u64`. */
  function U64Bytes(x: U64): (r: seq<U8>)
    ensures |r| == 8 && ReadU64(r) == x
  {
    Pow256Eight();
    var r := ToLE(x, 8);
    ToLEOfLE(r);
    r
  }

  /**
   * The instruction data: the discriminator, then the arguments in declaration
   * order.  A swap is 49 bytes, a settle 329, a cancel 328 and a slash only the
   * discriminator.
   */
  function Encode(ix: Instruction): (r: seq<U8>)
    requires WellFormed(ix)
    ensures |r| >= 8 && r[..8] == Discriminator(ix)
    ensures ix.SwapIx? ==> |r| == 49
    ensures ix.SettleIx? ==> |r| == 329
    ensures ix.CancelIx? ==> |r| == 328
    ensures ix.SlashIx? ==> |r| == 8
  {
    match ix
    case SwapIx(amountIn, isSwapXToY, cMin) =>
      SWAP_DISCRIMINATOR + U64Bytes(amountIn) + [BoolByte(isSwapXToY)] + cMin
    case SettleIx(proofA, proofB, proofC, publicSignals, unwrapWsol) =>
      SETTLE_DISCRIMINATOR + proofA + proofB + proofC + publicSignals[0] + publicSignals[1] + [BoolByte(unwrapWsol)]
    case CancelIx(proofA, proofB, proofC, publicSignals) =>
      CANCEL_DISCRIMINATOR + proofA + proofB + proofC + publicSignals[0] + publicSignals[1]
    case SlashIx =>
      SLASH_DISCRIMINATOR
    case AddLiquidityIx(amountLp, maxAmountX, maxAmountY) =>
      ADD_LIQUIDITY_DISCRIMINATOR + U64Bytes(amountLp) + U64Bytes(maxAmountX) + U64Bytes(maxAmountY)
    case RemoveLiquidityIx(amountLp, minAmountX, minAmountY) =>
      REMOVE_LIQUIDITY_DISCRIMINATOR + U64Bytes(amountLp) + U64Bytes(minAmountX) + U64Bytes(minAmountY)
  }

  /** The two public signals of a proof layout, as they follow the three proof points. */
  function Signals(body: seq<U8>): (r: seq<Bytes32>)
    requires |body| >= 320
    ensures |r| == 2
  {
    [body[256..288], body[288..320]]
  }

  function DecodeSwap(body: seq<U8>): Option<Instruction>
  {
    if |body| == 41 && body[8] <= 1 then Some(SwapIx(ReadU64(body[..8]), body[8] == 1, body[9..])) else None
  }

  function DecodeSettle(body: seq<U8>): Option<Instruction>
  {
    if |body| == 321 && body[320] <= 1 then
      Some(SettleIx(body[..64], body[64..192], body[192..256], Signals(body), body[320] == 1))
    else None
  }

  function DecodeCancel(body: seq<U8>): Option<Instruction>
  {
    if |body| == 320 then Some(CancelIx(body[..64], body[64..192], body[192..256], Signals(body))) else None
  }

  function DecodeSlash(body: seq<U8>): Option<Instruction>
  {
    if |body| == 0 then Some(SlashIx) else None
  }

  function DecodeAddLiquidity(body: seq<U8>): Option<Instruction>
  {
    if |body| == 24 then Some(AddLiquidityIx(ReadU64(body[..8]), ReadU64(body[8..16]), ReadU64(body[16..]))) else None
  }

  function DecodeRemoveLiquidity(body: seq<U8>): Option<Instruction>
  {
    if |body| == 24 then Some(RemoveLiquidityIx(ReadU64(body[..8]), ReadU64(body[8..16]), ReadU64(body[16..]))) else None
  }

  /**
   * Reading instruction data back: the discriminator selects the layout (the six
   * discriminators already differ in their first byte), and the rest must have
   * exactly that layout's length, with a boolean byte of 0 or 1.
   */
  function Decode(data: seq<U8>): (r: Option<Instruction>)
    ensures r.Some? ==> WellFormed(r.value)
  {
    if |data| < 8 then None
    else
      var discriminator := data[..8];
      var body := data[8..];
      if data[0] == SWAP_DISCRIMINATOR[0] then
        if discriminator == SWAP_DISCRIMINATOR then DecodeSwap(body) else None
      else if data[0] == SETTLE_DISCRIMINATOR[0] then
        if discriminator == SETTLE_DISCRIMINATOR then DecodeSettle(body) else None
      else if data[0] == CANCEL_DISCRIMINATOR[0] then
        if discriminator == CANCEL_DISCRIMINATOR then DecodeCancel(body) else None
      else if data[0] == SLASH_DISCRIMINATOR[0] then
        if discriminator == SLASH_DISCRIMINATOR then DecodeSlash(body) else None
      else if data[0] == ADD_LIQUIDITY_DISCRIMINATOR[0] then
        if discriminator == ADD_LIQUIDITY_DISCRIMINATOR then DecodeAddLiquidity(body) else None
      else if data[0] == REMOVE_LIQUIDITY_DISCRIMINATOR[0] then
        if discriminator == REMOVE_LIQUIDITY_DISCRIMINATOR then DecodeRemoveLiquidity(body) else None
      else None
  }

  /** Data made of a discriminator and a body splits back into the two. */
  lemma SplitDiscriminator(discriminator: seq<U8>, body: seq<U8>)
    requires |discriminator| == 8
    ensures var data := discriminator + body;
            |data| >= 8 && data[0] == discriminator[0] && data[..8] == discriminator && data[8..] == body
  {
    var data := discriminator + body;
    assert data[..8] == discriminator;
    assert data[8..] == body;
  }

  /** The fields of a proof layout sit at fixed offsets. */
  lemma ProofBody(proofA: seq<U8>, proofB: seq<U8>, proofC: seq<U8>, publicSignals: seq<Bytes32>,
                  tail: seq<U8>, body: seq<U8>)
    requires |proofA| == 64 && |proofB| == 128 && |proofC| == 64 && |publicSignals| == 2
    requires body == proofA + proofB + proofC + publicSignals[0] + publicSignals[1] + tail
    ensures |body| == 320 + |tail| && body[320..] == tail
    ensures body[..64] == proofA && body[64..192] == proofB && body[192..256] == proofC
    ensures Signals(body) == publicSignals
  {
    assert body[..64] == proofA;
    assert body[64..192] == proofB;
    assert body[192..256] == proofC;
    assert body[256..288] == publicSignals[0];
    assert body[288..320] == publicSignals[1];
    assert body[320..] == tail;
    assert publicSignals == [publicSignals[0], publicSignals[1]];
  }

  /** Three little-endian amounts read back in order. */
  lemma ThreeAmounts(a: U64, b: U64, c: U64)
    ensures var body := U64Bytes(a) + U64Bytes(b) + U64Bytes(c);
            |body| == 24 && ReadU64(body[..8]) == a && ReadU64(body[8..16]) == b && ReadU64(body[16..]) == c
  {
    var body := U64Bytes(a) + U64Bytes(b) + U64Bytes(c);
    assert body[..8] == U64Bytes(a);
    assert body[8..16] == U64Bytes(b);
    assert body[16..] == U64Bytes(c);
  }

  lemma SwapRoundTrip(amountIn: U64, isSwapXToY: bool, cMin: Bytes32)
    ensures var body := U64Bytes(amountIn) + [BoolByte(isSwapXToY)] + cMin;
            Encode(SwapIx(amountIn, isSwapXToY, cMin)) == SWAP_DISCRIMINATOR + body
            && DecodeSwap(body) == Some(SwapIx(amountIn, isSwapXToY, cMin))
  {
    SwapBodyFields(U64Bytes(amountIn), BoolByte(isSwapXToY), cMin);
  }

  lemma SwapBodyFields(amount: seq<U8>, direction: U8, cMin: Bytes32)
    requires |amount| == 8
    ensures var body := amount + [direction] + cMin;
            |body| == 41 && body[..8] == amount && body[8] == direction && body[9..] == cMin
            && SWAP_DISCRIMINATOR + amount + [direction] + cMin == SWAP_DISCRIMINATOR + body
  {
    var body := amount + [direction] + cMin;
    assert body[..8] == amount;
    assert body[9..] == cMin;
  }

  lemma SettleRoundTrip(proofA: seq<U8>, proofB: seq<U8>, proofC: seq<U8>, publicSignals: seq<Bytes32>, unwrapWsol: bool)
    requires WellFormed(SettleIx(proofA, proofB, proofC, publicSignals, unwrapWsol))
    ensures var body := proofA + proofB + proofC + publicSignals[0] + publicSignals[1] + [BoolByte(unwrapWsol)];
            Encode(SettleIx(proofA, proofB, proofC, publicSignals, unwrapWsol)) == SETTLE_DISCRIMINATOR + body
            && DecodeSettle(body) == Some(SettleIx(proofA, proofB, proofC, publicSignals, unwrapWsol))
  {
    var body := proofA + proofB + proofC + publicSignals[0] + publicSignals[1] + [BoolByte(unwrapWsol)];
    ProofBody(proofA, proofB, proofC, publicSignals, [BoolByte(unwrapWsol)], body);
  }

  lemma CancelRoundTrip(proofA: seq<U8>, proofB: seq<U8>, proofC: seq<U8>, publicSignals: seq<Bytes32>)
    requires WellFormed(CancelIx(proofA, proofB, proofC, publicSignals))
    ensures var body := proofA + proofB + proofC + publicSignals[0] + publicSignals[1];
            Encode(CancelIx(proofA, proofB, proofC, publicSignals)) == CANCEL_DISCRIMINATOR + body
            && DecodeCancel(body) == Some(CancelIx(proofA, proofB, proofC, publicSignals))
  {
    var body := proofA + proofB + proofC + publicSignals[0] + publicSignals[1];
    AppendNothing(body);
    ProofBody(proofA, proofB, proofC, publicSignals, [], body);
  }

  lemma AppendNothing(s: seq<U8>)
    ensures s + [] == s
  {
  }

  /** Data that starts with a discriminator is read by that discriminator's reader. */
  lemma DecodeDispatch(body: seq<U8>)
    ensures Decode(SWAP_DISCRIMINATOR + body) == DecodeSwap(body)
    ensures Decode(SETTLE_DISCRIMINATOR + body) == DecodeSettle(body)
    ensures Decode(CANCEL_DISCRIMINATOR + body) == DecodeCancel(body)
    ensures Decode(SLASH_DISCRIMINATOR + body) == DecodeSlash(body)
    ensures Decode(ADD_LIQUIDITY_DISCRIMINATOR + body) == DecodeAddLiquidity(body)
    ensures Decode(REMOVE_LIQUIDITY_DISCRIMINATOR + body) == DecodeRemoveLiquidity(body)
  {
    SplitDiscriminator(SWAP_DISCRIMINATOR, body);
    SplitDiscriminator(SETTLE_DISCRIMINATOR, body);
    SplitDiscriminator(CANCEL_DISCRIMINATOR, body);
    SplitDiscriminator(SLASH_DISCRIMINATOR, body);
    SplitDiscriminator(ADD_LIQUIDITY_DISCRIMINATOR, body);
    SplitDiscriminator(REMOVE_LIQUIDITY_DISCRIMINATOR, body);
  }

  /** Every instruction's data reads back as that instruction. */
  lemma DecodeEncode(ix: Instruction)
    requires WellFormed(ix)
    ensures Decode(Encode(ix)) == Some(ix)
  {
    match ix
    case SwapIx(amountIn, isSwapXToY, cMin) =>
      SwapRoundTrip(amountIn, isSwapXToY, cMin);
      DecodeDispatch(U64Bytes(amountIn) + [BoolByte(isSwapXToY)] + cMin);
    case SettleIx(proofA, proofB, proofC, publicSignals, unwrapWsol) =>
      SettleRoundTrip(proofA, proofB, proofC, publicSignals, unwrapWsol);
      DecodeDispatch(proofA + proofB + proofC + publicSignals[0] + publicSignals[1] + [BoolByte(unwrapWsol)]);
    case CancelIx(proofA, proofB, proofC, publicSignals) =>
      CancelRoundTrip(proofA, proofB, proofC, publicSignals);
      DecodeDispatch(proofA + proofB + proofC + publicSignals[0] + publicSignals[1]);
    case SlashIx =>
      AppendNothing(SLASH_DISCRIMINATOR);
      DecodeDispatch([]);
    case AddLiquidityIx(amountLp, maxAmountX, maxAmountY) =>
      AddLiquidityRoundTrip(amountLp, maxAmountX, maxAmountY);
      DecodeDispatch(U64Bytes(amountLp) + U64Bytes(maxAmountX) + U64Bytes(maxAmountY));
    case RemoveLiquidityIx(amountLp, minAmountX, minAmountY) =>
      RemoveLiquidityRoundTrip(amountLp, minAmountX, minAmountY);
      DecodeDispatch(U64Bytes(amountLp) + U64Bytes(minAmountX) + U64Bytes(minAmountY));
  }

  lemma AddLiquidityRoundTrip(amountLp: U64, maxAmountX: U64, maxAmountY: U64)
    ensures var body := U64Bytes(amountLp) + U64Bytes(maxAmountX) + U64Bytes(maxAmountY);
            && Encode(AddLiquidityIx(amountLp, maxAmountX, maxAmountY)) == ADD_LIQUIDITY_DISCRIMINATOR + body
            && DecodeAddLiquidity(body) == Some(AddLiquidityIx(amountLp, maxAmountX, maxAmountY))
  {
    ThreeAmounts(amountLp, maxAmountX, maxAmountY);
  }

  lemma RemoveLiquidityRoundTrip(amountLp: U64, minAmountX: U64, minAmountY: U64)
    ensures var body := U64Bytes(amountLp) + U64Bytes(minAmountX) + U64Bytes(minAmountY);
            && Encode(RemoveLiquidityIx(amountLp, minAmountX, minAmountY)) == REMOVE_LIQUIDITY_DISCRIMINATOR + body
            && DecodeRemoveLiquidity(body) == Some(RemoveLiquidityIx(amountLp, minAmountX, minAmountY))
  {
    ThreeAmounts(amountLp, minAmountX, minAmountY);
  }

  lemma SwapBodyEncodes(body: seq<U8>)
    requires DecodeSwap(body).Some?
    ensures Encode(DecodeSwap(body).value) == SWAP_DISCRIMINATOR + body
  {
    var ix := DecodeSwap(body).value;
    assert body == body[..8] + [body[8]] + body[9..];
    SwapRoundTrip(ix.amountIn, ix.isSwapXToY, ix.cMin);
  }

  lemma SettleBodyEncodes(body: seq<U8>)
    requires DecodeSettle(body).Some?
    ensures Encode(DecodeSettle(body).value) == SETTLE_DISCRIMINATOR + body
  {
    var ix := DecodeSettle(body).value;
    ProofFields(body);
    assert body[320..] == [BoolByte(ix.unwrapWsol)];
    SettleRoundTrip(ix.proofA, ix.proofB, ix.proofC, ix.publicSignals, ix.unwrapWsol);
  }

  /** A proof layout is the concatenation of its fields. */
  lemma ProofFields(body: seq<U8>)
    requires |body| >= 320
    ensures body[..320] == body[..64] + body[64..192] + body[192..256] + Signals(body)[0] + Signals(body)[1]
    ensures body == body[..320] + body[320..]
  {
    assert body[..320] == body[..64] + body[64..192] + body[192..256] + body[256..288] + body[288..320];
  }

  lemma CancelBodyEncodes(body: seq<U8>)
    requires DecodeCancel(body).Some?
    ensures Encode(DecodeCancel(body).value) == CANCEL_DISCRIMINATOR + body
  {
    assert body == body[..64] + body[64..192] + body[192..256] + body[256..288] + body[288..320];
  }

  lemma AmountsBodyEncodes(body: seq<U8>)
    requires |body| == 24
    ensures body == U64Bytes(ReadU64(body[..8])) + U64Bytes(ReadU64(body[8..16])) + U64Bytes(ReadU64(body[16..]))
  {
    Pow256Eight();
    assert body == body[..8] + body[8..16] + body[16..];
  }

  /** Whatever data reads back as an instruction is exactly that instruction's data. */
  lemma EncodeDecode(data: seq<U8>)
    requires Decode(data).Some?
    ensures Encode(Decode(data).value) == data
  {
    var discriminator := data[..8];
    var body := data[8..];
    assert data == discriminator + body;
    if data[0] == SWAP_DISCRIMINATOR[0] {
      SwapBodyEncodes(body);
    } else if data[0] == SETTLE_DISCRIMINATOR[0] {
      SettleBodyEncodes(body);
    } else if data[0] == CANCEL_DISCRIMINATOR[0] {
      CancelBodyEncodes(body);
    } else if data[0] == SLASH_DISCRIMINATOR[0] {
      assert data == SLASH_DISCRIMINATOR + [];
    } else {
      AmountsBodyEncodes(body);
    }
  }

  /** Two instructions with the same data are the same instruction. */
  lemma EncodeInjective(ix1: Instruction, ix2: Instruction)
    requires WellFormed(ix1) && WellFormed(ix2)
    requires Encode(ix1) == Encode(ix2)
    ensures ix1 == ix2
  {
    DecodeEncode(ix1);
    DecodeEncode(ix2);
  }
}
