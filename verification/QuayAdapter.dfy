/** The on-chain Quay adapter (instructions/venues/quay.rs). */
module QuayAdapter {
  import opened Base
  import opened Bytes
  import opened TradingVenue
  import opened RouteTypes

  const SWAP_DISCRIMINATOR: u8 := 0x20
  const SIDE_SELL_BASE: u8 := 0
  const SIDE_BUY_BASE: u8 := 1

  function SideByte(sellBase: bool): u8 {
    if sellBase then SIDE_SELL_BASE else SIDE_BUY_BASE
  }

  /** `[disc, amount_in (u64), min_amount_out (u64), side]`, as one expression. */
  function SwapData(sellBase: bool, amountIn: u64): bytes {
    [SWAP_DISCRIMINATOR] + LeBytes(amountIn, 8) + LeBytes(0, 8) + [SideByte(sellBase)]
  }

  function SwapInstruction(quayProgram: Pubkey, sellBase: bool, amountIn: u64, metas: seq<AccountMeta>): Instruction {
    Instruction(quayProgram, metas, SwapData(sellBase, amountIn))
  }

  /** The adapter fills its buffer field by field. */
  method Swap(quayProgram: Pubkey, sellBase: bool, amountIn: u64, metas: seq<AccountMeta>)
    returns (instructions: seq<Instruction>)
    ensures instructions == [SwapInstruction(quayProgram, sellBase, amountIn, metas)]
    ensures var data := instructions[0].data;
            |data| == 18 && data[0] == 0x20 && U64At(data, 1) == amountIn && U64At(data, 9) == 0
            && (data[17] == 0 <==> sellBase) && data[17] <= 1
  {
    var side: u8 := if sellBase then 0 else 1;
    var data: bytes := [];
    data := data + [SWAP_DISCRIMINATOR];
    data := data + LeBytes(amountIn, 8);
    data := data + LeBytes(0, 8);
    data := data + [side];
    assert data == SwapData(sellBase, amountIn);
    SwapDataFields(sellBase, amountIn);
    instructions := [Instruction(quayProgram, metas, data)];
  }

  /** What the Quay program reads back from the adapter's bytes. */
  lemma SwapDataFields(sellBase: bool, amountIn: u64)
    ensures var data := SwapData(sellBase, amountIn);
            |data| == 18 && data[0] == 0x20 && U64At(data, 1) == amountIn && U64At(data, 9) == 0
            && data[17] == SideByte(sellBase)
  {
    var data := SwapData(sellBase, amountIn);
    assert data[1..9] == LeBytes(amountIn, 8);
    assert data[9..17] == LeBytes(0, 8);
    U64RoundTrip(amountIn);
    U64RoundTrip(0);
  }
}
