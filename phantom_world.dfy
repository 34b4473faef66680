/**
 * The in-memory world a tree feature is generated into (PhantomWorld.java). Every block write is
 * appended to a log and reported as successful; every read answers as an empty world of air.
 */
module PhantomWorld {
  import opened BlockInfo

  datatype BlockPos = BlockPos(x: int, y: int, z: int)

  /** One log entry: the written position and the registry id of the written block. */
  datatype Placed = Placed(x: int, y: int, z: int, blockId: string)

  /** The default state of `minecraft:air`. */
  const Air: BlockState := BlockState("minecraft:air", [])

  /** A fluid state: the registry id of its fluid and its level (0 to 8). */
  datatype FluidState = FluidState(fluidId: string, level: int)

  /** The default state of `Fluids.EMPTY`, the fluid every position reports. */
  const EmptyFluid: FluidState := FluidState("minecraft:empty", 0)

  datatype Difficulty = Peaceful | Easy | Normal | Hard

  class PhantomWorld {
    /** The placement log, oldest write first, repeated positions kept. */
    var placedBlocks: seq<Placed>

    // Fixed answers of the stubbed world queries.
    const seed: int := 0
    const tickOrder: int := 0
    const difficulty: Difficulty := Normal
    const brightness: real := 1.0
    const lightLevel: int := 15
    const seaLevel: int := 63
    const isClient: bool := false
    const ambientDarkness: int := 0
    const height: int := 384
    const bottomY: int := -64
    const topY: int := 320
    const color: int := 0

    constructor ()
      ensures placedBlocks == []
    {
      placedBlocks := [];
    }

    method GetPlacedBlocks() returns (log: seq<Placed>)
      ensures log == placedBlocks
    {
      log := placedBlocks;
    }

    /** The four-argument write: flags and update depth are ignored, the write always succeeds. */
    method SetBlockStateWithDepth(pos: BlockPos, state: BlockState, flags: int, maxUpdateDepth: int) returns (ok: bool)
      modifies this
      ensures ok
      ensures placedBlocks == old(placedBlocks) + [Placed(pos.x, pos.y, pos.z, state.blockId)]
    {
      placedBlocks := placedBlocks + [Placed(pos.x, pos.y, pos.z, state.blockId)];
      ok := true;
    }

    /** The three-argument write delegates with an update depth of 512. */
    method SetBlockState(pos: BlockPos, state: BlockState, flags: int) returns (ok: bool)
      modifies this
      ensures ok
      ensures placedBlocks == old(placedBlocks) + [Placed(pos.x, pos.y, pos.z, state.blockId)]
    {
      ok := SetBlockStateWithDepth(pos, state, flags, 512);
    }

    /** Removing a block is a write of air with flags 3, so it grows the log. */
    method RemoveBlock(pos: BlockPos, move: bool) returns (ok: bool)
      modifies this
      ensures ok
      ensures placedBlocks == old(placedBlocks) + [Placed(pos.x, pos.y, pos.z, "minecraft:air")]
    {
      ok := SetBlockState(pos, Air, 3);
    }

    /** Replacing ignores the expected old state and writes the new one. */
    method ReplaceBlock(pos: BlockPos, oldState: BlockState, newState: BlockState, flags: int) returns (ok: bool)
      modifies this
      ensures ok
      ensures placedBlocks == old(placedBlocks) + [Placed(pos.x, pos.y, pos.z, newState.blockId)]
    {
      ok := SetBlockState(pos, newState, flags);
    }

    /** Breaking a block reports success and records nothing. */
    method BreakBlock(pos: BlockPos, drop: bool, maxUpdateDepth: int) returns (ok: bool)
      ensures ok
    {
      ok := true;
    }

    /** Reads never see the log: every position holds air. */
    function GetBlockState(pos: BlockPos): (s: BlockState)
      reads this
      ensures s == Air
    {
      Air
    }

    function GetFluidState(pos: BlockPos): (f: FluidState)
      reads this
      ensures f == EmptyFluid
    {
      EmptyFluid
    }

    function IsAir(pos: BlockPos): (r: bool)
      reads this
      ensures r
    {
      true
    }

    /** A block-state test is the predicate applied to what `GetBlockState` answers, i.e. to air. */
    function TestBlockState(pos: BlockPos, test: BlockState -> bool): (r: bool)
      reads this
      ensures r == test(Air)
      ensures r == test(GetBlockState(pos))
    {
      test(GetBlockState(pos))
    }

    function TestFluidState(pos: BlockPos, test: FluidState -> bool): (r: bool)
      reads this
      ensures r == test(EmptyFluid)
    {
      test(GetFluidState(pos))
    }
  }

  /**
   * After any sequence of writes, the log holds one entry per write and the reads still answer air:
   * a write and a read at the same position disagree as soon as a non-air block was written.
   */
  method WriteThenRead(w: PhantomWorld, pos: BlockPos, s: BlockState) returns (logged: Placed, seen: BlockState)
    modifies w
    ensures logged == Placed(pos.x, pos.y, pos.z, s.blockId)
    ensures w.placedBlocks == old(w.placedBlocks) + [logged]
    ensures seen == Air
  {
    var _ := w.SetBlockState(pos, s, 3);
    var log := w.GetPlacedBlocks();
    logged := log[|log| - 1];
    seen := w.GetBlockState(pos);
  }
}
