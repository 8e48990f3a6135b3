/**
 What one block does to its tile, read off the wire format (MS-RDPEGFX section 2.2.4.2.1.5): when
 it is drawn, what the entropy decoder is given, and what becomes of the coefficients. Nothing here
 names how the transition computes it.
 */
module TileMeaning {
  import opened Prelude
  import opened ProgressiveTiles

  /** The state a block starts from: the tile's own, or a blank one with the grid's flag. */
  ghost predicate StartsFrom(codec: TileCodec, gridFlag: bool, slot: Option<TileState>, start: TileState) {
    match slot
    case Some(state) => start == state
    case None =>
      && start.useReduceExtrapolate == gridFlag
      && start.pass == codec.blank.pass && start.coefficients == codec.blank.coefficients
      && start.isDifference == codec.blank.isDifference && start.words == codec.blank.words
  }

  /** The progressive quants of Y, Cb and Cr that a quality byte stands for; 0xFF is lossless. */
  ghost predicate QualityStandsFor(lossless: Quant, table: seq<ProgQuant>, quality: u8, prog: (Quant, Quant, Quant)) {
    if quality == 0xFF then
      prog.0 == lossless && prog.1 == lossless && prog.2 == lossless
    else
      && quality < |table|
      && prog.0 == table[quality].y && prog.1 == table[quality].cb && prog.2 == table[quality].cr
  }

  /** TILE_SIMPLE carries no quality byte and means full quality. */
  function QualityOf(block: Block): u8 {
    match block
    case Simple(_, _, _, _) => 0xFF
    case First(_, _, _, quality, _) => quality
    case Upgrade(_, quality, _, _) => quality
  }

  /** Each component's index selects its own entry of the REGION's table. */
  ghost predicate IndexesInto(table: seq<Quant>, index: (u8, u8, u8), base: (Quant, Quant, Quant)) {
    && index.0 < |table| && base.0 == table[index.0]
    && index.1 < |table| && base.1 == table[index.1]
    && index.2 < |table| && base.2 == table[index.2]
  }

  /** What the first-pass decoder must be given for a block. */
  ghost predicate FirstAsks(region: Region, block: Block, args: FirstArgs)
    requires !block.Upgrade?
  {
    && args.data == block.data
    && args.quantIdx == block.quantIdx
    && IndexesInto(region.quantVals, block.quantIdx, args.base)
    && args.quality == QualityOf(block)
    && QualityStandsFor(region.codec.lossless, region.progVals, QualityOf(block), args.prog)
    && args.useReduceExtrapolate == region.useReduceExtrapolate
  }

  ghost predicate UpgradeAsks(region: Region, block: Block, args: UpgradeArgs)
    requires block.Upgrade?
  {
    && args.srl == block.srl && args.raw == block.raw
    && args.quality == block.quality
    && QualityStandsFor(region.codec.lossless, region.progVals, block.quality, args.prog)
  }

  /** Coefficient-wise sum held to 16 bits; where the reference is shorter nothing is added. */
  ghost predicate IsSum(sum: Coeffs, c: Coeffs, r: Coeffs) {
    && |sum| == |c|
    && forall i :: 0 <= i < |c| ==>
         && |sum[i]| == |c[i]|
         && forall j :: 0 <= j < |c[i]| ==> SumAt(sum[i][j], c[i][j], r, i, j)
  }

  ghost predicate SumAt(sum: i16, c: i16, r: Coeffs, i: nat, j: nat) {
    if i < |r| && j < |r[i]| then sum == Max(-32768, Min(32767, c as int + r[i][j] as int)) else sum == c
  }

  /** The REGION has an entry for each index of the block, and for its quality. */
  ghost predicate Answerable(region: Region, block: Block) {
    IndicesFit(region.quantVals, block) && (QualityOf(block) == 0xFF || QualityOf(block) < |region.progVals|)
  }

  ghost predicate IndicesFit(table: seq<Quant>, block: Block) {
    block.Upgrade? || forall i | i in Indices(block) :: i < |table|
  }

  ghost function Indices(block: Block): set<u8>
    requires !block.Upgrade?
  {
    {block.quantIdx.0, block.quantIdx.1, block.quantIdx.2}
  }

  lemma IndicesFitMeaning(table: seq<Quant>, block: Block)
    requires !block.Upgrade?
    ensures IndicesFit(table, block)
        <==> block.quantIdx.0 < |table| && block.quantIdx.1 < |table| && block.quantIdx.2 < |table|
    ensures MaxIndex(block.quantIdx) in Indices(block) && forall i | i in Indices(block) :: i <= MaxIndex(block.quantIdx)
  {
    var (y, cb, cr) := block.quantIdx;
    assert y in Indices(block) && cb in Indices(block) && cr in Indices(block);
  }

  /** What a refusal names: the largest index when one does not fit, otherwise the quality. */
  ghost predicate BadIndex(region: Region, block: Block, error: TileError) {
    if !IndicesFit(region.quantVals, block) then
      && error.QuantIndex? && error.length == |region.quantVals|
      && error.index in Indices(block) && forall i | i in Indices(block) :: i <= error.index
    else
      error == QuantIndex(QualityOf(block), |region.progVals|)
  }

  ghost predicate IsDifferenceBlock(block: Block) {
    !block.Upgrade? && block.flags % 2 == 1
  }

  /** A difference block without a reference is refused before anything is allocated. */
  lemma DifferenceNeedsReference(region: Region, gridFlag: bool, cell: Cell, block: Block)
    requires IsDifferenceBlock(block) && cell.reference.None?
    ensures Step(region, gridFlag, cell, block) == Stepped(cell, Failed(NoReference(block.key)))
  {
  }

  /** Any other block leaves its tile allocated, and is refused when the REGION has no entry for it. */
  lemma UnanswerableIsRefused(region: Region, gridFlag: bool, cell: Cell, block: Block, start: TileState)
    requires StartsFrom(region.codec, gridFlag, cell.slot, start)
    requires !(IsDifferenceBlock(block) && cell.reference.None?) && !(block.Upgrade? && start.pass == 0)
    requires !Answerable(region, block)
    ensures var s := Step(region, gridFlag, cell, block);
      s.cell == Cell(Some(start), cell.reference) && s.outcome.Failed? && BadIndex(region, block, s.outcome.error)
  {
    if !block.Upgrade? {
      IndicesFitMeaning(region.quantVals, block);
    }
    assert EnsureTile(region.codec, gridFlag, cell.slot) == start;
  }

  /** What a first pass with these arguments leaves. */
  ghost predicate FirstLeaves(codec: TileCodec, start: TileState, args: FirstArgs, difference: bool, cell: Cell, s: Stepped) {
    var decoded := codec.first(start, args);
    && s.cell.slot.Some?
    && var state := s.cell.slot.value;
       if !decoded.ok then
         state == decoded.state && s.cell.reference == cell.reference && s.outcome == Failed(EntropyDecode)
       else
         && s.outcome == Drawn(codec.render(state))
         && s.cell.reference == Some(state.coefficients)
         && if difference && cell.reference.Some? then
              && state.isDifference
              && IsSum(state.coefficients, decoded.state.coefficients, cell.reference.value)
              && state.pass == decoded.state.pass && state.words == decoded.state.words
              && state.useReduceExtrapolate == decoded.state.useReduceExtrapolate
            else
              state == decoded.state
  }

  /**
   A first pass decodes the block's data from the tile's state under the quants its indices and its
   quality select; a difference block adds the tile's reference to what came out, coefficient by
   coefficient, and any other block leaves exactly what came out.
   */
  lemma FirstPassMeaning(region: Region, gridFlag: bool, cell: Cell, block: Block, start: TileState, args: FirstArgs)
    requires !block.Upgrade? && StartsFrom(region.codec, gridFlag, cell.slot, start)
    requires !(IsDifferenceBlock(block) && cell.reference.None?) && FirstAsks(region, block, args)
    ensures FirstLeaves(region.codec, start, args, IsDifferenceBlock(block), cell, Step(region, gridFlag, cell, block))
  {
    assert EnsureTile(region.codec, gridFlag, cell.slot) == start;
    assert Prepare(region, gridFlag, cell, block) == Ready(start, FirstPass(args, IsDifferenceBlock(block)));
  }

  /** What an upgrade with these arguments leaves. */
  ghost predicate UpgradeLeaves(codec: TileCodec, start: TileState, args: UpgradeArgs, cell: Cell, s: Stepped) {
    var decoded := codec.upgrade(start, args);
    && s.cell.slot == Some(decoded.state)
    && s.cell.reference == (if decoded.ok then Some(decoded.state.coefficients) else cell.reference)
    && s.outcome == if decoded.ok then Drawn(codec.render(decoded.state)) else Failed(EntropyDecode)
  }

  /** An upgrade of a tile that had no first pass does nothing but allocate it. */
  lemma UpgradeBeforeFirst(region: Region, gridFlag: bool, cell: Cell, block: Block, start: TileState)
    requires block.Upgrade? && StartsFrom(region.codec, gridFlag, cell.slot, start) && start.pass == 0
    ensures Step(region, gridFlag, cell, block) == Stepped(Cell(Some(start), cell.reference), Passed)
  {
    assert EnsureTile(region.codec, gridFlag, cell.slot) == start;
  }

  lemma UpgradeMeaning(region: Region, gridFlag: bool, cell: Cell, block: Block, start: TileState, args: UpgradeArgs)
    requires block.Upgrade? && StartsFrom(region.codec, gridFlag, cell.slot, start)
    requires start.pass != 0 && UpgradeAsks(region, block, args)
    ensures UpgradeLeaves(region.codec, start, args, cell, Step(region, gridFlag, cell, block))
  {
    assert EnsureTile(region.codec, gridFlag, cell.slot) == start;
    assert Prepare(region, gridFlag, cell, block) == Ready(start, UpgradePass(args));
  }

  /** The cases above leave none out: an answerable block has arguments, and every tile a start. */
  lemma EveryBlockIsCovered(region: Region, gridFlag: bool, cell: Cell, block: Block)
    ensures exists start :: StartsFrom(region.codec, gridFlag, cell.slot, start)
    ensures !block.Upgrade? ==> (Answerable(region, block) <==> exists args :: FirstAsks(region, block, args))
    ensures block.Upgrade? ==> (Answerable(region, block) <==> exists args :: UpgradeAsks(region, block, args))
  {
    assert StartsFrom(region.codec, gridFlag, cell.slot, EnsureTile(region.codec, gridFlag, cell.slot));
    if Answerable(region, block) {
      var pq := ProgressiveQuant(region, QualityOf(block)).value;
      var prog := (pq.y, pq.cb, pq.cr);
      if block.Upgrade? {
        assert UpgradeAsks(region, block, UpgradeArgs(block.srl, block.raw, prog, block.quality));
      } else {
        IndicesFitMeaning(region.quantVals, block);
        var table, index := region.quantVals, block.quantIdx;
        var base := (table[index.0], table[index.1], table[index.2]);
        assert FirstAsks(region, block,
          FirstArgs(block.data, base, prog, index, QualityOf(block), region.useReduceExtrapolate));
      }
    }
  }
}
