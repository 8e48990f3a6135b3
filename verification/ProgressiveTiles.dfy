/**
 The RFX Progressive tile transition (MS-RDPEGFX section 2.2.4.2): what one block does to the
 tile it addresses.

 A tile is a `Cell`: the decoder state in the grid slot and the retained coefficients of the
 surface. The entropy decoders and the inverse transform belong to IronRDP; they are the
 arrow-typed fields of `TileCodec`, and everything here holds for every choice of them.
 */
module ProgressiveTiles {
  import opened Prelude

  datatype Key = Key(x: u16, y: u16)

  /** Y, Cb and Cr wavelet coefficients. */
  type Coeffs = seq<seq<i16>>

  datatype Quant = Quant(bands: seq<u8>)

  datatype ProgQuant = ProgQuant(quality: u8, y: Quant, cb: Quant, cr: Quant)

  /** `words` is the decoder-private part of IronRDP's tile state. */
  datatype TileState = TileState(
    pass: nat,
    coefficients: Coeffs,
    isDifference: bool,
    useReduceExtrapolate: bool,
    words: seq<int>)

  datatype Attempt = Attempt(state: TileState, ok: bool)

  datatype TileCodec = TileCodec(
    blank: TileState,
    lossless: Quant,
    first: (TileState, FirstArgs) -> Attempt,
    upgrade: (TileState, UpgradeArgs) -> Attempt,
    render: TileState -> seq<u8>)

  datatype FirstArgs = FirstArgs(
    data: seq<seq<u8>>,
    base: (Quant, Quant, Quant),
    prog: (Quant, Quant, Quant),
    quantIdx: (u8, u8, u8),
    quality: u8,
    useReduceExtrapolate: bool)

  datatype UpgradeArgs = UpgradeArgs(
    srl: seq<seq<u8>>,
    raw: seq<seq<u8>>,
    prog: (Quant, Quant, Quant),
    quality: u8)

  /** TILE_SIMPLE, TILE_FIRST and TILE_UPGRADE. */
  datatype Block =
    | Simple(key: Key, flags: u8, quantIdx: (u8, u8, u8), data: seq<seq<u8>>)
    | First(key: Key, flags: u8, quantIdx: (u8, u8, u8), quality: u8, data: seq<seq<u8>>)
    | Upgrade(key: Key, quality: u8, srl: seq<seq<u8>>, raw: seq<seq<u8>>)

  datatype TileError =
    | OutOfBounds(key: Key)
    | NoReference(key: Key)
    | QuantIndex(index: u8, length: nat)
    | EntropyDecode
    | LostReference

  /** What the tiles of one REGION need to know. */
  datatype Region = Region(
    surface: u16,
    useReduceExtrapolate: bool,
    quantVals: seq<Quant>,
    progVals: seq<ProgQuant>,
    codec: TileCodec)

  datatype Pass =
    | FirstPass(args: FirstArgs, difference: bool)
    | UpgradePass(args2: UpgradeArgs)

  datatype Cell = Cell(slot: Option<TileState>, reference: Option<Coeffs>)

  datatype Prepared =
    | Ready(state: TileState, pass: Pass)
    | Skipped(state: TileState)
    | Refused(slot: Option<TileState>, error: TileError)

  datatype Ran = Ran(state: TileState, reference: Option<Coeffs>, result: Result<seq<u8>, TileError>)

  datatype Outcome = Drawn(pixels: seq<u8>) | Passed | Failed(error: TileError)

  datatype Stepped = Stepped(cell: Cell, outcome: Outcome)

  const FULL_QUALITY: u8 := 0xFF
  /** RFX_TILE_DIFFERENCE is bit 0 of the tile flags. */
  predicate IsDifference(flags: u8) {
    flags % 2 == 1
  }

  function SaturateI16(n: int): i16 {
    if n < -0x8000 then -0x8000 else if n > 0x7FFF then 0x7FFF else n
  }

  /** Adds the reference component-wise; a longer side is left alone, as `zip` does. */
  function AddComponent(c: seq<i16>, r: seq<i16>): seq<i16> {
    seq(|c|, i requires 0 <= i < |c| => if i < |r| then SaturateI16(c[i] as int + r[i] as int) else c[i])
  }

  function AddReference(c: Coeffs, r: Coeffs): Coeffs {
    seq(|c|, i requires 0 <= i < |c| => if i < |r| then AddComponent(c[i], r[i]) else c[i])
  }

  function MaxIndex(idx: (u8, u8, u8)): u8 {
    Max(idx.0, Max(idx.1, idx.2))
  }

  function ProgressiveQuant(region: Region, quality: u8): Result<ProgQuant, TileError> {
    if quality == FULL_QUALITY then
      Ok(ProgQuant(quality, region.codec.lossless, region.codec.lossless, region.codec.lossless))
    else if quality < |region.progVals| then
      Ok(region.progVals[quality])
    else
      Err(QuantIndex(quality, |region.progVals|))
  }

  function EnsureTile(codec: TileCodec, gridFlag: bool, slot: Option<TileState>): TileState {
    match slot
    case Some(state) => state
    case None => codec.blank.(useReduceExtrapolate := gridFlag)
  }

  function PrepareFirst(region: Region, gridFlag: bool, cell: Cell, key: Key, flags: u8,
                        idx: (u8, u8, u8), quality: Option<u8>, data: seq<seq<u8>>): Prepared
  {
    if IsDifference(flags) && cell.reference.None? then
      Refused(cell.slot, NoReference(key))
    else
      var state := EnsureTile(region.codec, gridFlag, cell.slot);
      var quants := region.quantVals;
      if MaxIndex(idx) >= |quants| then
        Refused(Some(state), QuantIndex(MaxIndex(idx), |quants|))
      else
        var base := (quants[idx.0], quants[idx.1], quants[idx.2]);
        var lossless := region.codec.lossless;
        match quality
        case None =>
          Ready(state, FirstPass(FirstArgs(data, base, (lossless, lossless, lossless), idx,
            FULL_QUALITY, region.useReduceExtrapolate), IsDifference(flags)))
        case Some(q) =>
          match ProgressiveQuant(region, q)
          case Err(e) => Refused(Some(state), e)
          case Ok(pq) =>
            Ready(state, FirstPass(FirstArgs(data, base, (pq.y, pq.cb, pq.cr), idx,
              q, region.useReduceExtrapolate), IsDifference(flags)))
  }

  /** Validation of one block against the tile it addresses. */
  function Prepare(region: Region, gridFlag: bool, cell: Cell, block: Block): Prepared {
    match block
    case Simple(key, flags, idx, data) =>
      PrepareFirst(region, gridFlag, cell, key, flags, idx, None, data)
    case First(key, flags, idx, quality, data) =>
      PrepareFirst(region, gridFlag, cell, key, flags, idx, Some(quality), data)
    case Upgrade(key, quality, srl, raw) =>
      var state := EnsureTile(region.codec, gridFlag, cell.slot);
      if state.pass == 0 then
        Skipped(state)
      else
        match ProgressiveQuant(region, quality)
        case Err(e) => Refused(Some(state), e)
        case Ok(pq) => Ready(state, UpgradePass(UpgradeArgs(srl, raw, (pq.y, pq.cb, pq.cr), quality)))
  }

  /** Entropy decode, reference update and reconstruction of one prepared tile. */
  function Run(codec: TileCodec, state: TileState, reference: Option<Coeffs>, pass: Pass): Ran {
    match pass
    case FirstPass(args, difference) =>
      var attempt := codec.first(state, args);
      if !attempt.ok then
        Ran(attempt.state, reference, Err(EntropyDecode))
      else if difference then
        match reference
        case None => Ran(attempt.state, None, Err(LostReference))
        case Some(r) =>
          var sum := AddReference(attempt.state.coefficients, r);
          Finish(codec, attempt.state.(coefficients := sum, isDifference := true))
      else
        Finish(codec, attempt.state)
    case UpgradePass(args) =>
      var attempt := codec.upgrade(state, args);
      if !attempt.ok then
        Ran(attempt.state, reference, Err(EntropyDecode))
      else
        Finish(codec, attempt.state)
  }

  function Finish(codec: TileCodec, state: TileState): Ran {
    Ran(state, Some(state.coefficients), Ok(codec.render(state)))
  }

  /** One block applied to the tile it addresses. */
  function Step(region: Region, gridFlag: bool, cell: Cell, block: Block): Stepped {
    match Prepare(region, gridFlag, cell, block)
    case Refused(slot, e) => Stepped(Cell(slot, cell.reference), Failed(e))
    case Skipped(state) => Stepped(Cell(Some(state), cell.reference), Passed)
    case Ready(state, pass) =>
      var ran := Run(region.codec, state, cell.reference, pass);
      Stepped(Cell(Some(ran.state), ran.reference),
              if ran.result.Ok? then Drawn(ran.result.value) else Failed(ran.result.error))
  }

  /** A drawn tile shows its stored state, and its reference is its own coefficients. */
  ghost predicate Settled(codec: TileCodec, cell: Cell, pixels: seq<u8>) {
    && cell.slot.Some?
    && cell.reference == Some(cell.slot.value.coefficients)
    && pixels == codec.render(cell.slot.value)
  }

  /** No state and no reference that exists in `before` is missing from `after`. */
  ghost predicate Keeps(before: Cell, after: Cell) {
    && (before.slot.Some? ==> after.slot.Some?)
    && (before.reference.Some? ==> after.reference.Some?)
  }

  lemma StepFacts(region: Region, gridFlag: bool, cell: Cell, block: Block)
    ensures var s := Step(region, gridFlag, cell, block);
      && Keeps(cell, s.cell)
      && s.outcome != Failed(LostReference)
      && (s.outcome.Drawn? ==> Settled(region.codec, s.cell, s.outcome.pixels))
  {
  }
}
