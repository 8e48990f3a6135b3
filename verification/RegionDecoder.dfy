/**
 The tile grid and the reference map of one surface, updated in place while a REGION is decoded
 in rounds.

 The grid is a flat list indexed by `y * tilesWide + x`; a first-pass block recovers the tile
 coordinates from that index with a division, so the whole refinement rests on the index being
 injective.
 */
module RegionDecoder {
  import opened Arithmetic
  import opened Prelude
  import opened ProgressiveTiles
  import opened TileSchedule
  import opened RegionRounds

  datatype RefKey = RefKey(surface: u16, x: u16, y: u16)

  /** A job as the decoder holds it: with the grid index its state returns to. */
  datatype Held = Held(index: nat, job: Job)

  lemma IndexRange(x: nat, y: nat, wide: nat, high: nat)
    requires x < wide && y < high
    ensures y * wide + x < wide * high
  {
    assert (y + 1) * wide <= high * wide;
  }

  /** Division and remainder recover the tile coordinates from the grid index. */
  lemma IndexInverse(x: nat, y: nat, wide: nat)
    requires x < wide
    ensures (y * wide + x) / wide == y && (y * wide + x) % wide == x
  {
    DivMod(y * wide + x, wide, y, x);
  }

  /** Every index is the index of exactly one tile of the grid. */
  lemma IndexCover(i: nat, wide: nat, high: nat)
    requires i < wide * high
    ensures wide > 0 && i % wide < wide && i / wide < high && (i / wide) * wide + i % wide == i
  {
    assert wide != 0;
    assert (i / wide) * wide < high * wide;
  }

  // ----- the flat grid and the reference map as one map of cells ------------------------------

  function IndexOf(key: Key, wide: u16): nat {
    key.y * wide + key.x
  }

  ghost predicate InGrid(key: Key, wide: u16, high: u16) {
    key.x < wide && key.y < high
  }

  ghost function GridKeys(wide: u16, high: u16): set<Key> {
    set x: u16, y: u16 | 0 <= x < wide && 0 <= y < high :: Key(x, y)
  }

  ghost function CellAt(wide: u16, high: u16, tiles: seq<Option<TileState>>, refs: map<RefKey, Coeffs>,
                        surface: u16, key: Key): Cell
    requires |tiles| == wide * high && InGrid(key, wide, high)
  {
    IndexRange(key.x, key.y, wide, high);
    var ref := RefKey(surface, key.x, key.y);
    Cell(tiles[IndexOf(key, wide)], if ref in refs then Some(refs[ref]) else None)
  }

  ghost function CellsOf(wide: u16, high: u16, tiles: seq<Option<TileState>>, refs: map<RefKey, Coeffs>,
                         surface: u16): Cells
    requires |tiles| == wide * high
  {
    map key | key in GridKeys(wide, high) :: CellAt(wide, high, tiles, refs, surface, key)
  }

  /** Writing one slot and one reference changes exactly one cell. */
  lemma WriteCell(wide: u16, high: u16, tiles: seq<Option<TileState>>, refs: map<RefKey, Coeffs>,
                  surface: u16, key: Key, slot: Option<TileState>, refs': map<RefKey, Coeffs>)
    requires |tiles| == wide * high && InGrid(key, wide, high)
    requires forall ref :: ref != RefKey(surface, key.x, key.y) ==>
      (ref in refs <==> ref in refs') && (ref in refs ==> refs[ref] == refs'[ref])
    ensures IndexOf(key, wide) < |tiles|
    ensures var ref := RefKey(surface, key.x, key.y);
      CellsOf(wide, high, tiles[IndexOf(key, wide) := slot], refs', surface)
      == CellsOf(wide, high, tiles, refs, surface)
           [key := Cell(slot, if ref in refs' then Some(refs'[ref]) else None)]
  {
    IndexRange(key.x, key.y, wide, high);
    var before := CellsOf(wide, high, tiles, refs, surface);
    var after := CellsOf(wide, high, tiles[IndexOf(key, wide) := slot], refs', surface);
    assert key in GridKeys(wide, high);
    forall other <- GridKeys(wide, high) | other != key
      ensures after[other] == before[other]
    {
      IndexInverse(key.x, key.y, wide);
      IndexInverse(other.x, other.y, wide);
      IndexRange(other.x, other.y, wide, high);
    }
  }

  /** Equal cells mean an equal grid and equal references of the surface. */
  lemma CellsDetermineGrid(wide: u16, high: u16, tiles: seq<Option<TileState>>, refs: map<RefKey, Coeffs>,
                           tiles': seq<Option<TileState>>, refs': map<RefKey, Coeffs>, surface: u16)
    requires |tiles| == |tiles'| == wide * high
    requires CellsOf(wide, high, tiles, refs, surface) == CellsOf(wide, high, tiles', refs', surface)
    ensures tiles == tiles'
    ensures forall x: u16, y: u16 | x < wide && y < high :: var ref := RefKey(surface, x, y);
      (ref in refs <==> ref in refs') && (ref in refs ==> refs[ref] == refs'[ref])
  {
    var cells := CellsOf(wide, high, tiles, refs, surface);
    forall i | 0 <= i < |tiles|
      ensures tiles[i] == tiles'[i]
    {
      IndexCover(i, wide, high);
      var key := Key(i % wide, i / wide);
      assert key in GridKeys(wide, high);
      assert cells[key].slot == tiles[i];
    }
    forall x: u16, y: u16 | x < wide && y < high
      ensures var ref := RefKey(surface, x, y);
        (ref in refs <==> ref in refs') && (ref in refs ==> refs[ref] == refs'[ref])
    {
      assert Key(x, y) in GridKeys(wide, high);
      assert cells[Key(x, y)].reference == CellAt(wide, high, tiles', refs', surface, Key(x, y)).reference;
    }
  }

  /** References outside the grid of `surface` are the same in both maps. */
  ghost predicate SameElsewhere(refs: map<RefKey, Coeffs>, refs': map<RefKey, Coeffs>,
                                surface: u16, wide: u16, high: u16) {
    forall ref: RefKey :: ref.surface != surface || ref.x >= wide || ref.y >= high ==>
      (ref in refs <==> ref in refs') && (ref in refs ==> refs[ref] == refs'[ref])
  }

  class TileGrid {
    const tilesWide: u16
    const tilesHigh: u16
    var useReduceExtrapolate: bool
    var tiles: seq<Option<TileState>>
    var references: map<RefKey, Coeffs>

    ghost predicate Valid()
      reads this
    {
      |tiles| == tilesWide * tilesHigh
    }

    ghost function Cells(surface: u16): TileSchedule.Cells
      requires Valid()
      reads this
    {
      CellsOf(tilesWide, tilesHigh, tiles, references, surface)
    }

    constructor (width: u16, height: u16, useReduceExtrapolate: bool)
      ensures Valid() && tilesWide == width && tilesHigh == height
      ensures this.useReduceExtrapolate == useReduceExtrapolate && references == map[]
      ensures forall i :: 0 <= i < |tiles| ==> tiles[i] == None
    {
      tilesWide := width;
      tilesHigh := height;
      this.useReduceExtrapolate := useReduceExtrapolate;
      tiles := seq(width * height, _ => None);
      references := map[];
    }

    /** A grid taken from where it was kept, with the references of its surface. */
    constructor From(tilesWide: u16, tilesHigh: u16, useReduceExtrapolate: bool,
                     tiles: seq<Option<TileState>>, references: map<RefKey, Coeffs>)
      requires |tiles| == tilesWide * tilesHigh
      ensures Valid() && this.tilesWide == tilesWide && this.tilesHigh == tilesHigh
      ensures this.useReduceExtrapolate == useReduceExtrapolate && this.tiles == tiles && this.references == references
    {
      this.tilesWide, this.tilesHigh := tilesWide, tilesHigh;
      this.useReduceExtrapolate, this.tiles, this.references := useReduceExtrapolate, tiles, references;
    }

    /** Afterwards the slot holds a tile: the one it had, or a blank one. */
    method EnsureTileAt(codec: TileCodec, index: nat)
      requires Valid() && index < |tiles|
      modifies this`tiles
      ensures tiles == old(tiles)[index := Some(EnsureTile(codec, useReduceExtrapolate, old(tiles[index])))]
    {
      if tiles[index].None? {
        tiles := tiles[index := Some(codec.blank.(useReduceExtrapolate := useReduceExtrapolate))];
      }
    }

    /** Validates a first-pass block; the tile is allocated before its quantisers are looked up. */
    method FirstPassAt(region: Region, index: nat, ghost key: Key, flags: u8, idx: (u8, u8, u8),
                       quality: Option<u8>, data: seq<seq<u8>>)
      returns (r: Result<Pass, TileError>)
      requires Valid() && InGrid(key, tilesWide, tilesHigh)
      requires index == IndexOf(key, tilesWide) < |tiles|
      modifies this`tiles
      ensures var cell := CellAt(tilesWide, tilesHigh, old(tiles), references, region.surface, key);
        match PrepareFirst(region, useReduceExtrapolate, cell, key, flags, idx, quality, data)
        case Ready(state, pass) => r == Ok(pass) && tiles == old(tiles)[index := Some(state)]
        case Refused(slot, e) => r == Err(e) && tiles == old(tiles)[index := slot]
    {
      IndexInverse(key.x, key.y, tilesWide);
      var x, y := index % tilesWide, index / tilesWide;
      var difference := IsDifference(flags);
      var hasReference := RefKey(region.surface, x, y) in references;
      if difference && !hasReference {
        return Err(NoReference(Key(x, y)));
      }
      EnsureTileAt(region.codec, index);
      var quants := region.quantVals;
      if idx.0 >= |quants| || idx.1 >= |quants| || idx.2 >= |quants| {
        return Err(QuantIndex(MaxIndex(idx), |quants|));
      }
      var base := (quants[idx.0], quants[idx.1], quants[idx.2]);
      var lossless := region.codec.lossless;
      var prog, q := (lossless, lossless, lossless), FULL_QUALITY;
      if quality.Some? {
        var found := ProgressiveQuant(region, quality.value);
        if found.Err? {
          return Err(found.error);
        }
        prog, q := (found.value.y, found.value.cb, found.value.cr), quality.value;
      }
      return Ok(FirstPass(FirstArgs(data, base, prog, idx, q, region.useReduceExtrapolate), difference));
    }

    /** The pass a block asks for; `None` for an upgrade of a tile that never had a first pass. */
    method PassAt(region: Region, index: nat, block: Block) returns (r: Result<Option<Pass>, TileError>)
      requires Valid() && InGrid(block.key, tilesWide, tilesHigh)
      requires index == IndexOf(block.key, tilesWide) < |tiles|
      modifies this`tiles
      ensures var cell := CellAt(tilesWide, tilesHigh, old(tiles), references, region.surface, block.key);
        match Prepare(region, useReduceExtrapolate, cell, block)
        case Ready(state, pass) => r == Ok(Some(pass)) && tiles == old(tiles)[index := Some(state)]
        case Skipped(state) => r == Ok(None) && tiles == old(tiles)[index := Some(state)]
        case Refused(slot, e) => r == Err(e) && tiles == old(tiles)[index := slot]
    {
      var first;
      match block {
        case Simple(key, flags, idx, data) =>
          first := FirstPassAt(region, index, key, flags, idx, None, data);
        case First(key, flags, idx, quality, data) =>
          first := FirstPassAt(region, index, key, flags, idx, Some(quality), data);
        case Upgrade(key, quality, srl, raw) =>
          EnsureTileAt(region.codec, index);
          if tiles[index].value.pass == 0 {
            return Ok(None);
          }
          var found := ProgressiveQuant(region, quality);
          if found.Err? {
            return Err(found.error);
          }
          var prog := (found.value.y, found.value.cb, found.value.cr);
          return Ok(Some(UpgradePass(UpgradeArgs(srl, raw, prog, quality))));
      }
      return if first.Err? then Err(first.error) else Ok(Some(first.value));
    }

    /** Takes a prepared tile and its reference out of the shared maps. */
    method TakeTile(surface: u16, index: nat, key: Key, pass: Pass) returns (held: Held)
      requires Valid() && InGrid(key, tilesWide, tilesHigh)
      requires index == IndexOf(key, tilesWide) < |tiles| && tiles[index].Some?
      modifies this`tiles, this`references
      ensures Valid() && SameElsewhere(old(references), references, surface, tilesWide, tilesHigh)
      ensures Cells(surface) == old(Cells(surface))[key := Cell(None, None)]
      ensures var cell := CellAt(tilesWide, tilesHigh, old(tiles), old(references), surface, key);
        held == Held(index, Job(key, cell.slot.value, cell.reference, pass))
    {
      var ref := RefKey(surface, key.x, key.y);
      held := Held(index, Job(key, tiles[index].value, if ref in references then Some(references[ref]) else None, pass));
      tiles := tiles[index := None];
      references := references - {ref};
      WriteCell(tilesWide, tilesHigh, old(tiles), old(references), surface, key, None, references);
    }

    /** Validates a block of the grid and takes its tile and reference out of the shared maps. */
    method PrepareInGrid(region: Region, index: nat, block: Block) returns (r: Result<Option<Held>, TileError>)
      requires Valid() && InGrid(block.key, tilesWide, tilesHigh) && index == IndexOf(block.key, tilesWide) < |tiles|
      modifies this`tiles, this`references
      ensures Valid() && SameElsewhere(old(references), references, region.surface, tilesWide, tilesHigh)
      ensures block.key in old(Cells(region.surface))
      ensures var cells, cell := old(Cells(region.surface)), old(Cells(region.surface))[block.key];
        match Prepare(region, useReduceExtrapolate, cell, block)
        case Ready(state, pass) =>
          && r == Ok(Some(Held(index, Job(block.key, state, cell.reference, pass))))
          && Cells(region.surface) == cells[block.key := Cell(None, None)]
        case Skipped(state) => r == Ok(None) && Cells(region.surface) == cells[block.key := cell.(slot := Some(state))]
        case Refused(slot, e) => r == Err(e) && Cells(region.surface) == cells[block.key := cell.(slot := slot)]
    {
      var key := block.key;
      ghost var cells := Cells(region.surface);
      assert key in cells by {
        assert key in GridKeys(tilesWide, tilesHigh);
      }
      var pass := PassAt(region, index, block);
      WriteCell(tilesWide, tilesHigh, old(tiles), references, region.surface, key, tiles[index], references);
      assert Cells(region.surface) == cells[key := Cell(tiles[index], cells[key].reference)];
      if pass.Err? {
        return Err(pass.error);
      }
      if pass.value.None? {
        return Ok(None);
      }
      var held := TakeTile(region.surface, index, key, pass.value.value);
      return Ok(Some(held));
    }

    /** Validates a block, on the grid or off it. */
    method PrepareBlock(region: Region, block: Block) returns (r: Result<Option<Held>, TileError>)
      requires Valid()
      modifies this`tiles, this`references
      ensures Valid() && SameElsewhere(old(references), references, region.surface, tilesWide, tilesHigh)
      ensures Cells(region.surface) == TakeFirst(region, old(Cells(region.surface)), block).cells
      ensures var b := TakeFirst(region, old(Cells(region.surface)), block);
        match r
        case Err(e) => b.error == Some(e)
        case Ok(None) => b.error.None? && b.jobs == []
        case Ok(Some(held)) => b.error.None? && b.jobs == [held.job] && Fits(held)
    {
      var key := block.key;
      if key.x >= tilesWide || key.y >= tilesHigh {
        assert key !in GridKeys(tilesWide, tilesHigh);
        return Err(OutOfBounds(key));
      }
      IndexRange(key.x, key.y, tilesWide, tilesHigh);
      r := PrepareInGrid(region, IndexOf(key, tilesWide), block);
    }

    ghost function TakeFirst(region: Region, cells: TileSchedule.Cells, block: Block): Batch
      reads this`useReduceExtrapolate
    {
      TakeOne(region, useReduceExtrapolate, Batch(cells, [], None), block)
    }

    ghost predicate Fits(held: Held) {
      InGrid(held.job.key, tilesWide, tilesHigh) && held.index == IndexOf(held.job.key, tilesWide)
    }

    /** Returns one tile, and its reference if it has one, to the shared maps. */
    method PutTile(surface: u16, held: Held)
      requires Valid() && Fits(held)
      modifies this`tiles, this`references
      ensures Valid() && SameElsewhere(old(references), references, surface, tilesWide, tilesHigh)
      ensures Cells(surface) == PutOne(old(Cells(surface)), held.job)
    {
      var key := held.job.key;
      IndexRange(key.x, key.y, tilesWide, tilesHigh);
      assert key in GridKeys(tilesWide, tilesHigh);
      tiles := tiles[held.index := Some(held.job.state)];
      if held.job.reference.Some? {
        references := references[RefKey(surface, key.x, key.y) := held.job.reference.value];
      }
      WriteCell(tilesWide, tilesHigh, old(tiles), old(references), surface, key, tiles[held.index], references);
    }

    /** Returns every tile of a round to the shared maps. */
    method PutTiles(surface: u16, jobs: seq<Held>)
      requires Valid() && forall held <- jobs :: Fits(held)
      modifies this`tiles, this`references
      ensures Valid() && SameElsewhere(old(references), references, surface, tilesWide, tilesHigh)
      ensures Cells(surface) == PutBack(old(Cells(surface)), Jobs(jobs))
    {
      for i := 0 to |jobs|
        invariant Valid() && SameElsewhere(old(references), references, surface, tilesWide, tilesHigh)
        invariant Cells(surface) == PutBack(old(Cells(surface)), Jobs(jobs[..i]))
      {
        PutTile(surface, jobs[i]);
        assert Jobs(jobs[..i + 1])[..i] == Jobs(jobs[..i]);
      }
      assert jobs[..|jobs|] == jobs;
    }

    /** Prepares one more block of a round. */
    method PrepareNext(region: Region, ghost cells: TileSchedule.Cells, ghost before: seq<Block>, taken: seq<Held>, block: Block)
      returns (jobs: seq<Held>, failure: Option<TileError>)
      requires Valid() && forall held <- taken :: Fits(held)
      requires TakeOut(region, useReduceExtrapolate, cells, before) == Batch(Cells(region.surface), Jobs(taken), None)
      modifies this`tiles, this`references
      ensures Valid() && SameElsewhere(old(references), references, region.surface, tilesWide, tilesHigh)
      ensures forall held <- jobs :: Fits(held)
      ensures TakeOut(region, useReduceExtrapolate, cells, before + [block])
           == Batch(Cells(region.surface), Jobs(jobs), failure)
    {
      jobs, failure := taken, None;
      assert (before + [block])[..|before|] == before;
      TakeOneAppends(region, useReduceExtrapolate, Batch(Cells(region.surface), Jobs(jobs), None), block);
      var r := PrepareBlock(region, block);
      match r {
        case Err(e) =>
          failure := Some(e);
        case Ok(None) =>
        case Ok(Some(held)) =>
          assert Jobs(jobs + [held]) == Jobs(jobs) + [held.job];
          jobs := jobs + [held];
      }
    }

    /** Takes the tiles of a round out, stopping at the first refused block. */
    method PrepareRound(region: Region, round: seq<Block>) returns (jobs: seq<Held>, failure: Option<TileError>)
      requires Valid()
      modifies this`tiles, this`references
      ensures Valid() && SameElsewhere(old(references), references, region.surface, tilesWide, tilesHigh)
      ensures forall held <- jobs :: Fits(held)
      ensures TakeOut(region, useReduceExtrapolate, old(Cells(region.surface)), round)
           == Batch(Cells(region.surface), Jobs(jobs), failure)
    {
      jobs, failure := [], None;
      ghost var cells := Cells(region.surface);
      for i := 0 to |round|
        invariant Valid() && SameElsewhere(old(references), references, region.surface, tilesWide, tilesHigh)
        invariant forall held <- jobs :: Fits(held)
        invariant failure.None?
        invariant TakeOut(region, useReduceExtrapolate, cells, round[..i]) == Batch(Cells(region.surface), Jobs(jobs), None)
      {
        assert round[..i + 1] == round[..i] + [round[i]];
        jobs, failure := PrepareNext(region, cells, round[..i], jobs, round[i]);
        if failure.Some? {
          TakeOutStops(region, useReduceExtrapolate, cells, round, i + 1);
          return;
        }
      }
      assert round[..|round|] == round;
    }

    /** One round: prepare all, run all, put all back even on failure, then collect the pixels. */
    method DecodeRound(region: Region, round: seq<Block>) returns (r: Result<map<Key, seq<u8>>, TileError>)
      requires Valid() && DistinctKeys(round)
      modifies this`tiles, this`references
      ensures Valid() && SameElsewhere(old(references), references, region.surface, tilesWide, tilesHigh)
      ensures KeepsAll(old(Cells(region.surface)), Cells(region.surface))
      ensures r != Err(LostReference)
      ensures var d := OneByOne(TileStep(region, useReduceExtrapolate), old(Cells(region.surface)), round);
        && (r.Ok? <==> d.error.None?)
        && (r.Ok? ==> Cells(region.surface) == d.cells && r.value == d.pixels)
    {
      ghost var cells := Cells(region.surface);
      RoundIsOneByOne(region, useReduceExtrapolate, cells, round);
      TakeOutAccounts(region, useReduceExtrapolate, cells, round);
      var jobs, failure := PrepareRound(region, round);
      ghost var mid := Cells(region.surface);
      var results := [];
      if failure.None? {
        FinishedKeeps(region.codec, cells, mid, Jobs(jobs));
        var finished;
        finished, results := RunJobs(region.codec, jobs);
        forall i | 0 <= i < |jobs| ensures Fits(finished[i]) {
          assert Fits(jobs[i]);
        }
        jobs := finished;
      }
      PutBackKeepsAll(cells, mid, Jobs(jobs));
      PutTiles(region.surface, jobs);
      if failure.Some? {
        return Err(failure.value);
      }
      r := Collect(region.codec, results, TakeOut(region, useReduceExtrapolate, cells, round).jobs);
    }

    /**
     Decodes every tile block of a REGION, in rounds.

     The result is exactly that of decoding the blocks one by one in list order: the same success,
     and on success the same grid, the same references and the same pixels.
     */
    method DecodeRegionTiles(region: Region, blocks: seq<Block>) returns (r: Result<map<Key, seq<u8>>, TileError>)
      requires Valid()
      modifies this`tiles, this`references
      ensures Valid() && SameElsewhere(old(references), references, region.surface, tilesWide, tilesHigh)
      ensures var d := OneByOne(TileStep(region, useReduceExtrapolate), old(Cells(region.surface)), blocks);
        && (r.Ok? <==> d.error.None?)
        && (r.Ok? ==> Cells(region.surface) == d.cells && r.value == d.pixels)
      ensures KeepsAll(old(Cells(region.surface)), Cells(region.surface))
      ensures r != Err(LostReference)
      ensures r.Ok? ==> forall key <- r.value ::
        key in Cells(region.surface) && Settled(region.codec, Cells(region.surface)[key], r.value[key])
    {
      ghost var cells := Cells(region.surface);
      ghost var step := TileStep(region, useReduceExtrapolate);
      var rounds := SplitRounds(blocks);
      SplitKeepsOwnOrder(rounds, blocks);
      OnlyOwnOrderMatters(step, cells, Flatten(rounds), blocks);
      var decoded := map[];
      for n := 0 to |rounds|
        invariant Valid() && SameElsewhere(old(references), references, region.surface, tilesWide, tilesHigh)
        invariant OneByOne(step, cells, Flatten(rounds[..n])) == Decoded(Cells(region.surface), decoded, None)
        invariant KeepsAll(cells, Cells(region.surface))
      {
        ghost var before := Cells(region.surface);
        OneByOneConcat(step, cells, Flatten(rounds[..n]), rounds[n]);
        assert rounds[..n + 1][..n] == rounds[..n];
        var r := DecodeRound(region, rounds[n]);
        KeepsAllTransitive(cells, before, Cells(region.surface));
        if r.Err? {
          FlattenFails(step, cells, rounds, n + 1);
          return Err(r.error);
        }
        decoded := decoded + r.value;
      }
      assert rounds[..|rounds|] == rounds;
      DrawnTilesSettle(region, useReduceExtrapolate, cells, blocks);
      return Ok(decoded);
    }
  }

  ghost function Jobs(jobs: seq<Held>): seq<Job> {
    seq(|jobs|, i requires 0 <= i < |jobs| => jobs[i].job)
  }

  /** Runs the jobs of a round; they share nothing, so their order is immaterial. */
  method RunJobs(codec: TileCodec, jobs: seq<Held>)
    returns (finished: seq<Held>, results: seq<(Key, Result<seq<u8>, TileError>)>)
    ensures |finished| == |results| == |jobs|
    ensures Jobs(finished) == AllFinished(codec, Jobs(jobs))
    ensures forall i :: 0 <= i < |jobs| ==>
      && finished[i].index == jobs[i].index && finished[i].job.key == jobs[i].job.key
      && results[i] == (jobs[i].job.key, RunJob(codec, jobs[i].job).result)
  {
    finished, results := jobs, [];
    for i := 0 to |jobs|
      invariant |finished| == |jobs| && |results| == i
      invariant forall k :: i <= k < |jobs| ==> finished[k] == jobs[k]
      invariant forall k :: 0 <= k < i ==>
        && finished[k] == jobs[k].(job := Finished(codec, jobs[k].job))
        && results[k] == (jobs[k].job.key, RunJob(codec, jobs[k].job).result)
    {
      var job := jobs[i].job;
      var ran := RunJob(codec, job);
      finished := finished[i := jobs[i].(job := job.(state := ran.state, reference := ran.reference))];
      results := results + [(job.key, ran.result)];
    }
  }

  /** The pixels of a round, or the first failed job's error. */
  method Collect(codec: TileCodec, results: seq<(Key, Result<seq<u8>, TileError>)>, ghost jobs: seq<Job>)
    returns (r: Result<map<Key, seq<u8>>, TileError>)
    requires |results| == |jobs|
    requires forall i :: 0 <= i < |jobs| ==> results[i] == (jobs[i].key, RunJob(codec, jobs[i]).result)
    ensures r.Ok? <==> AllOk(codec, jobs)
    ensures r.Ok? ==> r.value == Pixels(codec, jobs)
    ensures r.Err? ==> exists i :: 0 <= i < |jobs| && AllOk(codec, jobs[..i]) && RunJob(codec, jobs[i]).result == Err(r.error)
  {
    var decoded := map[];
    for i := 0 to |results|
      invariant AllOk(codec, jobs[..i]) && decoded == Pixels(codec, jobs[..i])
    {
      if results[i].1.Err? {
        return Err(results[i].1.error);
      }
      decoded := decoded[results[i].0 := results[i].1.value];
      assert jobs[..i + 1][..i] == jobs[..i];
    }
    assert jobs[..|jobs|] == jobs;
    return Ok(decoded);
  }
}
