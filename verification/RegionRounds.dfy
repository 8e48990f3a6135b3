/**
 One round of a REGION: tile states and references are taken out of the shared maps, run as
 independent jobs, and put back. For blocks that address distinct tiles this is the same as
 decoding them one by one.
 */
module RegionRounds {
  import opened Prelude
  import opened ProgressiveTiles
  import opened TileSchedule

  /** One tile decode, owning the tile's state and reference while it runs. */
  datatype Job = Job(key: Key, state: TileState, reference: Option<Coeffs>, pass: Pass)

  datatype Batch = Batch(cells: Cells, jobs: seq<Job>, error: Option<TileError>)

  ghost function TileStep(region: Region, gridFlag: bool): Transition {
    (cell, block) => Step(region, gridFlag, cell, block)
  }

  /** Prepares one more block: its tile leaves the shared maps unless it is refused or skipped. */
  ghost function TakeOne(region: Region, gridFlag: bool, b: Batch, block: Block): Batch {
    if b.error.Some? then
      b
    else if block.key !in b.cells then
      b.(error := Some(OutOfBounds(block.key)))
    else
      var cell := b.cells[block.key];
      match Prepare(region, gridFlag, cell, block)
      case Refused(slot, e) => b.(cells := b.cells[block.key := cell.(slot := slot)], error := Some(e))
      case Skipped(state) => b.(cells := b.cells[block.key := cell.(slot := Some(state))])
      case Ready(state, pass) =>
        b.(cells := b.cells[block.key := Cell(None, None)],
           jobs := b.jobs + [Job(block.key, state, cell.reference, pass)])
  }

  ghost function TakeOut(region: Region, gridFlag: bool, cells: Cells, round: seq<Block>): Batch {
    if round == [] then
      Batch(cells, [], None)
    else
      TakeOne(region, gridFlag, TakeOut(region, gridFlag, cells, round[..|round| - 1]), round[|round| - 1])
  }

  function RunJob(codec: TileCodec, job: Job): Ran {
    Run(codec, job.state, job.reference, job.pass)
  }

  function Finished(codec: TileCodec, job: Job): Job {
    var ran := RunJob(codec, job);
    job.(state := ran.state, reference := ran.reference)
  }

  function AllFinished(codec: TileCodec, jobs: seq<Job>): seq<Job> {
    seq(|jobs|, i requires 0 <= i < |jobs| => Finished(codec, jobs[i]))
  }

  ghost predicate AllOk(codec: TileCodec, jobs: seq<Job>) {
    forall i :: 0 <= i < |jobs| ==> RunJob(codec, jobs[i]).result.Ok?
  }

  ghost function Pixels(codec: TileCodec, jobs: seq<Job>): map<Key, seq<u8>>
    requires AllOk(codec, jobs)
  {
    if jobs == [] then
      map[]
    else
      var job := jobs[|jobs| - 1];
      Pixels(codec, jobs[..|jobs| - 1])[job.key := RunJob(codec, job).result.value]
  }

  ghost function PutOne(cells: Cells, job: Job): Cells {
    var reference := if job.reference.Some? || job.key !in cells then job.reference else cells[job.key].reference;
    cells[job.key := Cell(Some(job.state), reference)]
  }

  ghost function PutBack(cells: Cells, jobs: seq<Job>): Cells {
    if jobs == [] then cells else PutOne(PutBack(cells, jobs[..|jobs| - 1]), jobs[|jobs| - 1])
  }

  ghost predicate Without(jobs: seq<Job>, key: Key) {
    forall i :: 0 <= i < |jobs| ==> jobs[i].key != key
  }

  lemma {:induction false} PutBackElsewhere(cells: Cells, jobs: seq<Job>, key: Key, cell: Cell)
    requires Without(jobs, key)
    ensures PutBack(cells[key := cell], jobs) == PutBack(cells, jobs)[key := cell]
    ensures key in cells ==> key in PutBack(cells, jobs) && PutBack(cells, jobs)[key] == cells[key]
  {
    if jobs == [] {
    } else {
      PutBackElsewhere(cells, jobs[..|jobs| - 1], key, cell);
    }
  }

  lemma TakeOneElsewhere(region: Region, gridFlag: bool, b: Batch, block: Block, key: Key)
    requires block.key != key
    ensures var b' := TakeOne(region, gridFlag, b, block);
      && b'.cells.Keys == b.cells.Keys && (key in b.cells ==> b'.cells[key] == b.cells[key])
      && (Without(b.jobs, key) ==> Without(b'.jobs, key))
  {
  }

  /** Preparing a round touches only the tiles its blocks address. */
  lemma {:induction false} TakeOutUntouched(region: Region, gridFlag: bool, cells: Cells, round: seq<Block>, key: Key)
    requires !Addressed(round, key)
    ensures var b := TakeOut(region, gridFlag, cells, round);
      && Without(b.jobs, key) && b.cells.Keys == cells.Keys
      && (key in cells ==> b.cells[key] == cells[key])
  {
    if round == [] {
    } else {
      var n := |round| - 1;
      NotAddressed(round, key);
      TakeOutUntouched(region, gridFlag, cells, round[..n], key);
      TakeOneElsewhere(region, gridFlag, TakeOut(region, gridFlag, cells, round[..n]), round[n], key);
    }
  }

  lemma ExtendElsewhere(step: Transition, d: Decoded, block: Block, key: Key)
    requires block.key != key
    ensures var d' := Extend(step, d, block);
      d'.cells.Keys == d.cells.Keys && (key in d.cells ==> d'.cells[key] == d.cells[key])
  {
  }

  /** So does decoding one by one. */
  lemma {:induction false} OneByOneUntouched(step: Transition, cells: Cells, round: seq<Block>, key: Key)
    requires !Addressed(round, key)
    ensures var d := OneByOne(step, cells, round);
      d.cells.Keys == cells.Keys && (key in cells ==> d.cells[key] == cells[key])
  {
    if round == [] {
    } else {
      var n := |round| - 1;
      NotAddressed(round, key);
      OneByOneUntouched(step, cells, round[..n], key);
      ExtendElsewhere(step, OneByOne(step, cells, round[..n]), round[n], key);
    }
  }

  lemma NotAddressed(round: seq<Block>, key: Key)
    requires round != [] && !Addressed(round, key)
    ensures round[|round| - 1].key != key && !Addressed(round[..|round| - 1], key)
  {
    var n := |round| - 1;
    assert round[n].key != key;
    forall i | 0 <= i < n ensures round[..n][i].key != key {
      assert round[i].key != key;
    }
  }

  /** The round's result, when nothing failed. */
  ghost predicate RoundOk(region: Region, b: Batch) {
    b.error.None? && AllOk(region.codec, b.jobs)
  }

  ghost function RoundCells(region: Region, b: Batch): Cells {
    PutBack(b.cells, AllFinished(region.codec, b.jobs))
  }

  /** A round of distinct tiles decodes exactly like the same blocks one by one. */
  lemma {:induction false} RoundIsOneByOne(region: Region, gridFlag: bool, cells: Cells, round: seq<Block>)
    requires DistinctKeys(round)
    ensures Agree(region, TakeOut(region, gridFlag, cells, round), OneByOne(TileStep(region, gridFlag), cells, round))
  {
    if round == [] {
    } else {
      var n := |round| - 1;
      RoundIsOneByOne(region, gridFlag, cells, round[..n]);
      assert !Addressed(round[..n], round[n].key);
      TakeOutUntouched(region, gridFlag, cells, round[..n], round[n].key);
      OneByOneUntouched(TileStep(region, gridFlag), cells, round[..n], round[n].key);
      RoundStep(region, gridFlag,
        TakeOut(region, gridFlag, cells, round[..n]),
        OneByOne(TileStep(region, gridFlag), cells, round[..n]), round[n]);
    }
  }

  /** A job on a tile no other job holds acts on that tile alone. */
  lemma OneMoreJob(codec: TileCodec, cells: Cells, jobs: seq<Job>, job: Job)
    requires AllOk(codec, jobs) && Without(jobs, job.key)
    ensures var ran := RunJob(codec, job);
      && (AllOk(codec, jobs + [job]) <==> ran.result.Ok?)
      && PutBack(cells[job.key := Cell(None, None)], AllFinished(codec, jobs + [job]))
         == PutBack(cells, AllFinished(codec, jobs))[job.key := Cell(Some(ran.state), ran.reference)]
      && (ran.result.Ok? ==> Pixels(codec, jobs + [job]) == Pixels(codec, jobs)[job.key := ran.result.value])
  {
    var finished := AllFinished(codec, jobs);
    assert (jobs + [job])[..|jobs|] == jobs;
    assert AllFinished(codec, jobs + [job]) == finished + [Finished(codec, job)];
    assert (finished + [Finished(codec, job)])[..|finished|] == finished;
    PutBackElsewhere(cells, finished, job.key, Cell(None, None));
    assert (jobs + [job])[|jobs|] == job;
  }

  /** The same state of affairs in both ways of decoding. */
  ghost predicate Agree(region: Region, b: Batch, d: Decoded) {
    && (RoundOk(region, b) <==> d.error.None?)
    && (RoundOk(region, b) ==> d.cells == RoundCells(region, b) && d.pixels == Pixels(region.codec, b.jobs))
  }

  /** A round that has failed stays failed. */
  lemma FailedStep(region: Region, gridFlag: bool, b: Batch, block: Block)
    requires !RoundOk(region, b)
    ensures !RoundOk(region, TakeOne(region, gridFlag, b, block))
  {
    if b.error.None? {
      var b' := TakeOne(region, gridFlag, b, block);
      var i :| 0 <= i < |b.jobs| && RunJob(region.codec, b.jobs[i]).result.Err?;
      TakeOneKeepsJobs(region, gridFlag, b, block);
      assert b'.jobs[i] == b.jobs[i];
    }
  }

  lemma TakeOneKeepsJobs(region: Region, gridFlag: bool, b: Batch, block: Block)
    ensures b.jobs <= TakeOne(region, gridFlag, b, block).jobs
  {
  }

  lemma ReadyStep(region: Region, b: Batch, d: Decoded, job: Job, d': Decoded)
    requires RoundOk(region, b) && Agree(region, b, d) && Without(b.jobs, job.key)
    requires var ran := RunJob(region.codec, job);
      && d'.cells == d.cells[job.key := Cell(Some(ran.state), ran.reference)]
      && (ran.result.Ok? <==> d'.error.None?)
      && (ran.result.Ok? ==> d'.pixels == d.pixels[job.key := ran.result.value])
    ensures Agree(region, Batch(b.cells[job.key := Cell(None, None)], b.jobs + [job], None), d')
  {
    OneMoreJob(region.codec, b.cells, b.jobs, job);
  }

  lemma SkippedStep(region: Region, b: Batch, d: Decoded, key: Key, cell: Cell)
    requires RoundOk(region, b) && Agree(region, b, d) && Without(b.jobs, key)
    ensures Agree(region, b.(cells := b.cells[key := cell]), d.(cells := d.cells[key := cell]))
  {
    PutBackElsewhere(b.cells, AllFinished(region.codec, b.jobs), key, cell);
  }

  lemma RoundStep(region: Region, gridFlag: bool, b: Batch, d: Decoded, block: Block)
    requires Agree(region, b, d) && Without(b.jobs, block.key)
    requires b.cells.Keys == d.cells.Keys
    requires block.key in b.cells ==> b.cells[block.key] == d.cells[block.key]
    ensures Agree(region, TakeOne(region, gridFlag, b, block), Extend(TileStep(region, gridFlag), d, block))
  {
    if !RoundOk(region, b) {
      FailedStep(region, gridFlag, b, block);
    } else if block.key in b.cells {
      var cell := b.cells[block.key];
      var p := Prepare(region, gridFlag, cell, block);
      if p.Ready? {
        ReadyStep(region, b, d, Job(block.key, p.state, cell.reference, p.pass),
                  Extend(TileStep(region, gridFlag), d, block));
      } else if p.Skipped? {
        SkippedStep(region, b, d, block.key, cell.(slot := Some(p.state)));
      }
    }
  }

  // ----- nothing is lost, whatever fails ----------------------------------------------------

  ghost predicate HasJob(jobs: seq<Job>, key: Key) {
    exists i :: 0 <= i < |jobs| && jobs[i].key == key
  }

  ghost predicate HasReference(jobs: seq<Job>, key: Key) {
    exists i :: 0 <= i < |jobs| && jobs[i].key == key && jobs[i].reference.Some?
  }

  /** Every state and reference of `before` is in `now` or with one of the jobs. */
  ghost predicate Accounted(before: Cells, now: Cells, jobs: seq<Job>) {
    forall key <- before ::
      && key in now
      && (before[key].slot.Some? ==> now[key].slot.Some? || HasJob(jobs, key))
      && (before[key].reference.Some? ==> now[key].reference.Some? || HasReference(jobs, key))
  }

  ghost predicate KeepsAll(before: Cells, after: Cells) {
    forall key <- before :: key in after && Keeps(before[key], after[key])
  }

  /** A difference pass always travels with the reference it adds. */
  ghost predicate Sound(jobs: seq<Job>) {
    forall i :: 0 <= i < |jobs| && jobs[i].pass.FirstPass? && jobs[i].pass.difference ==> jobs[i].reference.Some?
  }

  lemma {:induction false} TakeOutAccounts(region: Region, gridFlag: bool, cells: Cells, round: seq<Block>)
    ensures var b := TakeOut(region, gridFlag, cells, round);
      && Accounted(cells, b.cells, b.jobs) && Sound(b.jobs)
      && b.error != Some(LostReference)
  {
    if round == [] {
    } else {
      var n := |round| - 1;
      TakeOutAccounts(region, gridFlag, cells, round[..n]);
      TakeOneAccounts(region, gridFlag, cells, TakeOut(region, gridFlag, cells, round[..n]), round[n]);
    }
  }

  lemma TakeOneAccounts(region: Region, gridFlag: bool, cells: Cells, b: Batch, block: Block)
    requires Accounted(cells, b.cells, b.jobs) && Sound(b.jobs)
    requires b.error != Some(LostReference)
    ensures var b' := TakeOne(region, gridFlag, b, block);
      && Accounted(cells, b'.cells, b'.jobs) && Sound(b'.jobs)
      && b'.error != Some(LostReference)
  {
    var b' := TakeOne(region, gridFlag, b, block);
    if b.error.None? && block.key in b.cells {
      forall key <- cells
        ensures b'.cells[key].slot.Some? || HasJob(b'.jobs, key) || cells[key].slot.None?
        ensures b'.cells[key].reference.Some? || HasReference(b'.jobs, key) || cells[key].reference.None?
      {
        if HasJob(b.jobs, key) {
          var i :| 0 <= i < |b.jobs| && b.jobs[i].key == key;
          assert b'.jobs[i].key == key;
        }
        if HasReference(b.jobs, key) {
          var i :| 0 <= i < |b.jobs| && b.jobs[i].key == key && b.jobs[i].reference.Some?;
          assert b'.jobs[i].key == key;
        }
        if key == block.key && |b'.jobs| > |b.jobs| {
          assert b'.jobs[|b.jobs|].key == key;
        }
      }
    }
  }

  lemma {:induction false} PutBackRestores(before: Cells, now: Cells, jobs: seq<Job>, key: Key)
    requires key in now
    ensures var after := PutBack(now, jobs);
      && key in after
      && (now[key].slot.Some? || HasJob(jobs, key) ==> after[key].slot.Some?)
      && (now[key].reference.Some? || HasReference(jobs, key) ==> after[key].reference.Some?)
  {
    if jobs == [] {
    } else {
      var n := |jobs| - 1;
      PutBackRestores(before, now, jobs[..n], key);
      if HasJob(jobs, key) {
        var i :| 0 <= i < |jobs| && jobs[i].key == key;
        assert i < n ==> jobs[..n][i].key == key;
      }
      if HasReference(jobs, key) {
        var i :| 0 <= i < |jobs| && jobs[i].key == key && jobs[i].reference.Some?;
        assert i < n ==> jobs[..n][i].key == key && jobs[..n][i].reference.Some?;
      }
    }
  }

  /** Running jobs neither drops a reference nor loses one. */
  lemma FinishedKeeps(codec: TileCodec, cells: Cells, now: Cells, jobs: seq<Job>)
    requires Accounted(cells, now, jobs) && Sound(jobs)
    ensures Accounted(cells, now, AllFinished(codec, jobs))
    ensures forall i :: 0 <= i < |jobs| ==> RunJob(codec, jobs[i]).result != Err(LostReference)
  {
    var after := AllFinished(codec, jobs);
    forall key
      ensures HasJob(jobs, key) ==> HasJob(after, key)
      ensures HasReference(jobs, key) ==> HasReference(after, key)
    {
      if HasJob(jobs, key) {
        var i :| 0 <= i < |jobs| && jobs[i].key == key;
        assert after[i].key == key;
      }
      if HasReference(jobs, key) {
        var i :| 0 <= i < |jobs| && jobs[i].key == key && jobs[i].reference.Some?;
        assert after[i].key == key && after[i].reference.Some?;
      }
    }
  }

  lemma PutBackKeepsAll(before: Cells, now: Cells, jobs: seq<Job>)
    requires Accounted(before, now, jobs)
    ensures KeepsAll(before, PutBack(now, jobs))
  {
    forall key <- before
      ensures key in PutBack(now, jobs) && Keeps(before[key], PutBack(now, jobs)[key])
    {
      PutBackRestores(before, now, jobs, key);
    }
  }

  lemma KeepsAllTransitive(a: Cells, b: Cells, c: Cells)
    requires KeepsAll(a, b) && KeepsAll(b, c)
    ensures KeepsAll(a, c)
  {
    forall key <- a
      ensures key in c && Keeps(a[key], c[key])
    {
      assert Keeps(a[key], b[key]) && Keeps(b[key], c[key]);
    }
  }

  /** Every tile drawn by a REGION shows its stored state and left its coefficients as reference. */
  lemma {:induction false} DrawnTilesSettle(region: Region, gridFlag: bool, cells: Cells, blocks: seq<Block>)
    requires OneByOne(TileStep(region, gridFlag), cells, blocks).error.None?
    ensures var d := OneByOne(TileStep(region, gridFlag), cells, blocks);
      forall key <- d.pixels :: key in d.cells && Settled(region.codec, d.cells[key], d.pixels[key])
  {
    if blocks == [] {
    } else {
      var n := |blocks| - 1;
      DrawnTilesSettle(region, gridFlag, cells, blocks[..n]);
      var before := OneByOne(TileStep(region, gridFlag), cells, blocks[..n]);
      StepFacts(region, gridFlag, before.cells[blocks[n].key], blocks[n]);
      SkipChangesNothing(region, gridFlag, before.cells[blocks[n].key], blocks[n]);
    }
  }

  lemma SkipChangesNothing(region: Region, gridFlag: bool, cell: Cell, block: Block)
    ensures var s := Step(region, gridFlag, cell, block);
      cell.slot.Some? && s.outcome.Passed? ==> s.cell == cell
  {
  }

  /** Earlier jobs do not matter to the next block. */
  lemma TakeOneAppends(region: Region, gridFlag: bool, b: Batch, block: Block)
    requires b.error.None?
    ensures var first := TakeOne(region, gridFlag, Batch(b.cells, [], None), block);
      TakeOne(region, gridFlag, b, block) == first.(jobs := b.jobs + first.jobs)
  {
  }

  /** A refused block ends the round. */
  lemma {:induction false} TakeOutStops(region: Region, gridFlag: bool, cells: Cells, round: seq<Block>, n: nat)
    requires n <= |round| && TakeOut(region, gridFlag, cells, round[..n]).error.Some?
    ensures TakeOut(region, gridFlag, cells, round) == TakeOut(region, gridFlag, cells, round[..n])
    decreases |round|
  {
    if n == |round| {
      assert round[..n] == round;
    } else {
      assert round[..|round| - 1][..n] == round[..n];
      TakeOutStops(region, gridFlag, cells, round[..|round| - 1], n);
    }
  }
}
