/**
 The windows told from the sections that ran: which windows are known, which profile each shows, and
 which of them own a live session.
 */
module SessionHistory {
  import opened Prelude
  import opened SessionSpec
  import opened SessionRuns
  import opened SessionViews

  predicate Inserts(c: Section, w: Window) {
    c.OpenInsert? && c.opening.window == w
  }

  predicate Forgets(c: Section, w: Window) {
    c == CloseTake(w) || c.ShutdownTake?
  }

  /** Section `k` is the last that opened the window, and nothing forgot it since. */
  ghost predicate OpenedAt(run: seq<Section>, w: Window, k: nat) {
    && k < |run| && Inserts(run[k], w)
    && forall later: nat | k < later < |run| :: !Inserts(run[later], w) && !Forgets(run[later], w)
  }

  ghost predicate Known(run: seq<Section>, w: Window) {
    exists k: nat :: OpenedAt(run, w, k)
  }

  /** How many sessions were started: each gets the next generation. */
  function Started(run: seq<Section>): nat {
    if run == [] then 0 else Started(run[..|run| - 1]) + if run[|run| - 1].OpenInsert? then 1 else 0
  }

  /** Nothing since section `k` took the session of generation `g` away from the window. */
  ghost predicate Untaken(run: seq<Section>, w: Window, k: nat, g: nat) {
    forall later: nat | k < later < |run| :: run[later] != OpenTake(w) && run[later] != PumpStreamEnd(g)
  }

  /** Whether a section takes the live session away from a window that stays. */
  predicate Retires(c: Section, w: Window, live: Option<nat>) {
    c == OpenTake(w) || (live.Some? && c == PumpStreamEnd(live.value))
  }

  /** What one section does to a window. */
  ghost predicate Changes(before: State, c: Section, after: State, w: Window) {
    if Inserts(c, w) then
      w in after.windows && after.windows[w].profile == c.profile && after.windows[w].live == Some(before.nextGeneration + 1)
    else if w in before.windows && !Forgets(c, w) then
      && w in after.windows && after.windows[w].profile == before.windows[w].profile
      && after.windows[w].live == if Retires(c, w, before.windows[w].live) then None else before.windows[w].live
    else
      w !in after.windows
  }

  lemma StreamEndChanges(folds: Folds, y: System, g: nat, w: Window)
    requires PumpsMatch(y) && g in y.pumps
    ensures Changes(y.s, PumpStreamEnd(g), Next(folds, y, PumpStreamEnd(g)).s, w)
  {
  }

  lemma OpenChanges(folds: Folds, y: System, o: Opening, profile: Profile, w: Window)
    ensures Changes(y.s, OpenTake(w), TakeLive(y.s, w), w)
    ensures Changes(y.s, OpenInsert(o, profile), InsertSlot(folds, y.s, o.window, profile), w)
  {
  }

  lemma WindowAfter(folds: Folds, y: System, c: Section, w: Window)
    requires PumpsMatch(y) && Enabled(y, c)
    ensures var after := Next(folds, y, c).s;
      Changes(y.s, c, after, w) && after.nextGeneration == y.s.nextGeneration + if c.OpenInsert? then 1 else 0
  {
    match c {
      case PumpStreamEnd(g) => StreamEndChanges(folds, y, g, w);
      case OpenInsert(o, profile) => OpenChanges(folds, y, o, profile, w);
      case _ =>
    }
  }

  lemma OpenedNext(init: seq<Section>, last: Section, w: Window, k: nat)
    ensures OpenedAt(init + [last], w, k)
        <==> (OpenedAt(init, w, k) && !Inserts(last, w) && !Forgets(last, w)) || (k == |init| && Inserts(last, w))
    ensures k < |init| ==> (init + [last])[..k + 1] == init[..k + 1]
    ensures forall g :: k < |init| ==>
      (Untaken(init + [last], w, k, g) <==> Untaken(init, w, k, g) && last != OpenTake(w) && last != PumpStreamEnd(g))
  {
    var run := init + [last];
    assert run[|init|] == last;
    forall j: nat | j < |init| ensures run[j] == init[j] {}
    forall g | k < |init| && Untaken(run, w, k, g) ensures Untaken(init, w, k, g) {
      forall later: nat | k < later < |init| ensures init[later] != OpenTake(w) && init[later] != PumpStreamEnd(g) {
        assert run[later] == init[later];
      }
    }
    if k < |init| && OpenedAt(run, w, k) {
      forall later: nat | k < later < |init| ensures !Inserts(init[later], w) && !Forgets(init[later], w) {
        assert run[later] == init[later];
      }
    }
  }

  /** What the window's slot holds when section `k` opened it last. */
  ghost predicate SlotOf(run: seq<Section>, w: Window, k: nat, slot: Slot)
    requires OpenedAt(run, w, k)
  {
    var g := Started(run[..k + 1]);
    slot.profile == run[k].profile && slot.live == if Untaken(run, w, k, g) then Some(g) else None
  }

  lemma SlotNext(init: seq<Section>, last: Section, w: Window, k: nat, before: State, after: State)
    requires OpenedAt(init + [last], w, k) && before.nextGeneration == Started(init)
    requires Changes(before, last, after, w)
    requires k < |init| ==> OpenedAt(init, w, k) && w in before.windows && SlotOf(init, w, k, before.windows[w])
    ensures w in after.windows && SlotOf(init + [last], w, k, after.windows[w])
  {
    var run := init + [last];
    OpenedNext(init, last, w, k);
    if k == |init| {
      assert run[..k + 1] == run && run[..|run| - 1] == init;
      assert Started(run) == Started(init) + 1;
    } else {
      assert run[k] == init[k];
    }
  }

  lemma KnownNext(init: seq<Section>, last: Section, w: Window)
    ensures Known(init + [last], w) <==> Inserts(last, w) || (Known(init, w) && !Forgets(last, w))
  {
    OpenedNext(init, last, w, |init|);
    if k: nat :| OpenedAt(init, w, k) && !Inserts(last, w) && !Forgets(last, w) {
      OpenedNext(init, last, w, k);
      assert OpenedAt(init + [last], w, k);
    }
    if k: nat :| OpenedAt(init + [last], w, k) {
      OpenedNext(init, last, w, k);
    }
  }

  /**
   Over every interleaving a window is known exactly when an open inserted it and no close or shutdown
   forgot it since. It shows the profile it was opened with last, and its live session is the one
   started then, until another open takes it or its event stream ends.
   */
  lemma {:induction false} WindowsAreHistory(folds: Folds, run: seq<Section>, w: Window)
    requires Possible(folds, IDLE, run)
    ensures var s := After(folds, IDLE, run).s;
      && (w in s.windows <==> Known(run, w))
      && s.nextGeneration == Started(run)
      && forall k: nat | OpenedAt(run, w, k) :: w in s.windows && SlotOf(run, w, k, s.windows[w])
  {
    if run == [] {
    } else {
      var init, last := run[..|run| - 1], run[|run| - 1];
      assert run == init + [last];
      WindowsAreHistory(folds, init, w);
      EveryRunKeeps(folds, init);
      var y := After(folds, IDLE, init);
      WindowAfter(folds, y, last, w);
      KnownNext(init, last, w);
      var after := After(folds, IDLE, run).s;
      forall k: nat | OpenedAt(run, w, k) ensures w in after.windows && SlotOf(run, w, k, after.windows[w]) {
        OpenedNext(init, last, w, k);
        SlotNext(init, last, w, k, y.s, after);
      }
    }
  }
}
