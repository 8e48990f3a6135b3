/**
 What a window shows over runs of the manager: the view follows exactly the events of the
 generation that owns the window and the user's own actions, a replaced or closed session is
 silenced for good, and the opening order survives reconnects.
 */
module SessionViews {
  import opened Prelude
  import opened SessionSpec
  import opened SessionRuns

  // ----- runs from any state ----------------------------------------------------------------

  lemma NextKeeps(folds: Folds, y: System, c: Section)
    requires Inv(y) && Enabled(y, c)
    ensures Inv(Next(folds, y, c))
  {
    NextConserves(folds, y, c);
    NextPumps(folds, y, c);
    NextOrdered(folds, y, c);
  }

  lemma {:induction false} RunKeeps(folds: Folds, y: System, run: seq<Section>)
    requires Inv(y) && Possible(folds, y, run)
    ensures Inv(After(folds, y, run))
  {
    if run == [] {
    } else {
      RunKeeps(folds, y, run[..|run| - 1]);
      NextKeeps(folds, After(folds, y, run[..|run| - 1]), run[|run| - 1]);
    }
  }

  // ----- the view ---------------------------------------------------------------------------

  /** The view after `c`, for a window owned by generation `g`. */
  ghost function Shows(folds: Folds, view: View, w: Window, g: nat, c: Section): View {
    match c
    case PumpEvent(from, e) => if from == g then folds.apply(view, e) else view
    case UserActs(on, a) => if on == w then folds.act(view, a) else view
    case _ => view
  }

  /** The fold of the events of `g` and the user's actions on `w`, in order. */
  ghost function Story(folds: Folds, view: View, w: Window, g: nat, run: seq<Section>): View {
    if run == [] then view
    else Shows(folds, Story(folds, view, w, g, run[..|run| - 1]), w, g, run[|run| - 1])
  }

  /** Sections that take the window away from its generation. */
  ghost predicate Takes(c: Section, w: Window, g: nat) {
    match c
    case OpenTake(v) => v == w
    case OpenInsert(o, _) => o.window == w
    case CloseTake(v) => v == w
    case ShutdownTake => true
    case PumpStreamEnd(from) => from == g
    case _ => false
  }

  ghost predicate Owns(y: System, w: Window, g: nat) {
    w in y.s.windows && y.s.windows[w].live == Some(g)
  }

  /** Sections of other windows leave the slot as it is. */
  lemma SlotStays(folds: Folds, y: System, c: Section, w: Window)
    requires w in y.s.windows && c != OpenTake(w) && c != CloseTake(w) && c != ShutdownTake
    requires !(c.OpenInsert? && c.opening.window == w) && !c.PumpEvent? && !c.PumpStreamEnd?
    requires !(c.UserActs? && c.on == w)
    ensures w in Next(folds, y, c).s.windows && Next(folds, y, c).s.windows[w] == y.s.windows[w]
  {
  }

  /** An event reaches the window exactly when it comes from the window's own generation. */
  lemma EventSlot(folds: Folds, y: System, g: nat, e: SessionEvent, w: Window)
    requires PumpsMatch(y) && g in y.pumps && w in y.s.windows
    ensures var s' := Next(folds, y, PumpEvent(g, e)).s;
      w in s'.windows && s'.windows[w] == if y.s.windows[w].live == Some(g)
        then y.s.windows[w].(view := folds.apply(y.s.windows[w].view, e)) else y.s.windows[w]
  {
  }

  lemma StreamEndSlot(folds: Folds, y: System, g: nat, w: Window)
    requires PumpsMatch(y) && g in y.pumps && w in y.s.windows
    ensures var s' := Next(folds, y, PumpStreamEnd(g)).s;
      w in s'.windows && s'.windows[w] == if y.s.windows[w].live == Some(g)
        then y.s.windows[w].(live := None) else y.s.windows[w]
  {
  }

  lemma OwnerStays(folds: Folds, y: System, c: Section, w: Window, g: nat)
    requires Inv(y) && Enabled(y, c) && Owns(y, w, g) && !Takes(c, w, g)
    ensures var y' := Next(folds, y, c);
      Owns(y', w, g) && y'.s.windows[w].view == Shows(folds, y.s.windows[w].view, w, g, c)
  {
    if c.PumpEvent? {
      EventSlot(folds, y, c.pump, c.e, w);
    } else if c.PumpStreamEnd? {
      StreamEndSlot(folds, y, c.ending, w);
    } else if c.UserActs? && c.on == w {
    } else {
      SlotStays(folds, y, c, w);
    }
  }

  /**
   As long as a generation owns its window, the view is the fold of that generation's events and
   the user's actions: nothing any other session does shows up, and nothing is skipped or reordered.
   */
  lemma {:induction false} ViewFollowsItsSession(folds: Folds, y: System, run: seq<Section>, w: Window, g: nat)
    requires Inv(y) && Possible(folds, y, run) && Owns(y, w, g)
    requires forall c <- run :: !Takes(c, w, g)
    ensures var y' := After(folds, y, run);
      Owns(y', w, g) && y'.s.windows[w].view == Story(folds, y.s.windows[w].view, w, g, run)
  {
    if run == [] {
    } else {
      var init, c := run[..|run| - 1], run[|run| - 1];
      ViewFollowsItsSession(folds, y, init, w, g);
      RunKeeps(folds, y, init);
      assert c in run;
      OwnerStays(folds, After(folds, y, init), c, w, g);
    }
  }

  /** From the moment an open inserts a session, its window shows that session from its first view on. */
  lemma OpenedViewFollows(folds: Folds, y: System, o: Opening, profile: Profile, run: seq<Section>)
    requires Inv(y) && Enabled(y, OpenInsert(o, profile))
    requires Possible(folds, Next(folds, y, OpenInsert(o, profile)), run)
    requires forall c <- run :: !Takes(c, o.window, y.s.nextGeneration + 1)
    ensures var y', g := After(folds, Next(folds, y, OpenInsert(o, profile)), run), y.s.nextGeneration + 1;
      && Owns(y', o.window, g)
      && y'.s.windows[o.window].view == Story(folds, folds.initial(profile), o.window, g, run)
  {
    NextKeeps(folds, y, OpenInsert(o, profile));
    ViewFollowsItsSession(folds, Next(folds, y, OpenInsert(o, profile)), run, o.window, y.s.nextGeneration + 1);
  }

  /** One section changes a stored view only as an event of the owner, a user action or an insertion. */
  lemma ViewChanges(folds: Folds, y: System, c: Section, w: Window)
    requires Inv(y) && Enabled(y, c) && w in y.s.windows && w in Next(folds, y, c).s.windows
    requires Next(folds, y, c).s.windows[w].view != y.s.windows[w].view
    ensures (c.PumpEvent? && Owns(y, w, c.pump)) || (c.UserActs? && c.on == w)
         || (c.OpenInsert? && c.opening.window == w)
  {
    if c.PumpEvent? {
      EventSlot(folds, y, c.pump, c.e, w);
    } else if c.PumpStreamEnd? {
      StreamEndSlot(folds, y, c.ending, w);
    } else if c != OpenTake(w) && !(c.UserActs? && c.on == w) && !(c.OpenInsert? && c.opening.window == w) {
      SlotStays(folds, y, c, w);
    }
  }

  // ----- silenced sessions ------------------------------------------------------------------

  ghost predicate Silent(y: System, g: nat) {
    g <= y.s.nextGeneration && forall w <- y.s.windows :: y.s.windows[w].live != Some(g)
  }

  lemma SilentStays(folds: Folds, y: System, c: Section, g: nat)
    requires Silent(y, g)
    ensures Silent(Next(folds, y, c), g)
  {
    var y' := Next(folds, y, c);
    forall w <- y'.s.windows ensures y'.s.windows[w].live != Some(g) {
      assert LiveIn(y.s, w) != Some(g);
      if !c.OpenInsert? {
        LiveInherited(folds, y, c, w);
      }
    }
    GenerationsGrow(folds, y, c);
  }

  lemma GenerationsGrow(folds: Folds, y: System, c: Section)
    ensures y.s.nextGeneration <= Next(folds, y, c).s.nextGeneration
  {
  }

  lemma LateEventIsIgnored(folds: Folds, y: System, c: Section, g: nat)
    requires Silent(y, g)
    ensures c.PumpEvent? && c.pump == g ==> Next(folds, y, c) == y
    ensures c.PumpStreamEnd? && c.ending == g ==> Next(folds, y, c).s == y.s && Next(folds, y, c).owed == y.owed
  {
  }

  /** The run without the events of `g`. */
  ghost function Without(run: seq<Section>, g: nat): seq<Section> {
    if run == [] then []
    else
      var c := run[|run| - 1];
      Without(run[..|run| - 1], g) + if c.PumpEvent? && c.pump == g then [] else [c]
  }

  /** A closed or replaced session can send as many late events as it likes: the state never shows them. */
  lemma {:induction false} LateEventsAreDropped(folds: Folds, y: System, run: seq<Section>, g: nat)
    requires Silent(y, g)
    ensures Silent(After(folds, y, run), g)
    ensures After(folds, y, run) == After(folds, y, Without(run, g))
  {
    if run == [] {
    } else {
      var init, c := run[..|run| - 1], run[|run| - 1];
      LateEventsAreDropped(folds, y, init, g);
      SilentStays(folds, After(folds, y, init), c, g);
      LateEventIsIgnored(folds, After(folds, y, init), c, g);
      if c.PumpEvent? && c.pump == g {
        assert Without(run, g) == Without(init, g);
      } else {
        RunGrows(folds, y, Without(init, g), c);
      }
    }
  }

  // ----- opening order ----------------------------------------------------------------------

  lemma PumpsKeepOrder(folds: Folds, y: System, c: Section, w: Window)
    requires w in y.s.windows && (c.PumpEvent? || c.PumpStreamEnd?)
    ensures var y' := Next(folds, y, c);
      w in y'.s.windows && y'.s.windows[w].order == y.s.windows[w].order
  {
  }

  lemma OwnSectionsKeepOrder(folds: Folds, y: System, c: Section, w: Window)
    requires w in y.s.windows
    requires c == OpenTake(w) || (c.UserActs? && c.on == w) || (c.OpenInsert? && c.opening.window == w)
    ensures var y' := Next(folds, y, c);
      w in y'.s.windows && y'.s.windows[w].order == y.s.windows[w].order
  {
  }

  lemma OrderStays(folds: Folds, y: System, c: Section, w: Window)
    requires w in y.s.windows && c != CloseTake(w) && c != ShutdownTake
    ensures var y' := Next(folds, y, c);
      w in y'.s.windows && y'.s.windows[w].order == y.s.windows[w].order
  {
    if c.PumpEvent? || c.PumpStreamEnd? {
      PumpsKeepOrder(folds, y, c, w);
    } else if c == OpenTake(w) || (c.UserActs? && c.on == w) || (c.OpenInsert? && c.opening.window == w) {
      OwnSectionsKeepOrder(folds, y, c, w);
    } else {
      SlotStays(folds, y, c, w);
    }
  }

  /** A window keeps its place in the opening order through any number of reconnects. */
  lemma {:induction false} OrderSurvivesReconnects(folds: Folds, y: System, run: seq<Section>, w: Window)
    requires w in y.s.windows && CloseTake(w) !in run && ShutdownTake !in run
    ensures var y' := After(folds, y, run);
      w in y'.s.windows && y'.s.windows[w].order == y.s.windows[w].order
  {
    if run == [] {
    } else {
      var init, c := run[..|run| - 1], run[|run| - 1];
      assert c in run;
      OrderSurvivesReconnects(folds, y, init, w);
      OrderStays(folds, After(folds, y, init), c, w);
    }
  }

  /** A new window comes after every window there is. */
  lemma NewWindowsComeLast(folds: Folds, y: System, o: Opening, profile: Profile, v: Window)
    requires Inv(y) && o.window !in y.s.windows && v in y.s.windows
    ensures var y' := Next(folds, y, OpenInsert(o, profile));
      y'.s.windows[v].order < y'.s.windows[o.window].order
  {
  }

  // ----- overlapping opens ------------------------------------------------------------------

  function SlotOf(folds: Folds, profile: Profile, g: nat): Slot {
    Slot(profile, folds.initial(profile), Some(g), 1)
  }

  lemma FirstInsert(folds: Folds, y: System, w: Window, profile: Profile)
    requires y == IDLE.(opens := multiset{Opening(w, None), Opening(w, None)})
    ensures Enabled(y, OpenInsert(Opening(w, None), profile))
    ensures Next(folds, y, OpenInsert(Opening(w, None), profile))
         == System(State(map[w := SlotOf(folds, profile, 1)], 1, 1), multiset{Opening(w, None)},
                   multiset{}, [], map[1 := w], {})
  {
  }

  lemma SecondInsert(folds: Folds, y: System, w: Window, profile: Profile)
    requires y == System(State(map[w := SlotOf(folds, profile, 1)], 1, 1), multiset{Opening(w, None)},
                         multiset{}, [], map[1 := w], {})
    ensures Enabled(y, OpenInsert(Opening(w, None), profile))
    ensures Next(folds, y, OpenInsert(Opening(w, None), profile))
         == System(State(map[w := SlotOf(folds, profile, 2)], 2, 1), multiset{},
                   multiset{}, [], map[1 := w, 2 := w], {1})
  {
  }

  lemma CloseAndEnd(folds: Folds, y: System, w: Window, profile: Profile)
    requires y == System(State(map[w := SlotOf(folds, profile, 2)], 2, 1), multiset{},
                         multiset{}, [], map[1 := w, 2 := w], {1})
    ensures Enabled(y, CloseTake(w)) && Enabled(Next(folds, y, CloseTake(w)), EndCall(2))
    ensures Next(folds, Next(folds, y, CloseTake(w)), EndCall(2))
         == System(State(map[], 2, 1), multiset{}, multiset{}, [2], map[1 := w, 2 := w], {1})
  {
    assert Next(folds, y, CloseTake(w)).owed == multiset{2};
  }

  /**
   Two opens of one window whose sections interleave: the second insertion overwrites a live
   session, which is then never ended, although the window was closed and no call is owed.
   */
  lemma OverlappingOpensLoseASession(folds: Folds, w: Window, profile: Profile) returns (run: seq<Section>)
    ensures Possible(folds, IDLE, run) && !SerialOpens(folds, run)
    ensures var y := After(folds, IDLE, run);
      Settled(y) && y.s.nextGeneration == 2 && y.ended == [2] && y.lost == {1}
  {
    var o := Opening(w, None);
    var r0 := [OpenTake(w)];
    var r1 := r0 + [OpenTake(w)];
    var r2 := r1 + [OpenInsert(o, profile)];
    var r3 := r2 + [OpenInsert(o, profile)];
    var r4 := r3 + [CloseTake(w)];
    run := r4 + [EndCall(2)];
    assert r0 == [] + [OpenTake(w)];
    RunGrows(folds, IDLE, [], OpenTake(w));
    RunGrows(folds, IDLE, r0, OpenTake(w));
    RunGrows(folds, IDLE, r1, OpenInsert(o, profile));
    FirstInsert(folds, After(folds, IDLE, r1), w, profile);
    RunGrows(folds, IDLE, r2, OpenInsert(o, profile));
    SecondInsert(folds, After(folds, IDLE, r2), w, profile);
    RunGrows(folds, IDLE, r3, CloseTake(w));
    RunGrows(folds, IDLE, r4, EndCall(2));
    CloseAndEnd(folds, After(folds, IDLE, r3), w, profile);
    Overlap(folds, w, r0, run);
  }

  lemma {:induction false} Overlap(folds: Folds, w: Window, r0: seq<Section>, run: seq<Section>)
    requires r0 == [OpenTake(w)] && r0 + [OpenTake(w)] <= run
    ensures !SerialOpens(folds, run)
  {
    if run == r0 + [OpenTake(w)] {
      assert run[..|run| - 1] == r0;
      RunGrows(folds, IDLE, [], OpenTake(w));
      assert [] + r0 == r0;
      assert Opening(w, None) in After(folds, IDLE, r0).opens;
    } else {
      Overlap(folds, w, r0, run[..|run| - 1]);
    }
  }
}
