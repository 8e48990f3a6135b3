/** What holds over every interleaving of the manager's sections. */
module SessionRuns {
  import opened Prelude
  import opened SessionSpec

  // ----- runs from any state ----------------------------------------------------------------

  lemma RunGrows(folds: Folds, y: System, run: seq<Section>, c: Section)
    ensures After(folds, y, run + [c]) == Next(folds, After(folds, y, run), c)
    ensures Possible(folds, y, run + [c]) <==> Possible(folds, y, run) && Enabled(After(folds, y, run), c)
  {
    assert (run + [c])[..|run|] == run;
  }

  // ----- every generation is accounted for once ---------------------------------------------

  ghost function WindowsOf(s: State, g: nat): set<Window> {
    set w | w in s.windows && s.windows[w].live == Some(g)
  }

  /** In how many places a generation is: live, owed a call, ended, or lost. */
  ghost function Places(y: System, g: nat): nat {
    |WindowsOf(y.s, g)| + y.owed[g] + multiset(y.ended)[g] + if g in y.lost then 1 else 0
  }

  ghost predicate Conserved(y: System) {
    forall g: nat :: Places(y, g) == if 1 <= g <= y.s.nextGeneration then 1 else 0
  }

  /** A running pump serves the window its generation is live in. */
  ghost predicate PumpsMatch(y: System) {
    && (forall w, g :: w in y.s.windows && y.s.windows[w].live == Some(g) && g in y.pumps ==> y.pumps[g] == w)
    && (forall g <- y.pumps :: g <= y.s.nextGeneration)
  }

  /** Opening orders are unique. */
  ghost predicate Ordered(y: System) {
    && (forall w <- y.s.windows :: 1 <= y.s.windows[w].order <= y.s.nextOrder)
    && (forall v, w :: v in y.s.windows && w in y.s.windows && v != w ==> y.s.windows[v].order != y.s.windows[w].order)
  }

  ghost predicate Inv(y: System) {
    Conserved(y) && PumpsMatch(y) && Ordered(y)
  }

  lemma LiveChange(s: State, w: Window, slot: Slot, g: nat)
    ensures WindowsOf(WithSlot(s, w, slot), g)
         == if slot.live == Some(g) then WindowsOf(s, g) + {w} else WindowsOf(s, g) - {w}
  {
  }

  /** A live generation sits in exactly one window and nowhere else. */
  lemma LiveOnce(y: System, w: Window, g: nat)
    requires Conserved(y) && w in y.s.windows && y.s.windows[w].live == Some(g)
    ensures WindowsOf(y.s, g) == {w} && g !in y.owed && g !in y.ended && g !in y.lost
    ensures 1 <= g <= y.s.nextGeneration
  {
    assert w in WindowsOf(y.s, g);
    assert Places(y, g) <= 1;
    if WindowsOf(y.s, g) != {w} {
      var v :| v in WindowsOf(y.s, g) && v != w;
      assert {v, w} <= WindowsOf(y.s, g);
      SubsetSize({v, w}, WindowsOf(y.s, g));
    }
  }

  lemma TakeWindows(s: State, w: Window, g: nat)
    ensures WindowsOf(TakeLive(s, w), g) == WindowsOf(s, g) - if LiveIn(s, w) == Some(g) then {w} else {}
    ensures WindowsOf(RemoveWindow(s, w), g) == WindowsOf(s, g) - if LiveIn(s, w) == Some(g) then {w} else {}
    ensures LiveIn(s, w) == Some(g) <==> w in WindowsOf(s, g)
  {
  }

  lemma TakeConserves(y: System, s': State, w: Window)
    requires Conserved(y) && (s' == TakeLive(y.s, w) || s' == RemoveWindow(y.s, w))
    ensures Conserved(y.(s := s', owed := y.owed + Debt(LiveIn(y.s, w))))
  {
    var y' := y.(s := s', owed := y.owed + Debt(LiveIn(y.s, w)));
    forall g: nat ensures Places(y', g) == Places(y, g) {
      TakeWindows(y.s, w, g);
    }
  }

  lemma InsertWindows(folds: Folds, s: State, w: Window, profile: Profile, g: nat)
    ensures WindowsOf(InsertSlot(folds, s, w, profile), g)
         == WindowsOf(s, g) - {w} + if g == s.nextGeneration + 1 then {w} else {}
  {
  }

  /** Placing the new generation `fresh'` into `w`, where `overwritten` was live. */
  ghost predicate Inserted(y: System, y': System, w: Window, overwritten: Option<nat>, fresh': nat) {
    && y'.owed == y.owed && y'.ended == y.ended
    && (forall g: nat :: WindowsOf(y'.s, g) == WindowsOf(y.s, g) - {w} + if g == fresh' then {w} else {})
    && (forall g: nat :: g in y'.lost <==> g in y.lost || overwritten == Some(g))
  }

  lemma InsertInserts(folds: Folds, y: System, o: Opening, profile: Profile)
    ensures Inserted(y, Next(folds, y, OpenInsert(o, profile)), o.window, LiveIn(y.s, o.window), y.s.nextGeneration + 1)
  {
    forall g: nat ensures WindowsOf(Next(folds, y, OpenInsert(o, profile)).s, g)
                       == WindowsOf(y.s, g) - {o.window} + if g == y.s.nextGeneration + 1 then {o.window} else {} {
      InsertWindows(folds, y.s, o.window, profile, g);
    }
  }

  /** An overwritten generation goes from its window to the lost ones. */
  lemma OverwrittenPlaces(y: System, y': System, w: Window, g: nat)
    requires Conserved(y) && LiveIn(y.s, w) == Some(g) && Inserted(y, y', w, Some(g), y.s.nextGeneration + 1)
    ensures Places(y', g) == Places(y, g) && g != y.s.nextGeneration + 1
  {
    LiveOnce(y, w, g);
  }

  /** Any other one stays where it is, and the new one goes live. */
  lemma InsertedPlaces(y: System, y': System, w: Window, g: nat)
    requires Conserved(y) && LiveIn(y.s, w) != Some(g) && Inserted(y, y', w, LiveIn(y.s, w), y.s.nextGeneration + 1)
    ensures Places(y', g) == Places(y, g) + if g == y.s.nextGeneration + 1 then 1 else 0
  {
    TakeWindows(y.s, w, g);
    if g == y.s.nextGeneration + 1 {
      assert Places(y, g) == 0;
      assert WindowsOf(y.s, g) == {} && WindowsOf(y'.s, g) == {w};
    } else {
      assert WindowsOf(y'.s, g) == WindowsOf(y.s, g);
    }
  }

  lemma InsertConserves(folds: Folds, y: System, o: Opening, profile: Profile)
    requires Inv(y)
    ensures Conserved(Next(folds, y, OpenInsert(o, profile)))
  {
    var y' := Next(folds, y, OpenInsert(o, profile));
    InsertInserts(folds, y, o, profile);
    forall g: nat ensures Places(y', g) == Places(y, g) + if g == y.s.nextGeneration + 1 then 1 else 0 {
      if LiveIn(y.s, o.window) == Some(g) {
        OverwrittenPlaces(y, y', o.window, g);
      } else {
        InsertedPlaces(y, y', o.window, g);
      }
    }
  }

  lemma ShutdownConserves(y: System)
    requires Conserved(y)
    ensures Conserved(y.(s := DrainWindows(y.s), owed := y.owed + multiset(LiveGenerations(y.s))))
  {
    var y' := y.(s := DrainWindows(y.s), owed := y.owed + multiset(LiveGenerations(y.s)));
    forall g: nat ensures Places(y', g) == Places(y, g) {
      assert WindowsOf(y'.s, g) == {};
      if g in LiveGenerations(y.s) {
        var w :| w in y.s.windows && y.s.windows[w].live == Some(g);
        LiveOnce(y, w, g);
      } else {
        assert forall w <- y.s.windows :: y.s.windows[w].live.Some? ==>
          y.s.windows[w].live.value in LiveGenerations(y.s);
        assert WindowsOf(y.s, g) == {};
      }
    }
  }

  lemma EndCallConserves(y: System, g: nat)
    requires Conserved(y) && g in y.owed
    ensures Conserved(y.(owed := y.owed - multiset{g}, ended := y.ended + [g]))
  {
    var y' := y.(owed := y.owed - multiset{g}, ended := y.ended + [g]);
    forall h: nat ensures Places(y', h) == Places(y, h) {
    }
  }

  /** Editing a slot without touching its generation. */
  lemma EditConserves(y: System, y': System, w: Window, slot: Slot)
    requires Conserved(y) && w in y.s.windows && slot.live == y.s.windows[w].live
    requires y'.s == WithSlot(y.s, w, slot) && y'.owed == y.owed && y'.ended == y.ended && y'.lost == y.lost
    ensures Conserved(y')
  {
    forall g: nat ensures Places(y', g) == Places(y, g) {
      LiveChange(y.s, w, slot, g);
      TakeWindows(y.s, w, g);
      if slot.live == Some(g) {
        assert WindowsOf(y.s, g) + {w} == WindowsOf(y.s, g);
      } else {
        assert WindowsOf(y.s, g) - {w} == WindowsOf(y.s, g);
      }
    }
  }

  lemma SameConserves(y: System, y': System)
    requires Conserved(y) && y'.s == y.s && y'.owed == y.owed && y'.ended == y.ended && y'.lost == y.lost
    ensures Conserved(y')
  {
    forall g: nat ensures Places(y', g) == Places(y, g) {
    }
  }

  lemma NextConserves(folds: Folds, y: System, c: Section)
    requires Inv(y) && Enabled(y, c)
    ensures Conserved(Next(folds, y, c))
  {
    var y' := Next(folds, y, c);
    match c {
      case OpenTake(w) =>
        TakeConserves(y, TakeLive(y.s, w), w);
        SameConserves(y.(s := TakeLive(y.s, w), owed := y.owed + Debt(LiveIn(y.s, w))), y');
      case OpenInsert(o, profile) => InsertConserves(folds, y, o, profile);
      case CloseTake(w) => TakeConserves(y, RemoveWindow(y.s, w), w);
      case ShutdownTake => ShutdownConserves(y);
      case EndCall(g) => EndCallConserves(y, g);
      case PumpEvent(g, e) =>
        var w := y.pumps[g];
        if LiveIn(y.s, w) == Some(g) {
          EditConserves(y, y', w, y'.s.windows[w]);
        }
      case PumpStreamEnd(g) =>
        var w := y.pumps[g];
        if LiveIn(y.s, w) == Some(g) {
          TakeConserves(y, TakeLive(y.s, w), w);
          SameConserves(y.(s := TakeLive(y.s, w), owed := y.owed + Debt(LiveIn(y.s, w))), y');
        } else {
          SameConserves(y, y');
        }
      case UserActs(w, a) =>
        if w in y.s.windows {
          EditConserves(y, y', w, y'.s.windows[w]);
        }
      case _ => SameConserves(y, y');
    }
  }

  /** Dropping windows and editing slots keeps the orders. */
  lemma OrdersInherited(y: System, y': System)
    requires Ordered(y) && y'.s.nextOrder == y.s.nextOrder
    requires forall w <- y'.s.windows :: w in y.s.windows && y'.s.windows[w].order == y.s.windows[w].order
    ensures Ordered(y')
  {
  }

  lemma InsertOrdered(folds: Folds, y: System, y': System, w: Window, profile: Profile)
    requires Ordered(y) && y'.s == InsertSlot(folds, y.s, w, profile)
    ensures Ordered(y')
  {
  }

  lemma NextOrdered(folds: Folds, y: System, c: Section)
    requires Ordered(y)
    ensures Ordered(Next(folds, y, c))
  {
    var y' := Next(folds, y, c);
    if c.OpenInsert? {
      InsertOrdered(folds, y, y', c.opening.window, c.profile);
    } else {
      OrdersInherited(y, y');
    }
  }

  /** Every section but an insertion leaves a window's live session alone or takes it away. */
  lemma LiveInherited(folds: Folds, y: System, c: Section, w: Window)
    requires !c.OpenInsert?
    ensures LiveIn(Next(folds, y, c).s, w).None? || LiveIn(Next(folds, y, c).s, w) == LiveIn(y.s, w)
  {
  }

  lemma PumpsInherited(folds: Folds, y: System, c: Section, g: nat)
    requires !c.OpenInsert? && g in Next(folds, y, c).pumps
    ensures g in y.pumps && Next(folds, y, c).pumps[g] == y.pumps[g]
    ensures Next(folds, y, c).s.nextGeneration == y.s.nextGeneration
  {
  }

  lemma InsertPumps(folds: Folds, y: System, y': System, w: Window, profile: Profile)
    requires Inv(y) && y'.s == InsertSlot(folds, y.s, w, profile) && y'.pumps == y.pumps[y.s.nextGeneration + 1 := w]
    ensures PumpsMatch(y')
  {
    forall v, g | v in y.s.windows && y.s.windows[v].live == Some(g)
      ensures g <= y.s.nextGeneration
    {
      LiveOnce(y, v, g);
    }
  }

  lemma NextPumps(folds: Folds, y: System, c: Section)
    requires Inv(y) && Enabled(y, c)
    ensures PumpsMatch(Next(folds, y, c))
  {
    var y' := Next(folds, y, c);
    if c.OpenInsert? {
      InsertPumps(folds, y, y', c.opening.window, c.profile);
    } else {
      forall w, g | w in y'.s.windows && y'.s.windows[w].live == Some(g) && g in y'.pumps
        ensures y'.pumps[g] == w
      {
        LiveInherited(folds, y, c, w);
        PumpsInherited(folds, y, c, g);
        assert LiveIn(y.s, w) == Some(g);
      }
      forall g <- y'.pumps ensures g <= y'.s.nextGeneration {
        PumpsInherited(folds, y, c, g);
      }
    }
  }

  lemma {:induction false} EveryRunKeeps(folds: Folds, run: seq<Section>)
    requires Possible(folds, IDLE, run)
    ensures Inv(After(folds, IDLE, run))
  {
    if run == [] {
      forall g: nat ensures Places(IDLE, g) == 0 {
        assert WindowsOf(IDLE.s, g) == {};
      }
    } else {
      var init, c := run[..|run| - 1], run[|run| - 1];
      EveryRunKeeps(folds, init);
      var y := After(folds, IDLE, init);
      NextConserves(folds, y, c);
      NextPumps(folds, y, c);
      NextOrdered(folds, y, c);
    }
  }

  /** Over all interleavings `session_ended` runs at most once per generation, and only for started ones. */
  lemma EndedAtMostOnce(folds: Folds, run: seq<Section>, g: nat)
    requires Possible(folds, IDLE, run)
    ensures var y := After(folds, IDLE, run);
      multiset(y.ended)[g] <= 1 && (g in y.ended ==> 1 <= g <= y.s.nextGeneration)
  {
    EveryRunKeeps(folds, run);
    assert Places(After(folds, IDLE, run), g) <= 1;
  }

  // ----- exactly once -----------------------------------------------------------------------

  /** Opens of one window never overlap. */
  ghost predicate SerialOpens(folds: Folds, run: seq<Section>) {
    run == [] ||
      (var init, c := run[..|run| - 1], run[|run| - 1];
       && SerialOpens(folds, init)
       && (c.OpenTake? ==> forall o <- After(folds, IDLE, init).opens :: o.window != c.w))
  }

  /** While an open is between its sections its window holds no live session. */
  ghost predicate OpensEmpty(y: System) {
    && (forall o <- y.opens :: LiveIn(y.s, o.window) == None && y.opens[o] == 1)
    && (forall o, p :: o in y.opens && p in y.opens && o != p ==> o.window != p.window)
  }

  /** Sections that bring no session to life and start no open. */
  lemma OpensStayEmpty(y: System, y': System)
    requires OpensEmpty(y) && y'.opens <= y.opens
    requires forall o <- y'.opens :: LiveIn(y'.s, o.window).Some? ==> LiveIn(y.s, o.window).Some?
    ensures OpensEmpty(y')
  {
    forall o <- y'.opens ensures o in y.opens && y'.opens[o] == 1 {
      assert 0 < y'.opens[o] <= y.opens[o] == 1;
    }
  }

  lemma OpenTakeEmpties(folds: Folds, y: System, w: Window)
    requires OpensEmpty(y) && forall o <- y.opens :: o.window != w
    ensures OpensEmpty(Next(folds, y, OpenTake(w)))
  {
    var y', added := Next(folds, y, OpenTake(w)), Opening(w, LiveIn(y.s, w));
    assert added !in y.opens;
    forall o <- y'.opens ensures LiveIn(y'.s, o.window) == None && y'.opens[o] == 1 {
      assert o == added || o in y.opens;
    }
  }

  /** Inserting the slot of `o` leaves the windows of the other opens alone. */
  lemma InsertStaysEmpty(folds: Folds, y: System, y': System, o: Opening, profile: Profile)
    requires OpensEmpty(y) && o in y.opens
    requires y'.s == InsertSlot(folds, y.s, o.window, profile) && y'.opens == y.opens - multiset{o}
    ensures OpensEmpty(y')
  {
    forall p <- y'.opens ensures p in y.opens && p.window != o.window {
      assert y'.opens[p] <= y.opens[p];
      assert y.opens[o] == 1;
    }
    forall p <- y'.opens ensures LiveIn(y'.s, p.window).Some? ==> LiveIn(y.s, p.window).Some? {
      assert p.window != o.window;
    }
    OpensStayEmpty(y, y');
  }

  lemma DropStaysEmpty(y: System, y': System, o: Opening)
    requires OpensEmpty(y) && y'.s == y.s && y'.opens == y.opens - multiset{o}
    ensures OpensEmpty(y')
  {
    OpensStayEmpty(y, y');
  }

  lemma NextOpensEmpty(folds: Folds, y: System, c: Section)
    requires Enabled(y, c) && OpensEmpty(y)
    requires c.OpenTake? ==> forall o <- y.opens :: o.window != c.w
    ensures OpensEmpty(Next(folds, y, c))
  {
    var y' := Next(folds, y, c);
    if c.OpenTake? {
      OpenTakeEmpties(folds, y, c.w);
    } else if c.OpenInsert? {
      InsertStaysEmpty(folds, y, y', c.opening, c.profile);
    } else if c.OpenFail? {
      DropStaysEmpty(y, y', c.failed);
    } else {
      OtherSectionsKeepOpens(folds, y, c);
      forall o <- y'.opens ensures LiveIn(y'.s, o.window).Some? ==> LiveIn(y.s, o.window).Some? {
        if LiveIn(y.s, o.window).None? {
          LiveInherited(folds, y, c, o.window);
        }
      }
      OpensStayEmpty(y, y');
    }
  }

  lemma OtherSectionsKeepOpens(folds: Folds, y: System, c: Section)
    requires !c.OpenTake? && !c.OpenInsert? && !c.OpenFail?
    ensures Next(folds, y, c).opens == y.opens
  {
  }

  lemma NextLosesNothing(folds: Folds, y: System, c: Section)
    requires Enabled(y, c) && OpensEmpty(y) && y.lost == {}
    ensures Next(folds, y, c).lost == {}
  {
    if c.OpenInsert? {
      assert LiveIn(y.s, c.opening.window) == None;
    }
  }

  lemma {:induction false} SerialOpensLoseNothing(folds: Folds, run: seq<Section>)
    requires Possible(folds, IDLE, run) && SerialOpens(folds, run)
    ensures var y := After(folds, IDLE, run); OpensEmpty(y) && y.lost == {}
  {
    if run == [] {
    } else {
      SerialOpensLoseNothing(folds, run[..|run| - 1]);
      NextOpensEmpty(folds, After(folds, IDLE, run[..|run| - 1]), run[|run| - 1]);
      NextLosesNothing(folds, After(folds, IDLE, run[..|run| - 1]), run[|run| - 1]);
    }
  }

  /** No session runs and no thread owes a call. */
  ghost predicate Settled(y: System) {
    y.owed == multiset{} && forall w <- y.s.windows :: y.s.windows[w].live.None?
  }

  /**
   When opens of a window never overlap, every started session has ended exactly once as soon as
   none is live and no call is owed.
   */
  lemma EndedExactlyOnce(folds: Folds, run: seq<Section>, g: nat)
    requires Possible(folds, IDLE, run) && SerialOpens(folds, run)
    requires Settled(After(folds, IDLE, run))
    ensures var y := After(folds, IDLE, run);
      multiset(y.ended)[g] == if 1 <= g <= y.s.nextGeneration then 1 else 0
  {
    EveryRunKeeps(folds, run);
    SerialOpensLoseNothing(folds, run);
    var y := After(folds, IDLE, run);
    assert WindowsOf(y.s, g) == {};
    assert Places(y, g) == if 1 <= g <= y.s.nextGeneration then 1 else 0;
  }

  /** Some open of the run inserted its session over generation `g` while `g` was live there. */
  ghost predicate Overwritten(folds: Folds, run: seq<Section>, g: nat) {
    exists i :: 0 <= i < |run| && Overwrites(folds, run, i, g)
  }

  ghost predicate Overwrites(folds: Folds, run: seq<Section>, i: nat, g: nat)
    requires i < |run|
  {
    run[i].OpenInsert? && LiveIn(After(folds, IDLE, run[..i]).s, run[i].opening.window) == Some(g)
  }

  lemma OverwrittenGrows(folds: Folds, run: seq<Section>, c: Section, g: nat)
    ensures Overwritten(folds, run + [c], g) <==>
              Overwritten(folds, run, g)
              || (c.OpenInsert? && LiveIn(After(folds, IDLE, run).s, c.opening.window) == Some(g))
  {
    var longer := run + [c];
    assert longer[..|run|] == run && longer[|run|] == c;
    forall i | 0 <= i < |run| ensures Overwrites(folds, longer, i, g) <==> Overwrites(folds, run, i, g) {
      assert longer[..i] == run[..i];
    }
    assert Overwrites(folds, longer, |run|, g)
      <==> c.OpenInsert? && LiveIn(After(folds, IDLE, run).s, c.opening.window) == Some(g);
  }

  lemma LostGrows(folds: Folds, y: System, c: Section, g: nat)
    ensures g in Next(folds, y, c).lost
      <==> g in y.lost || (c.OpenInsert? && LiveIn(y.s, c.opening.window) == Some(g))
  {
  }

  lemma {:induction false} LostIsOverwritten(folds: Folds, run: seq<Section>, g: nat)
    ensures g in After(folds, IDLE, run).lost <==> Overwritten(folds, run, g)
  {
    if run == [] {
    } else {
      var init, c := run[..|run| - 1], run[|run| - 1];
      LostIsOverwritten(folds, init, g);
      assert run == init + [c];
      OverwrittenGrows(folds, init, c, g);
      LostGrows(folds, After(folds, IDLE, init), c, g);
    }
  }

  /**
   In general a started generation of a settled system ended exactly once, unless some open of the
   run inserted over it while it was live: then it never ended.
   */
  lemma EndedUnlessOverwritten(folds: Folds, run: seq<Section>, g: nat)
    requires Possible(folds, IDLE, run) && Settled(After(folds, IDLE, run))
    requires 1 <= g <= After(folds, IDLE, run).s.nextGeneration
    ensures multiset(After(folds, IDLE, run).ended)[g] == if Overwritten(folds, run, g) then 0 else 1
  {
    EveryRunKeeps(folds, run);
    LostIsOverwritten(folds, run, g);
    var y := After(folds, IDLE, run);
    assert WindowsOf(y.s, g) == {};
    assert Places(y, g) == 1;
  }
}
