/**
 The manager as an object: one method per locked section, each equal to the section of
 `SessionSpec`, and the operations a single thread builds from them.
 */
module SessionManager {
  import opened Prelude
  import opened SessionSpec

  /** The state after one uninterrupted pump: its events in order, then the end of its stream. */
  function Pumped(folds: Folds, s: State, w: Window, generation: nat, events: seq<SessionEvent>): State {
    if events == [] then s
    else ApplyEvent(folds, Pumped(folds, s, w, generation, events[..|events| - 1]), w, generation, events[|events| - 1])
  }

  class Manager {
    var windows: map<Window, Slot>
    var nextGeneration: nat
    var nextOrder: nat
    /** Host calls of `session_ended`, by generation. */
    var ended: seq<nat>
    const folds: Folds

    constructor (folds: Folds)
      ensures Value() == State(map[], 0, 0) && ended == [] && this.folds == folds
    {
      windows, nextGeneration, nextOrder, ended := map[], 0, 0, [];
      this.folds := folds;
    }

    ghost function Value(): State
      reads this
    {
      State(windows, nextGeneration, nextOrder)
    }

    method TakeForOpen(w: Window) returns (live: Option<nat>)
      modifies this`windows
      ensures live == LiveIn(old(Value()), w) && Value() == TakeLive(old(Value()), w)
    {
      live := None;
      if w in windows {
        var slot := windows[w];
        live := slot.live;
        windows := windows[w := slot.(live := None)];
      }
    }

    method InsertForOpen(w: Window, profile: Profile) returns (generation: nat)
      modifies this`windows, this`nextGeneration, this`nextOrder
      ensures Value() == InsertSlot(folds, old(Value()), w, profile) && generation == nextGeneration
    {
      nextGeneration := nextGeneration + 1;
      generation := nextGeneration;
      var view := folds.initial(profile);
      var order;
      if w in windows {
        order := windows[w].order;
      } else {
        nextOrder := nextOrder + 1;
        order := nextOrder;
      }
      windows := windows[w := Slot(profile, view, Some(generation), order)];
    }

    /**
     An open that no other thread interrupts: a live session of the window has ended before the new
     one is there, also when spawning fails; other windows are untouched.
     */
    method Open(w: Window, profile: Profile, spawned: bool) returns (generation: Option<nat>)
      modifies this
      ensures ended == old(ended) + match LiveIn(old(Value()), w) case None => [] case Some(g) => [g]
      ensures generation.Some? <==> spawned
      ensures !spawned ==> Value() == TakeLive(old(Value()), w)
      ensures spawned ==> Value() == InsertSlot(folds, TakeLive(old(Value()), w), w, profile)
      ensures spawned ==> LiveIn(Value(), w) == generation == Some(old(nextGeneration) + 1)
      ensures forall v <- old(windows) :: v != w ==> v in windows && windows[v] == old(windows)[v]
      ensures w in old(windows) ==> w in windows && windows[w].order == old(windows)[w].order
    {
      var live := TakeForOpen(w);
      if live.Some? {
        ended := ended + [live.value];
      }
      if spawned {
        var g := InsertForOpen(w, profile);
        generation := Some(g);
      } else {
        generation := None;
      }
    }

    method CloseWindow(w: Window) returns (live: Option<nat>)
      modifies this`windows
      ensures live == LiveIn(old(Value()), w) && Value() == RemoveWindow(old(Value()), w)
    {
      live := if w in windows then windows[w].live else None;
      windows := windows - {w};
    }

    /** The sessions to end at quit, each live generation of each window. */
    method Shutdown() returns (lives: map<Window, nat>)
      modifies this`windows
      ensures Value() == DrainWindows(old(Value()))
      ensures forall w :: w in lives <==> LiveIn(old(Value()), w).Some?
      ensures forall w <- lives :: LiveIn(old(Value()), w) == Some(lives[w])
    {
      lives := map w | w in windows && windows[w].live.Some? :: windows[w].live.value;
      windows := map[];
    }

    method Deliver(w: Window, generation: nat, e: SessionEvent) returns (counted: bool)
      modifies this`windows
      ensures Value() == ApplyEvent(folds, old(Value()), w, generation, e)
      ensures counted <==> LiveIn(old(Value()), w) == Some(generation)
    {
      counted := false;
      if w in windows && windows[w].live == Some(generation) {
        var slot := windows[w];
        windows := windows[w := slot.(view := folds.apply(slot.view, e))];
        counted := true;
      }
    }

    method StreamEnded(w: Window, generation: nat) returns (owns: bool)
      modifies this`windows
      ensures Value() == EndPump(old(Value()), w, generation)
      ensures owns <==> LiveIn(old(Value()), w) == Some(generation)
    {
      owns := false;
      if w in windows && windows[w].live == Some(generation) {
        windows := windows[w := windows[w].(live := None)];
        owns := true;
      }
    }

    method UserActs(w: Window, a: UserAction) returns (known: bool)
      modifies this`windows
      ensures Value() == Act(folds, old(Value()), w, a) && known == (w in old(windows))
    {
      known := w in windows;
      if known {
        windows := windows[w := windows[w].(view := folds.act(windows[w].view, a))];
      }
    }

    /** A pump that runs to the end of its stream uninterrupted. */
    method Pump(w: Window, generation: nat, events: seq<SessionEvent>)
      modifies this
      ensures Value() == EndPump(Pumped(folds, old(Value()), w, generation, events), w, generation)
      ensures ended == old(ended) + if LiveIn(old(Value()), w) == Some(generation) then [generation] else []
    {
      for i := 0 to |events|
        invariant Value() == Pumped(folds, old(Value()), w, generation, events[..i])
        invariant LiveIn(Value(), w) == LiveIn(old(Value()), w) && ended == old(ended)
      {
        assert events[..i + 1][..i] == events[..i];
        var _ := Deliver(w, generation, events[i]);
      }
      assert events[..|events|] == events;
      var owns := StreamEnded(w, generation);
      if owns {
        ended := ended + [generation];
      }
    }

    /** The window of a profile: the first in opening order if there were several. */
    method WindowFor(profile: nat) returns (found: Option<Window>)
      ensures found.None? <==> forall w <- windows :: windows[w].profile.id != profile
      ensures found.Some? ==>
                && found.value in windows && windows[found.value].profile.id == profile
                && forall w <- windows :: windows[w].profile.id == profile
                                          ==> windows[found.value].order <= windows[w].order
    {
      found := None;
      var left := windows.Keys;
      while left != {}
        invariant left <= windows.Keys
        invariant found.None? ==> forall w <- windows.Keys - left :: windows[w].profile.id != profile
        invariant found.Some? ==> found.value in windows.Keys && windows[found.value].profile.id == profile
        invariant found.Some? ==> forall w <- windows.Keys - left ::
                      windows[w].profile.id == profile ==> windows[found.value].order <= windows[w].order
        decreases |left|
      {
        var w :| w in left;
        left := left - {w};
        if windows[w].profile.id == profile
           && (found.None? || windows[w].order < windows[found.value].order) {
          found := Some(w);
        }
      }
    }
  }
}
