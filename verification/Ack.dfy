/**
 The frame-acknowledgement policy, shared between the graphics channel and the render thread.

 Every operation runs under one lock, so a run is a sequence of whole operations in any order. The
 policy is stated twice: as the code's counters and flags (`Step`), and as a reading of the history
 alone (`Due`), which says for each presented frame what it must be acknowledged with.
 */
module Ack {
  import opened Prelude

  datatype QueueDepth = Unavailable | Available(frames: nat) | Suspend

  datatype FrameAck = FrameAck(depth: QueueDepth, frameId: u32, total: u32)

  datatype State = State(outbox: seq<FrameAck>, inFlight: u32, totalDecoded: u32, hidden: bool, suspendSent: bool)

  const EMPTY: State := State([], 0, 0, false, false)

  datatype Event = FrameEnded(id: u32) | Presented(frame: u32) | SetHidden(hidden: bool) | Drain

  /** `wrapping_add` keeps the low 32 bits. */
  function Wrap(n: nat): u32 {
    n % 0x1_0000_0000
  }

  lemma WrapNext(n: nat)
    ensures Wrap(Wrap(n) + 1) == Wrap(n + 1)
  {
  }

  function DepthFor(frames: nat): QueueDepth {
    if frames == 0 then Unavailable else Available(frames)
  }

  function OnPresented(s: State, id: u32): State {
    var inFlight := Max(s.inFlight as int - 1, 0);
    if !s.hidden then
      s.(inFlight := inFlight, outbox := s.outbox + [FrameAck(DepthFor(inFlight), id, s.totalDecoded)])
    else if !s.suspendSent then
      s.(inFlight := inFlight, suspendSent := true, outbox := s.outbox + [FrameAck(Suspend, id, s.totalDecoded)])
    else
      s.(inFlight := inFlight)
  }

  /** The new state, and what a drain hands out. */
  function Step(s: State, e: Event): (State, seq<FrameAck>) {
    match e
    case FrameEnded(_) =>
      (s.(inFlight := SaturatingAdd(s.inFlight, 1), totalDecoded := Wrap(s.totalDecoded as int + 1)), [])
    case Presented(id) => (OnPresented(s, id), [])
    case SetHidden(hidden) =>
      (s.(hidden := hidden, suspendSent := if s.hidden != hidden then false else s.suspendSent), [])
    case Drain => (s.(outbox := []), s.outbox)
  }

  class AckOutbox {
    var outbox: seq<FrameAck>
    var inFlight: u32
    var totalDecoded: u32
    var hidden: bool
    var suspendSent: bool

    ghost function Value(): State
      reads this
    {
      State(outbox, inFlight, totalDecoded, hidden, suspendSent)
    }

    constructor ()
      ensures Value() == EMPTY
    {
      outbox, inFlight, totalDecoded := [], 0, 0;
      hidden, suspendSent := false, false;
    }

    method EndFrame(id: u32)
      modifies this
      ensures Value() == Step(old(Value()), FrameEnded(id)).0
    {
      inFlight := SaturatingAdd(inFlight, 1);
      totalDecoded := Wrap(totalDecoded as int + 1);
    }

    method Present(id: u32)
      modifies this
      ensures Value() == Step(old(Value()), Presented(id)).0
    {
      inFlight := Max(inFlight as int - 1, 0);
      var depth;
      if !hidden {
        depth := DepthFor(inFlight);
      } else if !suspendSent {
        suspendSent := true;
        depth := Suspend;
      } else {
        return;
      }
      outbox := outbox + [FrameAck(depth, id, totalDecoded)];
    }

    method Hide(hidden: bool)
      modifies this
      ensures Value() == Step(old(Value()), SetHidden(hidden)).0
    {
      if this.hidden != hidden {
        suspendSent := false;
      }
      this.hidden := hidden;
    }

    method TakeAll() returns (acks: seq<FrameAck>)
      modifies this
      ensures (Value(), acks) == Step(old(Value()), Drain)
    {
      acks := outbox;
      outbox := [];
    }
  }

  // ----- the policy, read off the history ---------------------------------------------------

  ghost function Ended(h: seq<Event>): nat {
    if h == [] then 0 else Ended(h[..|h| - 1]) + if h[|h| - 1].FrameEnded? then 1 else 0
  }

  ghost function Shown(h: seq<Event>): nat {
    if h == [] then 0 else Shown(h[..|h| - 1]) + if h[|h| - 1].Presented? then 1 else 0
  }

  /** Frames handed to the sink whose callback has not run. */
  ghost function Outstanding(h: seq<Event>): multiset<u32> {
    if h == [] then
      multiset{}
    else
      var before := Outstanding(h[..|h| - 1]);
      match h[|h| - 1]
      case FrameEnded(id) => before + multiset{id}
      case Presented(id) => before - multiset{id}
      case _ => before
  }

  /** Every callback runs at most once, after its frame ended; never 2^32 frames in flight. */
  ghost predicate Feasible(h: seq<Event>) {
    h == [] ||
      (var init, e := h[..|h| - 1], h[|h| - 1];
       && Feasible(init)
       && (e.Presented? ==> e.frame in Outstanding(init))
       && |Outstanding(h)| <= U32_MAX)
  }

  /** The visibility last asked for. */
  ghost predicate Hidden(h: seq<Event>) {
    h != [] && match h[|h| - 1] case SetHidden(b) => b case _ => Hidden(h[..|h| - 1])
  }

  /** Frames presented since the session was last hidden without interruption. */
  ghost function ShownWhileHidden(h: seq<Event>): nat {
    if h == [] || !Hidden(h) then
      0
    else
      ShownWhileHidden(h[..|h| - 1]) + if h[|h| - 1].Presented? then 1 else 0
  }

  /** The acknowledgement owed for the frame presented right after `h`, if any. */
  ghost function Due(h: seq<Event>, id: u32): seq<FrameAck> {
    var total := Wrap(Ended(h));
    if !Hidden(h) then
      [FrameAck(DepthFor(Max(Ended(h) - Shown(h) - 1, 0)), id, total)]
    else if ShownWhileHidden(h) == 0 then
      [FrameAck(Suspend, id, total)]
    else
      []
  }

  /** Every acknowledgement owed so far, in the order the frames were presented. */
  ghost function Owed(h: seq<Event>): seq<FrameAck> {
    if h == [] then
      []
    else
      var init, e := h[..|h| - 1], h[|h| - 1];
      Owed(init) + if e.Presented? then Due(init, e.frame) else []
  }

  lemma {:induction false} OutstandingCount(h: seq<Event>)
    requires Feasible(h)
    ensures |Outstanding(h)| == Ended(h) - Shown(h) <= U32_MAX
  {
    if h == [] {
    } else {
      OutstandingCount(h[..|h| - 1]);
    }
  }

  /** The run of the code over a history: its state and everything drained. */
  ghost function Run(h: seq<Event>): (State, seq<FrameAck>) {
    if h == [] then
      (EMPTY, [])
    else
      var (s, drained) := Run(h[..|h| - 1]);
      var (s', out) := Step(s, h[|h| - 1]);
      (s', drained + out)
  }

  /** The counters and flags are those of the history, and every acknowledgement owed was produced. */
  ghost predicate Pays(h: seq<Event>, s: State, drained: seq<FrameAck>)
    requires Feasible(h)
  {
    && s.inFlight == Ended(h) - Shown(h)
    && s.totalDecoded == Wrap(Ended(h))
    && s.hidden == Hidden(h)
    && s.suspendSent == (ShownWhileHidden(h) > 0)
    && drained + s.outbox == Owed(h)
  }

  /** What one more event adds to the history. */
  lemma HistoryNext(h: seq<Event>, e: Event)
    requires Feasible(h + [e])
    ensures Feasible(h) && (e.Presented? ==> e.frame in Outstanding(h))
    ensures Ended(h + [e]) == Ended(h) + if e.FrameEnded? then 1 else 0
    ensures Shown(h + [e]) == Shown(h) + if e.Presented? then 1 else 0
    ensures Ended(h) - Shown(h) == |Outstanding(h)| && |Outstanding(h)| <= U32_MAX && |Outstanding(h + [e])| <= U32_MAX
    ensures Ended(h + [e]) - Shown(h + [e]) == |Outstanding(h + [e])|
    ensures Hidden(h + [e]) == if e.SetHidden? then e.hidden else Hidden(h)
    ensures Owed(h + [e]) == Owed(h) + if e.Presented? then Due(h, e.frame) else []
  {
    assert (h + [e])[..|h|] == h;
    OutstandingCount(h);
    OutstandingCount(h + [e]);
  }

  lemma HiddenNext(h: seq<Event>, e: Event)
    ensures ShownWhileHidden(h + [e])
      == if e.SetHidden? && (!e.hidden || !Hidden(h)) then 0
         else ShownWhileHidden(h) + if Hidden(h) && e.Presented? then 1 else 0
  {
    assert (h + [e])[..|h|] == h;
  }

  /** The counters of one step, in numbers alone. */
  lemma StepNumbers(s: State, e: Event, ended: nat, shown: nat)
    requires s.inFlight == ended - shown && s.totalDecoded == Wrap(ended)
    requires (e.Presented? ==> shown < ended) && (e.FrameEnded? ==> ended + 1 - shown <= U32_MAX)
    ensures var s' := Step(s, e).0;
      && s'.inFlight == ended - shown + (if e.FrameEnded? then 1 else 0) - (if e.Presented? then 1 else 0)
      && s'.totalDecoded == Wrap(ended + if e.FrameEnded? then 1 else 0)
  {
    WrapNext(ended);
  }

  /** The flags of one step. */
  lemma StepFlags(s: State, e: Event)
    ensures var s' := Step(s, e).0;
      && s'.hidden == (if e.SetHidden? then e.hidden else s.hidden)
      && s'.suspendSent == if e.SetHidden? && e.hidden != s.hidden then false
                           else s.suspendSent || (e.Presented? && s.hidden)
  {
  }

  /** What one step queues: the acknowledgement owed for a presented frame. */
  lemma StepQueues(h: seq<Event>, e: Event, s: State)
    requires Feasible(h + [e]) && Feasible(h)
    requires s.inFlight == Ended(h) - Shown(h) && s.totalDecoded == Wrap(Ended(h))
    requires s.hidden == Hidden(h) && s.suspendSent == (ShownWhileHidden(h) > 0)
    ensures var (s', out) := Step(s, e);
      out + s'.outbox == s.outbox + if e.Presented? then Due(h, e.frame) else []
  {
    if e.Presented? {
      assert OnPresented(s, e.frame).outbox == s.outbox + Due(h, e.frame);
    }
  }

  lemma StepCounts(h: seq<Event>, e: Event, s: State)
    requires Feasible(h + [e]) && Feasible(h)
    requires s.inFlight == Ended(h) - Shown(h) && s.totalDecoded == Wrap(Ended(h))
    requires s.hidden == Hidden(h) && s.suspendSent == (ShownWhileHidden(h) > 0)
    ensures var s' := Step(s, e).0;
      && s'.inFlight == Ended(h + [e]) - Shown(h + [e]) && s'.totalDecoded == Wrap(Ended(h + [e]))
      && s'.hidden == Hidden(h + [e]) && s'.suspendSent == (ShownWhileHidden(h + [e]) > 0)
  {
    HistoryNext(h, e);
    HiddenNext(h, e);
    StepNumbers(s, e, Ended(h), Shown(h));
    StepFlags(s, e);
    if !Hidden(h) {
      assert ShownWhileHidden(h) == 0;
    }
  }

  lemma Regroup<T>(drained: seq<T>, out: seq<T>, queued': seq<T>, queued: seq<T>, due: seq<T>)
    requires out + queued' == queued + due
    ensures drained + out + queued' == drained + queued + due
  {
    assert drained + out + queued' == drained + (out + queued');
    assert drained + (queued + due) == drained + queued + due;
  }

  lemma OwedNext(h: seq<Event>, e: Event)
    ensures Owed(h + [e]) == Owed(h) + if e.Presented? then Due(h, e.frame) else []
  {
    assert (h + [e])[..|h|] == h;
  }

  lemma PaysNext(h: seq<Event>, e: Event, s: State, drained: seq<FrameAck>)
    requires Feasible(h + [e]) && Feasible(h) && Pays(h, s, drained)
    ensures var (s', out) := Step(s, e); Pays(h + [e], s', drained + out)
  {
    OwedNext(h, e);
    StepCounts(h, e, s);
    StepQueues(h, e, s);
    var (s', out) := Step(s, e);
    Regroup(drained, out, s'.outbox, s.outbox, if e.Presented? then Due(h, e.frame) else []);
  }

  /**
   Over every feasible run: the frames in flight are those ended minus those presented, and what
   was drained together with what is queued is exactly what the history owes.
   */
  lemma {:induction false} RunsPayWhatIsOwed(h: seq<Event>)
    requires Feasible(h)
    ensures var (s, drained) := Run(h); Pays(h, s, drained)
  {
    if h == [] {
    } else {
      var init, e := h[..|h| - 1], h[|h| - 1];
      RunsPayWhatIsOwed(init);
      assert h == init + [e];
      PaysNext(init, e, Run(init).0, Run(init).1);
    }
  }

  /**
   What a visible frame is acknowledged with: its own number, how many frames had ended, and how many
   are still outstanding once it is presented, or that none is.
   */
  lemma DueMeaning(h: seq<Event>, id: u32)
    requires Feasible(h + [Presented(id)]) && !Hidden(h)
    ensures var left, total := |Outstanding(h + [Presented(id)])|, Ended(h) % 0x1_0000_0000;
      Due(h, id) == [FrameAck(if left > 0 then Available(left) else Unavailable, id, total)]
  {
    HistoryNext(h, Presented(id));
  }

  // ----- visible and hidden periods ---------------------------------------------------------

  /** The acknowledgements that become due while `b` happens after `a`. */
  ghost function OwedDuring(a: seq<Event>, b: seq<Event>): seq<FrameAck> {
    if b == [] then
      []
    else
      var init, e := b[..|b| - 1], b[|b| - 1];
      OwedDuring(a, init) + if e.Presented? then Due(a + init, e.frame) else []
  }

  lemma {:induction false} OwedSplit(a: seq<Event>, b: seq<Event>)
    ensures Owed(a + b) == Owed(a) + OwedDuring(a, b)
  {
    if b == [] {
      assert a + b == a;
    } else {
      assert (a + b)[..|a + b| - 1] == a + b[..|b| - 1];
      OwedSplit(a, b[..|b| - 1]);
    }
  }

  ghost function PresentedIds(h: seq<Event>): (ids: seq<u32>)
    ensures |ids| == Shown(h)
  {
    if h == [] then
      []
    else
      PresentedIds(h[..|h| - 1]) + if h[|h| - 1].Presented? then [h[|h| - 1].frame] else []
  }

  ghost function AckedIds(acks: seq<FrameAck>): seq<u32> {
    seq(|acks|, i requires 0 <= i < |acks| => acks[i].frameId)
  }

  /** While the session stays visible, each presented frame gets exactly one honest acknowledgement. */
  lemma {:induction false} VisiblePeriod(a: seq<Event>, b: seq<Event>)
    requires !Hidden(a) && SetHidden(true) !in b
    ensures !Hidden(a + b)
    ensures AckedIds(OwedDuring(a, b)) == PresentedIds(b)
    ensures forall ack <- OwedDuring(a, b) :: !ack.depth.Suspend?
  {
    if b == [] {
      assert a + b == a;
    } else {
      var init, e := b[..|b| - 1], b[|b| - 1];
      assert (a + b)[..|a + b| - 1] == a + init;
      assert e in b && SetHidden(true) !in init;
      VisiblePeriod(a, init);
      var more := if e.Presented? then Due(a + init, e.frame) else [];
      assert AckedIds(OwedDuring(a, init) + more) == AckedIds(OwedDuring(a, init)) + AckedIds(more);
    }
  }

  /** A whole hidden period yields one Suspend, on its first presented frame, and nothing else. */
  lemma {:induction false} HiddenPeriod(a: seq<Event>, b: seq<Event>)
    requires Hidden(a) && ShownWhileHidden(a) == 0 && SetHidden(false) !in b
    ensures Hidden(a + b) && ShownWhileHidden(a + b) == Shown(b)
    ensures AckedIds(OwedDuring(a, b)) == if Shown(b) == 0 then [] else PresentedIds(b)[..1]
    ensures forall ack <- OwedDuring(a, b) :: ack.depth.Suspend?
  {
    if b == [] {
      assert a + b == a;
    } else {
      var init, e := b[..|b| - 1], b[|b| - 1];
      assert (a + b)[..|a + b| - 1] == a + init;
      assert e in b && SetHidden(false) !in init;
      HiddenPeriod(a, init);
      var more := if e.Presented? then Due(a + init, e.frame) else [];
      assert AckedIds(OwedDuring(a, init) + more) == AckedIds(OwedDuring(a, init)) + AckedIds(more);
    }
  }
}
