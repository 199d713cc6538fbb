/**
 * The unacknowledged input ring, and the theorem that makes it enough: a replay that starts from the
 * horizon sees, tick by tick, what an authority folding every frame ever sent sees.
 */
module InputRings {
  import opened Wrappers
  import opened ActionStates

  const RING_TICKS := 48

  /** `number` is the wire's `seq`. */
  datatype InputFrame = InputFrame(tick: int, number: int, actions: seq<Edge>)

  datatype RingEntry = RingEntry(frame: InputFrame, leadAtSendTicks: real, epoch: int)

  /** Frames folded one after another, each behind a tick boundary: what a pruned frame does to the horizon. */
  function FoldFrames(s: Actions, frames: seq<InputFrame>): Actions {
    if frames == [] then s
    else FoldTick(FoldFrames(s, frames[..|frames| - 1]), frames[|frames| - 1].actions)
  }

  /** Send order: sequence numbers strictly increase and ticks never go back. */
  ghost predicate Ordered(frames: seq<InputFrame>) {
    forall i, j :: 0 <= i < j < |frames| ==>
                     frames[i].number < frames[j].number && frames[i].tick <= frames[j].tick
  }

  ghost predicate AllBy(frames: seq<InputFrame>, tick: int) {
    forall i :: 0 <= i < |frames| ==> frames[i].tick <= tick
  }

  ghost predicate AllAfter(frames: seq<InputFrame>, tick: int) {
    forall i :: 0 <= i < |frames| ==> frames[i].tick > tick
  }

  /** Every edge stamped with `tick`, in send order: one frame's, or the merge of several. */
  function EdgesAt(frames: seq<InputFrame>, tick: int): seq<Edge> {
    if frames == [] then []
    else EdgesAt(frames[..|frames| - 1], tick)
         + if frames[|frames| - 1].tick == tick then frames[|frames| - 1].actions else []
  }

  /** The frames stamped at or before `tick`. */
  function Through(frames: seq<InputFrame>, tick: int): seq<InputFrame> {
    if frames == [] then []
    else Through(frames[..|frames| - 1], tick)
         + if frames[|frames| - 1].tick <= tick then [frames[|frames| - 1]] else []
  }

  /** The leading run stamped at or before `tick`: what a walk that breaks at the first later frame visits. */
  function Leading(frames: seq<InputFrame>, tick: int): seq<InputFrame> {
    if frames == [] || frames[0].tick > tick then [] else [frames[0]] + Leading(frames[1..], tick)
  }

  /** The input fold of ticks `from + 1` to `until`, each tick's frames folded on that tick. */
  function RunTicks(s: Actions, frames: seq<InputFrame>, from: int, until: int): Actions
    decreases until - from
  {
    if until <= from then s
    else FoldTick(RunTicks(s, frames, from, until - 1), EdgesAt(frames, until))
  }

  // ---------------------------------------------------------------------------------------------
  // Splitting folds

  lemma {:induction false} FoldFramesConcat(s: Actions, a: seq<InputFrame>, b: seq<InputFrame>)
    ensures FoldFrames(s, a + b) == FoldFrames(FoldFrames(s, a), b)
    decreases |b|
  {
    if b == [] {
      assert a + b == a;
    } else {
      assert (a + b)[..|a + b| - 1] == a + b[..|b| - 1];
      FoldFramesConcat(s, a, b[..|b| - 1]);
    }
  }

  lemma {:induction false} EdgesAtConcat(a: seq<InputFrame>, b: seq<InputFrame>, tick: int)
    ensures EdgesAt(a + b, tick) == EdgesAt(a, tick) + EdgesAt(b, tick)
    decreases |b|
  {
    if b == [] {
      assert a + b == a;
    } else {
      assert (a + b)[..|a + b| - 1] == a + b[..|b| - 1];
      EdgesAtConcat(a, b[..|b| - 1], tick);
    }
  }

  lemma {:induction false} ThroughConcat(a: seq<InputFrame>, b: seq<InputFrame>, tick: int)
    ensures Through(a + b, tick) == Through(a, tick) + Through(b, tick)
    decreases |b|
  {
    if b == [] {
      assert a + b == a;
    } else {
      assert (a + b)[..|a + b| - 1] == a + b[..|b| - 1];
      ThroughConcat(a, b[..|b| - 1], tick);
    }
  }

  lemma {:induction false} ThroughAll(frames: seq<InputFrame>, tick: int)
    requires AllBy(frames, tick)
    ensures Through(frames, tick) == frames
    ensures EdgesAt(frames, tick + 1) == []
  {
    AllThrough(frames, tick);
    NoEdgesPast(frames, tick);
  }

  lemma {:induction false} AllThrough(frames: seq<InputFrame>, tick: int)
    requires AllBy(frames, tick)
    ensures Through(frames, tick) == frames
    decreases |frames|
  {
    if frames != [] {
      AllThrough(frames[..|frames| - 1], tick);
    }
  }

  lemma {:induction false} NoEdgesPast(frames: seq<InputFrame>, tick: int)
    requires AllBy(frames, tick)
    ensures EdgesAt(frames, tick + 1) == []
    decreases |frames|
  {
    if frames != [] {
      NoEdgesPast(frames[..|frames| - 1], tick);
    }
  }

  lemma {:induction false} ThroughNone(frames: seq<InputFrame>, tick: int)
    requires AllAfter(frames, tick)
    ensures Through(frames, tick) == []
  {
    if frames != [] {
      ThroughNone(frames[..|frames| - 1], tick);
    }
  }

  /** In send order the early break loses nothing: the leading run is everything stamped by then. */
  lemma {:induction false} LeadingIsThrough(frames: seq<InputFrame>, tick: int)
    requires Ordered(frames)
    ensures Leading(frames, tick) == Through(frames, tick)
  {
    if frames == [] {
    } else if frames[0].tick > tick {
      ThroughNone(frames, tick);
    } else {
      LeadingIsThrough(frames[1..], tick);
      assert frames == [frames[0]] + frames[1..];
      ThroughConcat([frames[0]], frames[1..], tick);
      assert Through([frames[0]], tick) == [frames[0]];
    }
  }

  /** One tick's merged batch persists what its frames folded one by one do. */
  lemma {:induction false} FoldNextTick(s: Actions, frames: seq<InputFrame>, tick: int)
    requires Ordered(frames)
    ensures SamePersistent(FoldTick(FoldFrames(s, Through(frames, tick - 1)), EdgesAt(frames, tick)),
                           FoldFrames(s, Through(frames, tick)))
  {
    if frames != [] {
      var init, last := frames[..|frames| - 1], frames[|frames| - 1];
      if last.tick < tick {
        ThroughAll(frames, tick - 1);
        ThroughAll(frames, tick);
      } else {
        FoldNextTick(s, init, tick);
        if last.tick == tick {
          var before := FoldFrames(s, Through(init, tick - 1));
          ApplyEdgesConcat(AdvanceTick(before), EdgesAt(init, tick), last.actions);
          PersistentFold(FoldTick(before, EdgesAt(init, tick)), AdvanceTick(FoldFrames(s, Through(init, tick))), last.actions);
          assert Through(frames, tick)[..|Through(init, tick)|] == Through(init, tick);
          assert Through(frames, tick - 1) == Through(init, tick - 1);
        } else {
          assert Through(frames, tick) == Through(init, tick) && Through(frames, tick - 1) == Through(init, tick - 1);
          assert EdgesAt(frames, tick) == EdgesAt(init, tick);
        }
      }
    }
  }

  /** Folding tick by tick persists what folding every frame up to that tick in send order does. */
  lemma {:induction false} RunTicksIsFold(s: Actions, base: Actions, frames: seq<InputFrame>, from: int, until: int)
    requires Ordered(frames) && from <= until
    requires SamePersistent(s, FoldFrames(base, Through(frames, from)))
    ensures SamePersistent(RunTicks(s, frames, from, until), FoldFrames(base, Through(frames, until)))
    decreases until - from
  {
    if from < until {
      RunTicksIsFold(s, base, frames, from, until - 1);
      FoldNextTick(base, frames, until);
      PersistentFold(AdvanceTick(RunTicks(s, frames, from, until - 1)),
                     AdvanceTick(FoldFrames(base, Through(frames, until - 1))), EdgesAt(frames, until));
    }
  }

  // ---------------------------------------------------------------------------------------------
  // The replay against the authority

  /** The fold a replay starts on: the re-asserted horizon, then the retained frames already depicted. */
  function Seed(horizon: Actions, ring: seq<InputFrame>, depicted: int): Actions {
    FoldFrames(Reasserted(horizon, NEUTRAL), Leading(ring, depicted))
  }

  function Replay(horizon: Actions, ring: seq<InputFrame>, depicted: int, tick: int): Actions {
    RunTicks(Seed(horizon, ring, depicted), ring, depicted, tick)
  }

  /** An authority that folded every frame sent, each on its own tick, from `start` on. */
  function Authority(base: Actions, sent: seq<InputFrame>, start: int, tick: int): Actions {
    RunTicks(base, sent, start, tick)
  }

  ghost predicate FramesWrite(frames: seq<InputFrame>, action: string) {
    exists i :: 0 <= i < |frames| && Writes(frames[i].actions, action)
  }

  lemma {:induction false} FramesWriteLast(frames: seq<InputFrame>, action: string)
    requires frames != []
    ensures FramesWrite(frames, action)
            <==> FramesWrite(frames[..|frames| - 1], action) || Writes(frames[|frames| - 1].actions, action)
  {
    var init := frames[..|frames| - 1];
    assert forall i :: 0 <= i < |init| ==> init[i] == frames[i];
  }

  lemma {:induction false} DifferenceFrames(a: Actions, b: Actions, frames: seq<InputFrame>, action: string)
    requires a.held == b.held
    ensures FoldFrames(a, frames).held == FoldFrames(b, frames).held
    ensures Axis(FoldFrames(a, frames).axes, action) != Axis(FoldFrames(b, frames).axes, action)
            <==> Axis(a.axes, action) != Axis(b.axes, action) && !FramesWrite(frames, action)
  {
    if frames != [] {
      var init, last := frames[..|frames| - 1], frames[|frames| - 1];
      DifferenceFrames(a, b, init, action);
      DifferenceFold(AdvanceTick(FoldFrames(a, init)), AdvanceTick(FoldFrames(b, init)), last.actions, action);
      FramesWriteLast(frames, action);
    }
  }

  lemma {:induction false} ReplayFold(horizon: Actions, ring: seq<InputFrame>, depicted: int, tick: int)
    requires Ordered(ring) && depicted <= tick
    ensures SamePersistent(Replay(horizon, ring, depicted, tick),
                           FoldFrames(Reasserted(horizon, NEUTRAL), Through(ring, tick)))
  {
    LeadingIsThrough(ring, depicted);
    RunTicksIsFold(Seed(horizon, ring, depicted), Reasserted(horizon, NEUTRAL), ring, depicted, tick);
  }

  lemma {:induction false} AuthorityFold(base: Actions, sent: seq<InputFrame>, start: int, tick: int)
    requires Ordered(sent) && start <= tick && AllAfter(sent, start)
    ensures SamePersistent(Authority(base, sent, start, tick), FoldFrames(base, Through(sent, tick)))
  {
    ThroughNone(sent, start);
    RunTicksIsFold(base, base, sent, start, tick);
  }

  /** The exact disagreement between folding from a re-asserted horizon and folding everything. */
  lemma {:induction false} ReassertedFold(base: Actions, folded: seq<InputFrame>, seen: seq<InputFrame>)
    ensures var horizon := FoldFrames(base, folded);
            var a, b := FoldFrames(Reasserted(horizon, NEUTRAL), seen), FoldFrames(base, folded + seen);
            && a.held == b.held
            && (SamePersistent(a, b) <==> forall x :: x in HeldNeutral(horizon) ==> FramesWrite(seen, x))
  {
    var horizon := FoldFrames(base, folded);
    var again := Reasserted(horizon, NEUTRAL);
    var a, b := FoldFrames(again, seen), FoldFrames(horizon, seen);
    FoldFramesConcat(base, folded, seen);
    ReassertCopiesIff(horizon);
    DifferenceFrames(again, horizon, seen, "");
    forall x ensures Axis(a.axes, x) != Axis(b.axes, x) <==> x in HeldNeutral(horizon) && !FramesWrite(seen, x) {
      DifferenceFrames(again, horizon, seen, x);
      assert Axis(again.axes, x) != Axis(horizon.axes, x) <==> x in HeldNeutral(horizon);
    }
    if forall x :: x in HeldNeutral(horizon) ==> FramesWrite(seen, x) {
      AxesExtensional(a.axes, b.axes);
    } else {
      var x :| x in HeldNeutral(horizon) && !FramesWrite(seen, x);
      assert Axis(a.axes, x) != Axis(b.axes, x);
    }
  }

  lemma {:induction false} OrderedSplit(folded: seq<InputFrame>, ring: seq<InputFrame>)
    requires Ordered(folded + ring)
    ensures Ordered(folded) && Ordered(ring)
  {
    var sent := folded + ring;
    assert forall i :: 0 <= i < |folded| ==> folded[i] == sent[i];
    forall i, j | 0 <= i < j < |ring|
      ensures ring[i].number < ring[j].number && ring[i].tick <= ring[j].tick
    {
      assert ring[i] == sent[|folded| + i] && ring[j] == sent[|folded| + j];
    }
  }

  /**
   * Whatever acks and overflows folded into the horizon, from the last folded tick on the replay agrees
   * with the authority on what is held, and agrees on every axis exactly when each action that was held at
   * a neutral axis on the horizon has been written since.
   */
  lemma {:induction false} ReplayAgreesIff(
      base: Actions, folded: seq<InputFrame>, ring: seq<InputFrame>, start: int, depicted: int, tick: int)
    requires Ordered(folded + ring) && AllAfter(folded + ring, start)
    requires start <= tick && depicted <= tick && AllBy(folded, tick)
    ensures var horizon := FoldFrames(base, folded);
            var replay, authority := Replay(horizon, ring, depicted, tick), Authority(base, folded + ring, start, tick);
            && replay.held == authority.held
            && (SamePersistent(replay, authority) <==>
                forall a :: a in HeldNeutral(horizon) ==> FramesWrite(Through(ring, tick), a))
  {
    OrderedSplit(folded, ring);
    ReplayFold(FoldFrames(base, folded), ring, depicted, tick);
    AuthorityFold(base, folded + ring, start, tick);
    ThroughConcat(folded, ring, tick);
    ThroughAll(folded, tick);
    ReassertedFold(base, folded, Through(ring, tick));
  }

  /** Past the last folded tick a faithful seed gives the authority's whole state, one-tick-wide edges included. */
  lemma {:induction false} ReplayIsAuthority(
      base: Actions, folded: seq<InputFrame>, ring: seq<InputFrame>, start: int, depicted: int, tick: int)
    requires Ordered(folded + ring) && AllAfter(folded + ring, start)
    requires start < tick && depicted < tick && AllBy(folded, tick - 1)
    requires HeldNeutral(FoldFrames(base, folded)) == {}
    ensures Replay(FoldFrames(base, folded), ring, depicted, tick) == Authority(base, folded + ring, start, tick)
  {
    ReplayAgreesIff(base, folded, ring, start, depicted, tick - 1);
    assert EdgesAt(folded + ring, tick) == EdgesAt(ring, tick) by {
      EdgesAtConcat(folded, ring, tick);
      ThroughAll(folded, tick - 1);
    }
  }

  lemma {:induction false} OneFrameTwoEdges(s: Actions, frame: InputFrame, first: Edge, second: Edge)
    requires frame.actions == [first, second]
    ensures FoldFrames(s, [frame]) == ApplyEdge(ApplyEdge(AdvanceTick(s), first), second)
  {
    var frames, edges := [frame], frame.actions;
    assert frames[..|frames| - 1] == [] && edges[..|edges| - 1] == [first];
    var t := AdvanceTick(s);
    var one := [first];
    assert one[..|one| - 1] == [];
    assert ApplyEdges(t, one) == ApplyEdge(t, first);
    assert ApplyEdges(t, edges) == ApplyEdge(ApplyEdge(t, first), second);
  }

  /** The disagreement is reachable: press, then the same action's axis back to neutral, then the ack. */
  lemma {:induction false} HeldNeutralDiverges()
    ensures var sent := [InputFrame(1, 0, [Edge("jump", Press, None), Edge("jump", Hold, Some(0.0))])];
            && Ordered(sent)
            && Axis(Replay(FoldFrames(NEUTRAL, sent), [], 1, 2).axes, "jump") == 1.0
            && Axis(Authority(NEUTRAL, sent, 0, 2).axes, "jump") == 0.0
  {
    var press, rest := Edge("jump", Press, None), Edge("jump", Hold, Some(0.0));
    var frame := InputFrame(1, 0, [press, rest]);
    var horizon := FoldFrames(NEUTRAL, [frame]);
    assert horizon == ApplyEdge(ApplyEdge(NEUTRAL, press), rest) by {
      OneFrameTwoEdges(NEUTRAL, frame, press, rest);
    }
    ThroughAll([frame], 2);
    AuthorityFold(NEUTRAL, [frame], 0, 2);
    ReassertCopiesIff(horizon);
    ReplayFold(horizon, [], 1, 2);
  }

  // ---------------------------------------------------------------------------------------------
  // The ring itself

  function FramesOf(entries: seq<RingEntry>): (frames: seq<InputFrame>)
    ensures |frames| == |entries|
    ensures forall i :: 0 <= i < |entries| ==> frames[i] == entries[i].frame
  {
    seq(|entries|, i requires 0 <= i < |entries| => entries[i].frame)
  }

  lemma MoveHead(a: seq<RingEntry>, b: seq<RingEntry>)
    requires b != []
    ensures a + b == a + [b[0]] + b[1..]
  {
  }

  lemma MoveHeadFrame(folded: seq<InputFrame>, entries: seq<RingEntry>)
    requires entries != []
    ensures folded + FramesOf(entries) == folded + [entries[0].frame] + FramesOf(entries[1..])
  {
    assert FramesOf(entries) == [entries[0].frame] + FramesOf(entries[1..]);
  }

  lemma {:induction false} FoldFramesSnoc(s: Actions, frames: seq<InputFrame>, frame: InputFrame)
    ensures FoldFrames(s, frames + [frame]) == FoldTick(FoldFrames(s, frames), frame.actions)
  {
    assert (frames + [frame])[..|frames|] == frames;
  }

  lemma FramesAppend(kept: seq<RingEntry>, entry: RingEntry, before: seq<InputFrame>, frames: seq<InputFrame>, i: nat)
    requires i < |frames| && FramesOf(kept) == before + frames[..i] && entry.frame == frames[i]
    ensures FramesOf(kept[0..] + [entry]) == before + frames[..i + 1]
  {
    assert kept[0..] == kept && frames[..i + 1] == frames[..i] + [frames[i]];
    assert FramesOf(kept + [entry]) == FramesOf(kept) + [entry.frame];
  }

  class InputRing {
    var entries: seq<RingEntry>
    var heldAtHorizon: Actions
    var horizonTick: int
    var droppedToOverflow: nat

    /** The frames folded since the last reset, and the state they were folded over. */
    ghost var folded: seq<InputFrame>
    ghost var base: Actions

    ghost predicate Valid()
      reads this
    {
      && |entries| <= RING_TICKS
      && heldAtHorizon == FoldFrames(base, folded)
      && (horizonTick == if folded == [] then -1 else folded[|folded| - 1].tick)
    }

    /** Every frame pushed since the last reset, in push order. */
    ghost function Sent(): seq<InputFrame>
      reads this
    {
      folded + FramesOf(entries)
    }

    constructor ()
      ensures Valid() && Sent() == [] && base == NEUTRAL
    {
      entries, heldAtHorizon, horizonTick, droppedToOverflow := [], NEUTRAL, -1, 0;
      folded, base := [], NEUTRAL;
    }

    /** Overflow folds the oldest frame into the horizon, whether or not the authority has seen it. */
    method Push(frame: InputFrame, leadAtSendTicks: real, epoch: int)
      requires Valid()
      modifies this
      ensures Valid() && base == old(base)
      ensures Sent() == old(Sent()) + [frame]
      ensures folded == old(folded) + if old(|entries|) == 48 then [old(entries)[0].frame] else []
      ensures var dropped := if old(|entries|) == RING_TICKS then 1 else 0;
              && entries == old(entries)[dropped..] + [RingEntry(frame, leadAtSendTicks, epoch)]
              && droppedToOverflow == old(droppedToOverflow) + dropped
    {
      if |entries| >= RING_TICKS {
        FoldHead();
        droppedToOverflow := droppedToOverflow + 1;
      }
      ghost var before := FramesOf(entries);
      entries := entries + [RingEntry(frame, leadAtSendTicks, epoch)];
      assert FramesOf(entries) == before + [frame];
    }

    /** A burst that fits is kept whole. */
    method PushAll(frames: seq<InputFrame>)
      requires Valid() && |entries| + |frames| <= RING_TICKS
      modifies this
      ensures Valid() && base == old(base) && folded == old(folded)
      ensures FramesOf(entries) == old(FramesOf(entries)) + frames
    {
      ghost var before := FramesOf(entries);
      assert before + frames[..0] == before;
      for i := 0 to |frames|
        invariant Valid() && base == old(base) && folded == old(folded)
        invariant |entries| == |before| + i && FramesOf(entries) == before + frames[..i]
      {
        ghost var kept := entries;
        Push(frames[i], 0.0, 0);
        FramesAppend(kept, RingEntry(frames[i], 0.0, 0), before, frames, i);
      }
      assert frames[..|frames|] == frames;
    }

    /** Prunes the leading entries at or below `number` and returns the first of them. */
    method Ack(number: int) returns (earliest: Option<RingEntry>, ghost pruned: seq<RingEntry>)
      requires Valid()
      modifies this
      ensures Valid() && base == old(base) && droppedToOverflow == old(droppedToOverflow)
      ensures Sent() == old(Sent())
      ensures old(entries) == pruned + entries
      ensures forall e :: e in pruned ==> e.frame.number <= number
      ensures entries != [] ==> entries[0].frame.number > number
      ensures earliest == if pruned == [] then None else Some(pruned[0])
    {
      earliest, pruned := None, [];
      while |entries| > 0 && entries[0].frame.number <= number
        invariant Valid() && base == old(base) && droppedToOverflow == old(droppedToOverflow)
        invariant Sent() == old(Sent())
        invariant old(entries) == pruned + entries
        invariant forall e :: e in pruned ==> e.frame.number <= number
        invariant earliest == if pruned == [] then None else Some(pruned[0])
        decreases |entries|
      {
        if earliest.None? {
          earliest := Some(entries[0]);
        }
        MoveHead(pruned, entries);
        pruned := pruned + [entries[0]];
        FoldHead();
      }
    }

    /** The shift and `#fold` both pruning paths share. */
    method FoldHead()
      requires Valid() && entries != []
      modifies this
      ensures Valid() && base == old(base) && droppedToOverflow == old(droppedToOverflow)
      ensures Sent() == old(Sent())
      ensures entries == old(entries)[1..] && folded == old(folded) + [old(entries)[0].frame]
    {
      var head := entries[0].frame;
      FoldFramesSnoc(base, folded, head);
      MoveHeadFrame(folded, entries);
      entries := entries[1..];
      heldAtHorizon := FoldTick(heldAtHorizon, head.actions);
      horizonTick := head.tick;
      folded := folded + [head];
    }

    /** A new epoch: nothing retained, and the horizon rebuilt from the live state when there is one. */
    method Reset(live: Option<Actions>)
      modifies this
      ensures Valid() && Sent() == [] && droppedToOverflow == old(droppedToOverflow)
      ensures base == if live.Some? then Reasserted(live.value, NEUTRAL) else NEUTRAL
    {
      entries, horizonTick, heldAtHorizon := [], -1, NEUTRAL;
      if live.Some? {
        heldAtHorizon := AssertHeld(live.value, heldAtHorizon);
      }
      folded, base := [], heldAtHorizon;
    }
  }

  /**
   * Overflow costs an exact replay nothing: with one frame per tick, and the newest stamped no more than a ring's
   * length past the depicted tick, the frame a full ring gives up on is already depicted.
   */
  lemma OverflowIsPast(frames: seq<InputFrame>, tick: int, depicted: int)
    requires |frames| == RING_TICKS && tick <= depicted + RING_TICKS && OnePerTick(frames, tick)
    ensures frames[0].tick <= depicted
  {
    RisesByOne(frames, RING_TICKS - 1);
  }

  /** So a horizon that was depicted stays depicted over a push. */
  lemma PushStaysPast(folded: seq<InputFrame>, retained: seq<InputFrame>, after: seq<InputFrame>, tick: int, depicted: int)
    requires AllBy(folded, depicted) && tick <= depicted + RING_TICKS && OnePerTick(retained, tick)
    requires after == folded + if |retained| == RING_TICKS then [retained[0]] else []
    ensures AllBy(after, depicted)
  {
    if |retained| == RING_TICKS {
      OverflowIsPast(retained, tick, depicted);
    }
  }

  /** Ticks strictly rise, and the next one is `tick`. */
  ghost predicate OnePerTick(frames: seq<InputFrame>, tick: int) {
    && (forall i :: 0 <= i < |frames| - 1 ==> frames[i].tick < frames[i + 1].tick)
    && (frames != [] ==> frames[|frames| - 1].tick < tick)
  }

  lemma {:induction false} RisesByOne(frames: seq<InputFrame>, k: nat)
    requires k < |frames| && forall i :: 0 <= i < |frames| - 1 ==> frames[i].tick < frames[i + 1].tick
    ensures frames[0].tick + k <= frames[k].tick
  {
    if k > 0 {
      RisesByOne(frames, k - 1);
      assert frames[k - 1].tick < frames[k - 1 + 1].tick;
    }
  }

  /** In send order an ack leaves exactly the frames past it: nothing acked hides behind a newer frame. */
  lemma AckExact(pruned: seq<RingEntry>, kept: seq<RingEntry>, number: int)
    requires Ordered(FramesOf(pruned + kept))
    requires forall e :: e in pruned ==> e.frame.number <= number
    requires kept != [] ==> kept[0].frame.number > number
    ensures forall e :: e in pruned + kept ==> (e.frame.number <= number <==> e in pruned)
  {
    var all := FramesOf(pruned + kept);
    forall i | 0 < i < |kept| ensures kept[i].frame.number > number {
      assert all[|pruned|].number < all[|pruned| + i].number;
    }
  }
}
