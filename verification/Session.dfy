/**
 * The objects that drive prediction: `Prediction` over a shared mirror and ring, and one joined `Session`
 * from its snapshot until it fails or resyncs.
 */
module Sessions {
  import opened Wrappers
  import opened ActionStates
  import opened InputRings
  import opened Predictions
  import opened Carrying
  import opened Coalescing

  const STALL_SECONDS := 1.0
  const ACK_STALL_TICKS := 60.0

  class MirrorCell {
    var state: Mirror

    constructor (state: Mirror)
      ensures this.state == state
    {
      this.state := state;
    }
  }

  /** Strictly increasing, and nothing past `top`. */
  ghost predicate RisingTo(ticks: seq<int>, top: int) {
    && (forall i, j :: 0 <= i < j < |ticks| ==> ticks[i] < ticks[j])
    && (forall i :: 0 <= i < |ticks| ==> ticks[i] <= top)
  }

  class Prediction {
    const sim: Simulation
    const mirror: MirrorCell
    const ring: InputRing

    var baseline: Option<Baseline>
    var scope: set<EntityId>
    var actions: Actions
    /** No tick above this one has ever been stepped; a step at or below it is a re-run. */
    var highestSimulated: int
    /** The tick the mirror has been stepped to; negative while it is the authority's own. */
    var predictedTick: int
    var steppedTicks: nat
    var resimulations: nat
    var cappedReplays: nat

    /** The ticks stepped with `replay` false, in order. */
    ghost var firstRuns: seq<int>

    constructor (sim: Simulation, mirror: MirrorCell, ring: InputRing)
      ensures this.sim == sim && this.mirror == mirror && this.ring == ring
      ensures predictedTick < 0 && firstRuns == [] && Counted()
    {
      this.sim, this.mirror, this.ring := sim, mirror, ring;
      baseline, scope, actions := None, {}, NEUTRAL;
      highestSimulated, predictedTick := -1, -1;
      steppedTicks, resimulations, cappedReplays := 0, 0, 0;
      firstRuns := [];
    }

    ghost predicate Counted()
      reads this
    {
      RisingTo(firstRuns, highestSimulated)
    }

    /**
     * The mirror is `auth` with at most a prediction on top: unpredicted it is `auth` itself, and predicted it
     * differs only where the captured baseline can take it back.
     */
    ghost predicate Over(auth: Mirror)
      reads this, mirror
    {
      && auth.world.tick == auth.depictedTick
      && if predictedTick < 0 then mirror.state == auth
         else
           && 0 <= auth.depictedTick <= predictedTick
           && baseline == Some(Capture(auth.world, scope, auth.depictedTick))
           && WithinScope(auth.world, mirror.state.world, scope)
           && mirror.state == auth.(world := mirror.state.world)
    }

    /** The mirror holds the authority's world stepped, tick for tick, on the authority's input. */
    ghost predicate Exact(auth: Mirror)
      reads this, mirror, ring
    {
      IsPrediction(sim, scope, ring.base, ring.Sent(), auth.world, auth.depictedTick,
                   Predicted(mirror.state.world, actions), predictedTick)
    }

    /** Gives the mirror back to the authority, ready to be written. */
    method Rewind(ghost auth: Mirror)
      requires Over(auth) && Counted()
      modifies this`predictedTick, mirror
      ensures Over(auth) && Counted() && predictedTick < 0
      ensures mirror.state == auth
    {
      if predictedTick < 0 || baseline.None? || baseline.value.tick < 0 {
        return;
      }
      RestoreUndoes(auth.world, mirror.state.world, scope, auth.depictedTick);
      var world, taken := mirror.state.world, baseline.value;
      var hosts := RestoreHosts(taken.hosts, world.hosts);
      mirror.state := mirror.state.(world := World(taken.tick, world.rows + taken.rows, taken.whole, hosts, world.hasPlayer));
      predictedTick := -1;
    }

    /** `#seedActions`: the horizon re-asserted, then the retained frames up to the depicted tick. */
    method SeedActions(depicted: int)
      requires ring.Valid()
      modifies this`actions
      ensures actions == Seed(ring.heldAtHorizon, FramesOf(ring.entries), depicted)
    {
      var frames := FramesOf(ring.entries);
      actions := AssertHeld(ring.heldAtHorizon, NEUTRAL);
      ghost var start := actions;
      var i := 0;
      while i < |frames| && frames[i].tick <= depicted
        invariant 0 <= i <= |frames|
        invariant actions == FoldFrames(start, frames[..i])
        invariant Leading(frames, depicted) == frames[..i] + Leading(frames[i..], depicted)
      {
        FoldFramesSnoc(start, frames[..i], frames[i]);
        LeadingStep(frames, i, depicted);
        actions := FoldTick(actions, frames[i].actions);
        i := i + 1;
      }
      assert Leading(frames, depicted) == frames[..i];
    }

    /** One tick of the loop, a re-run exactly when the tick has been simulated before. */
    method Step(frames: seq<InputFrame>, tick: int)
      requires Counted()
      modifies this`actions, this`highestSimulated, this`steppedTicks, this`firstRuns, mirror
      ensures Counted() && steppedTicks == old(steppedTicks) + 1
      ensures mirror.state == old(mirror.state).(world := mirror.state.world)
      ensures Predicted(mirror.state.world, actions)
              == StepTick(sim, scope, frames, Predicted(old(mirror.state.world), old(actions)), tick)
      ensures mirror.state.world == if old(mirror.state.world.hasPlayer)
                                    then sim.step(old(mirror.state.world), scope, tick, old(actions).(pressed := {}, released := {}), EdgesAt(frames, tick))
                                    else sim.step(old(mirror.state.world), scope, tick, old(actions), [])
      ensures firstRuns == if tick > old(highestSimulated) then old(firstRuns) + [tick] else old(firstRuns)
      ensures highestSimulated == if tick > old(highestSimulated) then tick else old(highestSimulated)
    {
      var replay := tick <= highestSimulated;
      var world := mirror.state.world;
      if world.hasPlayer {
        var edges := MatchingEdges(frames, tick);
        var advanced := AdvanceTick(actions);
        mirror.state := mirror.state.(world := sim.step(world, scope, tick, advanced, edges));
        actions := ApplyEdges(advanced, edges);
      } else {
        mirror.state := mirror.state.(world := sim.step(world, scope, tick, actions, []));
      }
      if !replay {
        firstRuns := firstRuns + [tick];
      }
      if tick > highestSimulated {
        highestSimulated := tick;
      }
      steppedTicks := steppedTicks + 1;
    }

    /** The tick loop of `advance`, over a span that may be empty. */
    method StepRange(frames: seq<InputFrame>, from: int, until: int)
      requires Counted() && from <= until + 1
      modifies this`actions, this`highestSimulated, this`steppedTicks, this`firstRuns, mirror
      ensures Counted() && steppedTicks == old(steppedTicks) + (until + 1 - from)
      ensures old(firstRuns) <= firstRuns && old(highestSimulated) <= highestSimulated
      ensures mirror.state == old(mirror.state).(world := mirror.state.world)
      ensures Predicted(mirror.state.world, actions)
              == StepSpan(sim, scope, frames, Predicted(old(mirror.state.world), old(actions)), from, until)
    {
      ghost var p := Predicted(mirror.state.world, actions);
      for tick := from to until + 1
        invariant Counted() && steppedTicks == old(steppedTicks) + (tick - from)
        invariant old(firstRuns) <= firstRuns && old(highestSimulated) <= highestSimulated
        invariant mirror.state == old(mirror.state).(world := mirror.state.world)
        invariant Predicted(mirror.state.world, actions) == StepSpan(sim, scope, frames, p, from, tick - 1)
      {
        Step(frames, tick);
      }
    }

    /** The span up to `localTick`, capped; a skipped start is counted. */
    method StepTo(localTick: int)
      requires Counted()
      modifies this`actions, this`highestSimulated, this`steppedTicks, this`firstRuns, this`cappedReplays, mirror
      ensures Counted()
      ensures steppedTicks == old(steppedTicks) + if localTick <= predictedTick then 0
                                                  else if localTick - predictedTick < 48 then localTick - predictedTick else 48
      ensures old(firstRuns) <= firstRuns && old(highestSimulated) <= highestSimulated
      ensures mirror.state == old(mirror.state).(world := mirror.state.world)
      ensures Predicted(mirror.state.world, actions)
              == StepSpan(sim, scope, FramesOf(ring.entries), Predicted(old(mirror.state.world), old(actions)), CapFrom(predictedTick, localTick), localTick)
      ensures cappedReplays == old(cappedReplays) + if CapFrom(predictedTick, localTick) > predictedTick + 1 then 1 else 0
    {
      var from := predictedTick + 1;
      if localTick - from >= MAX_REPLAY_TICKS {
        from := localTick - MAX_REPLAY_TICKS + 1;
        cappedReplays := cappedReplays + 1;
      }
      if from <= localTick {
        StepRange(FramesOf(ring.entries), from, localTick);
      }
    }

    /** The resimulating half of `advance`: scope, baseline and fold retaken over the authoritative mirror. */
    method Retake(ghost auth: Mirror)
      requires ring.Valid() && Over(auth) && predictedTick < 0
      modifies this`scope, this`baseline, this`actions, this`predictedTick, this`resimulations
      ensures Over(auth) && predictedTick == auth.depictedTick
      ensures scope == sim.owned(auth.world) && resimulations == old(resimulations) + 1
      ensures actions == Seed(ring.heldAtHorizon, FramesOf(ring.entries), auth.depictedTick)
      ensures Ordered(ring.Sent()) && SeedsFrom(auth) ==> Exact(auth)
    {
      var world := mirror.state.world;
      scope := sim.owned(world);
      var hosts := CaptureHosts(StateHosts(scope), world.hosts);
      baseline := Some(Baseline(mirror.state.depictedTick,
                                map e | e in scope && e in world.rows :: world.rows[e], world.whole, hosts));
      SeedActions(mirror.state.depictedTick);
      predictedTick := mirror.state.depictedTick;
      resimulations := resimulations + 1;
      if Ordered(ring.Sent()) && SeedsFrom(auth) {
        SeedIsPrediction(sim, scope, ring.base, ring.folded, FramesOf(ring.entries), auth.world, auth.depictedTick);
      }
    }

    /** The stepping half, over whatever stands: nothing at all while nothing is predicted. */
    method Carry(localTick: int, ghost auth: Mirror)
      requires Framed(sim) && Counted() && Over(auth)
      modifies this`actions, this`highestSimulated, this`predictedTick, this`steppedTicks, this`firstRuns, this`cappedReplays, mirror
      ensures Over(auth) && Counted()
      ensures old(firstRuns) <= firstRuns && old(highestSimulated) <= highestSimulated
      ensures steppedTicks <= old(steppedTicks) + MAX_REPLAY_TICKS
      ensures predictedTick == if 0 <= old(predictedTick) < localTick then localTick else old(predictedTick)
      ensures old(predictedTick) >= 0 ==>
                Predicted(mirror.state.world, actions)
                == StepSpan(sim, scope, FramesOf(ring.entries), old(Predicted(mirror.state.world, actions)), CapFrom(old(predictedTick), localTick), localTick)
      ensures old(predictedTick) < 0 ==> Predicted(mirror.state.world, actions) == old(Predicted(mirror.state.world, actions))
      ensures old(predictedTick >= 0 && Exact(auth) && Ordered(ring.Sent()) && Carries(localTick)) ==> Exact(auth)
    {
      ghost var exact := predictedTick >= 0 && Exact(auth) && Ordered(ring.Sent()) && Carries(localTick);
      ghost var before, at, from := Predicted(mirror.state.world, actions), predictedTick, CapFrom(predictedTick, localTick);
      CarryWorld(localTick, auth);
      if exact {
        PredictOn(sim, scope, ring.base, ring.folded, FramesOf(ring.entries), ring.Sent(), auth.world, auth.depictedTick,
                  before, at, from, localTick, Predicted(mirror.state.world, actions), predictedTick);
      }
    }

    method CarryWorld(localTick: int, ghost auth: Mirror)
      requires Framed(sim) && Counted() && Over(auth)
      modifies this`actions, this`highestSimulated, this`predictedTick, this`steppedTicks, this`firstRuns, this`cappedReplays, mirror
      ensures Over(auth) && Counted()
      ensures old(firstRuns) <= firstRuns && old(highestSimulated) <= highestSimulated
      ensures steppedTicks <= old(steppedTicks) + MAX_REPLAY_TICKS
      ensures predictedTick == if 0 <= old(predictedTick) < localTick then localTick else old(predictedTick)
      ensures old(predictedTick) >= 0 ==>
                Predicted(mirror.state.world, actions)
                == StepSpan(sim, scope, FramesOf(ring.entries), old(Predicted(mirror.state.world, actions)), CapFrom(old(predictedTick), localTick), localTick)
      ensures old(predictedTick) < 0 ==> Predicted(mirror.state.world, actions) == old(Predicted(mirror.state.world, actions))
    {
      if predictedTick < 0 {
        return;
      }
      SpanStaysWithin(sim, scope, FramesOf(ring.entries), auth.world, Predicted(mirror.state.world, actions), CapFrom(predictedTick, localTick), localTick);
      StepTo(localTick);
      if localTick > predictedTick {
        predictedTick := localTick;
      }
    }

    /** One call of `advance`: a fresh start from the authority when asked for, and then the ticks still to go. */
    method Advance(localTick: int, resimulate: bool, ghost auth: Mirror)
      requires Framed(sim) && ring.Valid() && Counted() && Over(auth)
      requires resimulate ==> predictedTick < 0
      modifies this, mirror
      ensures Over(auth) && Counted()
      ensures old(firstRuns) <= firstRuns && old(highestSimulated) <= highestSimulated
      ensures steppedTicks <= old(steppedTicks) + MAX_REPLAY_TICKS
      ensures var start := if resimulate then auth.depictedTick else old(predictedTick);
              predictedTick == if 0 <= start < localTick then localTick else start
      ensures resimulate ==> scope == sim.owned(auth.world)
      ensures resimulate && auth.depictedTick >= 0 ==>
                Predicted(mirror.state.world, actions)
                == Resimulated(sim, scope, ring.heldAtHorizon, FramesOf(ring.entries), auth.world, auth.depictedTick, localTick)
      ensures !resimulate ==>
                && scope == old(scope)
                && Predicted(mirror.state.world, actions)
                   == if old(predictedTick) < 0 then old(Predicted(mirror.state.world, actions))
                      else StepSpan(sim, scope, FramesOf(ring.entries), old(Predicted(mirror.state.world, actions)), CapFrom(old(predictedTick), localTick), localTick)
      ensures Ordered(ring.Sent()) && predictedTick >= 0
              && (if resimulate then SeedsFrom(auth) && localTick - auth.depictedTick <= MAX_REPLAY_TICKS
                  else old(Exact(auth) && Carries(localTick)))
              ==> Exact(auth)
    {
      if resimulate {
        Retake(auth);
      }
      Carry(localTick, auth);
    }

    /** Frames without an envelope, each flushing and then advancing, while the ring has room. */
    method CarryAll(carries: seq<Carrying.Carry>, ghost auth: Mirror)
      requires Framed(sim) && ring.Valid() && Counted() && Over(auth) && predictedTick >= 0
      requires |ring.entries| + Flushes(carries) <= RING_TICKS
      modifies this, mirror, ring
      ensures Over(auth) && Counted() && ring.Valid() && scope == old(scope)
      ensures FramesOf(ring.entries) == AllFlushed(old(FramesOf(ring.entries)), carries)
      ensures predictedTick == CarriedTick(old(predictedTick), carries) >= 0
      ensures Predicted(mirror.state.world, actions)
              == CarryForward(sim, scope, old(FramesOf(ring.entries)), old(Predicted(mirror.state.world, actions)), old(predictedTick), carries)
      decreases |carries|
    {
      if carries != [] {
        var init, last := carries[..|carries| - 1], carries[|carries| - 1];
        CarryLast(sim, scope, FramesOf(ring.entries), Predicted(mirror.state.world, actions), predictedTick, carries);
        AllFlushedLength(FramesOf(ring.entries), init);
        CarryAll(init, auth);
        ring.PushAll(last.flushed);
        Carry(last.localTick, auth);
      }
    }

    /** When a replay starts exact: the player is there and the horizon is past and faithful. */
    ghost predicate SeedsFrom(auth: Mirror)
      reads ring
    {
      && auth.world.hasPlayer
      && AllBy(ring.folded, auth.depictedTick)
      && HeldNeutral(ring.heldAtHorizon) == {}
    }

    /** When stepping stays exact: no frame was folded before its tick was stepped, and no cap applies. */
    ghost predicate Carries(localTick: int)
      reads this, ring
    {
      && AllBy(ring.folded, predictedTick)
      && localTick - predictedTick <= MAX_REPLAY_TICKS
    }
  }

  // ---------------------------------------------------------------------------------------------
  // One joined session

  /** `Closed` stands for a session that failed, or that a resync abandoned with its mirror. */
  datatype SessionState = Live | Stalled | Closed

  predicate Authoritative(e: Envelope) {
    e.State? || e.Transform?
  }

  predicate Ends(e: Envelope) {
    e.Malformed? || e.RateChange?
  }

  /** Something in the batch ends the session. */
  predicate Closing(batch: seq<Envelope>) {
    exists e :: e in batch && Ends(e)
  }

  function FoldEnvelopes(sim: Simulation, m: Mirror, envelopes: seq<Envelope>): Mirror {
    if envelopes == [] then m
    else sim.apply(FoldEnvelopes(sim, m, envelopes[..|envelopes| - 1]), envelopes[|envelopes| - 1])
  }

  /** The envelopes of a batch that reach the mirror: the authoritative ones ahead of whatever ends the session. */
  function Landing(batch: seq<Envelope>): seq<Envelope> {
    if batch == [] || Ends(batch[0]) then []
    else (if Authoritative(batch[0]) then [batch[0]] else []) + Landing(batch[1..])
  }

  predicate HasAuthority(batch: seq<Envelope>) {
    exists e :: e in batch && Authoritative(e)
  }

  function LandsAlone(e: Envelope): seq<Envelope> {
    if Authoritative(e) then [e] else []
  }

  /** No prediction ever leaked into the baseline: each envelope met the fold of all earlier ones. */
  ghost predicate NoLeak(sim: Simulation, snapshot: Mirror, landed: seq<Envelope>, seen: seq<Mirror>) {
    && |seen| == |landed|
    && forall i :: 0 <= i < |landed| ==> seen[i] == FoldEnvelopes(sim, snapshot, landed[..i])
  }

  ghost predicate InOrder(sent: seq<InputFrame>, localTick: int, nextNumber: int) {
    && Ordered(sent) && AllBy(sent, localTick)
    && forall i :: 0 <= i < |sent| ==> sent[i].number < nextNumber
  }

  /** A point in a run: the authority, the input sent, and what is predicted over them. */
  datatype Moment = Moment(auth: Mirror, base: Actions, folded: seq<InputFrame>, ring: seq<InputFrame>, localTick: int,
                           scope: set<EntityId>, predicted: Predicted, predictedTick: int, live: bool, due: bool, next: int)

  /** `Session.Timely` of a moment. */
  ghost predicate TimelyMoment(m: Moment) {
    && m.auth.world.hasPlayer && AllBy(m.folded, m.auth.depictedTick) && HeldNeutral(FoldFrames(m.base, m.folded)) == {}
    && m.auth.depictedTick <= m.localTick <= m.auth.depictedTick + MAX_REPLAY_TICKS
  }

  /** Nothing is predicted, or the world is the authority's, stepped tick for tick on the authority's own input. */
  ghost predicate ExactMoment(sim: Simulation, m: Moment) {
    m.predictedTick >= 0 ==>
      IsPrediction(sim, m.scope, m.base, m.folded + m.ring, m.auth.world, m.auth.depictedTick, m.predicted, m.predictedTick)
  }

  /**
   * The prediction has caught up with the clock: freshly resimulated from the authority when that was due, and
   * otherwise carried on from where it stood. Either way it stands at the clock's tick unless that is behind it, or
   * there is no tick to start from.
   */
  ghost predicate CatchesUp(sim: Simulation, before: Moment, after: Moment) {
    if before.due then
      && after.scope == sim.owned(after.auth.world)
      && after.predictedTick == (if 0 <= after.auth.depictedTick < after.localTick then after.localTick else after.auth.depictedTick)
      && (after.auth.depictedTick >= 0 ==>
            after.predicted == Resimulated(sim, after.scope, FoldFrames(after.base, after.folded), after.ring,
                                           after.auth.world, after.auth.depictedTick, after.localTick))
    else
      && after.scope == before.scope
      && after.predictedTick == (if 0 <= before.predictedTick < after.localTick then after.localTick else before.predictedTick)
      && after.predicted == if before.predictedTick < 0 then before.predicted
                            else StepSpan(sim, after.scope, after.ring, before.predicted,
                                          CapFrom(before.predictedTick, after.localTick), after.localTick)
  }

  /** The newest number acknowledged, when that last moved, and the entries still waiting. */
  datatype Ledger = Ledger(ack: int, still: real, entries: seq<RingEntry>)

  /** What an ack leaves waiting: exactly the entries past it, in the order they were in. */
  ghost predicate Unacked(was: seq<RingEntry>, kept: seq<RingEntry>, number: int) {
    && |kept| <= |was| && kept == was[|was| - |kept|..]
    && forall e :: e in was ==> (e in kept <==> e.frame.number > number)
  }

  /** The entries from the first one past `number` on. */
  function From(entries: seq<RingEntry>, number: int): seq<RingEntry> {
    if entries == [] || entries[0].frame.number > number then entries else From(entries[1..], number)
  }

  function Settled(books: Ledger, e: Envelope, time: real): Ledger {
    if e.State? && e.ackSeq > books.ack then Ledger(e.ackSeq, time, From(books.entries, e.ackSeq)) else books
  }

  function SettledAll(books: Ledger, got: seq<Envelope>, time: real): Ledger {
    if got == [] then books else Settled(SettledAll(books, got[..|got| - 1], time), got[|got| - 1], time)
  }

  /** The highest number acked stands, and when it moved, so did the time, and what it covers waits no more. */
  ghost predicate Settles(got: seq<Envelope>, was: Ledger, now: Ledger, time: real) {
    && was.ack <= now.ack
    && (forall e :: e in got && e.State? ==> e.ackSeq <= now.ack)
    && (now.ack > was.ack ==> exists e :: e in got && e.State? && e.ackSeq == now.ack)
    && if now.ack == was.ack then now == was else now.still == time && Unacked(was.entries, now.entries, now.ack)
  }

  /** The newest number acknowledged, when that last moved, and when anything last arrived. */
  datatype Times = Times(ack: int, still: real, heard: Option<real>)

  function Watched(times: Times, batch: seq<Envelope>, time: real): Times {
    if batch == [] then times
    else
      var books := SettledAll(Ledger(times.ack, times.still, []), Landing(batch), time);
      Times(books.ack, books.still, Some(time))
  }

  /** Numbers and times go their way whatever is waiting. */
  lemma {:induction false} AcksAlone(books: Ledger, got: seq<Envelope>, time: real)
    ensures var alone := SettledAll(books.(entries := []), got, time);
            SettledAll(books, got, time).ack == alone.ack && SettledAll(books, got, time).still == alone.still
    decreases |got|
  {
    if got != [] {
      AcksAlone(books, got[..|got| - 1], time);
    }
  }

  /** What a batch does to the times: any envelope resets the drought, and only a higher number the ack's. */
  lemma {:induction false} WatchedIs(times: Times, batch: seq<Envelope>, time: real)
    ensures var after := Watched(times, batch, time);
            && after.heard == (if batch == [] then times.heard else Some(time))
            && after.still == (if after.ack == times.ack then times.still else time)
            && after.ack >= times.ack && (forall e :: e in Landing(batch) && e.State? ==> e.ackSeq <= after.ack)
            && (after.ack > times.ack ==> exists e :: e in Landing(batch) && e.State? && e.ackSeq == after.ack)
  {
    if batch != [] {
      SettledIsSettles(Ledger(times.ack, times.still, []), Landing(batch), time);
    }
  }

  lemma {:induction false} SettledNext(books: Ledger, got: seq<Envelope>, e: Envelope, time: real)
    ensures SettledAll(books, got + LandsAlone(e), time) == SettledAll(SettledAll(books, got, time), LandsAlone(e), time)
  {
    if Authoritative(e) {
      assert (got + [e])[..|got|] == got && [e][..0] == [];
    } else {
      assert got + [] == got;
    }
  }

  /** Everything a batch of envelopes reaches. */
  datatype Intake = Intake(landed: seq<Envelope>, books: Ledger, mirror: Mirror)

  ghost predicate TakesIn(batch: seq<Envelope>, before: Intake, after: Intake, time: real) {
    && after.landed == before.landed + Landing(batch)
    && after.books == SettledAll(before.books, Landing(batch), time)
    && (!HasAuthority(batch) ==> after.mirror == before.mirror)
  }

  lemma {:induction false} FromPruned(pruned: seq<RingEntry>, kept: seq<RingEntry>, number: int)
    requires forall e :: e in pruned ==> e.frame.number <= number
    requires kept != [] ==> kept[0].frame.number > number
    ensures From(pruned + kept, number) == kept
    decreases |pruned|
  {
    if pruned == [] {
      assert pruned + kept == kept;
    } else {
      assert (pruned + kept)[1..] == pruned[1..] + kept;
      FromPruned(pruned[1..], kept, number);
    }
  }

  /** In send order nothing acked hides behind a newer entry. */
  lemma {:induction false} FromIsUnacked(entries: seq<RingEntry>, number: int)
    requires Ordered(FramesOf(entries))
    ensures Unacked(entries, From(entries, number), number)
    decreases |entries|
  {
    if entries != [] {
      var rest := entries[1..];
      assert FramesOf(entries)[1..] == FramesOf(rest);
      if entries[0].frame.number > number {
        forall i | 0 <= i < |entries| ensures entries[i].frame.number > number {
          assert FramesOf(entries)[0] == entries[0].frame && FramesOf(entries)[i] == entries[i].frame;
        }
      } else {
        FromIsUnacked(rest, number);
        assert entries == [entries[0]] + rest;
      }
    }
  }

  lemma {:induction false} UnackedOrdered(was: seq<RingEntry>, kept: seq<RingEntry>)
    requires Ordered(FramesOf(was)) && |kept| <= |was| && kept == was[|was| - |kept|..]
    ensures Ordered(FramesOf(kept))
  {
    forall i | 0 <= i < |kept| ensures FramesOf(kept)[i] == FramesOf(was)[|was| - |kept| + i] {
    }
  }

  /** Over any envelopes, with the entries in send order. */
  lemma {:induction false} SettledIsSettles(books: Ledger, got: seq<Envelope>, time: real)
    requires Ordered(FramesOf(books.entries))
    ensures Settles(got, books, SettledAll(books, got, time), time)
    decreases |got|
  {
    if got != [] {
      var init, e := got[..|got| - 1], got[|got| - 1];
      assert got == init + [e];
      var before := SettledAll(books, init, time);
      SettledIsSettles(books, init, time);
      if before.ack > books.ack {
        UnackedOrdered(books.entries, before.entries);
      }
      if e.State? {
        FromIsUnacked(before.entries, e.ackSeq);
      }
      SettlesNext(init, [e], books, before, Settled(before, e, time), time);
    }
  }

  lemma UnackedTwice(a: seq<RingEntry>, b: seq<RingEntry>, c: seq<RingEntry>, first: int, second: int)
    requires Unacked(a, b, first) && Unacked(b, c, second) && first <= second
    ensures Unacked(a, c, second)
  {
  }

  lemma SettlesNext(got: seq<Envelope>, more: seq<Envelope>, a: Ledger, b: Ledger, c: Ledger, time: real)
    requires Settles(got, a, b, time) && Settles(more, b, c, time)
    ensures Settles(got + more, a, c, time)
  {
    if c.ack > b.ack {
      var x :| x in more && x.State? && x.ackSeq == c.ack;
      assert x in got + more;
      if b.ack > a.ack {
        UnackedTwice(a.entries, b.entries, c.entries, b.ack, c.ack);
      }
    } else if b.ack > a.ack {
      var x :| x in got && x.State? && x.ackSeq == b.ack;
      assert x in got + more;
    }
  }

  /** Nothing about the prediction has moved. */
  ghost predicate StandsStill(before: Moment, after: Moment) {
    after.scope == before.scope && after.predicted == before.predicted && after.predictedTick == before.predictedTick
  }

  function SentBy(m: Moment): seq<InputFrame> {
    m.folded + m.ring
  }

  /** One frame's worth of input went out, or none did. */
  ghost predicate Sends(before: Moment, after: Moment, tick: int, edges: seq<Edge>) {
    && after.base == before.base
    && if edges == [] then SentBy(after) == SentBy(before) && after.next == before.next
       else SentBy(after) == SentBy(before) + [InputFrame(tick, before.next, Coalesced(edges))] && after.next == before.next + 1
  }

  /** A batch drained: the authority is folded on, and where it spoke the prediction is gone and due again. */
  ghost predicate Drains(sim: Simulation, batch: seq<Envelope>, before: Moment, after: Moment) {
    && after.auth == FoldEnvelopes(sim, before.auth, Landing(batch))
    && Sends(before, after, 0, []) && after.localTick == before.localTick && after.live == (before.live && !Closing(batch))
    && if HasAuthority(batch) then after.due && after.predictedTick < 0
       else after.due == before.due && StandsStill(before, after)
  }

  /** The rest of a frame: the clock moves unless the session is over, and a live one flushes and predicts. */
  ghost predicate Plays(sim: Simulation, newTick: int, pending: seq<Edge>, over: bool, before: Moment, after: Moment) {
    && after.auth == before.auth && after.live == before.live && !after.due
    && after.localTick == (if over then before.localTick else newTick)
    && Sends(before, after, newTick, if newTick > before.localTick && before.live then pending else [])
    && if before.live then CatchesUp(sim, before, after) else StandsStill(before, after)
  }

  /** A whole display frame of a session that is not over: drained, then played. */
  ghost predicate FrameFollows(sim: Simulation, batch: seq<Envelope>, newTick: int, pending: seq<Edge>, before: Moment, after: Moment) {
    && after.auth == FoldEnvelopes(sim, before.auth, Landing(batch)) && !after.due
    && after.localTick == (if Closing(batch) then before.localTick else newTick)
    && Sends(before, after, newTick, if newTick > before.localTick && before.live && !Closing(batch) then pending else [])
    && if before.live && !Closing(batch) then CatchesUp(sim, before.(due := before.due || HasAuthority(batch)), after)
       else if HasAuthority(batch) then after.predictedTick < 0 else StandsStill(before, after)
  }

  /** The same, whatever liveness makes of the session then. */
  ghost predicate PlaysOn(sim: Simulation, newTick: int, pending: seq<Edge>, over: bool, before: Moment, after: Moment) {
    Plays(sim, newTick, pending, over, before, after.(live := before.live))
  }

  lemma FrameComposes(sim: Simulation, batch: seq<Envelope>, newTick: int, pending: seq<Edge>, before: Moment, drained: Moment, after: Moment)
    requires Drains(sim, batch, before, drained) && PlaysOn(sim, newTick, pending, Closing(batch), drained, after)
    ensures FrameFollows(sim, batch, newTick, pending, before, after)
  {
  }

  class Session {
    const sim: Simulation
    const mirror: MirrorCell
    const ring: InputRing
    const prediction: Prediction

    var state: SessionState
    /** Set by a batch with authority in it, spent by the next `Predict`. */
    var resimulate: bool
    var ackSeq: int
    var nextNumber: int
    var localTick: int
    const simRate: real
    /** When anything last arrived, and when the acknowledged number last moved. */
    var lastEnvelopeAt: Option<real>
    var ackStillAt: real

    /** The join snapshot, every envelope applied since, and the mirror each of them was applied to. */
    ghost const snapshot: Mirror
    ghost var landed: seq<Envelope>
    ghost var seen: seq<Mirror>
    /** Nothing has happened since the last resimulation that prediction does not account for. */
    ghost var exact: bool

    /** The authoritative mirror: the envelopes folded over the snapshot, with no prediction in it. */
    ghost function Auth(): Mirror
      reads this`landed
    {
      FoldEnvelopes(sim, snapshot, landed)
    }

    ghost predicate Wired() {
      simRate > 0.0 && prediction.sim == sim && prediction.mirror == mirror && prediction.ring == ring && Framed(sim) && TicksFollow(sim)
    }

    /** Frames go out in order, stamped no later than the clock. */
    ghost predicate SendsInOrder()
      reads this`localTick, this`nextNumber, ring
    {
      ring.Valid() && InOrder(ring.Sent(), localTick, nextNumber)
    }

    /** The authority can be had back: nothing leaked into it, and what is predicted over it can be undone. */
    ghost predicate Grounded()
      reads this`landed, this`seen, this`resimulate, prediction, prediction.mirror
    {
      && NoLeak(sim, snapshot, landed, seen)
      && prediction.Counted() && prediction.Over(Auth())
      && (resimulate ==> prediction.predictedTick < 0)
    }

    ghost predicate Valid()
      reads this, mirror, ring, prediction, prediction.mirror, prediction.ring
    {
      && Wired() && SendsInOrder() && Grounded()
      && (exact && prediction.predictedTick >= 0 ==> prediction.Exact(Auth()) && prediction.predictedTick <= localTick)
    }

    /**
     * What an exact prediction asks of a frame: the player is in the roster, everything the ring gave up on is
     * depicted, nothing is held at a neutral axis on the horizon, and the clock leads the depicted tick by no more
     * than one replay.
     */
    ghost predicate Timely()
      reads this, prediction.ring
    {
      prediction.SeedsFrom(Auth()) && Auth().depictedTick <= localTick <= Auth().depictedTick + MAX_REPLAY_TICKS
    }

    /** The clock's tick has been stepped, so a frame stamped with it comes late. */
    ghost predicate Late()
      reads this, prediction
    {
      0 <= prediction.predictedTick && localTick <= prediction.predictedTick
    }

    /** What acks have settled so far. */
    ghost function Books(): Ledger
      reads this`ackSeq, this`ackStillAt, ring
    {
      Ledger(ackSeq, ackStillAt, ring.entries)
    }

    /** The times liveness goes by. */
    ghost function Watch(): Times
      reads this`ackSeq, this`ackStillAt, this`lastEnvelopeAt
    {
      Times(ackSeq, ackStillAt, lastEnvelopeAt)
    }

    ghost function Inbox(): Intake
      reads this`landed, this`ackSeq, this`ackStillAt, mirror, ring
    {
      Intake(landed, Books(), mirror.state)
    }

    /** The moment as a value. */
    ghost function Now(): Moment
      reads this, mirror, ring, prediction
    {
      Moment(Auth(), ring.base, ring.folded, FramesOf(ring.entries), localTick, prediction.scope,
             Predicted(mirror.state.world, prediction.actions), prediction.predictedTick, state == Live, resimulate, nextNumber)
    }

    lemma MomentOf()
      requires Valid()
      ensures exact ==> ExactMoment(sim, Now())
      ensures Timely() <==> TimelyMoment(Now())
    {
    }

    constructor (sim: Simulation, snapshot: Mirror, ring: InputRing, nextNumber: int, localTick: int, simRate: real, now: real)
      requires Framed(sim) && TicksFollow(sim) && snapshot.world.tick == snapshot.depictedTick
      requires ring.Valid() && ring.Sent() == [] && simRate > 0.0
      ensures Valid() && fresh(mirror) && fresh(prediction) && this.ring == ring
      ensures this.sim == sim && this.snapshot == snapshot && landed == [] && state == Live && resimulate && exact
      ensures this.simRate == simRate && lastEnvelopeAt == None && ackStillAt == now
    {
      this.sim, this.ring, this.snapshot, this.simRate := sim, ring, snapshot, simRate;
      lastEnvelopeAt, ackStillAt := None, now;
      var cell := new MirrorCell(snapshot);
      mirror := cell;
      prediction := new Prediction(sim, cell, ring);
      state, resimulate, ackSeq := Live, true, -1;
      this.nextNumber, this.localTick := nextNumber, localTick;
      landed, seen, exact := [], [], true;
      new;
      assert InOrder(ring.Sent(), localTick, nextNumber);
      assert prediction.Over(snapshot) && Auth() == snapshot;
    }

    /** Writes one authoritative envelope; the prediction is already out of the mirror. */
    method Land(e: Envelope)
      requires Valid() && prediction.predictedTick < 0 && Authoritative(e)
      modifies this`landed, this`seen, mirror
      ensures Valid() && mirror.state == Auth()
      ensures landed == old(landed) + [e] && seen == old(seen) + [old(mirror.state)]
    {
      LandedNext(sim, snapshot, landed, seen, mirror.state, e);
      landed, seen := landed + [e], seen + [mirror.state];
      mirror.state := sim.apply(mirror.state, e);
    }

    /** The ack half of `#onState`: the ring is pruned once per new `ackSeq`. */
    method Acknowledge(e: Envelope, now: real)
      requires Valid() && prediction.predictedTick < 0
      modifies this`ackSeq, this`ackStillAt, ring
      ensures Valid() && ring.Sent() == old(ring.Sent()) && ring.base == old(ring.base)
      ensures ackSeq == if e.State? && e.ackSeq > old(ackSeq) then e.ackSeq else old(ackSeq)
      ensures ackStillAt == if ackSeq > old(ackSeq) then now else old(ackStillAt)
      ensures Books() == Settled(old(Books()), e, now)
    {
      if e.State? && e.ackSeq > ackSeq {
        ackStillAt := now;
        ackSeq := e.ackSeq;
        var earliest, pruned := ring.Ack(e.ackSeq);
        FromPruned(pruned, ring.entries, e.ackSeq);
      }
    }

    method Receive(e: Envelope, now: real)
      requires Valid() && prediction.predictedTick < 0 && Authoritative(e)
      modifies this`landed, this`seen, this`ackSeq, this`ackStillAt, mirror, ring
      ensures Valid() && landed == old(landed) + [e]
      ensures ring.Sent() == old(ring.Sent()) && ring.base == old(ring.base)
      ensures Books() == Settled(old(Books()), e, now)
    {
      Land(e);
      Acknowledge(e, now);
    }

    /** The session failed, or a resync abandoned it. */
    method End()
      requires Valid()
      modifies this`state
      ensures Valid() && state == Closed
    {
      state := Closed;
    }

    /** The dispatch loop of `#drainInbox`, over a mirror the rewind has already cleared when it must be. */
    method Dispatch(batch: seq<Envelope>, now: real)
      requires Valid() && state != Closed
      requires forall e :: e in batch && Authoritative(e) ==> prediction.predictedTick < 0
      modifies this`landed, this`seen, this`ackSeq, this`ackStillAt, this`state, mirror, ring
      ensures Valid()
      ensures TakesIn(batch, old(Inbox()), Inbox(), now)
      ensures ring.Sent() == old(ring.Sent()) && ring.base == old(ring.base)
      ensures state == if Closing(batch) then Closed else old(state)
    {
      var at := 0;
      IntakeStarts(batch, Inbox(), now);
      while at < |batch|
        invariant 0 <= at <= |batch| && Valid() && state == old(state) && !Closing(batch[..at])
        invariant ring.Sent() == old(ring.Sent()) && ring.base == old(ring.base)
        invariant TakesIn(batch[..at], old(Inbox()), Inbox(), now)
      {
        ghost var inbox := Inbox();
        DispatchOne(batch[at], now);
        TakesInNext(batch, at, old(Inbox()), inbox, Inbox(), now);
        if state == Closed {
          return;
        }
        at := at + 1;
      }
      assert batch[..at] == batch;
    }

    /** `#dispatch`: an authoritative envelope is received, one that ends the session ends it, and others write nothing. */
    method DispatchOne(e: Envelope, now: real)
      requires Valid() && state != Closed && (Authoritative(e) ==> prediction.predictedTick < 0)
      modifies this`landed, this`seen, this`ackSeq, this`ackStillAt, this`state, mirror, ring
      ensures Valid() && TakesIn([e], old(Inbox()), Inbox(), now)
      ensures ring.Sent() == old(ring.Sent()) && ring.base == old(ring.base)
      ensures state == if Ends(e) then Closed else old(state)
    {
      ghost var inbox := Inbox();
      if Ends(e) {
        End();
      } else if Authoritative(e) {
        Receive(e, now);
      }
      TakesInOne(e, inbox, mirror.state, now);
    }

    /** `#drainInbox`: the prediction goes before any of the batch is applied, and the batch is applied in order. */
    method Drain(batch: seq<Envelope>, now: real)
      requires Valid() && state != Closed
      modifies this`landed, this`seen, this`ackSeq, this`ackStillAt, this`lastEnvelopeAt, this`resimulate, this`state, mirror, ring, prediction`predictedTick
      ensures Valid()
      ensures landed == old(landed) + Landing(batch)
      ensures ring.Sent() == old(ring.Sent()) && ring.base == old(ring.base)
      ensures state == if Closing(batch) then Closed else old(state)
      ensures if HasAuthority(batch)
              then resimulate && mirror.state == Auth()
              else resimulate == old(resimulate) && prediction.predictedTick == old(prediction.predictedTick)
      ensures Books() == SettledAll(old(Books()), Landing(batch), now)
      ensures Watch() == Watched(old(Watch()), batch, now)
      ensures Drains(sim, batch, old(Now()), Now())
    {
      if batch == [] {
        return;
      }
      ghost var was, books := landed, Books();
      Ready(batch, now);
      Dispatch(batch, now);
      FoldOnto(sim, snapshot, was, Landing(batch));
      AcksAlone(books, Landing(batch), now);
    }

    /** Ahead of the batch: the arrival noted, and the prediction taken back when authority is about to be written. */
    method Ready(batch: seq<Envelope>, now: real)
      requires Valid()
      modifies this`lastEnvelopeAt, this`resimulate, mirror, prediction`predictedTick
      ensures Valid() && lastEnvelopeAt == Some(now)
      ensures if HasAuthority(batch)
              then resimulate && prediction.predictedTick < 0
              else resimulate == old(resimulate) && prediction.predictedTick == old(prediction.predictedTick) && mirror.state == old(mirror.state)
    {
      lastEnvelopeAt := Some(now);
      if HasAuthority(batch) {
        prediction.Rewind(Auth());
        resimulate := true;
      }
    }

    /**
     * `#flushInput`: the pending edges framed and pushed, stamped with the clock's tick. Refused input is
     * dropped, except the releases a focus loss sends at once, whose tick may already have been stepped.
     */
    method Flush(pending: seq<Edge>, focusLoss: bool)
      requires Valid()
      modifies this`nextNumber, this`exact, ring
      ensures Valid() && ring.base == old(ring.base)
      ensures pending == [] || !(focusLoss || state == Live) ==>
                ring.Sent() == old(ring.Sent()) && exact == old(exact) && nextNumber == old(nextNumber)
      ensures pending != [] && (focusLoss || state == Live) ==>
                && ring.Sent() == old(ring.Sent()) + [InputFrame(localTick, old(nextNumber), Coalesced(pending))]
                && nextNumber == old(nextNumber) + 1
                && exact == (old(exact) && !Late())
      ensures old(Unhurried()) ==> AllBy(ring.folded, Auth().depictedTick)
    {
      if pending == [] || !(focusLoss || state == Live) {
        return;
      }
      var actions := Coalesce(pending);
      Send(InputFrame(localTick, nextNumber, actions));
    }

    method Send(frame: InputFrame)
      requires Valid() && frame.tick == localTick && frame.number == nextNumber
      modifies this`nextNumber, this`exact, ring
      ensures Valid() && ring.base == old(ring.base) && nextNumber == old(nextNumber) + 1
      ensures ring.Sent() == old(ring.Sent()) + [frame]
      ensures exact == (old(exact) && !Late())
      ensures old(Unhurried()) ==> AllBy(ring.folded, Auth().depictedTick)
    {
      ghost var unhurried, folded, retained := Unhurried(), ring.folded, FramesOf(ring.entries);
      exact := exact && !Late();
      if exact && prediction.predictedTick >= 0 {
        PredictionKeepsPush(sim, prediction.scope, ring.base, ring.Sent(), frame, Auth().world, Auth().depictedTick,
                            Predicted(mirror.state.world, prediction.actions), prediction.predictedTick);
      }
      OrderedPush(ring.Sent(), frame, localTick, nextNumber);
      nextNumber := nextNumber + 1;
      ring.Push(frame, 0.0, 0);
      if unhurried {
        PushStaysPast(folded, retained, ring.folded, localTick, Auth().depictedTick);
      }
    }

    /** One frame a tick so far, the clock within a ring's length of the depicted tick, and the horizon depicted. */
    ghost predicate Unhurried()
      reads this`landed, this`localTick, ring
    {
      && AllBy(ring.folded, Auth().depictedTick) && localTick <= Auth().depictedTick + RING_TICKS
      && OnePerTick(FramesOf(ring.entries), localTick)
    }

    /** `#predict`: the request to resimulate is spent even on a frame that does not advance. */
    method Predict()
      requires Valid()
      modifies this`resimulate, this`exact, prediction, mirror
      ensures Valid() && !resimulate
      ensures state != Live ==> StandsStill(old(Now()), Now()) && exact == old(exact)
      ensures state == Live ==> CatchesUp(sim, old(Now()), Now())
      ensures state == Live && old(resimulate) ==> exact == Timely()
      ensures state == Live && !old(resimulate) ==>
                exact == old(exact && (prediction.predictedTick < 0 || prediction.Carries(localTick)))
      ensures old(exact) && Timely() ==> exact
      ensures old(prediction.firstRuns) <= prediction.firstRuns
      ensures prediction.steppedTicks <= old(prediction.steppedTicks) + MAX_REPLAY_TICKS
    {
      var again := resimulate;
      resimulate := false;
      if state != Live {
        return;
      }
      exact := if again then Timely() else exact && (prediction.predictedTick < 0 || prediction.Carries(localTick));
      prediction.Advance(localTick, again, Auth());
    }

    /** The clock's own step, which never goes back. */
    method Tick(newTick: int)
      requires Valid() && localTick <= newTick
      modifies this`localTick
      ensures Valid() && localTick == newTick
    {
      localTick := newTick;
    }

    /** Nothing has arrived for a second, or input is waiting on an ack that has stood still for sixty ticks. */
    predicate Silent(now: real)
      requires simRate > 0.0
      reads this, ring
    {
      || (lastEnvelopeAt.Some? && now - lastEnvelopeAt.value >= STALL_SECONDS)
      || (|ring.entries| > 0 && now - ackStillAt >= ACK_STALL_TICKS / simRate)
    }

    /** `#checkLiveness`: it alone moves a session between live and stalled, both ways. */
    method Judge(now: real)
      requires Valid()
      modifies this`state
      ensures Valid() && state == if old(state) == Closed then Closed else if Silent(now) then Stalled else Live
      ensures old(state) != Closed ==>
                (state == Stalled <==> || (lastEnvelopeAt.Some? && now >= lastEnvelopeAt.value + 1.0)
                                       || (ring.entries != [] && (now - ackStillAt) * simRate >= 60.0))
    {
      WaitsInTicks(now - ackStillAt, simRate);
      if state == Closed {
        return;
      }
      var drought := lastEnvelopeAt.Some? && now - lastEnvelopeAt.value >= STALL_SECONDS;
      var ackFrozen := |ring.entries| > 0 && now - ackStillAt >= ACK_STALL_TICKS / simRate;
      if drought || ackFrozen {
        state := Stalled;
      } else if state == Stalled {
        state := Live;
      }
    }

    /** One display frame: drain, advance the clock, flush, predict, and let liveness decide the state. */
    method Frame(batch: seq<Envelope>, newTick: int, pending: seq<Edge>, now: real)
      requires Valid() && localTick <= newTick
      modifies this, mirror, ring, prediction
      ensures Valid()
      ensures landed == old(landed) + if old(state) == Closed then [] else Landing(batch)
      ensures old(prediction.firstRuns) <= prediction.firstRuns
      ensures prediction.steppedTicks <= old(prediction.steppedTicks) + MAX_REPLAY_TICKS
      ensures localTick == if old(state) == Closed || Closing(batch) then old(localTick) else newTick
      ensures state == if old(state) == Closed || Closing(batch) then Closed
                       else if Silent(now) then Stalled else Live
      ensures old(exact) && Timely() ==> exact
      ensures old(state) == Live && !Closing(batch) && (old(resimulate) || HasAuthority(batch)) && Timely() ==> exact
      ensures old(state) != Closed ==> FrameFollows(sim, batch, newTick, pending, old(Now()), Now())
      ensures Watch() == if old(state) == Closed then old(Watch()) else Watched(old(Watch()), batch, now)
    {
      if state == Closed {
        PlayOn(newTick, pending, now);
      } else {
        FrameOpen(batch, newTick, pending, now);
      }
    }

    /** The frame of a session that is not over. */
    method FrameOpen(batch: seq<Envelope>, newTick: int, pending: seq<Edge>, now: real)
      requires Valid() && localTick <= newTick && state != Closed
      modifies this, mirror, ring, prediction
      ensures Valid()
      ensures landed == old(landed) + Landing(batch)
      ensures old(prediction.firstRuns) <= prediction.firstRuns
      ensures prediction.steppedTicks <= old(prediction.steppedTicks) + MAX_REPLAY_TICKS
      ensures state == if Closing(batch) then Closed else if Silent(now) then Stalled else Live
      ensures old(exact) && Timely() ==> exact
      ensures old(state) == Live && !Closing(batch) && (old(resimulate) || HasAuthority(batch)) && Timely() ==> exact
      ensures FrameFollows(sim, batch, newTick, pending, old(Now()), Now())
      ensures Watch() == Watched(old(Watch()), batch, now)
    {
      Drain(batch, now);
      ghost var drained := Now();
      PlayOn(newTick, pending, now);
      FrameComposes(sim, batch, newTick, pending, old(Now()), drained, Now());
    }

    /** The part of a frame behind the drain. */
    method PlayOn(newTick: int, pending: seq<Edge>, now: real)
      requires Valid() && localTick <= newTick
      modifies this`localTick, this`nextNumber, this`exact, this`resimulate, this`state, ring, mirror, prediction
      ensures Valid() && localTick == if old(state) == Closed then old(localTick) else newTick
      ensures state == if old(state) == Closed then Closed else if Silent(now) then Stalled else Live
      ensures PlaysOn(sim, newTick, pending, old(state) == Closed, old(Now()), Now())
      ensures old(exact) && Timely() ==> exact
      ensures old(state) == Live && old(resimulate) && Timely() ==> exact
      ensures old(prediction.firstRuns) <= prediction.firstRuns
      ensures prediction.steppedTicks <= old(prediction.steppedTicks) + MAX_REPLAY_TICKS
    {
      Play(newTick, pending);
      ghost var played := Now();
      Judge(now);
      assert Now() == played.(live := state == Live);
    }

    /**
     * What a frame does once drained: with a new tick, input is flushed under it; then the prediction catches up with
     * the clock, that tick included.
     */
    method Play(newTick: int, pending: seq<Edge>)
      requires Valid() && localTick <= newTick
      modifies this`localTick, this`nextNumber, this`exact, this`resimulate, ring, mirror, prediction
      ensures Valid() && localTick == if state == Closed then old(localTick) else newTick
      ensures Plays(sim, newTick, pending, state == Closed, old(Now()), Now())
      ensures old(exact) && Timely() ==> exact
      ensures state == Live && old(resimulate) && Timely() ==> exact
      ensures old(prediction.firstRuns) <= prediction.firstRuns
      ensures prediction.steppedTicks <= old(prediction.steppedTicks) + MAX_REPLAY_TICKS
    {
      if state != Closed && newTick > localTick {
        Tick(newTick);
        Flush(pending, false);
      }
      Predict();
    }
  }

  // ---------------------------------------------------------------------------------------------
  // Whole runs

  /** A display frame, or the immediate flush a focus loss makes between frames. */
  datatype Event =
    | FrameEvent(batch: seq<Envelope>, ticks: nat, pending: seq<Edge>, now: real)
    | FocusLoss(releases: seq<Edge>)

  function Lands(event: Event): seq<Envelope> {
    if event.FocusLoss? then [] else Landing(event.batch)
  }

  predicate Closes(event: Event) {
    event.FrameEvent? && Closing(event.batch)
  }

  /** The authoritative envelopes a run delivers before anything ends the session. */
  function Delivered(events: seq<Event>): seq<Envelope> {
    if events == [] then []
    else Lands(events[0]) + if Closes(events[0]) then [] else Delivered(events[1..])
  }

  lemma {:induction false} DeliveredStep(landed: seq<Envelope>, events: seq<Event>)
    requires events != []
    ensures landed + Delivered(events)
            == if Closes(events[0]) then landed + Lands(events[0])
               else landed + Lands(events[0]) + Delivered(events[1..])
  {
    var first, rest := Lands(events[0]), Delivered(events[1..]);
    if Closes(events[0]) {
      assert Delivered(events) == first + [];
    } else {
      assert Delivered(events) == first + rest;
      Reassociated(landed, first, rest);
    }
  }

  /** Seconds against a threshold in ticks. */
  lemma WaitsInTicks(waited: real, rate: real)
    requires rate > 0.0
    ensures waited >= ACK_STALL_TICKS / rate <==> waited * rate >= 60.0
  {
    var least := ACK_STALL_TICKS / rate;
    assert least * rate == 60.0;
    if waited >= least {
      assert (waited - least) * rate >= 0.0;
    } else {
      assert (least - waited) * rate > 0.0;
    }
  }

  lemma Reassociated(a: seq<Envelope>, b: seq<Envelope>, c: seq<Envelope>)
    ensures a + (b + c) == a + b + c
  {
  }

  /** What an exact run asks of each event: frames end timely, and no focus loss sends on a tick already stepped. */
  ghost predicate Keeps(event: Event, before: Moment, after: Moment) {
    match event
    case FrameEvent(_, _, _, _) => TimelyMoment(after)
    case FocusLoss(releases) => releases == [] || !(0 <= before.predictedTick && before.localTick <= before.predictedTick)
  }

  /** A frame that resimulates while live and ends timely, whatever went before. */
  ghost predicate Restores(event: Event, before: Moment, after: Moment) {
    && event.FrameEvent? && before.live && !Closing(event.batch)
    && (before.due || HasAuthority(event.batch)) && TimelyMoment(after)
  }

  /** What an event does to everything a moment holds but liveness, which is `Judge`'s. */
  ghost predicate Follows(sim: Simulation, event: Event, before: Moment, after: Moment) {
    match event
    case FrameEvent(batch, ticks, pending, _) => FrameFollows(sim, batch, before.localTick + ticks, pending, before, after)
    case FocusLoss(releases) =>
      && after.auth == before.auth && after.localTick == before.localTick && after.live == before.live && after.due == before.due
      && StandsStill(before, after) && Sends(before, after, before.localTick, releases)
  }

  /** A frame that resimulates while live, over a depicted tick the clock has reached, brings the prediction to the clock. */
  ghost predicate Arrives(event: Event, before: Moment, after: Moment) {
    && event.FrameEvent? && before.live && !Closing(event.batch) && (before.due || HasAuthority(event.batch))
    && 0 <= after.auth.depictedTick <= after.localTick
    ==> after.predictedTick == after.localTick
  }

  method Happen(session: Session, event: Event)
    requires session.Valid() && session.state != Closed
    modifies session, session.mirror, session.ring, session.prediction
    ensures session.Valid()
    ensures session.landed == old(session.landed) + Lands(event)
    ensures old(session.prediction.firstRuns) <= session.prediction.firstRuns
    ensures session.state == Closed <==> Closes(event)
    ensures old(session.exact) && Keeps(event, old(session.Now()), session.Now()) ==> session.exact
    ensures Restores(event, old(session.Now()), session.Now()) ==> session.exact
    ensures session.exact ==> ExactMoment(session.sim, session.Now())
    ensures Follows(session.sim, event, old(session.Now()), session.Now())
  {
    match event {
      case FocusLoss(releases) =>
        session.Flush(releases, true);
      case FrameEvent(batch, ticks, pending, now) =>
        session.Frame(batch, session.localTick + ticks, pending, now);
    }
    session.MomentOf();
  }

  /** Exact after the event: it was and the event kept it, or the event restored it. */
  ghost predicate StaysExact(exact: bool, event: Event, before: Moment, after: Moment) {
    (exact && Keeps(event, before, after)) || Restores(event, before, after)
  }

  /**
   * Moment by moment each event does what it should, and the prediction is exact while every event keeps it, and again
   * from each event that restores it.
   */
  ghost predicate ExactAlong(sim: Simulation, exact: bool, start: Moment, events: seq<Event>, moments: seq<Moment>)
    requires |moments| <= |events|
    decreases |moments|
  {
    moments != [] ==>
      var now := StaysExact(exact, events[0], start, moments[0]);
      && Follows(sim, events[0], start, moments[0]) && Arrives(events[0], start, moments[0])
      && (now ==> ExactMoment(sim, moments[0])) && ExactAlong(sim, now, moments[0], events[1..], moments[1..])
  }

  function Latest(start: Moment, moments: seq<Moment>): Moment {
    if moments == [] then start else moments[|moments| - 1]
  }

  lemma LatestNext(start: Moment, first: Moment, rest: seq<Moment>)
    ensures Latest(start, [first] + rest) == Latest(first, rest)
  {
  }

  /** Less exact to begin with, less is claimed. */
  lemma {:induction false} AlongWeaker(sim: Simulation, exact: bool, weaker: bool, start: Moment, events: seq<Event>, moments: seq<Moment>)
    requires |moments| <= |events| && ExactAlong(sim, exact, start, events, moments) && (weaker ==> exact)
    ensures ExactAlong(sim, weaker, start, events, moments)
    decreases |moments|
  {
    if moments != [] {
      AlongWeaker(sim, StaysExact(exact, events[0], start, moments[0]), StaysExact(weaker, events[0], start, moments[0]),
                  moments[0], events[1..], moments[1..]);
    }
  }

  lemma AlongNext(sim: Simulation, exact: bool, start: Moment, events: seq<Event>, first: Moment, now: bool, rest: seq<Moment>)
    requires events != [] && |rest| < |events|
    requires (StaysExact(exact, events[0], start, first) ==> now) && (now ==> ExactMoment(sim, first))
    requires Follows(sim, events[0], start, first)
    requires ExactAlong(sim, now, first, events[1..], rest)
    ensures ExactAlong(sim, exact, start, events, [first] + rest)
  {
    assert ([first] + rest)[1..] == rest;
    AlongWeaker(sim, now, StaysExact(exact, events[0], start, first), first, events[1..], rest);
  }

  /**
   * Any interleaving of frames, envelope batches, stalls, recoveries and focus losses. The mirror under the
   * prediction is the fold of everything delivered, each envelope met the fold of those before it, and the prediction
   * is exact at every moment from an exact start, or from a timely resimulation, up to the next event that does not
   * keep it.
   */
  method Run(session: Session, events: seq<Event>) returns (ghost moments: seq<Moment>)
    requires session.Valid() && session.state != Closed
    modifies session, session.mirror, session.ring, session.prediction
    ensures session.Valid()
    ensures session.landed == old(session.landed) + Delivered(events)
    ensures old(session.prediction.firstRuns) <= session.prediction.firstRuns
    ensures |moments| <= |events| && (session.state != Closed ==> |moments| == |events|)
    ensures session.Now() == Latest(old(session.Now()), moments)
    ensures ExactAlong(session.sim, old(session.exact), old(session.Now()), events, moments)
    decreases |events|
  {
    moments := [];
    if events != [] {
      DeliveredStep(session.landed, events);
      ghost var start, was := session.Now(), session.exact;
      Happen(session, events[0]);
      ghost var first, now, rest := session.Now(), session.exact, [];
      if session.state != Closed {
        rest := Run(session, events[1..]);
      }
      moments := [first] + rest;
      LatestNext(start, first, rest);
      AlongNext(session.sim, was, start, events, first, now, rest);
    }
  }

  /** `#frameFor` and `#merged`: every edge stamped with `tick`, in send order. */
  method MatchingEdges(frames: seq<InputFrame>, tick: int) returns (edges: seq<Edge>)
    ensures edges == EdgesAt(frames, tick)
  {
    edges := [];
    for i := 0 to |frames|
      invariant edges == EdgesAt(frames[..i], tick)
    {
      assert frames[..i + 1][..i] == frames[..i];
      if frames[i].tick == tick {
        edges := edges + frames[i].actions;
      }
    }
    assert frames[..|frames|] == frames;
  }

  lemma LeadingStep(frames: seq<InputFrame>, i: nat, depicted: int)
    requires i < |frames| && frames[i].tick <= depicted
    ensures frames[..i] + Leading(frames[i..], depicted) == frames[..i + 1] + Leading(frames[i + 1..], depicted)
    ensures frames[..i + 1] == frames[..i] + [frames[i]]
  {
    assert frames[i..][1..] == frames[i + 1..];
  }

  lemma {:induction false} FoldOnto(sim: Simulation, m: Mirror, landed: seq<Envelope>, more: seq<Envelope>)
    ensures FoldEnvelopes(sim, m, landed + more) == FoldEnvelopes(sim, FoldEnvelopes(sim, m, landed), more)
    decreases |more|
  {
    if more == [] {
      assert landed + more == landed;
    } else {
      assert (landed + more)[..|landed + more| - 1] == landed + more[..|more| - 1];
      FoldOnto(sim, m, landed, more[..|more| - 1]);
    }
  }

  lemma {:induction false} LandedNext(sim: Simulation, snapshot: Mirror, landed: seq<Envelope>, seen: seq<Mirror>, onto: Mirror, e: Envelope)
    requires NoLeak(sim, snapshot, landed, seen) && onto == FoldEnvelopes(sim, snapshot, landed)
    ensures FoldEnvelopes(sim, snapshot, landed + [e]) == sim.apply(onto, e)
    ensures NoLeak(sim, snapshot, landed + [e], seen + [onto])
  {
    assert (landed + [e])[..|landed|] == landed;
    forall i | 0 <= i < |landed| + 1
      ensures (seen + [onto])[i] == FoldEnvelopes(sim, snapshot, (landed + [e])[..i])
    {
      assert i < |landed| ==> (landed + [e])[..i] == landed[..i];
    }
  }

  lemma {:induction false} IntakeStarts(batch: seq<Envelope>, inbox: Intake, time: real)
    ensures batch[..0] == [] && TakesIn([], inbox, inbox, time)
  {
    assert inbox.landed + [] == inbox.landed;
  }

  lemma {:induction false} LandsOne(e: Envelope)
    ensures Landing([e]) == LandsAlone(e) && (HasAuthority([e]) <==> Authoritative(e))
  {
    assert [e][1..] == [] && e in [e];
  }

  lemma {:induction false} SettledOne(books: Ledger, e: Envelope, time: real)
    ensures SettledAll(books, [e], time) == Settled(books, e, time) && SettledAll(books, [], time) == books
  {
    assert [e][..0] == [];
  }

  lemma TakesInOne(e: Envelope, inbox: Intake, mirror: Mirror, time: real)
    ensures !Authoritative(e) ==> TakesIn([e], inbox, inbox, time)
    ensures Authoritative(e) ==> TakesIn([e], inbox, Intake(inbox.landed + [e], Settled(inbox.books, e, time), mirror), time)
  {
    LandsOne(e);
    SettledOne(inbox.books, e, time);
    assert inbox.landed + [] == inbox.landed;
  }

  /** What lands with one more envelope; the one that ends the session is the last that counts. */
  lemma {:induction false} LandingNext(batch: seq<Envelope>, at: nat) returns (next: seq<Envelope>)
    requires at < |batch| && !Closing(batch[..at])
    ensures next == if Ends(batch[at]) then batch else batch[..at + 1]
    ensures Landing(next) == Landing(batch[..at]) + LandsAlone(batch[at]) && (Closing(next) <==> Ends(batch[at]))
    ensures HasAuthority(batch[..at]) || Authoritative(batch[at]) ==> HasAuthority(next)
  {
    var init, e := batch[..at], batch[at];
    assert batch[..at + 1] == init + [e];
    next := if Ends(e) then batch else init + [e];
    forall x | x in init ensures x in next {
    }
    assert e in next;
    LandingLast(init, e);
    if Ends(e) {
      LandingCut(batch, at);
    }
  }

  lemma TakesInNext(batch: seq<Envelope>, at: nat, start: Intake, before: Intake, after: Intake, time: real)
    requires at < |batch| && !Closing(batch[..at])
    requires TakesIn(batch[..at], start, before, time) && TakesIn([batch[at]], before, after, time)
    ensures if Ends(batch[at]) then TakesIn(batch, start, after, time) && Closing(batch)
            else TakesIn(batch[..at + 1], start, after, time) && !Closing(batch[..at + 1])
  {
    var next := LandingNext(batch, at);
    LandsOne(batch[at]);
    SettledNext(start.books, Landing(batch[..at]), batch[at], time);
    Reassociated(start.landed, Landing(batch[..at]), LandsAlone(batch[at]));
    assert TakesIn(next, start, after, time);
  }

  /** Nothing lands behind what ends the session. */
  lemma {:induction false} LandingCut(batch: seq<Envelope>, at: nat)
    requires at < |batch| && Ends(batch[at]) && !Closing(batch[..at])
    ensures Landing(batch) == Landing(batch[..at])
    decreases at
  {
    assert batch[..0] == [];
    if at > 0 {
      assert batch[0] in batch[..at];
      forall e | e in batch[1..][..at - 1] ensures e in batch[..at] {
      }
      assert batch[1..][..at - 1] == batch[..at][1..];
      assert batch[..at] == [batch[0]] + batch[..at][1..];
      LandingCut(batch[1..], at - 1);
    }
  }

  /** Authoritative, with nothing up to it that ends the session. */
  ghost predicate LandsAt(batch: seq<Envelope>, i: nat)
    requires i < |batch|
  {
    Authoritative(batch[i]) && !Closing(batch[..i + 1])
  }

  /** Which of a batch land: every authoritative envelope with nothing up to it that ends the session, in batch order. */
  lemma {:induction false} LandingExact(batch: seq<Envelope>) returns (at: seq<nat>)
    ensures |at| == |Landing(batch)| && (forall j, k :: 0 <= j < k < |at| ==> at[j] < at[k])
    ensures forall k :: 0 <= k < |at| ==> at[k] < |batch| && Landing(batch)[k] == batch[at[k]]
    ensures forall i: nat :: i < |batch| ==> (i in at <==> LandsAt(batch, i))
    decreases |batch|
  {
    if batch == [] {
      at := [];
    } else {
      var init, n := batch[..|batch| - 1], |batch| - 1;
      at := LandingExact(init);
      LandingLast(init, batch[n]);
      assert batch == init + [batch[n]] && batch[..n + 1] == batch;
      forall i: nat | i < n ensures LandsAt(batch, i) <==> LandsAt(init, i) {
        assert batch[..i + 1] == init[..i + 1];
      }
      if LandsAt(batch, n) {
        at := at + [n];
      }
    }
  }

  lemma ClosingCons(batch: seq<Envelope>)
    requires batch != []
    ensures Closing(batch) <==> Ends(batch[0]) || Closing(batch[1..])
  {
    forall e | e in batch ensures e == batch[0] || e in batch[1..] {
    }
    assert batch[0] in batch;
  }

  lemma {:induction false} LandingLast(init: seq<Envelope>, e: Envelope)
    ensures Landing(init + [e]) == if Authoritative(e) && !Closing(init + [e]) then Landing(init) + [e] else Landing(init)
    decreases |init|
  {
    var all := init + [e];
    ClosingCons(all);
    LandingCons(all);
    if init == [] {
      assert all[1..] == [];
    } else {
      var tail := init[1..];
      assert all[1..] == tail + [e] && all[0] == init[0];
      LandingCons(init);
      LandingLast(tail, e);
      Reassociated(LandsAlone(init[0]), Landing(tail), [e]);
    }
  }

  lemma {:induction false} LandingCons(batch: seq<Envelope>)
    requires batch != []
    ensures Landing(batch) == if Ends(batch[0]) then [] else LandsAlone(batch[0]) + Landing(batch[1..])
  {
  }

  lemma OrderedPush(sent: seq<InputFrame>, frame: InputFrame, localTick: int, nextNumber: int)
    requires InOrder(sent, localTick, nextNumber)
    requires frame.tick == localTick && frame.number == nextNumber
    ensures InOrder(sent + [frame], localTick, nextNumber + 1)
  {
  }

  lemma PredictionKeepsPush(
      sim: Simulation, scope: set<EntityId>, base: Actions, sent: seq<InputFrame>, frame: InputFrame, w0: World, depicted: int,
      p: Predicted, tick: int)
    requires IsPrediction(sim, scope, base, sent, w0, depicted, p, tick) && frame.tick > tick
    ensures IsPrediction(sim, scope, base, sent + [frame], w0, depicted, p, tick)
  {
    PredictionIgnoresLater(sim, scope, base, sent, frame, w0, depicted, tick);
  }
}
