/**
 * Carrying the predicted world forward frame by frame, against replaying it from the baseline in one go: both as
 * the ticks they step, each with the edges it was given.
 */
module Carrying {
  import opened Wrappers
  import opened ActionStates
  import opened InputRings
  import opened Predictions

  /** The tick a span starts on: past the cap it skips ahead. */
  function CapFrom(at: int, until: int): (from: int)
    ensures at < from && until - from < MAX_REPLAY_TICKS
  {
    if until - (at + 1) >= MAX_REPLAY_TICKS then until - MAX_REPLAY_TICKS + 1 else at + 1
  }

  /** One frame without an envelope: the frames flushed since, and the tick advanced to. */
  datatype Carry = Carry(flushed: seq<InputFrame>, localTick: int)

  function AllFlushed(ring: seq<InputFrame>, carries: seq<Carry>): seq<InputFrame> {
    if carries == [] then ring else AllFlushed(ring, carries[..|carries| - 1]) + carries[|carries| - 1].flushed
  }

  function CarriedTick(at: int, carries: seq<Carry>): int {
    if carries == [] then at
    else
      var before := CarriedTick(at, carries[..|carries| - 1]);
      if carries[|carries| - 1].localTick > before then carries[|carries| - 1].localTick else before
  }

  function Flushes(carries: seq<Carry>): nat {
    if carries == [] then 0 else Flushes(carries[..|carries| - 1]) + |carries[|carries| - 1].flushed|
  }

  lemma {:induction false} AllFlushedLength(ring: seq<InputFrame>, carries: seq<Carry>)
    ensures |AllFlushed(ring, carries)| == |ring| + Flushes(carries)
  {
    if carries != [] {
      AllFlushedLength(ring, carries[..|carries| - 1]);
    }
  }

  /** Advancing frame by frame from `at`, each frame stepping on the ring as it then stands. */
  function CarryForward(sim: Simulation, scope: set<EntityId>, ring: seq<InputFrame>, p: Predicted, at: int, carries: seq<Carry>): Predicted {
    if carries == [] then p
    else
      var init, last := carries[..|carries| - 1], carries[|carries| - 1];
      StepSpan(sim, scope, AllFlushed(ring, carries), CarryForward(sim, scope, ring, p, at, init),
               CapFrom(CarriedTick(at, init), last.localTick), last.localTick)
  }

  /** Replaying from the baseline in one go, seeded from the horizon and the ring as it stands. */
  function Resimulated(sim: Simulation, scope: set<EntityId>, horizon: Actions, ring: seq<InputFrame>, w0: World, depicted: int, until: int): Predicted {
    StepSpan(sim, scope, ring, Predicted(w0, Seed(horizon, ring, depicted)), CapFrom(depicted, until), until)
  }

  /** Carrying gives what rewinding and replaying would. */
  ghost predicate CarryMatches(
    sim: Simulation, scope: set<EntityId>, horizon: Actions, ring: seq<InputFrame>, w0: World, depicted: int, at: int, carries: seq<Carry>)
  {
    CarryForward(sim, scope, ring, Resimulated(sim, scope, horizon, ring, w0, depicted, at), at, carries)
    == Resimulated(sim, scope, horizon, AllFlushed(ring, carries), w0, depicted, CarriedTick(at, carries))
  }

  /** The last frame of a run, on what the frames before it left. */
  lemma {:induction false} CarryLast(
      sim: Simulation, scope: set<EntityId>, ring: seq<InputFrame>, p: Predicted, at: int, carries: seq<Carry>)
    requires carries != []
    ensures var init, last := carries[..|carries| - 1], carries[|carries| - 1];
            && AllFlushed(ring, carries) == AllFlushed(ring, init) + last.flushed
            && CarriedTick(at, carries) == (if last.localTick > CarriedTick(at, init) then last.localTick else CarriedTick(at, init))
            && CarryForward(sim, scope, ring, p, at, carries)
               == StepSpan(sim, scope, AllFlushed(ring, init) + last.flushed, CarryForward(sim, scope, ring, p, at, init),
                           CapFrom(CarriedTick(at, init), last.localTick), last.localTick)
  {
  }

  // ---------------------------------------------------------------------------------------------
  // A run as the ticks it steps

  /** A tick and the edges it is stepped with. */
  datatype Due = Due(tick: int, edges: seq<Edge>)

  function Steps(from: int, until: int): nat {
    if until < from then 0 else until - from + 1
  }

  function SpanPlan(frames: seq<InputFrame>, from: int, until: int): (plan: seq<Due>)
    ensures |plan| == Steps(from, until)
    ensures forall i :: 0 <= i < |plan| ==> plan[i] == Due(from + i, EdgesAt(frames, from + i))
  {
    seq(Steps(from, until), i requires 0 <= i => Due(from + i, EdgesAt(frames, from + i)))
  }

  /** What carrying steps, the replay it starts from included. */
  function CarryPlan(ring: seq<InputFrame>, depicted: int, at: int, carries: seq<Carry>): seq<Due> {
    if carries == [] then SpanPlan(ring, CapFrom(depicted, at), at)
    else
      var init, last := carries[..|carries| - 1], carries[|carries| - 1];
      CarryPlan(ring, depicted, at, init)
      + SpanPlan(AllFlushed(ring, carries), CapFrom(CarriedTick(at, init), last.localTick), last.localTick)
  }

  /** How many ticks that is. */
  function Stepped(depicted: int, at: int, carries: seq<Carry>): nat {
    if carries == [] then Steps(CapFrom(depicted, at), at)
    else
      var init, last := carries[..|carries| - 1], carries[|carries| - 1];
      Stepped(depicted, at, init) + Steps(CapFrom(CarriedTick(at, init), last.localTick), last.localTick)
  }

  function ResimPlan(ring: seq<InputFrame>, depicted: int, until: int): seq<Due> {
    SpanPlan(ring, CapFrom(depicted, until), until)
  }

  /** One predicted tick on the edges it is due. */
  function StepDue(sim: Simulation, scope: set<EntityId>, p: Predicted, due: Due): Predicted {
    if !p.world.hasPlayer then Predicted(sim.step(p.world, scope, due.tick, p.actions, []), p.actions)
    else Predicted(sim.step(p.world, scope, due.tick, AdvanceTick(p.actions), due.edges), FoldTick(p.actions, due.edges))
  }

  function RunPlan(sim: Simulation, scope: set<EntityId>, p: Predicted, plan: seq<Due>): Predicted {
    if plan == [] then p
    else StepDue(sim, scope, RunPlan(sim, scope, p, plan[..|plan| - 1]), plan[|plan| - 1])
  }

  lemma {:induction false} RunPlanConcat(sim: Simulation, scope: set<EntityId>, p: Predicted, a: seq<Due>, b: seq<Due>)
    ensures RunPlan(sim, scope, p, a + b) == RunPlan(sim, scope, RunPlan(sim, scope, p, a), b)
    decreases |b|
  {
    if b == [] {
      assert a + b == a;
    } else {
      assert (a + b)[..|a + b| - 1] == a + b[..|b| - 1];
      RunPlanConcat(sim, scope, p, a, b[..|b| - 1]);
    }
  }

  lemma {:induction false} SpanIsPlan(sim: Simulation, scope: set<EntityId>, frames: seq<InputFrame>, p: Predicted, from: int, until: int)
    ensures StepSpan(sim, scope, frames, p, from, until) == RunPlan(sim, scope, p, SpanPlan(frames, from, until))
    decreases until - from + 1
  {
    if from <= until {
      var plan := SpanPlan(frames, from, until);
      assert plan[..|plan| - 1] == SpanPlan(frames, from, until - 1);
      SpanIsPlan(sim, scope, frames, p, from, until - 1);
    }
  }

  lemma {:induction false} CarryIsPlan(sim: Simulation, scope: set<EntityId>, ring: seq<InputFrame>, p: Predicted, depicted: int, at: int, carries: seq<Carry>)
    ensures CarryForward(sim, scope, ring, StepSpan(sim, scope, ring, p, CapFrom(depicted, at), at), at, carries)
            == RunPlan(sim, scope, p, CarryPlan(ring, depicted, at, carries))
    decreases |carries|
  {
    SpanIsPlan(sim, scope, ring, p, CapFrom(depicted, at), at);
    if carries != [] {
      var init, last := carries[..|carries| - 1], carries[|carries| - 1];
      var before := CarryPlan(ring, depicted, at, init);
      var from := CapFrom(CarriedTick(at, init), last.localTick);
      CarryIsPlan(sim, scope, ring, p, depicted, at, init);
      SpanIsPlan(sim, scope, AllFlushed(ring, carries), RunPlan(sim, scope, p, before), from, last.localTick);
      RunPlanConcat(sim, scope, p, before, SpanPlan(AllFlushed(ring, carries), from, last.localTick));
    }
  }

  /** Both sides of the comparison, as plans run from their seeds. */
  lemma MatchIsPlans(sim: Simulation, scope: set<EntityId>, horizon: Actions, ring: seq<InputFrame>, w0: World, depicted: int, at: int, carries: seq<Carry>)
    ensures var all := AllFlushed(ring, carries);
            CarryMatches(sim, scope, horizon, ring, w0, depicted, at, carries)
            <==> RunPlan(sim, scope, Predicted(w0, Seed(horizon, ring, depicted)), CarryPlan(ring, depicted, at, carries))
                 == RunPlan(sim, scope, Predicted(w0, Seed(horizon, all, depicted)), ResimPlan(all, depicted, CarriedTick(at, carries)))
  {
    var all, until := AllFlushed(ring, carries), CarriedTick(at, carries);
    CarryIsPlan(sim, scope, ring, Predicted(w0, Seed(horizon, ring, depicted)), depicted, at, carries);
    SpanIsPlan(sim, scope, all, Predicted(w0, Seed(horizon, all, depicted)), CapFrom(depicted, until), until);
  }

  // ---------------------------------------------------------------------------------------------
  // When the two plans are one

  /** `flushed` holds no edge for a tick of the plan. */
  ghost predicate Spares(flushed: seq<InputFrame>, plan: seq<Due>) {
    forall i :: 0 <= i < |plan| ==> EdgesAt(flushed, plan[i].tick) == []
  }

  /** No flush carries an edge for a tick stepped before it. */
  ghost predicate Quiet(ring: seq<InputFrame>, depicted: int, at: int, carries: seq<Carry>) {
    carries != [] ==>
      var init, last := carries[..|carries| - 1], carries[|carries| - 1];
      Quiet(ring, depicted, at, init) && Spares(last.flushed, CarryPlan(ring, depicted, at, init))
  }

  /** Each tick was given the first of its edges. */
  ghost predicate Given(plan: seq<Due>, frames: seq<InputFrame>) {
    forall i :: 0 <= i < |plan| ==> plan[i].edges <= EdgesAt(frames, plan[i].tick)
  }

  /** Each tick was given all of its edges. */
  ghost predicate GivenAll(plan: seq<Due>, frames: seq<InputFrame>) {
    forall i :: 0 <= i < |plan| ==> plan[i].edges == EdgesAt(frames, plan[i].tick)
  }

  /** Ticks one after another up to `until`. */
  ghost predicate EndsAt(plan: seq<Due>, until: int) {
    forall i :: 0 <= i < |plan| ==> plan[i].tick == until - |plan| + 1 + i
  }

  ghost predicate Reaches(plan: seq<Due>, depicted: int, until: int) {
    forall i :: 0 <= i < |plan| ==> depicted < plan[i].tick <= until
  }

  function AtMostCap(n: int): int {
    if n < MAX_REPLAY_TICKS then n else MAX_REPLAY_TICKS
  }

  /** As many ticks as one replay would step, in which case the same ones, or more than any replay. */
  ghost predicate Lasts(plan: seq<Due>, depicted: int, until: int) {
    && Reaches(plan, depicted, until)
    && (|plan| <= MAX_REPLAY_TICKS ==> |plan| == AtMostCap(until - depicted) && EndsAt(plan, until))
  }

  lemma SpanLasts(frames: seq<InputFrame>, depicted: int, until: int)
    requires depicted <= until
    ensures Lasts(SpanPlan(frames, CapFrom(depicted, until), until), depicted, until)
  {
  }

  lemma LastsNext(plan: seq<Due>, frames: seq<InputFrame>, depicted: int, at: int, localTick: int)
    requires depicted <= at && Lasts(plan, depicted, at)
    ensures Lasts(plan + SpanPlan(frames, CapFrom(at, localTick), localTick), depicted, if localTick > at then localTick else at)
  {
    var tail := SpanPlan(frames, CapFrom(at, localTick), localTick);
    if localTick <= at {
      assert plan + tail == plan;
    }
  }

  lemma GivenTick(due: Due, frames: seq<InputFrame>, flushed: seq<InputFrame>)
    requires due.edges <= EdgesAt(frames, due.tick)
    ensures due.edges <= EdgesAt(frames + flushed, due.tick)
    ensures due.edges == EdgesAt(frames + flushed, due.tick) <==> due.edges == EdgesAt(frames, due.tick) && EdgesAt(flushed, due.tick) == []
  {
    EdgesAtConcat(frames, flushed, due.tick);
    var now, earlier := EdgesAt(frames + flushed, due.tick), EdgesAt(frames, due.tick);
    assert |now| == |earlier| + |EdgesAt(flushed, due.tick)|;
    assert earlier <= now;
  }

  /** A frame later, what was stepped has all its edges only if the flush brought it none. */
  lemma GivenNext(plan: seq<Due>, frames: seq<InputFrame>, flushed: seq<InputFrame>, from: int, until: int)
    requires Given(plan, frames)
    ensures var next := plan + SpanPlan(frames + flushed, from, until);
            && Given(next, frames + flushed)
            && (GivenAll(next, frames + flushed) <==> GivenAll(plan, frames) && Spares(flushed, plan))
  {
    var tail := SpanPlan(frames + flushed, from, until);
    var next := plan + tail;
    forall i | 0 <= i < |plan|
      ensures next[i].edges <= EdgesAt(frames + flushed, next[i].tick)
      ensures next[i].edges == EdgesAt(frames + flushed, next[i].tick) <==> plan[i].edges == EdgesAt(frames, plan[i].tick) && EdgesAt(flushed, plan[i].tick) == []
    {
      GivenTick(plan[i], frames, flushed);
    }
    forall i | |plan| <= i < |next| ensures next[i].edges == EdgesAt(frames + flushed, next[i].tick) {
      assert next[i] == tail[i - |plan|];
    }
    if GivenAll(next, frames + flushed) {
      forall i | 0 <= i < |plan| ensures plan[i].edges == EdgesAt(frames, plan[i].tick) && EdgesAt(flushed, plan[i].tick) == [] {
        assert next[i].edges == EdgesAt(frames + flushed, next[i].tick);
      }
    }
  }

  /** What is known of a carried plan, frame after frame. */
  ghost predicate Kept(plan: seq<Due>, frames: seq<InputFrame>, depicted: int, until: int, quiet: bool) {
    Lasts(plan, depicted, until) && Given(plan, frames) && (GivenAll(plan, frames) <==> quiet)
  }

  lemma {:induction false} PlanKept(ring: seq<InputFrame>, depicted: int, at: int, carries: seq<Carry>)
    returns (plan: seq<Due>, frames: seq<InputFrame>, until: int, quiet: bool)
    requires depicted <= at
    ensures plan == CarryPlan(ring, depicted, at, carries) && |plan| == Stepped(depicted, at, carries)
    ensures frames == AllFlushed(ring, carries) && at <= until == CarriedTick(at, carries)
    ensures quiet <==> Quiet(ring, depicted, at, carries)
    ensures Kept(plan, frames, depicted, until, quiet)
    decreases |carries|
  {
    if carries == [] {
      plan, frames, until, quiet := SpanPlan(ring, CapFrom(depicted, at), at), ring, at, true;
      SpanLasts(ring, depicted, at);
    } else {
      var last := carries[|carries| - 1];
      plan, frames, until, quiet := PlanKept(ring, depicted, at, carries[..|carries| - 1]);
      GivenNext(plan, frames, last.flushed, CapFrom(until, last.localTick), last.localTick);
      LastsNext(plan, frames + last.flushed, depicted, until, last.localTick);
      quiet := quiet && Spares(last.flushed, plan);
      frames := frames + last.flushed;
      plan := plan + SpanPlan(frames, CapFrom(until, last.localTick), last.localTick);
      until := if last.localTick > until then last.localTick else until;
    }
  }

  /** Carrying steps the ticks of one replay, on the same edges, if and only if it stepped no more and none came late. */
  lemma PlansAgreeIff(ring: seq<InputFrame>, depicted: int, at: int, carries: seq<Carry>)
    requires depicted <= at
    ensures CarryPlan(ring, depicted, at, carries) == ResimPlan(AllFlushed(ring, carries), depicted, CarriedTick(at, carries))
            <==> Stepped(depicted, at, carries) <= MAX_REPLAY_TICKS && Quiet(ring, depicted, at, carries)
  {
    var plan, all, until, quiet := PlanKept(ring, depicted, at, carries);
    var whole := ResimPlan(all, depicted, until);
    SpanLasts(all, depicted, until);
    if plan == whole {
      assert GivenAll(plan, all);
    }
    if |plan| <= MAX_REPLAY_TICKS && quiet {
      forall i | 0 <= i < |plan| ensures plan[i] == whole[i] {
        assert plan[i].edges == EdgesAt(all, plan[i].tick);
      }
    }
  }

  // ---------------------------------------------------------------------------------------------
  // A game that writes down each tick and how many edges it was given

  const RECORDING := Simulation(
    (w: World, scope: set<EntityId>, tick: int, actions: Actions, edges: seq<Edge>) => w.(whole := w.whole + [tick, |edges|]),
    (m: Mirror, e: Envelope) => m,
    (w: World) => {})

  lemma RecordingIsFramed()
    ensures Framed(RECORDING)
  {
    forall w, scope, tick, actions, edges ensures WithinScope(w, RECORDING.step(w, scope, tick, actions, edges), scope) {
    }
  }

  function Record(plan: seq<Due>): seq<int> {
    if plan == [] then [] else Record(plan[..|plan| - 1]) + [plan[|plan| - 1].tick, |plan[|plan| - 1].edges|]
  }

  lemma {:induction false} RunRecords(scope: set<EntityId>, p: Predicted, plan: seq<Due>)
    requires p.world.hasPlayer
    ensures RunPlan(RECORDING, scope, p, plan).world == p.world.(whole := p.world.whole + Record(plan))
    decreases |plan|
  {
    if plan == [] {
      assert p.world.whole + [] == p.world.whole;
    } else {
      RunRecords(scope, p, plan[..|plan| - 1]);
    }
  }

  /** Read back from the end. */
  lemma {:induction false} RecordTells(a: seq<Due>, b: seq<Due>)
    requires Record(a) == Record(b)
    ensures |a| == |b| && forall i :: 0 <= i < |a| ==> a[i].tick == b[i].tick && |a[i].edges| == |b[i].edges|
    decreases |a|
  {
    RecordLength(a);
    RecordLength(b);
    if a != [] {
      var n := |a| - 1;
      assert Record(a)[..2 * n] == Record(a[..n]) && Record(b)[..2 * n] == Record(b[..n]);
      assert Record(a)[2 * n] == a[n].tick && Record(a)[2 * n + 1] == |a[n].edges|;
      assert Record(b)[2 * n] == b[n].tick && Record(b)[2 * n + 1] == |b[n].edges|;
      RecordTells(a[..n], b[..n]);
    }
  }

  lemma {:induction false} RecordLength(plan: seq<Due>)
    ensures |Record(plan)| == 2 * |plan|
    decreases |plan|
  {
    if plan != [] {
      RecordLength(plan[..|plan| - 1]);
    }
  }

  /** Edges only ever join a tick's list, so counts that agree are lists that agree. */
  lemma SameRecordSamePlan(plan: seq<Due>, whole: seq<Due>, frames: seq<InputFrame>)
    requires Given(plan, frames) && GivenAll(whole, frames) && Record(plan) == Record(whole)
    ensures plan == whole
  {
    RecordTells(plan, whole);
    forall i | 0 <= i < |plan| ensures plan[i] == whole[i] {
      assert plan[i].edges <= EdgesAt(frames, plan[i].tick) == whole[i].edges;
    }
  }

  lemma SameTail(a: Payload, b: Payload, c: Payload)
    ensures a + b == a + c ==> b == c
  {
    if a + b == a + c {
      assert b == (a + b)[|a|..] && c == (a + c)[|a|..];
    }
  }

  /** Too many ticks, or a late edge, shows: the recording game ends elsewhere when carried than when resimulated. */
  lemma RecordingShows(scope: set<EntityId>, horizon: Actions, ring: seq<InputFrame>, w0: World, depicted: int, at: int, carries: seq<Carry>)
    requires depicted <= at && w0.hasPlayer
    requires Stepped(depicted, at, carries) > MAX_REPLAY_TICKS || !Quiet(ring, depicted, at, carries)
    ensures !CarryMatches(RECORDING, scope, horizon, ring, w0, depicted, at, carries)
  {
    var plan, all, whole := PlansOf(ring, depicted, at, carries);
    RunsDiffer(scope, w0, Seed(horizon, ring, depicted), Seed(horizon, all, depicted), plan, whole, all);
    MatchIsPlans(RECORDING, scope, horizon, ring, w0, depicted, at, carries);
  }

  lemma PlansOf(ring: seq<InputFrame>, depicted: int, at: int, carries: seq<Carry>) returns (plan: seq<Due>, all: seq<InputFrame>, whole: seq<Due>)
    requires depicted <= at
    ensures plan == CarryPlan(ring, depicted, at, carries) && all == AllFlushed(ring, carries)
    ensures whole == ResimPlan(all, depicted, CarriedTick(at, carries)) && Given(plan, all) && GivenAll(whole, all)
    ensures Stepped(depicted, at, carries) > MAX_REPLAY_TICKS || !Quiet(ring, depicted, at, carries) ==> plan != whole
  {
    var until, quiet;
    plan, all, until, quiet := PlanKept(ring, depicted, at, carries);
    whole := ResimPlan(all, depicted, until);
    PlansAgreeIff(ring, depicted, at, carries);
  }

  lemma RunsDiffer(scope: set<EntityId>, w0: World, seed: Actions, other: Actions, plan: seq<Due>, whole: seq<Due>, frames: seq<InputFrame>)
    requires w0.hasPlayer && Given(plan, frames) && GivenAll(whole, frames) && plan != whole
    ensures RunPlan(RECORDING, scope, Predicted(w0, seed), plan) != RunPlan(RECORDING, scope, Predicted(w0, other), whole)
  {
    RunRecords(scope, Predicted(w0, seed), plan);
    RunRecords(scope, Predicted(w0, other), whole);
    SameTail(w0.whole, Record(plan), Record(whole));
    if Record(plan) == Record(whole) {
      SameRecordSamePlan(plan, whole, frames);
    }
  }

  // ---------------------------------------------------------------------------------------------
  // A moved seed

  /** With no player in the roster no tick folds input, so the seed stands to the end. */
  lemma {:induction false} NoPlayerRun(scope: set<EntityId>, p: Predicted, plan: seq<Due>)
    requires !p.world.hasPlayer
    ensures RunPlan(STILL, scope, p, plan) == p
    decreases |plan|
  {
    if plan != [] {
      NoPlayerRun(scope, p, plan[..|plan| - 1]);
    }
  }

  /** It shows: without a player the fold is the seed from first tick to last. */
  lemma MovedSeedShows(scope: set<EntityId>, horizon: Actions, ring: seq<InputFrame>, w0: World, depicted: int, at: int, carries: seq<Carry>)
    requires !w0.hasPlayer && Seed(horizon, AllFlushed(ring, carries), depicted) != Seed(horizon, ring, depicted)
    ensures !CarryMatches(STILL, scope, horizon, ring, w0, depicted, at, carries)
  {
    var all, until := AllFlushed(ring, carries), CarriedTick(at, carries);
    MatchIsPlans(STILL, scope, horizon, ring, w0, depicted, at, carries);
    NoPlayerRun(scope, Predicted(w0, Seed(horizon, ring, depicted)), CarryPlan(ring, depicted, at, carries));
    NoPlayerRun(scope, Predicted(w0, Seed(horizon, all, depicted)), ResimPlan(all, depicted, until));
  }

  const EMPTY_WORLD := World(0, map[], [], map[], false)

  /** The run stepped no more than one replay does, no edge came late, and no flush moved the seed. */
  ghost predicate Carriable(horizon: Actions, ring: seq<InputFrame>, depicted: int, at: int, carries: seq<Carry>) {
    && Stepped(depicted, at, carries) <= MAX_REPLAY_TICKS
    && Quiet(ring, depicted, at, carries)
    && Seed(horizon, AllFlushed(ring, carries), depicted) == Seed(horizon, ring, depicted)
  }

  lemma CarriableMatches(
      sim: Simulation, scope: set<EntityId>, horizon: Actions, ring: seq<InputFrame>, w0: World, depicted: int, at: int, carries: seq<Carry>)
    requires depicted <= at && Carriable(horizon, ring, depicted, at, carries)
    ensures CarryMatches(sim, scope, horizon, ring, w0, depicted, at, carries)
  {
    PlansAgreeIff(ring, depicted, at, carries);
    MatchIsPlans(sim, scope, horizon, ring, w0, depicted, at, carries);
  }

  /**
   * Incremental prediction refines resimulation, exactly: over any number of frames with no envelope, each capped as
   * the replay is, carrying the world forward gives what one replay from the baseline gives, in every game and from
   * every world, if and only if it has stepped no more ticks than one replay may, no edge was flushed for a tick
   * already stepped and no flush moved the seed.
   */
  lemma CarryMatchesIff(horizon: Actions, ring: seq<InputFrame>, depicted: int, at: int, carries: seq<Carry>)
    requires depicted <= at
    ensures (forall sim: Simulation, scope: set<EntityId>, w0: World :: Framed(sim) ==> CarryMatches(sim, scope, horizon, ring, w0, depicted, at, carries))
            <==> Carriable(horizon, ring, depicted, at, carries)
  {
    if Carriable(horizon, ring, depicted, at, carries) {
      forall sim: Simulation, scope: set<EntityId>, w0: World | Framed(sim)
        ensures CarryMatches(sim, scope, horizon, ring, w0, depicted, at, carries)
      {
        CarriableMatches(sim, scope, horizon, ring, w0, depicted, at, carries);
      }
    } else if Seed(horizon, AllFlushed(ring, carries), depicted) != Seed(horizon, ring, depicted) {
      PromisesCanBeKept();
      MovedSeedShows({}, horizon, ring, EMPTY_WORLD, depicted, at, carries);
    } else {
      RecordingIsFramed();
      RecordingShows({}, horizon, ring, EMPTY_WORLD.(hasPlayer := true), depicted, at, carries);
    }
  }

  // ---------------------------------------------------------------------------------------------
  // Ordinary frames

  /** Every flush is stamped past what has been stepped, as every flush but a focus-loss one is. */
  ghost predicate FlushedAhead(at: int, carries: seq<Carry>) {
    carries != [] ==>
      var init, last := carries[..|carries| - 1], carries[|carries| - 1];
      FlushedAhead(at, init) && AllAfter(last.flushed, CarriedTick(at, init))
  }

  /** No frame of the run is further on than one replay reaches. */
  predicate Uncapped(at: int, carries: seq<Carry>) {
    carries != [] ==>
      var init, last := carries[..|carries| - 1], carries[|carries| - 1];
      Uncapped(at, init) && last.localTick - CarriedTick(at, init) <= MAX_REPLAY_TICKS
  }

  /** Uncapped frames step every tick there is, so their bound is on how far they have come. */
  lemma {:induction false} SteppedUncapped(depicted: int, at: int, carries: seq<Carry>)
    requires depicted <= at <= depicted + MAX_REPLAY_TICKS && Uncapped(at, carries)
    ensures Stepped(depicted, at, carries) == CarriedTick(at, carries) - depicted
    decreases |carries|
  {
    if carries != [] {
      SteppedUncapped(depicted, at, carries[..|carries| - 1]);
    }
  }

  lemma {:induction false} EdgesAtLater(later: seq<InputFrame>, tick: int)
    requires AllAfter(later, tick)
    ensures EdgesAt(later, tick) == []
  {
    if later != [] {
      EdgesAtLater(later[..|later| - 1], tick);
    }
  }

  lemma {:induction false} LeadingIgnoresLater(frames: seq<InputFrame>, later: seq<InputFrame>, tick: int)
    requires AllAfter(later, tick)
    ensures Leading(frames + later, tick) == Leading(frames, tick)
  {
    if frames == [] {
      assert frames + later == later;
    } else if frames[0].tick <= tick {
      assert (frames + later)[1..] == frames[1..] + later;
      LeadingIgnoresLater(frames[1..], later, tick);
    }
  }

  lemma AheadSpares(flushed: seq<InputFrame>, plan: seq<Due>, depicted: int, until: int)
    requires Reaches(plan, depicted, until) && AllAfter(flushed, until)
    ensures Spares(flushed, plan)
  {
    forall i | 0 <= i < |plan| ensures EdgesAt(flushed, plan[i].tick) == [] {
      EdgesAtLater(flushed, plan[i].tick);
    }
  }

  /** Flushes stamped past what was stepped are quiet, and leave the seed alone. */
  lemma {:induction false} AheadIsQuiet(horizon: Actions, ring: seq<InputFrame>, depicted: int, at: int, carries: seq<Carry>)
    requires depicted <= at && FlushedAhead(at, carries)
    ensures Quiet(ring, depicted, at, carries)
    ensures Seed(horizon, AllFlushed(ring, carries), depicted) == Seed(horizon, ring, depicted)
    decreases |carries|
  {
    if carries != [] {
      var init, last := carries[..|carries| - 1], carries[|carries| - 1];
      AheadIsQuiet(horizon, ring, depicted, at, init);
      var plan, frames, until, quiet := PlanKept(ring, depicted, at, init);
      AheadSpares(last.flushed, plan, depicted, until);
      LeadingIgnoresLater(AllFlushed(ring, init), last.flushed, depicted);
    }
  }

  /** So for ordinary frames, whose flushes bear a new tick, only how far they have come decides. */
  lemma CarryIsResimulation(
      sim: Simulation, scope: set<EntityId>, horizon: Actions, ring: seq<InputFrame>, w0: World,
      depicted: int, at: int, carries: seq<Carry>)
    requires depicted <= at <= depicted + MAX_REPLAY_TICKS && FlushedAhead(at, carries) && Uncapped(at, carries)
    ensures CarriedTick(at, carries) - depicted <= MAX_REPLAY_TICKS ==> CarryMatches(sim, scope, horizon, ring, w0, depicted, at, carries)
    ensures CarriedTick(at, carries) - depicted > MAX_REPLAY_TICKS && w0.hasPlayer ==>
              !CarryMatches(RECORDING, scope, horizon, ring, w0, depicted, at, carries)
  {
    AheadIsQuiet(horizon, ring, depicted, at, carries);
    SteppedUncapped(depicted, at, carries);
    if CarriedTick(at, carries) - depicted <= MAX_REPLAY_TICKS {
      CarriableMatches(sim, scope, horizon, ring, w0, depicted, at, carries);
    } else if w0.hasPlayer {
      RecordingShows(scope, horizon, ring, w0, depicted, at, carries);
    }
  }

  /** One press, framed. */
  lemma {:induction false} OnePress(s: Actions, frames: seq<InputFrame>, action: string, tick: int)
    requires frames == [InputFrame(tick, 0, [Edge(action, Press, None)])]
    ensures EdgesAt(frames, tick) == [Edge(action, Press, None)] && EdgesAt(frames, tick + 1) == []
    ensures ApplyEdges(s, [Edge(action, Press, None)]).held == s.held + {action}
  {
    assert frames[..|frames| - 1] == [];
    var edges := [Edge(action, Press, None)];
    assert edges[..|edges| - 1] == [];
    assert EdgesAt([], tick) == [] && EdgesAt([], tick + 1) == [];
    assert ApplyEdges(s, []) == s;
  }

  /** The folds of two consecutive ticks, whatever the simulation does with them. */
  lemma {:induction false} TwoTicks(sim: Simulation, scope: set<EntityId>, frames: seq<InputFrame>, p: Predicted)
    requires Framed(sim) && p.world.hasPlayer
    ensures StepSpan(sim, scope, frames, p, 1, 1).world.hasPlayer
    ensures StepSpan(sim, scope, frames, p, 1, 1).actions == FoldTick(p.actions, EdgesAt(frames, 1))
    ensures StepSpan(sim, scope, frames, p, 2, 2).actions == FoldTick(p.actions, EdgesAt(frames, 2))
    ensures StepSpan(sim, scope, frames, p, 1, 2).actions == FoldTick(FoldTick(p.actions, EdgesAt(frames, 1)), EdgesAt(frames, 2))
  {
    assert StepSpan(sim, scope, frames, p, 1, 0) == p && StepSpan(sim, scope, frames, p, 2, 1) == p;
    SpanWithinScope(sim, scope, frames, p, 1, 1);
    assert StepSpan(sim, scope, frames, p, 1, 1) == StepTick(sim, scope, frames, p, 1);
    assert StepSpan(sim, scope, frames, p, 2, 2) == StepTick(sim, scope, frames, p, 2);
  }

  /**
   * Why flushes must be stamped ahead: a frame a focus loss stamps on a tick already stepped is missing from the
   * carried fold, and a resimulation has it, whatever the simulation.
   */
  lemma {:induction false} LateFlushDiverges(sim: Simulation, scope: set<EntityId>, w0: World, late: seq<InputFrame>)
    requires Framed(sim) && w0.hasPlayer && late == [InputFrame(1, 0, [Edge("jump", Press, None)])]
    ensures var stepped := Resimulated(sim, scope, NEUTRAL, [], w0, 0, 1);
            && "jump" !in StepSpan(sim, scope, late, stepped, 2, 2).actions.held
            && "jump" in Resimulated(sim, scope, NEUTRAL, late, w0, 0, 2).actions.held
  {
    var seeded := Reasserted(NEUTRAL, NEUTRAL);
    assert Seed(NEUTRAL, [], 0) == seeded && Seed(NEUTRAL, late, 0) == seeded && seeded.held == {};
    var start := Predicted(w0, seeded);
    TwoTicks(sim, scope, [], start);
    TwoTicks(sim, scope, late, start);
    TwoTicks(sim, scope, late, StepSpan(sim, scope, [], start, 1, 1));
    OnePress(AdvanceTick(seeded), late, "jump", 1);
    assert EdgesAt([], 1) == [];
  }
}
