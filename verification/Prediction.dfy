/**
 * Rewind, capture and replay: the predicted world the client runs ahead of the server.
 *
 * Everything the client cannot see is a parameter: what one tick of the game does (`step`), what an
 * envelope does to the mirror (`apply`) and which entities the local player owns (`owned`). The theorems
 * hold for every such simulation whose ticks write no further than they are allowed to.
 */
module Predictions {
  import opened Wrappers
  import opened ActionStates
  import opened InputRings

  const MAX_REPLAY_TICKS := RING_TICKS

  type EntityId = int

  /** Whatever a store serializes; never looked into. */
  type Payload = seq<int>

  datatype HostKey = GameHost | LocalPlayerHost | EntityHost(id: EntityId) | OtherHost(name: string)

  type Fields = map<string, Payload>

  /**
   * The mirrored runtime. `rows` are the stores a scoped snapshot filters by entity, `whole` the ones it
   * takes entire, `hosts` the `@serverState` records, and `hasPlayer` says the roster carries the local player.
   */
  datatype World = World(tick: int, rows: map<EntityId, Payload>, whole: Payload,
                         hosts: map<HostKey, Fields>, hasPlayer: bool)

  /** The mirror: the world, the server tick it depicts, and the wire-side bookkeeping prediction never touches. */
  datatype Mirror = Mirror(world: World, depictedTick: int, link: Payload)

  datatype Envelope =
    | State(tick: int, ackSeq: int, body: Payload)
    | Transform(tick: int, body: Payload)
    | RateChange
    | Malformed
    | Other

  datatype Simulation = Simulation(
    step: (World, set<EntityId>, int, Actions, seq<Edge>) -> World,
    apply: (Mirror, Envelope) -> Mirror,
    owned: World -> set<EntityId>)

  /** Where scoped ticks may leave state, besides the entities in scope: the game's host, the local player's, theirs. */
  predicate Writable(key: HostKey, scope: set<EntityId>) {
    match key
    case GameHost => true
    case LocalPlayerHost => true
    case EntityHost(id) => id in scope
    case OtherHost(_) => false
  }

  /** The keys a capture asks for. */
  function StateHosts(scope: set<EntityId>): (keys: set<HostKey>)
    ensures forall key :: key in keys <==> Writable(key, scope)
  {
    {GameHost, LocalPlayerHost} + (set e | e in scope :: EntityHost(e))
  }

  /** `w` differs from `w0` only where ticks over `scope` may write, and nothing was minted or dropped. */
  ghost predicate WithinScope(w0: World, w: World, scope: set<EntityId>) {
    && w.rows.Keys == w0.rows.Keys
    && (forall e :: e in w0.rows && e !in scope ==> w.rows[e] == w0.rows[e])
    && w.hosts.Keys == w0.hosts.Keys
    && (forall k :: k in w0.hosts && !Writable(k, scope) ==> w.hosts[k] == w0.hosts[k])
    && w.hasPlayer == w0.hasPlayer
  }

  /** What the runtime promises of one scoped tick. */
  ghost predicate Framed(sim: Simulation) {
    forall w, scope, tick, actions, edges ::
      WithinScope(w, sim.step(w, scope, tick, actions, edges), scope)
  }

  /** What the mirror promises of one envelope: the world's tick and the depicted tick stay equal. */
  ghost predicate TicksFollow(sim: Simulation) {
    forall m: Mirror, e: Envelope :: m.world.tick == m.depictedTick ==>
                     sim.apply(m, e).world.tick == sim.apply(m, e).depictedTick
  }

  // ---------------------------------------------------------------------------------------------
  // Capture and restore

  datatype Baseline = Baseline(tick: int, rows: map<EntityId, Payload>, whole: Payload, hosts: map<HostKey, Fields>)

  function CapturedHosts(keys: set<HostKey>, hosts: map<HostKey, Fields>): map<HostKey, Fields> {
    map k | k in keys && k in hosts :: hosts[k]
  }

  function RestoredHosts(buffers: map<HostKey, Fields>, hosts: map<HostKey, Fields>): map<HostKey, Fields> {
    map k | k in hosts :: if k in buffers then buffers[k] else hosts[k]
  }

  function Capture(w: World, scope: set<EntityId>, depicted: int): Baseline {
    Baseline(depicted, map e | e in scope && e in w.rows :: w.rows[e], w.whole,
             CapturedHosts(StateHosts(scope), w.hosts))
  }

  function Restore(w: World, b: Baseline): World {
    World(b.tick, w.rows + b.rows, b.whole, RestoredHosts(b.hosts, w.hosts), w.hasPlayer)
  }

  /** Whatever ticks wrote within the scope, restoring the scoped capture gives back the world it was taken of. */
  lemma RestoreUndoes(w0: World, w: World, scope: set<EntityId>, depicted: int)
    requires WithinScope(w0, w, scope) && w0.tick == depicted
    ensures Restore(w, Capture(w0, scope, depicted)) == w0
  {
    var b := Capture(w0, scope, depicted);
    assert w.rows + b.rows == w0.rows by {
      forall e | e in w0.rows ensures (w.rows + b.rows)[e] == w0.rows[e] {
        assert e in b.rows <==> e in scope;
      }
    }
    assert RestoredHosts(b.hosts, w.hosts) == w0.hosts by {
      forall k | k in w0.hosts ensures RestoredHosts(b.hosts, w.hosts)[k] == w0.hosts[k] {
        assert k in b.hosts <==> Writable(k, scope);
      }
    }
  }

  lemma WithinScopeTrans(a: World, b: World, c: World, scope: set<EntityId>)
    requires WithinScope(a, b, scope) && WithinScope(b, c, scope)
    ensures WithinScope(a, c, scope)
  {
  }

  /** `StateBaseline.capture`: one buffer per named host that has a record; a host without one mints none. */
  method CaptureHosts(keys: set<HostKey>, hosts: map<HostKey, Fields>) returns (buffers: map<HostKey, Fields>)
    ensures buffers == CapturedHosts(keys, hosts)
    ensures forall key :: key in buffers <==> key in keys && key in hosts
    ensures forall key :: key in buffers ==> buffers[key] == hosts[key]
  {
    buffers := map[];
    var todo := keys;
    while todo != {}
      invariant todo <= keys
      invariant buffers == CapturedHosts(keys - todo, hosts)
    {
      var key :| key in todo;
      if key in hosts {
        buffers := buffers[key := hosts[key]];
      }
      todo := todo - {key};
    }
    assert keys - todo == keys;
  }

  /** `StateBaseline.restore`: a captured record is replaced whole, so fields written since do not linger. */
  method RestoreHosts(buffers: map<HostKey, Fields>, hosts: map<HostKey, Fields>)
    returns (restored: map<HostKey, Fields>)
    ensures restored == RestoredHosts(buffers, hosts)
    ensures restored.Keys == hosts.Keys
    ensures forall key :: key in hosts ==> restored[key] == if key in buffers then buffers[key] else hosts[key]
  {
    restored := hosts;
    var todo := buffers.Keys;
    while todo != {}
      invariant todo <= buffers.Keys && restored.Keys == hosts.Keys
      invariant forall k :: k in hosts ==>
                              restored[k] == if k in buffers && k !in todo then buffers[k] else hosts[k]
    {
      var key :| key in todo;
      if key in restored {
        restored := restored[key := buffers[key]];
      }
      todo := todo - {key};
    }
  }

  // ---------------------------------------------------------------------------------------------
  // Ticks

  datatype Predicted = Predicted(world: World, actions: Actions)

  /** One predicted tick: the input pass folds that tick's merged frames, unless the roster lacks the player. */
  function StepTick(sim: Simulation, scope: set<EntityId>, frames: seq<InputFrame>, p: Predicted, tick: int): Predicted {
    if !p.world.hasPlayer then Predicted(sim.step(p.world, scope, tick, p.actions, []), p.actions)
    else
      var edges := EdgesAt(frames, tick);
      Predicted(sim.step(p.world, scope, tick, AdvanceTick(p.actions), edges), FoldTick(p.actions, edges))
  }

  /** Ticks `from` to `until`, both included. */
  function StepSpan(sim: Simulation, scope: set<EntityId>, frames: seq<InputFrame>, p: Predicted, from: int, until: int): Predicted
    decreases until - from + 1
  {
    if until < from then p
    else StepTick(sim, scope, frames, StepSpan(sim, scope, frames, p, from, until - 1), until)
  }

  lemma {:induction false} SpanWithinScope(
      sim: Simulation, scope: set<EntityId>, frames: seq<InputFrame>, p: Predicted, from: int, until: int)
    requires Framed(sim)
    ensures WithinScope(p.world, StepSpan(sim, scope, frames, p, from, until).world, scope)
    decreases until - from + 1
  {
    if from <= until {
      SpanWithinScope(sim, scope, frames, p, from, until - 1);
      var before := StepSpan(sim, scope, frames, p, from, until - 1);
      WithinScopeTrans(p.world, before.world, StepTick(sim, scope, frames, before, until).world, scope);
    }
  }

  lemma SpanStaysWithin(
      sim: Simulation, scope: set<EntityId>, frames: seq<InputFrame>, w0: World, p: Predicted, from: int, until: int)
    requires Framed(sim) && WithinScope(w0, p.world, scope)
    ensures WithinScope(w0, StepSpan(sim, scope, frames, p, from, until).world, scope)
  {
    SpanWithinScope(sim, scope, frames, p, from, until);
    WithinScopeTrans(w0, p.world, StepSpan(sim, scope, frames, p, from, until).world, scope);
  }

  /** A game in which nothing moves. */
  const STILL := Simulation(
    (w: World, scope: set<EntityId>, tick: int, actions: Actions, edges: seq<Edge>) => w,
    (m: Mirror, e: Envelope) => m,
    (w: World) => {})

  /** Some simulation keeps both promises, so the theorems speak of something. */
  lemma PromisesCanBeKept()
    ensures Framed(STILL) && TicksFollow(STILL)
  {
    forall w, scope, tick, actions, edges ensures WithinScope(w, STILL.step(w, scope, tick, actions, edges), scope) {
    }
  }

  // ---------------------------------------------------------------------------------------------
  // What prediction is for: the authority's own input, replayed over the authority's own world

  /** What an authority that folded every frame stamped by `tick` holds; `AuthorityFold` gives it tick by tick. */
  function AuthorityBy(base: Actions, sent: seq<InputFrame>, tick: int): Actions {
    FoldFrames(base, Through(sent, tick))
  }

  /** The authoritative world stepped to `tick` on the authority's input: nothing of the ring in it. */
  function PredictedWorld(sim: Simulation, scope: set<EntityId>, base: Actions, sent: seq<InputFrame>, w0: World, depicted: int, tick: int): World
    decreases tick - depicted
  {
    if tick <= depicted then w0
    else sim.step(PredictedWorld(sim, scope, base, sent, w0, depicted, tick - 1), scope, tick,
                  AdvanceTick(AuthorityBy(base, sent, tick - 1)), EdgesAt(sent, tick))
  }

  /** `p` is the prediction at `tick`. */
  ghost predicate IsPrediction(sim: Simulation, scope: set<EntityId>, base: Actions, sent: seq<InputFrame>, w0: World, depicted: int, p: Predicted, tick: int) {
    && p.world.hasPlayer
    && p.world == PredictedWorld(sim, scope, base, sent, w0, depicted, tick)
    && SamePersistent(p.actions, AuthorityBy(base, sent, tick))
  }

  lemma {:induction false} PredictTick(
      sim: Simulation, scope: set<EntityId>, base: Actions, folded: seq<InputFrame>, ring: seq<InputFrame>, w0: World,
      depicted: int, p: Predicted, tick: int)
    requires Framed(sim) && Ordered(folded + ring) && AllBy(folded, tick - 1) && depicted < tick
    requires IsPrediction(sim, scope, base, folded + ring, w0, depicted, p, tick - 1)
    ensures IsPrediction(sim, scope, base, folded + ring, w0, depicted, StepTick(sim, scope, ring, p, tick), tick)
  {
    var sent := folded + ring;
    assert EdgesAt(sent, tick) == EdgesAt(ring, tick) by {
      EdgesAtConcat(folded, ring, tick);
      ThroughAll(folded, tick - 1);
    }
    FoldNextTick(base, sent, tick);
    PersistentFold(AdvanceTick(p.actions), AdvanceTick(AuthorityBy(base, sent, tick - 1)), EdgesAt(ring, tick));
    assert AdvanceTick(p.actions) == AdvanceTick(AuthorityBy(base, sent, tick - 1));
    assert WithinScope(p.world, sim.step(p.world, scope, tick, AdvanceTick(p.actions), EdgesAt(ring, tick)), scope);
  }

  lemma {:induction false} PredictSpan(
      sim: Simulation, scope: set<EntityId>, base: Actions, folded: seq<InputFrame>, ring: seq<InputFrame>, w0: World,
      depicted: int, p: Predicted, at: int, until: int)
    requires Framed(sim) && Ordered(folded + ring) && AllBy(folded, at) && depicted <= at
    requires IsPrediction(sim, scope, base, folded + ring, w0, depicted, p, at)
    ensures until >= at ==>
              IsPrediction(sim, scope, base, folded + ring, w0, depicted, StepSpan(sim, scope, ring, p, at + 1, until), until)
    decreases until - at + 1
  {
    if at < until {
      PredictSpan(sim, scope, base, folded, ring, w0, depicted, p, at, until - 1);
      PredictTick(sim, scope, base, folded, ring, w0, depicted, StepSpan(sim, scope, ring, p, at + 1, until - 1), until);
    }
  }

  /** The same, with no tick to go when `until` is not ahead. */
  lemma {:induction false} PredictOn(
      sim: Simulation, scope: set<EntityId>, base: Actions, folded: seq<InputFrame>, ring: seq<InputFrame>, sent: seq<InputFrame>,
      w0: World, depicted: int, p: Predicted, at: int, from: int, until: int, q: Predicted, tick: int)
    requires Framed(sim) && sent == folded + ring && Ordered(sent) && AllBy(folded, at) && depicted <= at
    requires IsPrediction(sim, scope, base, sent, w0, depicted, p, at)
    requires from == at + 1 && q == StepSpan(sim, scope, ring, p, from, until) && tick == if until > at then until else at
    ensures IsPrediction(sim, scope, base, sent, w0, depicted, q, tick)
  {
    PredictSpan(sim, scope, base, folded, ring, w0, depicted, p, at, until);
  }

  /** A seed from a horizon that holds nothing at a neutral axis is the authority's state at the depicted tick. */
  lemma {:induction false} SeedIsPrediction(
      sim: Simulation, scope: set<EntityId>, base: Actions, folded: seq<InputFrame>, ring: seq<InputFrame>, w0: World, depicted: int)
    requires Ordered(folded + ring) && AllBy(folded, depicted) && w0.hasPlayer
    requires HeldNeutral(FoldFrames(base, folded)) == {}
    ensures IsPrediction(sim, scope, base, folded + ring, w0, depicted,
                         Predicted(w0, Seed(FoldFrames(base, folded), ring, depicted)), depicted)
  {
    OrderedSplit(folded, ring);
    LeadingIsThrough(ring, depicted);
    ThroughConcat(folded, ring, depicted);
    ThroughAll(folded, depicted);
    ReassertedFold(base, folded, Through(ring, depicted));
  }

  /** A frame stamped past `tick` is not yet part of the prediction there. */
  lemma {:induction false} PredictionIgnoresLater(
      sim: Simulation, scope: set<EntityId>, base: Actions, sent: seq<InputFrame>, frame: InputFrame, w0: World, depicted: int, tick: int)
    requires frame.tick > tick
    ensures PredictedWorld(sim, scope, base, sent + [frame], w0, depicted, tick)
            == PredictedWorld(sim, scope, base, sent, w0, depicted, tick)
    ensures AuthorityBy(base, sent + [frame], tick) == AuthorityBy(base, sent, tick)
    decreases tick - depicted
  {
    assert (sent + [frame])[..|sent|] == sent;
    assert Through(sent + [frame], tick) == Through(sent, tick);
    if depicted < tick {
      PredictionIgnoresLater(sim, scope, base, sent, frame, w0, depicted, tick - 1);
      assert EdgesAt(sent + [frame], tick) == EdgesAt(sent, tick);
    }
  }
}
