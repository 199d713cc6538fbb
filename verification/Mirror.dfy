/**
 * The mirror's identity maps with their deferred unmapping, and the join of its two channels by tick.
 */
module Mirrors {
  import opened Wrappers
  import opened Shared

  type NetId = int
  type EntityId = int

  // ---------------------------------------------------------------------------------------------
  // The index

  datatype Index = Index(toLocal: map<NetId, EntityId>, toNet: map<EntityId, NetId>)

  /** A bijection between mapped netIds and distinct local handles. */
  ghost predicate Bijective(ix: Index) {
    Inverse(ix.toLocal, ix.toNet)
  }

  function Bound(ix: Index, net: NetId, local: EntityId): Index {
    var toNet := if net in ix.toLocal then ix.toNet - {ix.toLocal[net]} else ix.toNet;
    Index(ix.toLocal[net := local], toNet[local := net])
  }

  function Unbound(ix: Index, net: NetId): Index {
    if net !in ix.toLocal then ix else Index(ix.toLocal - {net}, ix.toNet - {ix.toLocal[net]})
  }

  /** Binding keeps the bijection exactly when the local handle is free, or already this netId's own. */
  lemma BindKeepsInverseIff(ix: Index, net: NetId, local: EntityId)
    requires Bijective(ix)
    ensures Bijective(Bound(ix, net, local)) <==> local !in ix.toNet || ix.toNet[local] == net
  {
    var after := Bound(ix, net, local);
    if local in ix.toNet && ix.toNet[local] != net {
      var other := ix.toNet[local];
      assert other in after.toLocal && after.toLocal[other] == local && after.toNet[local] == net;
    }
  }

  lemma UnbindKeepsInverse(ix: Index, net: NetId)
    requires Bijective(ix)
    ensures Bijective(Unbound(ix, net))
  {
  }

  class MirrorIndex {
    var toLocal: map<NetId, EntityId>
    var toNet: map<EntityId, NetId>

    function View(): Index
      reads this
    {
      Index(toLocal, toNet)
    }

    constructor ()
      ensures View() == Index(map[], map[])
    {
      toLocal, toNet := map[], map[];
    }

    method Set(net: NetId, local: EntityId)
      modifies this
      ensures View() == Bound(old(View()), net, local)
    {
      if net in toLocal {
        toNet := toNet - {toLocal[net]};
      }
      toLocal := toLocal[net := local];
      toNet := toNet[local := net];
    }

    method Delete(net: NetId)
      modifies this
      ensures View() == Unbound(old(View()), net)
    {
      if net !in toLocal {
        return;
      }
      var local := toLocal[net];
      toLocal := toLocal - {net};
      toNet := toNet - {local};
    }
  }

  // ---------------------------------------------------------------------------------------------
  // One envelope's structural journal

  /** `local` is the handle the runtime mints for a spawn it carries out. */
  datatype Op = Spawn(net: NetId, local: EntityId) | Destroy(net: NetId) | OtherOp

  predicate Plausible(net: NetId) {
    0 <= net <= MAX_SAFE_INTEGER
  }

  predicate Spawns(op: Op, net: NetId) {
    op.Spawn? && op.net == net && Plausible(net)
  }

  predicate Destroys(op: Op, net: NetId) {
    op.Destroy? && op.net == net
  }

  /** The index in the middle of an envelope: what will be unmapped at its end, and how many ops came to nothing. */
  datatype Journal = Journal(index: Index, unmap: seq<NetId>, unknown: nat, invalid: nat)

  function Applied(j: Journal, op: Op): Journal {
    match op
    case Spawn(net, local) =>
      if !Plausible(net) then j.(invalid := j.invalid + 1) else j.(index := Bound(j.index, net, local))
    case Destroy(net) =>
      if net !in j.index.toLocal then j.(unknown := j.unknown + 1) else j.(unmap := j.unmap + [net])
    case OtherOp => j
  }

  function AppliedAll(j: Journal, ops: seq<Op>): Journal {
    if ops == [] then j else Applied(AppliedAll(j, ops[..|ops| - 1]), ops[|ops| - 1])
  }

  function UnboundAll(ix: Index, nets: seq<NetId>): Index {
    if nets == [] then ix else Unbound(UnboundAll(ix, nets[..|nets| - 1]), nets[|nets| - 1])
  }

  /** What an envelope leaves: the ops in order, then the queued teardowns. */
  function AfterEnvelope(ix: Index, ops: seq<Op>): Index {
    var j := AppliedAll(Journal(ix, [], 0, 0), ops);
    UnboundAll(j.index, j.unmap)
  }

  /** The reference: each destroy unmaps on the spot. */
  function Immediately(ix: Index, ops: seq<Op>): Index {
    if ops == [] then ix
    else
      var before := Immediately(ix, ops[..|ops| - 1]);
      match ops[|ops| - 1]
      case Spawn(net, local) => if !Plausible(net) then before else Bound(before, net, local)
      case Destroy(net) => Unbound(before, net)
      case OtherOp => before
  }

  /** Fresh handles: none in the index yet, and none minted twice in the envelope. */
  ghost predicate FreshLocals(ix: Index, ops: seq<Op>) {
    && (forall i :: 0 <= i < |ops| && ops[i].Spawn? ==> ops[i].local !in ix.toNet)
    && (forall i, j :: 0 <= i < j < |ops| && ops[i].Spawn? && ops[j].Spawn? ==> ops[i].local != ops[j].local)
  }

  ghost predicate MintedIn(ops: seq<Op>, local: EntityId) {
    exists i :: 0 <= i < |ops| && ops[i].Spawn? && ops[i].local == local
  }

  predicate AnySpawn(ops: seq<Op>, net: NetId) {
    ops != [] && (AnySpawn(ops[..|ops| - 1], net) || Spawns(ops[|ops| - 1], net))
  }

  /** Some destroy met the netId mapped. */
  predicate Torn(ops: seq<Op>, net: NetId, mapped: bool) {
    && ops != []
    && var init := ops[..|ops| - 1];
       Torn(init, net, mapped) || (Destroys(ops[|ops| - 1], net) && (mapped || AnySpawn(init, net)))
  }

  /** The last op naming the netId is a spawn. */
  predicate EndsSpawned(ops: seq<Op>, net: NetId) {
    && ops != []
    && var last := ops[|ops| - 1];
       Spawns(last, net) || (!Destroys(last, net) && EndsSpawned(ops[..|ops| - 1], net))
  }

  lemma {:induction false} UnboundAllMaps(ix: Index, nets: seq<NetId>)
    requires Bijective(ix)
    ensures Bijective(UnboundAll(ix, nets))
    ensures forall n :: n in UnboundAll(ix, nets).toLocal <==> n in ix.toLocal && n !in nets
    ensures forall n :: n in UnboundAll(ix, nets).toLocal ==> UnboundAll(ix, nets).toLocal[n] == ix.toLocal[n]
  {
    if nets != [] {
      var init, last := nets[..|nets| - 1], nets[|nets| - 1];
      assert nets == init + [last];
      UnboundAllMaps(ix, init);
      UnbindKeepsInverse(UnboundAll(ix, init), last);
    }
  }

  /** Mid-envelope: a bijection still, over everything mapped or spawned, with the torn netIds queued. */
  lemma {:induction false} JournalMaps(ix: Index, ops: seq<Op>)
    requires Bijective(ix) && FreshLocals(ix, ops)
    ensures var j := AppliedAll(Journal(ix, [], 0, 0), ops);
            && Bijective(j.index)
            && (forall l :: l in j.index.toNet ==> l in ix.toNet || MintedIn(ops, l))
            && (forall n :: n in j.index.toLocal <==> n in ix.toLocal || AnySpawn(ops, n))
            && (forall n :: n in j.unmap <==> Torn(ops, n, n in ix.toLocal))
  {
    if ops != [] {
      var init, last := ops[..|ops| - 1], ops[|ops| - 1];
      FreshLocalsInit(ix, ops);
      JournalMaps(ix, init);
      var before := AppliedAll(Journal(ix, [], 0, 0), init);
      if last.Spawn? && Plausible(last.net) {
        BindKeepsInverseIff(before.index, last.net, last.local);
      }
      JournalHandles(ix, ops, before.index);
    }
  }

  lemma FreshLocalsInit(ix: Index, ops: seq<Op>)
    requires FreshLocals(ix, ops) && ops != []
    ensures FreshLocals(ix, ops[..|ops| - 1])
  {
  }

  lemma JournalHandles(ix: Index, ops: seq<Op>, before: Index)
    requires ops != [] && FreshLocals(ix, ops)
    requires forall l :: l in before.toNet ==> l in ix.toNet || MintedIn(ops[..|ops| - 1], l)
    ensures forall l :: l in before.toNet ==> l in ix.toNet || MintedIn(ops, l)
    ensures var last := ops[|ops| - 1];
            last.Spawn? ==> last.local !in before.toNet && MintedIn(ops, last.local)
  {
    var init, last := ops[..|ops| - 1], ops[|ops| - 1];
    forall l | MintedIn(init, l) ensures MintedIn(ops, l) && (last.Spawn? ==> l != last.local) {
      var i :| 0 <= i < |init| && init[i].Spawn? && init[i].local == l;
      assert ops[i] == init[i];
    }
  }

  /** Between envelopes the index is a bijection, holding exactly what was mapped or spawned and never torn down. */
  lemma EnvelopeMaps(ix: Index, ops: seq<Op>)
    requires Bijective(ix) && FreshLocals(ix, ops)
    ensures Bijective(AfterEnvelope(ix, ops))
    ensures forall n :: n in AfterEnvelope(ix, ops).toLocal
                        <==> (n in ix.toLocal || AnySpawn(ops, n)) && !Torn(ops, n, n in ix.toLocal)
  {
    var j := AppliedAll(Journal(ix, [], 0, 0), ops);
    JournalMaps(ix, ops);
    UnboundAllMaps(j.index, j.unmap);
  }

  lemma {:induction false} ImmediateMaps(ix: Index, ops: seq<Op>, net: NetId)
    ensures net in Immediately(ix, ops).toLocal
            <==> EndsSpawned(ops, net) || (net in ix.toLocal && !AnySpawn(ops, net) && !Torn(ops, net, net in ix.toLocal))
  {
    if ops != [] {
      ImmediateMaps(ix, ops[..|ops| - 1], net);
    }
  }

  lemma {:induction false} SpawnedOrTorn(ops: seq<Op>, net: NetId, mapped: bool)
    ensures EndsSpawned(ops, net) ==> AnySpawn(ops, net)
    ensures AnySpawn(ops, net) && !EndsSpawned(ops, net) ==> Torn(ops, net, mapped)
  {
    if ops != [] {
      SpawnedOrTorn(ops[..|ops| - 1], net, mapped);
    }
  }

  /**
   * Deferring the unmapping gives each netId the fate immediate unmapping would, exactly when the envelope does
   * not tear it down and then, with no later destroy, spawn it again: that last pairing is dropped.
   */
  lemma DeferralAgreesIff(ix: Index, ops: seq<Op>, net: NetId)
    requires Bijective(ix) && FreshLocals(ix, ops)
    ensures (net in AfterEnvelope(ix, ops).toLocal <==> net in Immediately(ix, ops).toLocal)
            <==> !(Torn(ops, net, net in ix.toLocal) && EndsSpawned(ops, net))
  {
    EnvelopeMaps(ix, ops);
    ImmediateMaps(ix, ops, net);
    SpawnedOrTorn(ops, net, net in ix.toLocal);
  }

  // ---------------------------------------------------------------------------------------------
  // The two channels

  datatype Transforms = Transforms(tick: int, body: seq<int>)

  /** Transforms waiting on their state envelope, and everything written or passed over so far. */
  datatype Join = Join(stateApplied: int, held: Option<Transforms>, written: seq<Transforms>, superseded: seq<Transforms>)

  const FRESH_JOIN := Join(-1, None, [], [])

  datatype Arrival = StateArrives(tick: int) | TransformArrives(t: Transforms)

  function Arrived(j: Join, a: Arrival): Join {
    match a
    case StateArrives(tick) =>
      if j.held.None? || j.held.value.tick > tick then j.(stateApplied := tick)
      else j.(stateApplied := tick, held := None, written := j.written + [j.held.value])
    case TransformArrives(t) =>
      if t.tick > j.stateApplied then
        j.(held := Some(t), superseded := if j.held.Some? then j.superseded + [j.held.value] else j.superseded)
      else j.(written := j.written + [t])
  }

  function ArrivedAll(j: Join, arrivals: seq<Arrival>): Join {
    if arrivals == [] then j else Arrived(ArrivedAll(j, arrivals[..|arrivals| - 1]), arrivals[|arrivals| - 1])
  }

  /** Each channel on its own in increasing tick order; how they interleave is free. */
  ghost predicate InChannelOrder(arrivals: seq<Arrival>) {
    && (forall i, j :: 0 <= i < j < |arrivals| && arrivals[i].StateArrives? && arrivals[j].StateArrives? ==>
                         arrivals[i].tick < arrivals[j].tick)
    && (forall i, j :: 0 <= i < j < |arrivals| && arrivals[i].TransformArrives? && arrivals[j].TransformArrives? ==>
                         arrivals[i].t.tick < arrivals[j].t.tick)
  }

  function Received(arrivals: seq<Arrival>): seq<Transforms> {
    if arrivals == [] then []
    else Received(arrivals[..|arrivals| - 1])
         + match arrivals[|arrivals| - 1] case TransformArrives(t) => [t] case StateArrives(_) => []
  }

  function LastState(arrivals: seq<Arrival>): int {
    if arrivals == [] then -1
    else match arrivals[|arrivals| - 1] case StateArrives(tick) => tick case TransformArrives(_) => LastState(arrivals[..|arrivals| - 1])
  }

  ghost predicate Rising(s: seq<Transforms>) {
    forall i, j :: 0 <= i < j < |s| ==> s[i].tick < s[j].tick
  }

  function Waiting(held: Option<Transforms>): seq<Transforms> {
    if held.Some? then [held.value] else []
  }

  /** Written ticks rise and never run ahead of the state; what is held is newest and lies beyond it. */
  ghost predicate InStep(j: Join, received: seq<Transforms>) {
    && Rising(received) && Rising(j.written)
    && (forall t :: t in j.written ==> t.tick <= j.stateApplied)
    && (j.held.Some? ==> received != [] && received[|received| - 1] == j.held.value && j.held.value.tick > j.stateApplied)
    && (forall t :: t in j.written || t in j.superseded ==> received != [] && t.tick <= received[|received| - 1].tick)
    && (forall t :: t in j.superseded ==> t.tick < received[|received| - 1].tick)
  }

  /** Nothing received is lost or made up: it was written, is held, or was passed over. */
  ghost predicate Accounted(j: Join, received: seq<Transforms>) {
    multiset(received) == multiset(j.written) + multiset(Waiting(j.held)) + multiset(j.superseded)
  }

  lemma RisingAppend(s: seq<Transforms>, t: Transforms)
    requires Rising(s) && forall x :: x in s ==> x.tick < t.tick
    ensures Rising(s + [t])
  {
    forall i, j | 0 <= i < j < |s| + 1 ensures (s + [t])[i].tick < (s + [t])[j].tick {
      assert s[i] in s;
    }
  }

  lemma StateKeepsStep(j: Join, received: seq<Transforms>, tick: int)
    requires InStep(j, received) && tick >= j.stateApplied
    ensures InStep(Arrived(j, StateArrives(tick)), received)
  {
    if j.held.Some? && j.held.value.tick <= tick {
      RisingAppend(j.written, j.held.value);
    }
  }

  lemma TransformKeepsStep(j: Join, received: seq<Transforms>, t: Transforms)
    requires InStep(j, received) && forall x :: x in received ==> x.tick < t.tick
    ensures InStep(Arrived(j, TransformArrives(t)), received + [t])
  {
    RisingAppend(received, t);
    var now := received + [t];
    assert now[|now| - 1] == t;
    assert received != [] ==> received[|received| - 1] in received;
    if t.tick <= j.stateApplied {
      RisingAppend(j.written, t);
    }
  }

  lemma StateAccounted(j: Join, received: seq<Transforms>, tick: int)
    requires Accounted(j, received)
    ensures Accounted(Arrived(j, StateArrives(tick)), received)
  {
    var after := Arrived(j, StateArrives(tick));
    if j.held.Some? && j.held.value.tick <= tick {
      assert after == j.(stateApplied := tick, held := None, written := j.written + [j.held.value]);
      Passes(multiset(received), j.written, j.held.value, multiset(j.superseded));
    } else {
      assert after == j.(stateApplied := tick);
    }
  }

  lemma WriteAccounted(j: Join, received: seq<Transforms>, t: Transforms)
    requires Accounted(j, received) && t.tick <= j.stateApplied
    ensures Accounted(Arrived(j, TransformArrives(t)), received + [t])
  {
    assert Arrived(j, TransformArrives(t)) == j.(written := j.written + [t]);
    Adds(received, j.written, t, multiset(Waiting(j.held)), multiset(j.superseded));
  }

  lemma HoldAccounted(j: Join, received: seq<Transforms>, t: Transforms)
    requires Accounted(j, received) && t.tick > j.stateApplied
    ensures Accounted(Arrived(j, TransformArrives(t)), received + [t])
  {
    var after := Arrived(j, TransformArrives(t));
    var waiting := Waiting(j.held);
    assert after.written == j.written && after.held == Some(t);
    assert after.superseded == if waiting != [] then j.superseded + [waiting[0]] else j.superseded;
    Replaces(received, multiset(j.written), waiting, j.superseded, t);
  }

  /** What was held moves to the end of a list. */
  lemma Passes(all: multiset<Transforms>, list: seq<Transforms>, held: Transforms, rest: multiset<Transforms>)
    requires all == multiset(list) + multiset([held]) + rest
    ensures all == multiset(list + [held]) + multiset([]) + rest
  {
    MultisetAppend(list, held);
  }

  lemma Adds(received: seq<Transforms>, written: seq<Transforms>, t: Transforms, held: multiset<Transforms>, rest: multiset<Transforms>)
    requires multiset(received) == multiset(written) + held + rest
    ensures multiset(received + [t]) == multiset(written + [t]) + held + rest
  {
    MultisetAppend(received, t);
    MultisetAppend(written, t);
  }

  lemma Replaces(received: seq<Transforms>, written: multiset<Transforms>, held: seq<Transforms>, superseded: seq<Transforms>, t: Transforms)
    requires multiset(received) == written + multiset(held) + multiset(superseded) && |held| <= 1
    ensures multiset(received + [t])
            == written + multiset([t]) + multiset(if held != [] then superseded + [held[0]] else superseded)
  {
    MultisetAppend(received, t);
    if held != [] {
      assert held == [held[0]];
      MultisetAppend(superseded, held[0]);
    }
  }

  lemma MultisetAppend(s: seq<Transforms>, t: Transforms)
    ensures multiset(s + [t]) == multiset(s) + multiset([t])
  {
  }

  lemma InChannelOrderInit(arrivals: seq<Arrival>)
    requires InChannelOrder(arrivals) && arrivals != []
    ensures InChannelOrder(arrivals[..|arrivals| - 1])
    ensures var last := arrivals[|arrivals| - 1];
            last.TransformArrives? ==> forall x :: x in Received(arrivals[..|arrivals| - 1]) ==> x.tick < last.t.tick
    ensures var last := arrivals[|arrivals| - 1];
            last.StateArrives? && last.tick >= 0 ==> LastState(arrivals[..|arrivals| - 1]) <= last.tick
  {
    var init, last := arrivals[..|arrivals| - 1], arrivals[|arrivals| - 1];
    forall x | x in Received(init) ensures last.TransformArrives? ==> x.tick < last.t.tick {
      ReceivedArrives(init, x);
    }
    LastStateArrives(init);
  }

  lemma {:induction false} ReceivedArrives(arrivals: seq<Arrival>, x: Transforms)
    requires x in Received(arrivals)
    ensures TransformArrives(x) in arrivals
  {
    var init, last := arrivals[..|arrivals| - 1], arrivals[|arrivals| - 1];
    if x in Received(init) {
      ReceivedArrives(init, x);
    }
  }

  lemma {:induction false} LastStateArrives(arrivals: seq<Arrival>)
    ensures LastState(arrivals) == -1 || StateArrives(LastState(arrivals)) in arrivals
  {
    if arrivals != [] {
      LastStateArrives(arrivals[..|arrivals| - 1]);
    }
  }

  ghost predicate Joined(j: Join, received: seq<Transforms>, lastState: int) {
    InStep(j, received) && Accounted(j, received) && j.stateApplied == lastState
  }

  lemma StateJoins(j: Join, received: seq<Transforms>, lastState: int, tick: int)
    requires Joined(j, received, lastState) && lastState <= tick
    ensures Joined(Arrived(j, StateArrives(tick)), received, tick)
  {
    StateAccounted(j, received, tick);
    StateKeepsStep(j, received, tick);
  }

  lemma TransformJoins(j: Join, received: seq<Transforms>, lastState: int, t: Transforms)
    requires Joined(j, received, lastState) && forall x :: x in received ==> x.tick < t.tick
    ensures Joined(Arrived(j, TransformArrives(t)), received + [t], lastState)
  {
    if t.tick <= j.stateApplied {
      WriteAccounted(j, received, t);
    } else {
      HoldAccounted(j, received, t);
    }
    TransformKeepsStep(j, received, t);
  }

  lemma {:induction false} ArrivalsLast(arrivals: seq<Arrival>)
    requires arrivals != []
    ensures var init, last := arrivals[..|arrivals| - 1], arrivals[|arrivals| - 1];
            && ArrivedAll(FRESH_JOIN, arrivals) == Arrived(ArrivedAll(FRESH_JOIN, init), last)
            && (last.StateArrives? ==> Received(arrivals) == Received(init) && LastState(arrivals) == last.tick)
            && (last.TransformArrives? ==> Received(arrivals) == Received(init) + [last.t] && LastState(arrivals) == LastState(init))
  {
  }

  /**
   * The two-channel join, over any interleaving: written ticks increase, none is written before a state of at
   * least its tick, whatever is held lies beyond the last state applied, and every transform received is
   * written, held, or counted superseded by a newer one.
   */
  lemma {:induction false} JoinHolds(arrivals: seq<Arrival>)
    requires InChannelOrder(arrivals)
    requires forall i :: 0 <= i < |arrivals| && arrivals[i].StateArrives? ==> arrivals[i].tick >= 0
    ensures Joined(ArrivedAll(FRESH_JOIN, arrivals), Received(arrivals), LastState(arrivals))
  {
    if arrivals != [] {
      var init, last := arrivals[..|arrivals| - 1], arrivals[|arrivals| - 1];
      InChannelOrderInit(arrivals);
      JoinHolds(init);
      ArrivalsLast(arrivals);
      match last
      case StateArrives(tick) => StateJoins(ArrivedAll(FRESH_JOIN, init), Received(init), LastState(init), tick);
      case TransformArrives(t) => TransformJoins(ArrivedAll(FRESH_JOIN, init), Received(init), LastState(init), t);
    }
  }

  // ---------------------------------------------------------------------------------------------
  // The mirror object

  class Mirror {
    const index: MirrorIndex
    var depictedTick: int
    var stateAppliedTick: int
    var heldTransforms: Option<Transforms>
    var pendingUnmap: seq<NetId>
    var unknownNetId: nat
    var invalidNetId: nat
    var supersededTransforms: nat

    ghost var written: seq<Transforms>
    ghost var superseded: seq<Transforms>

    constructor ()
      ensures fresh(index) && index.View() == Index(map[], map[]) && JoinView() == FRESH_JOIN && Settled()
    {
      index := new MirrorIndex();
      depictedTick, stateAppliedTick, heldTransforms, pendingUnmap := 0, -1, None, [];
      unknownNetId, invalidNetId, supersededTransforms := 0, 0, 0;
      written, superseded := [], [];
    }

    ghost function JoinView(): Join
      reads this
    {
      Join(stateAppliedTick, heldTransforms, written, superseded)
    }

    /** Between envelopes nothing is queued, and the counter counts what was passed over. */
    ghost predicate Settled()
      reads this
    {
      pendingUnmap == [] && supersededTransforms == |superseded|
    }

    ghost function JournalView(): Journal
      reads this, index
    {
      Journal(index.View(), pendingUnmap, unknownNetId, invalidNetId)
    }

    method ApplyOp(op: Op)
      modifies this`pendingUnmap, this`unknownNetId, this`invalidNetId, index
      ensures JournalView() == Applied(old(JournalView()), op)
      ensures invalidNetId == old(invalidNetId) + if op.Spawn? && !(0 <= op.net <= 0x1F_FFFF_FFFF_FFFF) then 1 else 0
      ensures unknownNetId == old(unknownNetId) + if op.Destroy? && op.net !in old(index.toLocal) then 1 else 0
      ensures pendingUnmap == old(pendingUnmap) + if op.Destroy? && op.net in old(index.toLocal) then [op.net] else []
      ensures index.toLocal == if op.Spawn? && 0 <= op.net <= 0x1F_FFFF_FFFF_FFFF then old(index.toLocal)[op.net := op.local] else old(index.toLocal)
    {
      match op
      case Spawn(net, local) =>
        if !(0 <= net <= MAX_SAFE_INTEGER) {
          invalidNetId := invalidNetId + 1;
        } else {
          index.Set(net, local);
        }
      case Destroy(net) =>
        if net !in index.toLocal {
          unknownNetId := unknownNetId + 1;
        } else {
          pendingUnmap := pendingUnmap + [net];
        }
      case OtherOp =>
    }

    /** The journal in order, then the queued teardowns. */
    method ApplyStructural(ops: seq<Op>)
      requires Settled()
      modifies this`pendingUnmap, this`unknownNetId, this`invalidNetId, index
      ensures Settled() && index.View() == AfterEnvelope(old(index.View()), ops)
    {
      ghost var start := JournalView();
      for i := 0 to |ops|
        invariant JournalView() == AppliedAll(start, ops[..i])
      {
        assert ops[..i + 1][..i] == ops[..i];
        ApplyOp(ops[i]);
      }
      assert ops[..|ops|] == ops;
      CountersIgnored(start, ops);
      ghost var ready := index.View();
      var queued := pendingUnmap;
      for i := 0 to |queued|
        invariant index.View() == UnboundAll(ready, queued[..i])
      {
        assert queued[..i + 1][..i] == queued[..i];
        index.Delete(queued[i]);
      }
      assert queued[..|queued|] == queued;
      pendingUnmap := [];
    }

    /** The reliable envelope: both ticks, the journal, and last any transforms it releases. */
    method ApplyState(tick: int, ops: seq<Op>)
      requires Settled()
      modifies this, index
      ensures Settled() && depictedTick == tick
      ensures index.View() == AfterEnvelope(old(index.View()), ops)
      ensures JoinView() == Arrived(old(JoinView()), StateArrives(tick))
    {
      depictedTick := tick;
      ApplyStructural(ops);
      stateAppliedTick := tick;
      if heldTransforms.Some? && heldTransforms.value.tick <= tick {
        written := written + [heldTransforms.value];
        heldTransforms := None;
      }
    }

    /** A transform ahead of the state waits, displacing any that waited before it; another is written at once. */
    method ApplyTransforms(t: Transforms)
      requires Settled()
      modifies this
      ensures Settled() && depictedTick == old(depictedTick)
      ensures JoinView() == Arrived(old(JoinView()), TransformArrives(t))
    {
      if t.tick > stateAppliedTick {
        if heldTransforms.Some? {
          supersededTransforms := supersededTransforms + 1;
          superseded := superseded + [heldTransforms.value];
        }
        heldTransforms := Some(t);
        return;
      }
      written := written + [t];
    }
  }

  /** Counters never steer the journal. */
  lemma {:induction false} CountersIgnored(start: Journal, ops: seq<Op>)
    ensures var a, b := AppliedAll(start, ops), AppliedAll(Journal(start.index, start.unmap, 0, 0), ops);
            a.index == b.index && a.unmap == b.unmap
  {
    if ops != [] {
      CountersIgnored(start, ops[..|ops| - 1]);
    }
  }
}
