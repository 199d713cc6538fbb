/**
 * From the wire to the screen: what one envelope's structural ops do to the mirrored world, what they report, and
 * what the render bridge makes of the report.
 */
module Envelopes {
  import opened Wrappers
  import opened Forests
  import opened Hierarchies

  // ---------------------------------------------------------------------------------------------
  // The mirrored world

  /** Handles ever minted, records that exist, the ones alive, who is under whom, and the netIds mapped. */
  datatype World = World(toLocal: map<int, nat>, minted: set<nat>, records: set<nat>, alive: set<nat>, parent: map<nat, nat>)

  /** `local` is the handle the runtime mints for a spawn. */
  datatype WireOp =
    | WireSpawn(net: int, local: nat, parent: Option<int>)
    | WireDestroy(net: int)
    | WireReparent(net: int, parent: Option<int>)

  datatype Move = Move(local: nat, above: Option<nat>)

  /** The world in the middle of an envelope, what has been reported so far, and what will be unmapped. */
  datatype Pass = Pass(world: World, added: seq<nat>, moves: seq<Move>, removed: seq<nat>, unmap: set<int>)

  ghost predicate Sound(w: World) {
    && w.alive <= w.records <= w.minted
    && (forall n :: n in w.toLocal ==> w.toLocal[n] in w.minted)
    && (forall e :: e in w.parent ==> e in w.records && w.parent[e] in w.records)
    && Acyclic(w.parent)
  }

  /** Between envelopes only the living have records. */
  ghost predicate Settled(w: World) {
    Sound(w) && w.alive == w.records
  }

  /** `attachTo` goes back without a word: no record on one side, or a parent that is dying. */
  predicate Declines(w: World, child: nat, above: nat) {
    child !in w.records || above !in w.records || above !in w.alive
  }

  /** `attachTo`, which throws on a parent below its child; a throw ends the session. */
  ghost function Hooked(w: World, child: nat, above: nat): World {
    if Declines(w, child, above) || Below(w.parent, above, child) then w
    else w.(parent := w.parent[child := above])
  }

  /** `EntityManager.destroy`: the entity and everything under it stop living; their records stay until the drain. */
  ghost function Killed(w: World, local: nat): World {
    if local !in w.alive then w
    else w.(alive := set e | e in w.alive && !Below(w.parent, e, local))
  }

  function Resolved(w: World, net: int): Option<nat> {
    if net in w.toLocal then Some(w.toLocal[net]) else None
  }

  ghost function Spawned(w: World, net: int, local: nat, parent: Option<int>): World {
    var born := World(w.toLocal[net := local], w.minted + {local}, w.records + {local}, w.alive + {local}, w.parent);
    if parent.Some? && Resolved(born, parent.value).Some? then Hooked(born, local, Resolved(born, parent.value).value) else born
  }

  /** One op: a reparent whose netIds resolve is reported whether or not the world took it. */
  ghost function Applied(p: Pass, op: WireOp): Pass {
    match op
    case WireSpawn(net, local, parent) => p.(world := Spawned(p.world, net, local, parent), added := p.added + [local])
    case WireDestroy(net) =>
      if Resolved(p.world, net).None? then p
      else
        var local := Resolved(p.world, net).value;
        p.(world := Killed(p.world, local), removed := p.removed + [local], unmap := p.unmap + {net})
    case WireReparent(net, parent) =>
      if Resolved(p.world, net).None? then p
      else
        var local := Resolved(p.world, net).value;
        if parent.None? then
          p.(world := p.world.(parent := p.world.parent - {local}), moves := p.moves + [Move(local, None)])
        else if Resolved(p.world, parent.value).None? then p
        else
          var above := Resolved(p.world, parent.value).value;
          p.(world := Hooked(p.world, local, above), moves := p.moves + [Move(local, Some(above))])
  }

  ghost function PassAll(w: World, ops: seq<WireOp>): Pass {
    if ops == [] then Pass(w, [], [], [], {}) else Applied(PassAll(w, ops[..|ops| - 1]), ops[|ops| - 1])
  }

  /** The drain and the deferred unmaps. */
  function Drained(p: Pass): World {
    World(map n | n in p.world.toLocal && n !in p.unmap :: p.world.toLocal[n], p.world.minted, p.world.alive, p.world.alive,
          map e | e in p.world.parent && e in p.world.alive :: p.world.parent[e])
  }

  /** A spawn, between envelopes: the newborn is alive under its new name, and hangs from its parent if that is alive. */
  lemma SpawnHangs(w: World, net: int, local: nat, parent: Option<int>)
    requires Settled(w) && local !in w.minted && (parent.Some? ==> parent.value != net)
    ensures var after := Applied(Pass(w, [], [], [], {}), WireSpawn(net, local, parent));
            && after.added == [local] && after.moves == [] && after.removed == [] && after.unmap == {}
            && after.world.toLocal == w.toLocal[net := local] && after.world.alive == w.alive + {local} == after.world.records
            && after.world.parent == if parent.Some? && parent.value in w.toLocal && w.toLocal[parent.value] in w.alive
                                     then w.parent[local := w.toLocal[parent.value]] else w.parent
  {
    forall x | x in w.records ensures !Below(w.parent, x, local) {
      if Below(w.parent, x, local) {
        var k: nat :| Up(w.parent, x, k) == Some(local);
        RecordsAbove(w, x, k);
      }
    }
  }

  lemma {:induction false} RecordsAbove(w: World, x: nat, k: nat)
    requires Sound(w) && x in w.records && Up(w.parent, x, k).Some?
    ensures Up(w.parent, x, k).value in w.records
    decreases k
  {
    if k > 0 {
      RecordsAbove(w, w.parent[x], k - 1);
    }
  }

  /** A reparent of one living thing under another that is not below it: one link moves, and that is what is reported. */
  lemma ReparentHangs(w: World, net: int, parent: int)
    requires Settled(w) && net in w.toLocal && parent in w.toLocal
    requires w.toLocal[net] in w.alive && w.toLocal[parent] in w.alive && !Below(w.parent, w.toLocal[parent], w.toLocal[net])
    ensures Applied(Pass(w, [], [], [], {}), WireReparent(net, Some(parent)))
            == Pass(w.(parent := w.parent[w.toLocal[net] := w.toLocal[parent]]), [], [Move(w.toLocal[net], Some(w.toLocal[parent]))], [], {})
    ensures Applied(Pass(w, [], [], [], {}), WireReparent(net, None))
            == Pass(w.(parent := w.parent - {w.toLocal[net]}), [], [Move(w.toLocal[net], None)], [], {})
  {
    assert [] + [Move(w.toLocal[net], None)] == [Move(w.toLocal[net], None)];
  }

  // ---------------------------------------------------------------------------------------------
  // What the bridge makes of it

  function ParentAt(w: World, e: nat): Option<nat> {
    if e in w.parent then Some(w.parent[e]) else None
  }

  /** `reconcile`: creates under the parents the drained world ended with, then the reported moves, then the removals. */
  ghost function CreatedAll(b: Bridge, w: World, added: seq<nat>, nodes: seq<nat>): Bridge
    requires |nodes| == |added|
  {
    if added == [] then b
    else
      var n := |added| - 1;
      Created(CreatedAll(b, w, added[..n], nodes[..n]), added[n], nodes[n], ParentAt(w, added[n]))
  }

  ghost function MovedAll(b: Bridge, moves: seq<Move>): Bridge {
    if moves == [] then b
    else Reparented(MovedAll(b, moves[..|moves| - 1]), moves[|moves| - 1].local, moves[|moves| - 1].above)
  }

  ghost function RemovedAll(b: Bridge, removed: seq<nat>): Bridge {
    if removed == [] then b else Removed(RemovedAll(b, removed[..|removed| - 1]), removed[|removed| - 1])
  }

  ghost function Reconciled(b: Bridge, p: Pass, nodes: seq<nat>): Bridge
    requires |nodes| == |p.added|
  {
    RemovedAll(MovedAll(CreatedAll(b, Drained(p), p.added, nodes), p.moves), p.removed)
  }

  /** The bridge draws exactly the living, each under the parent it has. */
  ghost predicate InStep(w: World, b: Bridge) {
    b.nodeFor.Keys == w.records && b.parentOf == w.parent
  }

  // ---------------------------------------------------------------------------------------------
  // Tidy envelopes

  /** A move of `e` has been reported. */
  ghost predicate Moved(moves: seq<Move>, e: nat) {
    exists i :: 0 <= i < |moves| && moves[i].local == e
  }

  /**
   * A spawn mints a new handle and is not put under itself. A reparent that resolves moves something living under
   * something living outside its subtree; failing that it names a child without a record, or a parent without one
   * for a child that has no parent and was there before or has been moved already.
   */
  ghost predicate Tidy(start: World, p: Pass, op: WireOp) {
    match op
    case WireSpawn(net, local, parent) =>
      local !in p.world.minted && (parent.Some? ==> parent.value != net)
    case WireDestroy(_) => true
    case WireReparent(net, parent) =>
      Resolved(p.world, net).Some? && (parent.Some? ==> Resolved(p.world, parent.value).Some?) ==>
        var local := Resolved(p.world, net).value;
        local in p.world.records ==>
          && local in p.world.alive
          && (parent.Some? ==>
                var above := Resolved(p.world, parent.value).value;
                if above in p.world.alive then !Below(p.world.parent, above, local)
                else above !in p.world.records && local !in p.world.parent && (local in start.records || Moved(p.moves, local)))
  }

  ghost predicate TidyOps(w: World, ops: seq<WireOp>) {
    ops != [] ==>
      var init := ops[..|ops| - 1];
      TidyOps(w, init) && Tidy(w, PassAll(w, init), ops[|ops| - 1])
  }

  /** And what an envelope spawns and kills again, it destroys by name. */
  ghost predicate TidyEnvelope(w: World, ops: seq<WireOp>) {
    && TidyOps(w, ops)
    && forall e :: e in PassAll(w, ops).added && e !in PassAll(w, ops).world.alive ==> e in PassAll(w, ops).removed
  }

  // ---------------------------------------------------------------------------------------------
  // The world, op by op

  /** The dead are those the removals take with them. */
  ghost predicate DeadAreDoomed(p: Pass) {
    forall e :: e in p.world.records ==> (e !in p.world.alive <==> Doomed(p.world.parent, p.removed, e))
  }

  /** New entities that were not moved hang from what was there before them. */
  ghost predicate NewHangEarlier(start: World, p: Pass) {
    forall i :: 0 <= i < |p.added| && !Moved(p.moves, p.added[i]) && p.added[i] in p.world.parent ==>
                  p.world.parent[p.added[i]] in start.records || p.world.parent[p.added[i]] in p.added[..i]
  }

  ghost predicate Fresh(start: World, p: Pass) {
    && start.minted <= p.world.minted
    && (forall e :: e in p.world.records <==> e in start.records || e in p.added)
    && (forall e :: e in p.added ==> e in p.world.minted && e !in start.minted)
    && (forall i, j :: 0 <= i < j < |p.added| ==> p.added[i] != p.added[j])
    && (forall q :: q in p.removed ==> q in p.world.minted)
    && (forall m :: m in p.moves ==> m.local in p.world.minted && (m.above.Some? ==> m.above.value in p.world.minted))
  }

  ghost predicate Midway(start: World, p: Pass) {
    Sound(p.world) && DeadAreDoomed(p) && NewHangEarlier(start, p) && Fresh(start, p)
  }

  /** Linking the living under the living dooms no one and spares no one. */
  lemma HookKeepsDoom(p: Pass, child: nat, above: nat, e: nat)
    requires Sound(p.world) && DeadAreDoomed(p) && child in p.world.alive && above in p.world.alive && e in p.world.records
    ensures Doomed(p.world.parent[child := above], p.removed, e) <==> Doomed(p.world.parent, p.removed, e)
  {
    var parent, now := p.world.parent, p.world.parent[child := above];
    if Doomed(now, p.removed, e) {
      var q :| q in p.removed && Below(now, e, q);
      var k: nat :| Up(now, e, k) == Some(q);
      RelinkBelow(parent, child, above, e, q, k);
      assert !Doomed(parent, p.removed, above);
    }
    if Doomed(parent, p.removed, e) {
      var q :| q in p.removed && Below(parent, e, q);
      var k: nat :| Up(parent, e, k) == Some(q);
      assert !Doomed(parent, p.removed, child);
      KeepsBelow(parent, now, child, e, q, k);
    }
  }

  lemma DetachKeepsDoom(p: Pass, child: nat, e: nat)
    requires Sound(p.world) && DeadAreDoomed(p) && child in p.world.alive && e in p.world.records
    ensures Doomed(p.world.parent - {child}, p.removed, e) <==> Doomed(p.world.parent, p.removed, e)
  {
    var parent, now := p.world.parent, p.world.parent - {child};
    if Doomed(now, p.removed, e) {
      var q :| q in p.removed && Below(now, e, q);
      var k: nat :| Up(now, e, k) == Some(q);
      UpWithin(now, parent, e, k);
    }
    if Doomed(parent, p.removed, e) {
      var q :| q in p.removed && Below(parent, e, q);
      var k: nat :| Up(parent, e, k) == Some(q);
      assert !Doomed(parent, p.removed, child);
      KeepsBelow(parent, now, child, e, q, k);
    }
  }

  lemma HookKeepsWorld(p: Pass, child: nat, above: nat, after: Pass)
    requires Sound(p.world) && DeadAreDoomed(p)
    requires child in p.world.alive && above in p.world.alive && !Below(p.world.parent, above, child)
    requires after.world == Hooked(p.world, child, above) && after.removed == p.removed
    ensures Sound(after.world) && DeadAreDoomed(after)
  {
    RelinkAcyclic(p.world.parent, child, above);
    forall e | e in after.world.records
      ensures e !in after.world.alive <==> Doomed(after.world.parent, after.removed, e)
    {
      HookKeepsDoom(p, child, above, e);
    }
  }

  lemma DetachKeepsWorld(p: Pass, child: nat, after: Pass)
    requires Sound(p.world) && DeadAreDoomed(p) && child in p.world.alive
    requires after.world == p.world.(parent := p.world.parent - {child}) && after.removed == p.removed
    ensures Sound(after.world) && DeadAreDoomed(after)
  {
    SubForest(after.world.parent, p.world.parent);
    forall e | e in after.world.records
      ensures e !in after.world.alive <==> Doomed(after.world.parent, after.removed, e)
    {
      DetachKeepsDoom(p, child, e);
    }
  }

  lemma BeforeTheLast(xs: seq<nat>, x: nat)
    requires xs != [] && x in xs && x != xs[|xs| - 1]
    ensures x in xs[..|xs| - 1]
  {
    var j :| 0 <= j < |xs| && xs[j] == x;
    assert xs[..|xs| - 1][j] == x;
  }

  /** The last newborn, hung as it is born. */
  lemma BirthHookHangs(start: World, p: Pass, child: nat, above: nat)
    requires NewHangEarlier(start, p) && Fresh(start, p) && above in p.world.records
    requires p.added != [] && child == p.added[|p.added| - 1] && above != child
    ensures NewHangEarlier(start, p.(world := p.world.(parent := p.world.parent[child := above])))
  {
    var now := p.world.parent[child := above];
    forall i | 0 <= i < |p.added| && !Moved(p.moves, p.added[i]) && p.added[i] in now
      ensures now[p.added[i]] in start.records || now[p.added[i]] in p.added[..i]
    {
      if p.added[i] == child {
        assert i == |p.added| - 1;
        if above !in start.records {
          BeforeTheLast(p.added, above);
        }
      } else {
        assert p.added[i] in p.world.parent;
      }
    }
  }

  lemma MovedNext(moves: seq<Move>, m: Move, e: nat)
    ensures Moved(moves + [m], e) <==> Moved(moves, e) || m.local == e
  {
    var all := moves + [m];
    if Moved(moves, e) {
      var i :| 0 <= i < |moves| && moves[i].local == e;
      assert all[i].local == e;
    }
    if m.local == e {
      assert all[|moves|].local == e;
    }
  }

  /** A move changes one link, of something now counted as moved. */
  lemma MoveHangs(start: World, p: Pass, m: Move, after: Pass)
    requires NewHangEarlier(start, p) && after.added == p.added && after.moves == p.moves + [m]
    requires forall e :: e != m.local ==> SameAt(p.world.parent, after.world.parent, e)
    ensures NewHangEarlier(start, after)
  {
    forall i | 0 <= i < |p.added| && !Moved(after.moves, p.added[i]) && p.added[i] in after.world.parent
      ensures after.world.parent[p.added[i]] in start.records || after.world.parent[p.added[i]] in p.added[..i]
    {
      MovedNext(p.moves, m, p.added[i]);
      assert SameAt(p.world.parent, after.world.parent, p.added[i]);
    }
  }

  /** A newborn, not yet linked. */
  lemma BirthKeepsMidway(start: World, p: Pass, net: int, local: nat)
    requires Midway(start, p) && local !in p.world.minted
    ensures Midway(start, p.(world := World(p.world.toLocal[net := local], p.world.minted + {local}, p.world.records + {local},
                                            p.world.alive + {local}, p.world.parent), added := p.added + [local]))
  {
    var born := World(p.world.toLocal[net := local], p.world.minted + {local}, p.world.records + {local}, p.world.alive + {local}, p.world.parent);
    var after := p.(world := born, added := p.added + [local]);
    forall q | q in p.removed ensures !Below(p.world.parent, local, q) {
      if Below(p.world.parent, local, q) {
        BelowStep(p.world.parent, local, q);
      }
    }
    assert !Doomed(p.world.parent, p.removed, local);
    BirthHangsEarlier(start, p, local);
  }

  lemma BirthHangsEarlier(start: World, p: Pass, local: nat)
    requires Midway(start, p) && local !in p.world.minted
    ensures NewHangEarlier(start, p.(added := p.added + [local]))
  {
    var all := p.added + [local];
    forall i | 0 <= i < |all| && !Moved(p.moves, all[i]) && all[i] in p.world.parent
      ensures p.world.parent[all[i]] in start.records || p.world.parent[all[i]] in all[..i]
    {
      assert i < |p.added| && all[i] == p.added[i] && all[..i] == p.added[..i];
    }
  }

  lemma KillKeepsMidway(start: World, p: Pass, local: nat)
    requires Midway(start, p) && local in p.world.minted
    ensures Midway(start, p.(world := Killed(p.world, local), removed := p.removed + [local]))
  {
    var after := p.(world := Killed(p.world, local), removed := p.removed + [local]);
    forall e | e in p.world.records
      ensures e !in after.world.alive <==> Doomed(p.world.parent, after.removed, e)
    {
      KillDooms(p, local, e);
    }
  }

  lemma KillDooms(p: Pass, local: nat, e: nat)
    requires Sound(p.world) && DeadAreDoomed(p) && e in p.world.records
    ensures e !in Killed(p.world, local).alive <==> Doomed(p.world.parent, p.removed + [local], e)
  {
    var parent := p.world.parent;
    assert Doomed(parent, p.removed + [local], e) <==> Doomed(parent, p.removed, e) || Below(parent, e, local) by {
      assert local in p.removed + [local];
    }
    if local !in p.world.alive && Below(parent, e, local) {
      var k: nat :| Up(parent, e, k) == Some(local);
      RecordsAbove(p.world, e, k);
      var q :| q in p.removed && Below(parent, local, q);
      var j: nat :| Up(parent, local, j) == Some(q);
      UpAdds(parent, e, k, local, j);
      assert Below(parent, e, q);
    }
  }

  lemma SpawnKeepsMidway(start: World, p: Pass, net: int, local: nat, parent: Option<int>)
    requires Midway(start, p) && Tidy(start, p, WireSpawn(net, local, parent))
    ensures Midway(start, Applied(p, WireSpawn(net, local, parent)))
  {
    var born := World(p.world.toLocal[net := local], p.world.minted + {local}, p.world.records + {local}, p.world.alive + {local}, p.world.parent);
    var named := p.(world := born, added := p.added + [local]);
    BirthKeepsMidway(start, p, net, local);
    if parent.Some? && Resolved(born, parent.value).Some? {
      var above := Resolved(born, parent.value).value;
      if !Declines(born, local, above) && !Below(born.parent, above, local) {
        var after := named.(world := Hooked(born, local, above));
        HookKeepsWorld(named, local, above, after);
        BirthHookHangs(start, named, local, above);
      }
    }
  }

  /** Which links a tidy reparent that resolves leaves. */
  lemma MovedLinks(start: World, p: Pass, net: int, parent: Option<int>, local: nat, links: map<nat, nat>)
    requires Sound(p.world) && Tidy(start, p, WireReparent(net, parent)) && Resolved(p.world, net) == Some(local)
    requires (parent.Some? ==> Resolved(p.world, parent.value).Some?) && links == Applied(p, WireReparent(net, parent)).world.parent
    ensures local !in p.world.records ==> links == p.world.parent
    ensures local in p.world.records && parent.None? ==> links == p.world.parent - {local}
    ensures local in p.world.records && parent.Some? ==>
              var above := Resolved(p.world, parent.value).value;
              links == if above in p.world.alive then p.world.parent[local := above] else p.world.parent
    ensures forall e :: e != local ==> SameAt(p.world.parent, links, e)
  {
    if local !in p.world.records {
      assert p.world.parent - {local} == p.world.parent;
    }
  }

  lemma ReparentKeepsMidway(start: World, p: Pass, net: int, parent: Option<int>)
    requires Midway(start, p) && Tidy(start, p, WireReparent(net, parent))
    ensures Midway(start, Applied(p, WireReparent(net, parent)))
  {
    var after := Applied(p, WireReparent(net, parent));
    if Resolved(p.world, net).Some? && (parent.Some? ==> Resolved(p.world, parent.value).Some?) {
      var local := Resolved(p.world, net).value;
      var above := if parent.Some? then Some(Resolved(p.world, parent.value).value) else None;
      MovedLinks(start, p, net, parent, local, after.world.parent);
      MoveHangs(start, p, Move(local, above), after);
      if local in p.world.records {
        if parent.None? {
          DetachKeepsWorld(p, local, after);
        } else if above.value in p.world.alive {
          HookKeepsWorld(p, local, above.value, after);
        }
      }
    }
  }

  lemma OpKeepsMidway(start: World, p: Pass, op: WireOp)
    requires Midway(start, p) && Tidy(start, p, op)
    ensures Midway(start, Applied(p, op))
  {
    match op
    case WireSpawn(net, local, parent) => SpawnKeepsMidway(start, p, net, local, parent);
    case WireDestroy(net) =>
      if Resolved(p.world, net).Some? {
        KillKeepsMidway(start, p, Resolved(p.world, net).value);
      }
    case WireReparent(net, parent) => ReparentKeepsMidway(start, p, net, parent);
  }

  lemma {:induction false} MidwayAll(w: World, ops: seq<WireOp>)
    requires Settled(w) && TidyOps(w, ops)
    ensures Midway(w, PassAll(w, ops))
    decreases |ops|
  {
    if ops != [] {
      MidwayAll(w, ops[..|ops| - 1]);
      OpKeepsMidway(w, PassAll(w, ops[..|ops| - 1]), ops[|ops| - 1]);
    }
  }

  // ---------------------------------------------------------------------------------------------
  // What stays as an envelope goes on

  /** Nothing reported is taken back, later newborns are strangers, and a newborn never moved keeps its link. */
  ghost predicate Later(p: Pass, q: Pass) {
    && p.world.minted <= q.world.minted && p.added <= q.added && p.moves <= q.moves
    && (forall e :: e in q.added && e !in p.added ==> e !in p.world.minted)
    && (forall e :: e in p.added && !Moved(q.moves, e) ==> SameAt(p.world.parent, q.world.parent, e))
  }

  lemma MovedLater(moves: seq<Move>, more: seq<Move>, e: nat)
    requires moves <= more && Moved(moves, e)
    ensures Moved(more, e)
  {
    var i :| 0 <= i < |moves| && moves[i].local == e;
    assert more[i].local == e;
  }

  lemma LaterTrans(p: Pass, q: Pass, r: Pass)
    requires Later(p, q) && Later(q, r)
    ensures Later(p, r)
  {
    forall e | e in p.added && !Moved(r.moves, e) ensures SameAt(p.world.parent, r.world.parent, e) {
      if Moved(q.moves, e) {
        MovedLater(q.moves, r.moves, e);
      }
      assert e in q.added;
    }
  }

  lemma SpawnIsLater(start: World, p: Pass, net: int, local: nat, parent: Option<int>)
    requires Midway(start, p) && local !in p.world.minted
    ensures Later(p, Applied(p, WireSpawn(net, local, parent)))
  {
    var q := Applied(p, WireSpawn(net, local, parent));
    forall e | e in p.added ensures SameAt(p.world.parent, q.world.parent, e) {
      assert e != local;
    }
  }

  lemma ReparentIsLater(start: World, p: Pass, net: int, parent: Option<int>)
    requires Midway(start, p) && Tidy(start, p, WireReparent(net, parent))
    ensures Later(p, Applied(p, WireReparent(net, parent)))
  {
    var q := Applied(p, WireReparent(net, parent));
    if Resolved(p.world, net).Some? && (parent.Some? ==> Resolved(p.world, parent.value).Some?) {
      var local := Resolved(p.world, net).value;
      MovedLinks(start, p, net, parent, local, q.world.parent);
      forall e | e in p.added && !Moved(q.moves, e) ensures SameAt(p.world.parent, q.world.parent, e) {
        MovedNext(p.moves, q.moves[|p.moves|], e);
        assert q.moves == p.moves + [q.moves[|p.moves|]];
      }
    }
  }

  lemma OpIsLater(start: World, p: Pass, op: WireOp)
    requires Midway(start, p) && Tidy(start, p, op)
    ensures Later(p, Applied(p, op))
  {
    match op
    case WireSpawn(net, local, parent) => SpawnIsLater(start, p, net, local, parent);
    case WireDestroy(net) =>
    case WireReparent(net, parent) => ReparentIsLater(start, p, net, parent);
  }

  lemma {:induction false} LaterAll(w: World, ops: seq<WireOp>, k: nat)
    requires Settled(w) && TidyOps(w, ops) && k <= |ops|
    ensures TidyOps(w, ops[..k]) && Later(PassAll(w, ops[..k]), PassAll(w, ops))
    decreases |ops|
  {
    if k == |ops| {
      assert ops[..k] == ops;
    } else {
      var init := ops[..|ops| - 1];
      assert init[..k] == ops[..k];
      LaterAll(w, init, k);
      MidwayAll(w, init);
      OpIsLater(w, PassAll(w, init), ops[|ops| - 1]);
      LaterTrans(PassAll(w, ops[..k]), PassAll(w, init), PassAll(w, ops));
    }
  }
}
