/** Envelope after envelope: the session's world and its screen, over whole runs. */
module Deliveries {
  import opened Wrappers
  import opened Forests
  import opened Hierarchies
  import opened Envelopes
  import opened Reconciling

  // ---------------------------------------------------------------------------------------------
  // Whole runs

  /** One envelope, and the nodes the renderer mints for it. */
  datatype Delivery = Delivery(ops: seq<WireOp>, nodes: seq<nat>)

  datatype Session = Session(world: World, bridge: Bridge)

  ghost predicate Fits(s: Session, d: Delivery) {
    FreshNodes(s.bridge, d.nodes, |PassAll(s.world, d.ops).added|)
  }

  /** Drawing the envelope throws, which ends the session. */
  ghost predicate Ends(s: Session, d: Delivery)
    requires Fits(s, d)
  {
    ReconcileThrows(s.bridge, PassAll(s.world, d.ops), d.nodes)
  }

  ghost function Deliver(s: Session, d: Delivery): Session
    requires Fits(s, d)
  {
    var p := PassAll(s.world, d.ops);
    Session(Drained(p), Reconciled(s.bridge, p, d.nodes))
  }

  ghost predicate Faithful(s: Session) {
    Settled(s.world) && Whole(s.bridge) && InStep(s.world, s.bridge)
  }

  /** A tidy envelope leaves a living session whose screen is its world if and only if it is smooth. */
  lemma EnvelopeFollowsIff(s: Session, d: Delivery)
    requires Faithful(s) && Fits(s, d) && TidyEnvelope(s.world, d.ops)
    ensures !Ends(s, d) && Faithful(Deliver(s, d)) <==> Smooth(s.world, d.ops)
  {
    ThrowsIffRough(s.world, s.bridge, d.ops, d.nodes);
    if Smooth(s.world, d.ops) {
      EnvelopeKeepsStep(s.world, s.bridge, d.ops, d.nodes);
    }
  }

  ghost predicate TidyRun(s: Session, ds: seq<Delivery>)
    decreases |ds|
  {
    ds != [] ==> Fits(s, ds[0]) && TidyEnvelope(s.world, ds[0].ops) && TidyRun(Deliver(s, ds[0]), ds[1..])
  }

  ghost function DeliverAll(s: Session, ds: seq<Delivery>): Session
    requires TidyRun(s, ds)
    decreases |ds|
  {
    if ds == [] then s else DeliverAll(Deliver(s, ds[0]), ds[1..])
  }

  /** No envelope of the run ends the session. */
  ghost predicate Unbroken(s: Session, ds: seq<Delivery>)
    requires TidyRun(s, ds)
    decreases |ds|
  {
    ds != [] ==> !Ends(s, ds[0]) && Unbroken(Deliver(s, ds[0]), ds[1..])
  }

  ghost predicate SmoothRun(s: Session, ds: seq<Delivery>)
    requires TidyRun(s, ds)
    decreases |ds|
  {
    ds != [] ==> Smooth(s.world, ds[0].ops) && SmoothRun(Deliver(s, ds[0]), ds[1..])
  }

  /** A run of tidy envelopes never ends the session if and only if each is smooth, and then the screen is the world. */
  lemma {:induction false} RunStaysFaithful(s: Session, ds: seq<Delivery>)
    requires Faithful(s) && TidyRun(s, ds)
    ensures Unbroken(s, ds) <==> SmoothRun(s, ds)
    ensures Unbroken(s, ds) ==> Faithful(DeliverAll(s, ds))
    decreases |ds|
  {
    if ds != [] {
      ThrowsIffRough(s.world, s.bridge, ds[0].ops, ds[0].nodes);
      if Smooth(s.world, ds[0].ops) {
        EnvelopeFollowsIff(s, ds[0]);
        RunStaysFaithful(Deliver(s, ds[0]), ds[1..]);
      }
    }
  }

  // ---------------------------------------------------------------------------------------------
  // What makes a run untidy

  lemma {:induction false} OneOp(w: World, op: WireOp)
    ensures PassAll(w, [op]) == Applied(Pass(w, [], [], [], {}), op)
  {
    assert [op][..0] == [];
  }

  lemma SettledDrains(w: World, unmap: set<int>, added: seq<nat>, moves: seq<Move>, removed: seq<nat>)
    requires Settled(w)
    ensures var ended := Drained(Pass(w, added, moves, removed, unmap));
            ended.records == w.records && ended.alive == w.alive && ended.parent == w.parent
  {
  }

  /** A reparent that finds both netIds mapped, the child linked, and no record behind the parent's. */
  ghost predicate NamesTheDead(w: World, net: int, parent: Option<int>) {
    && Resolved(w, net).Some? && parent.Some? && Resolved(w, parent.value).Some?
    && Resolved(w, net).value in w.parent && Resolved(w, parent.value).value !in w.records
  }

  /** The world would throw: both alive, and the parent is the child or below it. */
  ghost predicate Loops(w: World, net: int, parent: Option<int>) {
    && Resolved(w, net).Some? && parent.Some? && Resolved(w, parent.value).Some?
    && Resolved(w, net).value in w.records && Resolved(w, parent.value).value in w.records
    && Below(w.parent, Resolved(w, parent.value).value, Resolved(w, net).value)
  }

  /**
   * A reparent on its own keeps the screen and the world together if and only if it does not put a linked child
   * under a netId that is still mapped to something dead: the world declines that, and the bridge is told of it.
   */
  lemma LoneReparentIff(s: Session, net: int, parent: Option<int>)
    requires Faithful(s) && !Loops(s.world, net, parent) && Fits(s, Delivery([WireReparent(net, parent)], []))
    ensures Faithful(Deliver(s, Delivery([WireReparent(net, parent)], []))) <==> !NamesTheDead(s.world, net, parent)
  {
    var w, b, op := s.world, s.bridge, WireReparent(net, parent);
    OneOp(w, op);
    if NamesTheDead(w, net, parent) {
      var local, above := Resolved(w, net).value, Resolved(w, parent.value).value;
      var p := PassAll(w, [op]);
      assert p == Pass(w, [], [Move(local, Some(above))], [], {});
      MovedAllLast(b, [], Move(local, Some(above)));
      assert [] + [Move(local, Some(above))] == p.moves;
      assert Reconciled(b, p, []) == Reparented(b, local, Some(above));
      ReparentKeepsIff(b, local, Some(above));
    } else {
      LoneIsTidy(w, net, parent);
      LoneIsSmooth(w, net, parent);
      EnvelopeKeepsStep(w, b, [op], []);
    }
  }

  /** A reparent on its own is reported as one move, or not at all. */
  lemma {:induction false} LoneIsSmooth(w: World, net: int, parent: Option<int>)
    requires Settled(w) && !Loops(w, net, parent)
    ensures Smooth(w, [WireReparent(net, parent)])
  {
    var op := WireReparent(net, parent);
    OneOp(w, op);
    var p := PassAll(w, [op]);
    ReportIsMove(Pass(w, [], [], [], {}), op);
    if ReportOf(w, op).Some? {
      var m := ReportOf(w, op).value;
      LoneUnrefused(w, m, p.moves);
    }
  }

  lemma {:induction false} LoneUnrefused(w: World, m: Move, moves: seq<Move>)
    requires moves == [] + [m] && !Refused(w.parent, w.records, m)
    ensures forall ended :: Unrefused(LinksMade(w, ended, []), AllOf(w, []), moves)
  {
    forall ended ensures Unrefused(LinksMade(w, ended, []), AllOf(w, []), moves) {
      assert AllOf(w, []) == w.records;
      UnrefusedLast(w.parent, w.records, [], m);
    }
  }

  lemma LoneIsTidy(w: World, net: int, parent: Option<int>)
    requires Settled(w) && !Loops(w, net, parent) && !NamesTheDead(w, net, parent)
    ensures TidyEnvelope(w, [WireReparent(net, parent)])
  {
    OneOp(w, WireReparent(net, parent));
    assert [WireReparent(net, parent)][..0] == [];
    assert TidyOps(w, []);
    assert Tidy(w, PassAll(w, []), WireReparent(net, parent));
  }

  // ---------------------------------------------------------------------------------------------
  // A parent destroyed, and then a child put under it

  lemma {:induction false} TwoOps(w: World, first: WireOp, second: WireOp)
    ensures PassAll(w, [first, second]) == Applied(Applied(Pass(w, [], [], [], {}), first), second)
  {
    assert [first, second][..1] == [first];
    OneOp(w, first);
  }

  /** The two ops as they reach the bridge: the move ahead of the removal. */
  lemma {:induction false} HangThenRemove(s: Session, net: int, parent: int) returns (p: Pass)
    requires net in s.world.toLocal && parent in s.world.toLocal
    ensures p == PassAll(s.world, [WireDestroy(parent), WireReparent(net, Some(parent))])
    ensures var child, above := s.world.toLocal[net], s.world.toLocal[parent];
            && p.added == [] && p.moves == [Move(child, Some(above))] && p.removed == [above]
            && p.world == Hooked(Killed(s.world, above), child, above)
            && Reconciled(s.bridge, p, []) == Removed(Reparented(s.bridge, child, Some(above)), above)
            && (ReconcileThrows(s.bridge, p, []) <==> MoveThrows(s.bridge, Move(child, Some(above))))
  {
    var child, above := s.world.toLocal[net], s.world.toLocal[parent];
    TwoOps(s.world, WireDestroy(parent), WireReparent(net, Some(parent)));
    p := PassAll(s.world, [WireDestroy(parent), WireReparent(net, Some(parent))]);
    MovedAllLast(s.bridge, [], Move(child, Some(above)));
    assert [] + [Move(child, Some(above))] == p.moves;
    RemovedOnce(Reparented(s.bridge, child, Some(above)), above);
  }

  /** A dying parent is no parent. */
  lemma DyingDeclines(w: World, child: nat, above: nat)
    requires Settled(w)
    ensures Hooked(Killed(w, above), child, above) == Killed(w, above)
  {
    BelowSelf(w.parent, above);
  }

  /** The world declines, and a child that was not below the parent lives on; the bridge destroys it with the parent. */
  lemma DyingParentTakesChild(s: Session, net: int, parent: int)
    requires Faithful(s) && net in s.world.toLocal && parent in s.world.toLocal
    requires s.world.toLocal[net] in s.world.records && s.world.toLocal[parent] in s.world.records
    requires !Below(s.world.parent, s.world.toLocal[net], s.world.toLocal[parent])
    requires !Below(s.world.parent, s.world.toLocal[parent], s.world.toLocal[net])
    ensures var p := PassAll(s.world, [WireDestroy(parent), WireReparent(net, Some(parent))]);
            && p.added == [] && s.world.toLocal[net] in Drained(p).records
            && s.world.toLocal[net] !in Reconciled(s.bridge, p, []).nodeFor
  {
    var child, above := s.world.toLocal[net], s.world.toLocal[parent];
    var p := HangThenRemove(s, net, parent);
    DyingDeclines(s.world, child, above);
    TakenAlong(s.world, s.bridge, child, above);
  }

  lemma TakenAlong(w: World, b: Bridge, child: nat, above: nat)
    requires Settled(w) && Whole(b) && InStep(w, b) && child in w.records && above in w.records
    requires !Below(w.parent, above, child) && !Below(w.parent, child, above)
    ensures child in Killed(w, above).alive && child !in Removed(Reparented(b, child, Some(above)), above).nodeFor
  {
    var moved := Reparented(b, child, Some(above));
    ReparentLinks(b, child, above);
    assert Up(moved.parentOf, child, 1) == Some(above);
    assert Below(moved.parentOf, child, above);
  }

  /** Hanging a descendant directly under its ancestor leaves the same ones below the ancestor. */
  lemma {:induction false} ShortcutBelow(parent: map<nat, nat>, x: nat, root: nat, e: nat, k: nat)
    requires Below(parent, x, root)
    ensures Up(parent[x := root], e, k) == Some(root) ==> Below(parent, e, root)
    ensures Up(parent, e, k) == Some(root) ==> Below(parent[x := root], e, root)
    decreases k
  {
    var now := parent[x := root];
    BelowSelf(parent, root);
    BelowSelf(now, root);
    if e == x {
      BelowParent(now, x, root);
    } else if k > 0 && e in parent {
      ShortcutBelow(parent, x, root, parent[e], k - 1);
      if Below(parent, parent[e], root) {
        BelowParent(parent, e, root);
      }
      if Below(now, parent[e], root) {
        BelowParent(now, e, root);
      }
    }
  }

  lemma ShortcutIff(parent: map<nat, nat>, x: nat, root: nat, e: nat)
    requires Below(parent, x, root)
    ensures Below(parent[x := root], e, root) <==> Below(parent, e, root)
  {
    if Below(parent[x := root], e, root) {
      var k: nat :| Up(parent[x := root], e, k) == Some(root);
      ShortcutBelow(parent, x, root, e, k);
    }
    if Below(parent, e, root) {
      var k: nat :| Up(parent, e, k) == Some(root);
      ShortcutBelow(parent, x, root, e, k);
    }
  }

  lemma ShortcutStep(w: World, moved: Bridge, child: nat, above: nat, ended: World)
    requires Settled(w) && child in w.records && above in w.records && Below(w.parent, child, above)
    requires moved.nodeFor.Keys == w.records && moved.parentOf == w.parent[child := above]
    requires ended.records == Killed(w, above).alive && ended.parent == map e | e in w.parent && e in Killed(w, above).alive :: w.parent[e]
    ensures InStep(ended, Removed(moved, above))
  {
    forall e: nat ensures Below(moved.parentOf, e, above) <==> Below(w.parent, e, above) {
      ShortcutIff(w.parent, child, above, e);
    }
  }

  /** A child that dies with the parent anyway. */
  lemma DiesAlong(w: World, b: Bridge, child: nat, above: nat, ended: World)
    requires Settled(w) && Whole(b) && InStep(w, b) && child in w.records && above in w.records
    requires Below(w.parent, child, above) && !Below(w.parent, above, child)
    requires ended.records == Killed(w, above).alive && ended.parent == map e | e in w.parent && e in Killed(w, above).alive :: w.parent[e]
    ensures Whole(Removed(Reparented(b, child, Some(above)), above)) && InStep(ended, Removed(Reparented(b, child, Some(above)), above))
  {
    var moved := HungDirectly(b, child, above);
    RemoveKeeps(moved, above);
    ShortcutStep(w, moved, child, above, ended);
  }

  lemma HungDirectly(b: Bridge, child: nat, above: nat) returns (moved: Bridge)
    requires Whole(b) && child in b.nodeFor && above in b.nodeFor && !Below(b.parentOf, above, child)
    ensures moved == Reparented(b, child, Some(above)) && Whole(moved)
    ensures moved.nodeFor == b.nodeFor && moved.parentOf == b.parentOf[child := above]
  {
    moved := Reparented(b, child, Some(above));
    ReparentKeepsIff(b, child, Some(above));
    ReparentLinks(b, child, above);
  }

  /** The envelope takes the child out of step with its world. */
  ghost predicate TornAway(w: World, child: nat, above: nat) {
    && child in w.records
    && if above in w.records then child == above || !Below(w.parent, child, above) else child in w.parent
  }

  /**
   * A parent destroyed by name, and then a child put under it: session and screen both survive if and only if the
   * child is dead already, or is below the parent and dies with it, or, the parent being long dead, hangs nowhere.
   */
  lemma DestroyThenHangIff(s: Session, net: int, parent: int)
    requires Faithful(s) && net in s.world.toLocal && parent in s.world.toLocal
    ensures var d := Delivery([WireDestroy(parent), WireReparent(net, Some(parent))], []);
            && Fits(s, d)
            && (!Ends(s, d) && Faithful(Deliver(s, d)) <==> !TornAway(s.world, s.world.toLocal[net], s.world.toLocal[parent]))
  {
    var w, b := s.world, s.bridge;
    var child, above := w.toLocal[net], w.toLocal[parent];
    var p := HangThenRemove(s, net, parent);
    HangSettles(w, net, parent);
    DyingDeclines(w, child, above);
    HangOutcome(w, b, child, above, Drained(p));
  }

  /** The same, of the one move and the one removal the bridge is told of. */
  lemma HangOutcome(w: World, b: Bridge, child: nat, above: nat, ended: World)
    requires Settled(w) && Whole(b) && InStep(w, b)
    requires ended.records == Killed(w, above).alive && ended.parent == map e | e in w.parent && e in Killed(w, above).alive :: w.parent[e]
    ensures var after := Removed(Reparented(b, child, Some(above)), above);
            !MoveThrows(b, Move(child, Some(above))) && Whole(after) && InStep(ended, after) <==> !TornAway(w, child, above)
  {
    if child in w.records && above in w.records {
      HangThrows(b, child, above);
      if Below(w.parent, above, child) {
        if Below(w.parent, child, above) {
          OneIsBelow(w.parent, child, above);
        }
      } else if Below(w.parent, child, above) {
        BelowSelf(w.parent, child);
        DiesAlong(w, b, child, above, ended);
      } else {
        TakenAlong(w, b, child, above);
      }
    } else {
      HangsOnNothing(b, child, above);
      if !TornAway(w, child, above) {
        KillIsRemoval(w, b, above, ended);
      }
    }
  }

  lemma HangThrows(b: Bridge, child: nat, above: nat)
    requires Whole(b) && child in b.nodeFor && above in b.nodeFor
    ensures MoveThrows(b, Move(child, Some(above))) <==> Below(b.parentOf, above, child)
  {
    ThrowsIff(b, child, above);
  }

  /** One side is not drawn: nothing moves, or a linked child is stranded. */
  lemma HangsOnNothing(b: Bridge, child: nat, above: nat)
    requires Whole(b) && (child !in b.nodeFor || above !in b.nodeFor)
    ensures !MoveThrows(b, Move(child, Some(above)))
    ensures child !in b.parentOf ==> Reparented(b, child, Some(above)) == b
    ensures child in b.parentOf ==> !Whole(Removed(Reparented(b, child, Some(above)), above))
  {
    ReparentKeepsIff(b, child, Some(above));
    if child !in b.parentOf {
      assert b.parentOf - {child} == b.parentOf;
    }
  }

  lemma OneIsBelow(parent: map<nat, nat>, x: nat, y: nat)
    requires Acyclic(parent) && Below(parent, x, y) && Below(parent, y, x)
    ensures x == y
  {
    var j: nat :| Up(parent, x, j) == Some(y);
    var k: nat :| Up(parent, y, k) == Some(x);
    UpAdds(parent, x, j, y, k);
    assert j + k == 0;
  }

  lemma KillIsRemoval(w: World, b: Bridge, above: nat, ended: World)
    requires Settled(w) && Whole(b) && InStep(w, b)
    requires ended.records == Killed(w, above).alive && ended.parent == map e | e in w.parent && e in Killed(w, above).alive :: w.parent[e]
    ensures Whole(Removed(b, above)) && InStep(ended, Removed(b, above))
  {
    RemoveKeeps(b, above);
  }

  lemma HangSettles(w: World, net: int, parent: int)
    requires Settled(w) && net in w.toLocal && parent in w.toLocal
    ensures Settled(Drained(PassAll(w, [WireDestroy(parent), WireReparent(net, Some(parent))])))
  {
    TwoOps(w, WireDestroy(parent), WireReparent(net, Some(parent)));
    OneOp(w, WireDestroy(parent));
    DyingDeclines(w, w.toLocal[net], w.toLocal[parent]);
    DestroySettles(w, parent);
    assert Drained(PassAll(w, [WireDestroy(parent), WireReparent(net, Some(parent))])) == Drained(PassAll(w, [WireDestroy(parent)]));
  }

  lemma {:induction false} RemovedOnce(b: Bridge, q: nat)
    ensures RemovedAll(b, [q]) == Removed(b, q)
  {
    assert [q][..0] == [];
  }

  /** How a netId comes to name the dead: a destroy takes the whole subtree and unmaps only the name it was given. */
  lemma DestroyLeavesNames(w: World, net: int, other: int)
    requires Settled(w) && net in w.toLocal && other in w.toLocal && other != net
    requires w.toLocal[net] in w.records && Below(w.parent, w.toLocal[other], w.toLocal[net])
    ensures var after := Drained(PassAll(w, [WireDestroy(net)]));
            other in after.toLocal && after.toLocal[other] == w.toLocal[other] && after.toLocal[other] !in after.records
  {
    OneOp(w, WireDestroy(net));
  }

  /** The chain 3 under 2 under 1, with netId 9 left over from an entity that died with its parent. */
  const STALE := World(map[1 := 1, 2 := 2, 3 := 3, 9 := 9], {1, 2, 3, 9}, {1, 2, 3}, {1, 2, 3}, CHAIN.parentOf)

  /** A world read off a bridge. */
  lemma FaithfulIs(w: World, b: Bridge)
    requires Whole(b) && w.records == w.alive == b.nodeFor.Keys && w.parent == b.parentOf && w.records <= w.minted
    requires forall n :: n in w.toLocal ==> w.toLocal[n] in w.minted
    ensures Faithful(Session(w, b))
  {
  }

  /** The world `WireStrands` speaks of, in step with its bridge. */
  lemma StaleIsFaithful()
    ensures Faithful(Session(STALE, CHAIN)) && LikeStale(STALE)
  {
    StaleBelow();
    ChainIsWhole();
    StaleFits();
    FaithfulIs(STALE, CHAIN);
  }

  lemma StaleFits()
    ensures STALE.records == STALE.alive == CHAIN.nodeFor.Keys && STALE.parent == CHAIN.parentOf && STALE.records <= STALE.minted
    ensures forall n :: n in STALE.toLocal ==> STALE.toLocal[n] in STALE.minted
  {
  }

  /** A reparent the world declines is reported all the same, and changes nothing else. */
  lemma DeclinedIsReported(w: World, net: int, parent: int)
    requires Settled(w) && net in w.toLocal && parent in w.toLocal && Declines(w, w.toLocal[net], w.toLocal[parent])
    ensures PassAll(w, [WireReparent(net, Some(parent))]) == Pass(w, [], [Move(w.toLocal[net], Some(w.toLocal[parent]))], [], {})
    ensures Drained(PassAll(w, [WireReparent(net, Some(parent))])) == w
  {
    OneOp(w, WireReparent(net, Some(parent)));
    SettledDrains(w, {}, [], [Move(w.toLocal[net], Some(w.toLocal[parent]))], []);
  }

  lemma DestroyIsReported(w: World, net: int)
    requires net in w.toLocal
    ensures PassAll(w, [WireDestroy(net)]).removed == [w.toLocal[net]] && PassAll(w, [WireDestroy(net)]).moves == []
  {
    OneOp(w, WireDestroy(net));
  }

  lemma StaleBelow()
    ensures Below(STALE.parent, 2, 1) && Below(STALE.parent, 3, 1)
  {
    BelowSelf(STALE.parent, 1);
    BelowParent(STALE.parent, 2, 1);
    BelowParent(STALE.parent, 3, 1);
  }

  /** What is left when 1 is destroyed: the names of 2 and 3, and no records behind them. */
  lemma LeftBehind(w: World) returns (third: World)
    requires Settled(w) && 1 in w.toLocal && 2 in w.toLocal && 3 in w.toLocal && w.toLocal[1] == 1 && w.toLocal[2] == 2 && w.toLocal[3] == 3
    requires 1 in w.records && Below(w.parent, 2, 1) && Below(w.parent, 3, 1)
    ensures third == Drained(PassAll(w, [WireDestroy(1)])) && Settled(third)
    ensures 2 in third.toLocal && 3 in third.toLocal && third.toLocal[2] == 2 && third.toLocal[3] == 3 && 2 !in third.records
  {
    third := Drained(PassAll(w, [WireDestroy(1)]));
    DestroyLeavesNames(w, 1, 2);
    DestroyLeavesNames(w, 1, 3);
    DestroySettles(w, 1);
  }

  lemma DestroySettles(w: World, net: int)
    requires Settled(w)
    ensures Settled(Drained(PassAll(w, [WireDestroy(net)])))
  {
    assert TidyOps(w, [WireDestroy(net)]) by {
      assert [WireDestroy(net)][..0] == [];
    }
    MidwayAll(w, [WireDestroy(net)]);
    DrainSettles(w, PassAll(w, [WireDestroy(net)]));
  }

  ghost predicate LikeStale(w: World) {
    && Settled(w) && w.toLocal == map[1 := 1, 2 := 2, 3 := 3, 9 := 9] && 9 !in w.records
    && 1 in w.records && Below(w.parent, 2, 1) && Below(w.parent, 3, 1)
  }

  /**
   * Three envelopes whose reports end in a loop: 2 under the dead 9, which strands it; 1 destroyed, which takes 2
   * and 3 with it and leaves their names; and 2 under 3. `STALE` is such a world, and `CHAIN` its bridge.
   */
  lemma WireStrands(w: World)
    requires LikeStale(w)
    ensures var first := PassAll(w, [WireReparent(2, Some(9))]);
            var second := PassAll(Drained(first), [WireDestroy(1)]);
            var third := PassAll(Drained(second), [WireReparent(2, Some(3))]);
            && first.added == second.added == third.added == []
            && first.moves == [Move(2, Some(9))] && first.removed == []
            && second.moves == [] && second.removed == [1]
            && third.moves == [Move(2, Some(3))] && third.removed == []
  {
    DeclinedIsReported(w, 2, 9);
    DestroyIsReported(w, 1);
    var third := LeftBehind(w);
    DeclinedIsReported(third, 2, 3);
  }

  /** And the bridge, told so, writes the loop. */
  lemma ReportsLoop()
    ensures !Acyclic(Reparented(Removed(Reparented(CHAIN, 2, Some(9)), 1), 2, Some(3)).parentOf)
  {
    StrandedLoops();
    RunsThree(CHAIN, Reparent(2, Some(9)), Destroy(1), Reparent(2, Some(3)));
  }

  /** One op's worth of report, as the bridge takes it. */
  lemma {:induction false} LoneRemoval(b: Bridge, p: Pass, q: nat)
    requires p.added == [] && p.moves == [] && p.removed == [q]
    ensures Reconciled(b, p, []) == Removed(b, q) && !ReconcileThrows(b, p, [])
  {
    RemovedOnce(b, q);
  }

  lemma {:induction false} LoneMove(b: Bridge, p: Pass, m: Move)
    requires p.added == [] && p.moves == [] + [m] && p.removed == []
    ensures Reconciled(b, p, []) == Reparented(b, m.local, m.above)
    ensures ReconcileThrows(b, p, []) <==> MoveThrows(b, m)
  {
    MovedAllLast(b, [], m);
  }

  const HANG_ON_STALE := Delivery([WireReparent(2, Some(9))], [])
  const DESTROY_ROOT := Delivery([WireDestroy(1)], [])
  const HANG_ON_CHILD := Delivery([WireReparent(2, Some(3))], [])

  ghost predicate LoopsAfter(s: Session, first: Delivery, second: Delivery, third: Delivery) {
    && Fits(s, first) && !Ends(s, first)
    && var torn := Deliver(s, first);
    && Fits(torn, second) && !Ends(torn, second)
    && var orphaned := Deliver(torn, second);
    && Fits(orphaned, third) && !Ends(orphaned, third)
    && !Acyclic(Deliver(orphaned, third).bridge.parentOf)
  }

  /** From a session whose screen is its world, three envelopes, none of which throws, leave a bridge with a loop in it. */
  lemma WireLoops()
    ensures Faithful(Session(STALE, CHAIN))
    ensures LoopsAfter(Session(STALE, CHAIN), HANG_ON_STALE, DESTROY_ROOT, HANG_ON_CHILD)
  {
    StaleIsFaithful();
    StrandsThenLoops(STALE);
  }

  lemma StrandsThenLoops(w: World)
    requires LikeStale(w)
    ensures LoopsAfter(Session(w, CHAIN), HANG_ON_STALE, DESTROY_ROOT, HANG_ON_CHILD)
  {
    WireStrands(w);
    var first := PassAll(w, [WireReparent(2, Some(9))]);
    var second := PassAll(Drained(first), [WireDestroy(1)]);
    var third := PassAll(Drained(second), [WireReparent(2, Some(3))]);
    ReportsReplay(first, second, third);
  }

  lemma ReportsReplay(first: Pass, second: Pass, third: Pass)
    requires first.added == second.added == third.added == []
    requires first.moves == [Move(2, Some(9))] && first.removed == []
    requires second.moves == [] && second.removed == [1]
    requires third.moves == [Move(2, Some(3))] && third.removed == []
    ensures var torn := Reconciled(CHAIN, first, []);
            var orphaned := Reconciled(torn, second, []);
            && !ReconcileThrows(CHAIN, first, []) && !ReconcileThrows(torn, second, []) && !ReconcileThrows(orphaned, third, [])
            && !Acyclic(Reconciled(orphaned, third, []).parentOf)
  {
    var torn := Reparented(CHAIN, 2, Some(9));
    var orphaned := Removed(torn, 1);
    LoneMove(CHAIN, first, Move(2, Some(9)));
    LoneRemoval(torn, second, 1);
    LoneMove(orphaned, third, Move(2, Some(3)));
    TornChain();
    OrphanedNodes(torn);
    ReportsLoop();
  }
}
