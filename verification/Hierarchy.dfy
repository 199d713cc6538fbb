/**
 * The render bridge's hierarchy: entities and the nodes drawn for them, parents and children kept both ways,
 * beside the renderer's own scene of nodes.
 */
module Hierarchies {
  import opened Wrappers
  import opened Forests

  // ---------------------------------------------------------------------------------------------
  // The renderer: nodes ever minted, nodes alive, and who is under whom

  datatype Scene = Scene(minted: set<nat>, alive: set<nat>, parent: map<nat, nat>)

  ghost predicate Sane(s: Scene) {
    && s.alive <= s.minted && s.parent.Keys <= s.alive
    && forall n :: n in s.parent ==> s.parent[n] in s.alive
  }

  /** `attachNode` throws: both nodes live, and the new parent is the child or below it. */
  ghost predicate Refuses(s: Scene, child: nat, above: nat) {
    child in s.alive && above in s.alive && Below(s.parent, above, child)
  }

  /** `attachNode` otherwise; a dead handle on either side is no error and does nothing. */
  function Attached(s: Scene, child: nat, above: nat): Scene {
    if child in s.alive && above in s.alive then s.(parent := s.parent[child := above]) else s
  }

  function Detached(s: Scene, child: nat): Scene {
    s.(parent := s.parent - {child})
  }

  /** `destroyNode` cascades over everything below; a dead handle does nothing. */
  ghost function Destroyed(s: Scene, root: nat): Scene {
    if root !in s.alive then s
    else Scene(s.minted, set n | n in s.alive && !Below(s.parent, n, root),
               map n | n in s.parent && !Below(s.parent, n, root) :: s.parent[n])
  }

  // ---------------------------------------------------------------------------------------------
  // The bridge as a value

  datatype Bridge = Bridge(nodeFor: map<nat, nat>, parentOf: map<nat, nat>, scene: Scene)

  /** A forest over entities with one node each. */
  ghost predicate Forest(b: Bridge) {
    && (forall d, e :: d in b.nodeFor && e in b.nodeFor && b.nodeFor[d] == b.nodeFor[e] ==> d == e)
    && Acyclic(b.parentOf)
  }

  /** An entity's node is alive, and the scene hangs it exactly where the bridge does. */
  ghost predicate Hung(b: Bridge, e: nat)
    requires e in b.nodeFor
  {
    && b.nodeFor[e] in b.scene.alive
    && if e in b.parentOf && b.parentOf[e] in b.nodeFor then
         b.nodeFor[e] in b.scene.parent && b.scene.parent[b.nodeFor[e]] == b.nodeFor[b.parentOf[e]]
       else b.nodeFor[e] !in b.scene.parent
  }

  /** Only entities with nodes are linked, and all hang where they should. */
  ghost predicate Shown(b: Bridge) {
    && (forall e :: e in b.parentOf ==> e in b.nodeFor && b.parentOf[e] in b.nodeFor)
    && forall e :: e in b.nodeFor ==> Hung(b, e)
  }

  /** Bridge and scene draw the same forest. */
  ghost predicate Whole(b: Bridge) {
    Sane(b.scene) && Forest(b) && Shown(b)
  }

  datatype Op =
    | Create(local: nat, node: nat, parent: Option<nat>)
    | Reparent(local: nat, above: Option<nat>)
    | Destroy(local: nat)
    | Clear

  /** `#attach` would throw. */
  ghost predicate Throws(b: Bridge, local: nat, above: nat) {
    local in b.nodeFor && above in b.nodeFor && Refuses(b.scene, b.nodeFor[local], b.nodeFor[above])
  }

  /** `#attach`: nothing without both nodes, and nothing written when the renderer throws. */
  ghost function Joined(b: Bridge, local: nat, above: nat): Bridge {
    if local !in b.nodeFor || above !in b.nodeFor || Throws(b, local, above) then b
    else Bridge(b.nodeFor, b.parentOf[local := above], Attached(b.scene, b.nodeFor[local], b.nodeFor[above]))
  }

  /** `#unlink` touches the bridge's maps and never the scene. */
  function Unlinked(b: Bridge, local: nat): Bridge {
    b.(parentOf := b.parentOf - {local})
  }

  ghost function Created(b: Bridge, local: nat, node: nat, parent: Option<nat>): Bridge {
    if local in b.nodeFor then b
    else
      var added := b.(nodeFor := b.nodeFor[local := node],
                      scene := b.scene.(minted := b.scene.minted + {node}, alive := b.scene.alive + {node}));
      if parent.Some? then Joined(added, local, parent.value) else added
  }

  ghost function Reparented(b: Bridge, local: nat, above: Option<nat>): Bridge {
    if local !in b.nodeFor then b
    else if above.None? then Unlinked(b, local).(scene := Detached(b.scene, b.nodeFor[local]))
    else Joined(Unlinked(b, local), local, above.value)
  }

  /** Exactly the entity and its descendants leave. */
  ghost function Removed(b: Bridge, local: nat): Bridge {
    if local !in b.nodeFor then b
    else Bridge(map e | e in b.nodeFor && !Below(b.parentOf, e, local) :: b.nodeFor[e],
                map e | e in b.parentOf && !Below(b.parentOf, e, local) :: b.parentOf[e],
                Destroyed(b.scene, b.nodeFor[local]))
  }

  /** Every node the bridge made goes, with all that hangs from it. */
  ghost function Swept(b: Bridge): Bridge {
    Bridge(map[], map[],
           Scene(b.scene.minted, set n | n in b.scene.alive && !Hangs(b, n),
                 map n | n in b.scene.parent && !Hangs(b, n) :: b.scene.parent[n]))
  }

  ghost predicate Hangs(b: Bridge, n: nat) {
    exists e :: e in b.nodeFor && Below(b.scene.parent, n, b.nodeFor[e])
  }

  ghost function Step(b: Bridge, op: Op): Bridge {
    match op
    case Create(local, node, parent) => Created(b, local, node, parent)
    case Reparent(local, above) => Reparented(b, local, above)
    case Destroy(local) => Removed(b, local)
    case Clear => Swept(b)
  }

  // ---------------------------------------------------------------------------------------------
  // The bridge and the scene climb alike

  /** The same ancestors, entity by entity and node by node. */
  lemma {:induction false} UpHung(b: Bridge, x: nat, k: nat)
    requires Shown(b) && x in b.nodeFor
    ensures Up(b.parentOf, x, k).Some? ==> Up(b.parentOf, x, k).value in b.nodeFor
    ensures Up(b.scene.parent, b.nodeFor[x], k)
            == if Up(b.parentOf, x, k).Some? then Some(b.nodeFor[Up(b.parentOf, x, k).value]) else None
    decreases k
  {
    assert Hung(b, x);
    if k > 0 && x in b.parentOf {
      UpHung(b, b.parentOf[x], k - 1);
    }
  }

  lemma BelowHung(b: Bridge, x: nat, root: nat)
    requires Whole(b) && x in b.nodeFor && root in b.nodeFor
    ensures Below(b.scene.parent, b.nodeFor[x], b.nodeFor[root]) <==> Below(b.parentOf, x, root)
  {
    if Below(b.scene.parent, b.nodeFor[x], b.nodeFor[root]) {
      var k: nat :| Up(b.scene.parent, b.nodeFor[x], k) == Some(b.nodeFor[root]);
      UpHung(b, x, k);
      assert Up(b.parentOf, x, k) == Some(root);
    }
    if Below(b.parentOf, x, root) {
      var k: nat :| Up(b.parentOf, x, k) == Some(root);
      UpHung(b, x, k);
    }
  }

  /** The renderer throws exactly on a parent that is the entity or one of its descendants. */
  lemma ThrowsIff(b: Bridge, local: nat, above: nat)
    requires Whole(b) && local in b.nodeFor && above in b.nodeFor
    ensures Throws(b, local, above) <==> Below(b.parentOf, above, local)
  {
    BelowHung(b, above, local);
    assert Hung(b, local) && Hung(b, above);
  }

  // ---------------------------------------------------------------------------------------------
  // What each step keeps

  lemma RelinkAcyclic(parentOf: map<nat, nat>, local: nat, above: nat)
    requires Acyclic(parentOf) && !Below(parentOf, above, local)
    ensures Acyclic(parentOf[local := above])
  {
    var cut := parentOf - {local};
    SubForest(cut, parentOf);
    if Below(cut, above, local) {
      var k: nat :| Up(cut, above, k) == Some(local);
      UpWithin(cut, parentOf, above, k);
    }
    LinkKeepsForestIff(cut, local, above);
    assert cut[local := above] == parentOf[local := above];
  }

  lemma RelinkKeeps(b: Bridge, local: nat, above: nat)
    requires Whole(b) && local in b.nodeFor && above in b.nodeFor && !Below(b.parentOf, above, local)
    ensures Whole(Bridge(b.nodeFor, b.parentOf[local := above], Attached(b.scene, b.nodeFor[local], b.nodeFor[above])))
  {
    var after := Bridge(b.nodeFor, b.parentOf[local := above], Attached(b.scene, b.nodeFor[local], b.nodeFor[above]));
    assert Hung(b, local) && Hung(b, above);
    RelinkAcyclic(b.parentOf, local, above);
    forall e | e in after.nodeFor ensures Hung(after, e) {
      assert Hung(b, e);
    }
  }

  /** A reparent that writes the bridge's maps and leaves the scene as it was. */
  ghost predicate Strands(b: Bridge, local: nat, above: Option<nat>) {
    local in b.parentOf && above.Some? && (above.value !in b.nodeFor || Below(b.parentOf, above.value, local))
  }

  lemma DetachKeeps(b: Bridge, local: nat)
    requires Whole(b) && local in b.nodeFor
    ensures Whole(Reparented(b, local, None))
  {
    var after := Reparented(b, local, None);
    assert Hung(b, local);
    SubForest(after.parentOf, b.parentOf);
    forall e | e in after.nodeFor ensures Hung(after, e) {
      assert Hung(b, e);
    }
  }

  /** Unlinking first makes no difference to a link that is then written over. */
  lemma ReparentLinks(b: Bridge, local: nat, above: nat)
    requires Whole(b) && local in b.nodeFor
    ensures Reparented(b, local, Some(above))
            == if above in b.nodeFor && !Below(b.parentOf, above, local) then
                 Bridge(b.nodeFor, b.parentOf[local := above], Attached(b.scene, b.nodeFor[local], b.nodeFor[above]))
               else Unlinked(b, local)
  {
    assert (b.parentOf - {local})[local := above] == b.parentOf[local := above];
    if above in b.nodeFor {
      ThrowsIff(b, local, above);
    }
  }

  /** A linked entity moved under something without a node, or under its own subtree, loses its link in one place only. */
  lemma ReparentKeepsIff(b: Bridge, local: nat, above: Option<nat>)
    requires Whole(b)
    ensures Whole(Reparented(b, local, above)) <==> !Strands(b, local, above)
  {
    if local in b.nodeFor {
      if above.None? {
        DetachKeeps(b, local);
      } else {
        ReparentLinks(b, local, above.value);
        if above.value in b.nodeFor && !Below(b.parentOf, above.value, local) {
          RelinkKeeps(b, local, above.value);
        } else {
          StrandedIsTorn(b, local);
        }
      }
    }
  }

  lemma StrandedIsTorn(b: Bridge, local: nat)
    requires Whole(b) && local in b.nodeFor
    ensures Whole(Unlinked(b, local)) <==> local !in b.parentOf
  {
    assert Hung(b, local);
    if local in b.parentOf {
      assert !Hung(Unlinked(b, local), local);
    } else {
      assert b.parentOf - {local} == b.parentOf;
    }
  }

  /** A fresh node for a new entity, under its parent when the parent is drawn. */
  lemma CreateKeeps(b: Bridge, local: nat, node: nat, parent: Option<nat>)
    requires Whole(b) && node !in b.scene.minted
    ensures Whole(Created(b, local, node, parent))
  {
    if local !in b.nodeFor {
      var added := Created(b, local, node, None);
      forall e | e in added.nodeFor ensures Hung(added, e) {
        if e != local {
          assert Hung(b, e);
        }
      }
      forall e | e in b.nodeFor ensures b.nodeFor[e] != node {
        assert Hung(b, e);
      }
      if parent.Some? && parent.value in added.nodeFor {
        ThrowsIff(added, local, parent.value);
        if !Below(added.parentOf, parent.value, local) {
          RelinkKeeps(added, local, parent.value);
        }
      }
    }
  }

  /** A destroy takes exactly the subtree, from the bridge and from the scene alike. */
  lemma RemoveKeeps(b: Bridge, local: nat)
    requires Whole(b)
    ensures Whole(Removed(b, local))
    ensures local in b.nodeFor ==> forall e :: e in b.nodeFor ==>
                                                 (b.nodeFor[e] in Removed(b, local).scene.alive <==> !Below(b.parentOf, e, local))
  {
    var after := Removed(b, local);
    if local in b.nodeFor {
      assert Hung(b, local);
      SubForest(after.parentOf, b.parentOf);
      forall e | e in b.nodeFor
        ensures b.nodeFor[e] in after.scene.alive <==> !Below(b.parentOf, e, local)
      {
        assert Hung(b, e);
        BelowHung(b, e, local);
      }
      PrunedSane(b.scene, b.nodeFor[local]);
      forall e | e in after.nodeFor ensures Hung(after, e) {
        assert Hung(b, e);
        BelowHung(b, e, local);
        PrunedParent(b, local, e);
      }
      forall e | e in after.parentOf ensures e in after.nodeFor && after.parentOf[e] in after.nodeFor {
        PrunedParent(b, local, e);
      }
    }
  }

  lemma PrunedParent(b: Bridge, local: nat, e: nat)
    requires !Below(b.parentOf, e, local)
    ensures e in b.parentOf ==> !Below(b.parentOf, b.parentOf[e], local)
  {
    if e in b.parentOf && Below(b.parentOf, b.parentOf[e], local) {
      BelowParent(b.parentOf, e, local);
    }
  }

  lemma PrunedSane(s: Scene, root: nat)
    requires Sane(s)
    ensures Sane(Destroyed(s, root))
  {
    forall n | n in s.parent && !Below(s.parent, n, root) ensures !Below(s.parent, s.parent[n], root) {
      if Below(s.parent, s.parent[n], root) {
        BelowParent(s.parent, n, root);
      }
    }
  }

  lemma SweptSane(b: Bridge)
    requires Sane(b.scene)
    ensures Sane(Swept(b).scene)
  {
    var after := Swept(b);
    forall n | n in after.scene.parent ensures after.scene.parent[n] in after.scene.alive {
      if Hangs(b, b.scene.parent[n]) {
        var e :| e in b.nodeFor && Below(b.scene.parent, b.scene.parent[n], b.nodeFor[e]);
        BelowParent(b.scene.parent, n, b.nodeFor[e]);
      }
    }
  }

  lemma SweepKeeps(b: Bridge)
    requires Whole(b)
    ensures Whole(Swept(b)) && forall e :: e in b.nodeFor ==> b.nodeFor[e] !in Swept(b).scene.alive
  {
    SweptSane(b);
    forall e | e in b.nodeFor ensures b.nodeFor[e] !in Swept(b).scene.alive {
      BelowSelf(b.scene.parent, b.nodeFor[e]);
    }
  }

  // ---------------------------------------------------------------------------------------------
  // Destroying node by node

  /** Exactly what hangs from the roots is gone. */
  ghost predicate Cut(s: Scene, roots: seq<nat>, after: Scene) {
    && after.minted == s.minted
    && (forall n :: n in after.alive <==> n in s.alive && !Doomed(s.parent, roots, n))
    && (forall n :: n in after.parent <==> n in s.parent && !Doomed(s.parent, roots, n))
    && (forall n :: n in after.parent ==> after.parent[n] == s.parent[n])
  }

  lemma {:induction false} CutClimbs(s: Scene, roots: seq<nat>, after: Scene, n: nat, k: nat)
    requires Cut(s, roots, after) && !Doomed(s.parent, roots, n)
    ensures Up(after.parent, n, k) == Up(s.parent, n, k)
    decreases k
  {
    if k > 0 && n in s.parent {
      if Doomed(s.parent, roots, s.parent[n]) {
        DoomedParent(s.parent, roots, n);
      } else {
        CutClimbs(s, roots, after, s.parent[n], k - 1);
      }
    }
  }

  lemma {:induction false} StaysAlive(s: Scene, n: nat, k: nat)
    requires Sane(s) && n in s.alive && Up(s.parent, n, k).Some?
    ensures Up(s.parent, n, k).value in s.alive
    decreases k
  {
    if k > 0 {
      StaysAlive(s, s.parent[n], k - 1);
    }
  }

  lemma CutOne(s: Scene, roots: seq<nat>, after: Scene, root: nat, n: nat)
    requires Sane(s) && Cut(s, roots, after) && n in s.alive
    ensures (Doomed(s.parent, roots, n) || (root in after.alive && Below(after.parent, n, root))) <==> Doomed(s.parent, roots + [root], n)
  {
    DoomedLast(s.parent, roots, root, n);
    if !Doomed(s.parent, roots, n) {
      if Below(after.parent, n, root) {
        var k: nat :| Up(after.parent, n, k) == Some(root);
        CutClimbs(s, roots, after, n, k);
      }
      if Below(s.parent, n, root) {
        var k: nat :| Up(s.parent, n, k) == Some(root);
        CutClimbs(s, roots, after, n, k);
        StaysAlive(s, n, k);
        if Doomed(s.parent, roots, root) {
          DoomedBelow(s.parent, roots, n, root, k);
        }
      }
    }
  }

  /** One more destroy, the dead handle of something already gone included. */
  lemma CutNext(s: Scene, roots: seq<nat>, after: Scene, root: nat)
    requires Sane(s) && Cut(s, roots, after)
    ensures Cut(s, roots + [root], Destroyed(after, root))
  {
    forall n | n in s.alive
      ensures n in Destroyed(after, root).alive <==> !Doomed(s.parent, roots + [root], n)
      ensures n in s.parent ==> (n in Destroyed(after, root).parent <==> !Doomed(s.parent, roots + [root], n))
    {
      CutOne(s, roots, after, root, n);
    }
  }

  /** Destroying every node of the bridge, in any order, is the sweep. */
  lemma CutIsSwept(b: Bridge, roots: seq<nat>, after: Scene)
    requires Cut(b.scene, roots, after) && forall n :: n in roots <==> n in b.nodeFor.Values
    ensures after == Swept(b).scene
  {
    forall n: nat ensures Hangs(b, n) <==> Doomed(b.scene.parent, roots, n) {
      if Hangs(b, n) {
        var e :| e in b.nodeFor && Below(b.scene.parent, n, b.nodeFor[e]);
        assert b.nodeFor[e] in roots;
      }
    }
  }

  // ---------------------------------------------------------------------------------------------
  // Whole runs

  ghost function Run(b: Bridge, ops: seq<Op>): Bridge
    decreases |ops|
  {
    if ops == [] then b else Run(Step(b, ops[0]), ops[1..])
  }

  /** The renderer mints nodes it never minted before. */
  ghost predicate FreshRun(b: Bridge, ops: seq<Op>)
    decreases |ops|
  {
    ops != [] ==> (ops[0].Create? ==> ops[0].node !in b.scene.minted) && FreshRun(Step(b, ops[0]), ops[1..])
  }

  /** No reparent strands a linked entity. */
  ghost predicate CleanRun(b: Bridge, ops: seq<Op>)
    decreases |ops|
  {
    ops != [] ==> !(ops[0].Reparent? && Strands(b, ops[0].local, ops[0].above)) && CleanRun(Step(b, ops[0]), ops[1..])
  }

  /** At every point of the run the bridge is a forest, and the scene is that forest. */
  ghost predicate WholeRun(b: Bridge, ops: seq<Op>)
    decreases |ops|
  {
    Whole(b) && (ops != [] ==> WholeRun(Step(b, ops[0]), ops[1..]))
  }

  lemma StepKeepsIff(b: Bridge, op: Op)
    requires Whole(b) && (op.Create? ==> op.node !in b.scene.minted)
    ensures Whole(Step(b, op)) <==> !(op.Reparent? && Strands(b, op.local, op.above))
  {
    match op {
      case Create(local, node, parent) => CreateKeeps(b, local, node, parent);
      case Reparent(local, above) => ReparentKeepsIff(b, local, above);
      case Destroy(local) => RemoveKeeps(b, local);
      case Clear => SweepKeeps(b);
    }
  }

  /** Over every run, bridge and scene are the same forest throughout if and only if no reparent strands anything. */
  lemma {:induction false} RunKeepsForest(b: Bridge, ops: seq<Op>)
    requires Whole(b) && FreshRun(b, ops)
    ensures WholeRun(b, ops) <==> CleanRun(b, ops)
    ensures CleanRun(b, ops) ==> Whole(Run(b, ops))
    decreases |ops|
  {
    if ops != [] {
      StepKeepsIff(b, ops[0]);
      if Whole(Step(b, ops[0])) {
        RunKeepsForest(Step(b, ops[0]), ops[1..]);
      }
    }
  }

  // ---------------------------------------------------------------------------------------------
  // The run that is not clean

  /** Entity 3 under 2 under 1, drawn by nodes of the same numbers. */
  const CHAIN := Bridge(map[1 := 1, 2 := 2, 3 := 3], map[2 := 1, 3 := 2], Scene({1, 2, 3}, {1, 2, 3}, map[2 := 1, 3 := 2]))

  lemma ChainIsWhole()
    ensures Whole(CHAIN)
  {
    forall x: nat, k: nat | k > 0 ensures Up(CHAIN.parentOf, x, k) != Some(x) {
      ClimbsDown(x, k);
    }
    forall e | e in CHAIN.nodeFor ensures Hung(CHAIN, e) {
    }
  }

  lemma {:induction false} ClimbsDown(x: nat, k: nat)
    ensures k > 0 && Up(CHAIN.parentOf, x, k).Some? ==> Up(CHAIN.parentOf, x, k).value < x
    decreases k
  {
    if k > 1 && x in CHAIN.parentOf {
      ClimbsDown(CHAIN.parentOf[x], k - 1);
    }
  }

  /** Where one stranding reparent, one destroy and one more reparent lead. */
  const STRANDING := [Reparent(2, Some(9)), Destroy(1), Reparent(2, Some(3))]

  /** The bridge forgets 2's link; the scene does not. */
  lemma TornChain()
    ensures Reparented(CHAIN, 2, Some(9)) == CHAIN.(parentOf := map[3 := 2])
  {
    assert CHAIN.parentOf - {2} == map[3 := 2];
  }

  /** With no live node to refuse with, the renderer lets the bridge write a loop. */
  lemma DeadNodesLoop(b: Bridge)
    requires b.parentOf == map[3 := 2] && 2 in b.nodeFor && 3 in b.nodeFor
    requires b.nodeFor[2] !in b.scene.alive && b.nodeFor[3] !in b.scene.alive
    ensures !Acyclic(Reparented(b, 2, Some(3)).parentOf)
  {
    var looped := Reparented(b, 2, Some(3)).parentOf;
    assert looped == map[3 := 2, 2 := 3];
    UpAdds(looped, 2, 1, 3, 1);
  }

  /**
   * From a whole bridge to a loop: 2 is stranded, destroying 1 kills the nodes of 2 and 3 behind the bridge's back,
   * and 2 then goes under its own child.
   */
  lemma StrandedLoops()
    ensures Whole(CHAIN) && !Acyclic(Run(CHAIN, STRANDING).parentOf)
  {
    ChainIsWhole();
    TornChain();
    var torn := Reparented(CHAIN, 2, Some(9));
    OrphanedNodes(torn);
    DeadNodesLoop(Removed(torn, 1));
    RunsThree(CHAIN, Reparent(2, Some(9)), Destroy(1), Reparent(2, Some(3)));
  }

  lemma {:induction false} RunsThree(b: Bridge, first: Op, second: Op, third: Op)
    ensures Run(b, [first, second, third]) == Step(Step(Step(b, first), second), third)
  {
    assert [first, second, third][1..] == [second, third];
    assert [second, third][1..] == [third];
    var mid := Step(b, first);
    assert Run(mid, [second, third]) == Run(Step(mid, second), [third]);
    var last := Step(mid, second);
    assert Run(last, [third]) == Run(Step(last, third), []);
  }

  lemma OrphanedNodes(torn: Bridge)
    requires torn == CHAIN.(parentOf := map[3 := 2])
    ensures var orphaned := Removed(torn, 1);
            orphaned.parentOf == map[3 := 2] && 2 in orphaned.nodeFor && 3 in orphaned.nodeFor
            && orphaned.nodeFor[2] !in orphaned.scene.alive && orphaned.nodeFor[3] !in orphaned.scene.alive
  {
    forall e: nat | e == 2 || e == 3 ensures !Below(torn.parentOf, e, 1) {
      if Below(torn.parentOf, e, 1) {
        BelowStep(torn.parentOf, e, 1);
        if e == 3 {
          BelowStep(torn.parentOf, 2, 1);
        }
      }
    }
    assert Up(CHAIN.scene.parent, 2, 1) == Some(1);
    assert Up(CHAIN.scene.parent, 3, 2) == Up(CHAIN.scene.parent, 2, 1);
    assert Below(CHAIN.scene.parent, 2, 1) && Below(CHAIN.scene.parent, 3, 1);
  }

  /** The worklist's contract: what was visited has its children further on. */
  ghost predicate Expanded(parentOf: map<nat, nat>, doomed: seq<nat>, visited: nat) {
    forall j, c :: 0 <= j < visited <= |doomed| && c in parentOf && parentOf[c] == doomed[j] ==> FoundAfter(doomed, j, c)
  }

  ghost predicate FoundAfter(doomed: seq<nat>, j: int, c: nat) {
    exists m :: 0 <= j < m < |doomed| && doomed[m] == c
  }

  /** In a loop everything above `x` has a child that is above `x` too. */
  lemma LoopGoesOn(parentOf: map<nat, nat>, x: nat, k: nat, e: nat) returns (c: nat)
    requires k > 0 && Up(parentOf, x, k) == Some(x) && Below(parentOf, x, e)
    ensures c in parentOf && parentOf[c] == e && Below(parentOf, x, c)
  {
    var j: nat :| Up(parentOf, x, j) == Some(e);
    if j == 0 {
      c := LastBefore(parentOf, x, k, e);
    } else {
      c := LastBefore(parentOf, x, j, e);
    }
  }

  lemma {:induction false} LastBefore(parentOf: map<nat, nat>, x: nat, k: nat, e: nat) returns (c: nat)
    requires k > 0 && Up(parentOf, x, k) == Some(e)
    ensures c in parentOf && parentOf[c] == e && Below(parentOf, x, c)
    decreases k
  {
    if k == 1 {
      c := x;
      BelowSelf(parentOf, x);
    } else {
      c := LastBefore(parentOf, parentOf[x], k - 1, e);
      BelowParent(parentOf, x, c);
    }
  }

  /** A destroy inside a loop never runs out of work: some entry is always still to be visited. */
  lemma {:induction false} LoopNeverDrains(parentOf: map<nat, nat>, doomed: seq<nat>, visited: nat, x: nat, k: nat, at: nat)
    requires k > 0 && Up(parentOf, x, k) == Some(x)
    requires visited <= |doomed| && Expanded(parentOf, doomed, visited)
    requires at < |doomed| && Below(parentOf, x, doomed[at])
    ensures visited < |doomed|
    decreases |doomed| - at
  {
    if at < visited {
      var c := LoopGoesOn(parentOf, x, k, doomed[at]);
      assert FoundAfter(doomed, at, c);
      var m :| at < m < |doomed| && doomed[m] == c;
      LoopNeverDrains(parentOf, doomed, visited, x, k, m);
    }
  }
}
