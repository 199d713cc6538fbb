/**
 * What the bridge makes of an envelope's report, and exactly when the screen follows the world: creates under final
 * parents, then the moves, then the removals.
 */
module Reconciling {
  import opened Wrappers
  import opened Forests
  import opened Hierarchies
  import opened Envelopes

  // ---------------------------------------------------------------------------------------------
  // Where the replay stands, in links alone

  /** After the creates: a newborn hangs where it ended, if that was drawn before it. */
  ghost function LinksMade(start: World, ended: World, added: seq<nat>): map<nat, nat> {
    if added == [] then start.parent
    else
      var init, x := added[..|added| - 1], added[|added| - 1];
      var links := LinksMade(start, ended, init);
      if x in ended.parent && (ended.parent[x] in start.records || ended.parent[x] in init) then links[x := ended.parent[x]] else links
  }

  ghost function AllOf(start: World, added: seq<nat>): set<nat> {
    start.records + (set e | e in added)
  }

  /** After the moves, none of them refused. */
  ghost function LinksMoved(links: map<nat, nat>, drawn: set<nat>, moves: seq<Move>): map<nat, nat> {
    if moves == [] then links
    else
      var before, m := LinksMoved(links, drawn, moves[..|moves| - 1]), moves[|moves| - 1];
      if m.local !in drawn then before
      else if m.above.Some? && m.above.value in drawn then before[m.local := m.above.value]
      else before - {m.local}
  }

  /** The new parent is the child or below it, as the replay has them. */
  ghost predicate Refused(links: map<nat, nat>, drawn: set<nat>, m: Move) {
    m.local in drawn && m.above.Some? && m.above.value in drawn && Below(links, m.above.value, m.local)
  }

  ghost predicate Unrefused(links: map<nat, nat>, drawn: set<nat>, moves: seq<Move>) {
    moves != [] ==>
      var init := moves[..|moves| - 1];
      Unrefused(links, drawn, init) && !Refused(LinksMoved(links, drawn, init), drawn, moves[|moves| - 1])
  }

  /** No move of an envelope is refused when the bridge replays it. */
  ghost predicate Smooth(w: World, ops: seq<WireOp>) {
    var p := PassAll(w, ops);
    Unrefused(LinksMade(w, Drained(p), p.added), AllOf(w, p.added), p.moves)
  }

  // ---------------------------------------------------------------------------------------------
  // Throws

  ghost predicate CreateThrows(b: Bridge, local: nat, node: nat, parent: Option<nat>) {
    local !in b.nodeFor && parent.Some? && Throws(Created(b, local, node, None), local, parent.value)
  }

  ghost predicate MoveThrows(b: Bridge, m: Move) {
    m.local in b.nodeFor && m.above.Some? && Throws(Unlinked(b, m.local), m.local, m.above.value)
  }

  ghost predicate CreatesThrow(b: Bridge, w: World, added: seq<nat>, nodes: seq<nat>)
    requires |nodes| == |added|
  {
    && added != []
    && var n := |added| - 1;
       || CreatesThrow(b, w, added[..n], nodes[..n])
       || CreateThrows(CreatedAll(b, w, added[..n], nodes[..n]), added[n], nodes[n], ParentAt(w, added[n]))
  }

  ghost predicate MovesThrow(b: Bridge, moves: seq<Move>) {
    && moves != []
    && var init := moves[..|moves| - 1];
       MovesThrow(b, init) || MoveThrows(MovedAll(b, init), moves[|moves| - 1])
  }

  /** Some attach of the reconcile throws, which ends the session. */
  ghost predicate ReconcileThrows(b: Bridge, p: Pass, nodes: seq<nat>)
    requires |nodes| == |p.added|
  {
    CreatesThrow(b, Drained(p), p.added, nodes) || MovesThrow(CreatedAll(b, Drained(p), p.added, nodes), p.moves)
  }

  // ---------------------------------------------------------------------------------------------
  // The creates

  lemma {:induction false} StaysDrawn(b: Bridge, e: nat, k: nat)
    requires Shown(b) && e in b.nodeFor && Up(b.parentOf, e, k).Some?
    ensures Up(b.parentOf, e, k).value in b.nodeFor
    decreases k
  {
    if k > 0 {
      StaysDrawn(b, b.parentOf[e], k - 1);
    }
  }

  /** A new entity under whatever parent is drawn already: the renderer has nothing against it. */
  lemma CreateOne(b: Bridge, local: nat, node: nat, parent: Option<nat>)
    requires Whole(b) && local !in b.nodeFor && node !in b.scene.minted && parent != Some(local)
    ensures !CreateThrows(b, local, node, parent)
    ensures var after := Created(b, local, node, parent);
            && Whole(after) && after.nodeFor == b.nodeFor[local := node] && after.scene.minted == b.scene.minted + {node}
            && after.parentOf == if parent.Some? && parent.value in b.nodeFor then b.parentOf[local := parent.value] else b.parentOf
  {
    CreateKeeps(b, local, node, parent);
    if parent.Some? && parent.value in b.nodeFor {
      var added := Created(b, local, node, None);
      CreateKeeps(b, local, node, None);
      ThrowsIff(added, local, parent.value);
      if Below(b.parentOf, parent.value, local) {
        var k: nat :| Up(b.parentOf, parent.value, k) == Some(local);
        StaysDrawn(b, parent.value, k);
      }
    }
  }

  /** Everyone has a node. */
  ghost predicate AllDrawn(start: World, added: seq<nat>, b: Bridge) {
    forall e :: e in b.nodeFor <==> e in start.records || e in added
  }

  ghost predicate NodesFrom(b: Bridge, minted: set<nat>, nodes: seq<nat>) {
    forall n :: n in b.scene.minted ==> n in minted || n in nodes
  }

  /** What the creates leave. */
  ghost predicate Made(start: World, ended: World, added: seq<nat>, nodes: seq<nat>, minted: set<nat>, b: Bridge) {
    Whole(b) && AllDrawn(start, added, b) && b.parentOf == LinksMade(start, ended, added) && NodesFrom(b, minted, nodes)
  }

  /** Newborns are strangers and their own parents no more than anyone, and are drawn by nodes never seen. */
  ghost predicate Newborn(start: World, ended: World, added: seq<nat>, nodes: seq<nat>, minted: set<nat>) {
    && |nodes| == |added|
    && (forall i :: 0 <= i < |added| ==> added[i] !in start.records && ParentAt(ended, added[i]) != Some(added[i]))
    && (forall i, j :: 0 <= i < j < |added| ==> added[i] != added[j] && nodes[i] != nodes[j])
    && (forall i :: 0 <= i < |nodes| ==> nodes[i] !in minted)
  }

  lemma DrawnNext(start: World, init: seq<nat>, initNodes: seq<nat>, minted: set<nat>, b: Bridge, local: nat, node: nat,
                  added: seq<nat>, nodes: seq<nat>, after: Bridge)
    requires AllDrawn(start, init, b) && NodesFrom(b, minted, initNodes) && added == init + [local] && nodes == initNodes + [node]
    requires after.nodeFor == b.nodeFor[local := node] && after.scene.minted == b.scene.minted + {node}
    ensures AllDrawn(start, added, after) && NodesFrom(after, minted, nodes)
  {
  }

  lemma {:induction false} LinksMadeLast(start: World, ended: World, init: seq<nat>, x: nat, added: seq<nat>)
    requires added == init + [x]
    ensures LinksMade(start, ended, added)
            == if x in ended.parent && (ended.parent[x] in start.records || ended.parent[x] in init)
               then LinksMade(start, ended, init)[x := ended.parent[x]] else LinksMade(start, ended, init)
  {
    assert added[..|added| - 1] == init;
  }

  lemma MadeNext(start: World, ended: World, init: seq<nat>, initNodes: seq<nat>, minted: set<nat>, b: Bridge, local: nat, node: nat,
                 added: seq<nat>, nodes: seq<nat>)
    requires Made(start, ended, init, initNodes, minted, b) && local !in start.records && local !in init
    requires node !in minted && node !in initNodes && added == init + [local] && nodes == initNodes + [node]
    requires ParentAt(ended, local) != Some(local)
    ensures !CreateThrows(b, local, node, ParentAt(ended, local))
    ensures Made(start, ended, added, nodes, minted, Created(b, local, node, ParentAt(ended, local)))
  {
    var after := Created(b, local, node, ParentAt(ended, local));
    CreateOne(b, local, node, ParentAt(ended, local));
    DrawnNext(start, init, initNodes, minted, b, local, node, added, nodes, after);
    LinksMadeLast(start, ended, init, local, added);
  }

  lemma MadeNone(start: World, ended: World, b: Bridge)
    requires InStep(start, b) && Whole(b)
    ensures Made(start, ended, [], [], b.scene.minted, b)
  {
  }

  lemma {:induction false} MadeAll(start: World, ended: World, added: seq<nat>, nodes: seq<nat>, b: Bridge)
    returns (made: Bridge)
    requires InStep(start, b) && Whole(b) && Newborn(start, ended, added, nodes, b.scene.minted)
    ensures made == CreatedAll(b, ended, added, nodes) && Made(start, ended, added, nodes, b.scene.minted, made)
    ensures !CreatesThrow(b, ended, added, nodes)
    decreases |added|
  {
    if added == [] {
      MadeNone(start, ended, b);
      made := b;
    } else {
      var n := |added| - 1;
      NewbornInit(start, ended, added, nodes, b.scene.minted);
      var before := MadeAll(start, ended, added[..n], nodes[..n], b);
      MadeNext(start, ended, added[..n], nodes[..n], b.scene.minted, before, added[n], nodes[n], added, nodes);
      made := Created(before, added[n], nodes[n], ParentAt(ended, added[n]));
    }
  }

  lemma LastApart(xs: seq<nat>)
    requires xs != [] && forall i, j :: 0 <= i < j < |xs| ==> xs[i] != xs[j]
    ensures xs[|xs| - 1] !in xs[..|xs| - 1] && xs == xs[..|xs| - 1] + [xs[|xs| - 1]]
  {
  }

  lemma NewbornInit(start: World, ended: World, added: seq<nat>, nodes: seq<nat>, minted: set<nat>)
    requires Newborn(start, ended, added, nodes, minted) && added != []
    ensures var n := |added| - 1;
            && Newborn(start, ended, added[..n], nodes[..n], minted)
            && added[n] !in added[..n] && nodes[n] !in nodes[..n] && added[n] !in start.records && nodes[n] !in minted
            && added == added[..n] + [added[n]] && nodes == nodes[..n] + [nodes[n]]
  {
    LastApart(added);
    LastApart(nodes);
  }

  // ---------------------------------------------------------------------------------------------
  // The moves

  /** The old hang as in `links`, and so do the new that were moved; the rest of the new hang where they were made. */
  ghost predicate HangNow(start: World, added: seq<nat>, made: map<nat, nat>, moves: seq<Move>, links: map<nat, nat>, drawn: map<nat, nat>) {
    && (forall e :: e in start.records ==> SameAt(drawn, links, e))
    && (forall e :: e in added && Moved(moves, e) ==> SameAt(drawn, links, e))
    && (forall e :: e in added && !Moved(moves, e) ==> SameAt(drawn, made, e))
  }

  /** With the moves reported so far replayed. */
  ghost predicate Replayed(start: World, added: seq<nat>, made: Bridge, moves: seq<Move>, links: map<nat, nat>, b: Bridge) {
    && Whole(b) && b.nodeFor == made.nodeFor
    && b.parentOf == LinksMoved(made.parentOf, AllOf(start, added), moves)
    && HangNow(start, added, made.parentOf, moves, links, b.parentOf)
  }

  /** One link changed, in both. */
  lemma HangsHooked(start: World, added: seq<nat>, made: map<nat, nat>, moves: seq<Move>, m: Move, links: map<nat, nat>, drawn: map<nat, nat>, above: nat)
    requires HangNow(start, added, made, moves, links, drawn)
    ensures HangNow(start, added, made, moves + [m], links[m.local := above], drawn[m.local := above])
  {
    var now, after := links[m.local := above], drawn[m.local := above];
    forall e | e in start.records ensures SameAt(after, now, e) {
      assert SameAt(drawn, links, e);
    }
    forall e | e in added ensures SameAt(after, if Moved(moves + [m], e) then now else made, e) {
      MovedNext(moves, m, e);
      assert SameAt(drawn, if Moved(moves, e) then links else made, e);
    }
  }

  lemma HangsDetached(start: World, added: seq<nat>, made: map<nat, nat>, moves: seq<Move>, m: Move, links: map<nat, nat>, drawn: map<nat, nat>)
    requires HangNow(start, added, made, moves, links, drawn)
    ensures HangNow(start, added, made, moves + [m], links - {m.local}, drawn - {m.local})
  {
    var now, after := links - {m.local}, drawn - {m.local};
    forall e | e in start.records ensures SameAt(after, now, e) {
      assert SameAt(drawn, links, e);
    }
    forall e | e in added ensures SameAt(after, if Moved(moves + [m], e) then now else made, e) {
      MovedNext(moves, m, e);
      assert SameAt(drawn, if Moved(moves, e) then links else made, e);
    }
  }

  lemma HangsStill(start: World, added: seq<nat>, made: map<nat, nat>, moves: seq<Move>, m: Move, links: map<nat, nat>, drawn: map<nat, nat>)
    requires HangNow(start, added, made, moves, links, drawn) && (m.local in added ==> SameAt(drawn, links, m.local))
    ensures HangNow(start, added, made, moves + [m], links, drawn)
  {
    var now, after := links, drawn;
    forall e | e in start.records ensures SameAt(after, now, e) {
      assert SameAt(drawn, links, e);
    }
    forall e | e in added ensures SameAt(after, if Moved(moves + [m], e) then now else made, e) {
      MovedNext(moves, m, e);
      assert SameAt(drawn, if Moved(moves, e) then links else made, e);
    }
  }

  /** A netId whose local has no record names nothing the bridge draws. */
  lemma UnrecordedIsUndrawn(start: World, final: Pass, p: Pass, e: nat)
    requires Midway(start, p) && Later(p, final) && e in p.world.minted && e !in p.world.records
    ensures e !in start.records && e !in final.added
  {
  }

  lemma RecordedIsDrawn(start: World, final: Pass, p: Pass, e: nat)
    requires Midway(start, p) && Later(p, final) && e in p.world.records
    ensures e in start.records || e in final.added
  {
    if e in p.added {
      var i :| 0 <= i < |p.added| && p.added[i] == e;
      assert final.added[i] == e;
    }
  }

  lemma {:induction false} LinksMovedLast(links: map<nat, nat>, drawn: set<nat>, moves: seq<Move>, m: Move)
    ensures LinksMoved(links, drawn, moves + [m])
            == (var before := LinksMoved(links, drawn, moves);
                if m.local !in drawn then before
                else if m.above.Some? && m.above.value in drawn then before[m.local := m.above.value]
                else before - {m.local})
  {
    assert (moves + [m])[..|moves|] == moves;
  }

  lemma {:induction false} UnrefusedLast(links: map<nat, nat>, drawn: set<nat>, moves: seq<Move>, m: Move)
    ensures Unrefused(links, drawn, moves + [m]) <==> Unrefused(links, drawn, moves) && !Refused(LinksMoved(links, drawn, moves), drawn, m)
  {
    assert (moves + [m])[..|moves|] == moves;
  }

  lemma {:induction false} MovedAllLast(made: Bridge, moves: seq<Move>, m: Move)
    ensures MovedAll(made, moves + [m]) == Reparented(MovedAll(made, moves), m.local, m.above)
    ensures MovesThrow(made, moves + [m]) <==> MovesThrow(made, moves) || MoveThrows(MovedAll(made, moves), m)
  {
    assert (moves + [m])[..|moves|] == moves;
  }

  /** The renderer throws at a move exactly when the links refuse it. */
  lemma ThrowsWhenRefused(start: World, added: seq<nat>, made: Bridge, p: Pass, b: Bridge, m: Move)
    requires Replayed(start, added, made, p.moves, p.world.parent, b) && AllDrawn(start, added, made)
    ensures MoveThrows(b, m) <==> Refused(b.parentOf, AllOf(start, added), m)
  {
    if m.local in b.nodeFor && m.above.Some? && m.above.value in b.nodeFor {
      ThrowsIff(b, m.local, m.above.value);
    }
  }

  /** What a smooth move leaves of a bridge. */
  lemma SmoothMove(b: Bridge, m: Move)
    requires Whole(b) && !(m.local in b.nodeFor && m.above.Some? && m.above.value in b.nodeFor && Below(b.parentOf, m.above.value, m.local))
    requires m.local in b.parentOf && m.above.Some? ==> m.above.value in b.nodeFor
    ensures var after := Reparented(b, m.local, m.above);
            && Whole(after) && after.nodeFor == b.nodeFor
            && after.parentOf == (if m.local !in b.nodeFor then b.parentOf
                                  else if m.above.Some? && m.above.value in b.nodeFor then b.parentOf[m.local := m.above.value]
                                  else b.parentOf - {m.local})
  {
    ReparentKeepsIff(b, m.local, m.above);
    if m.local in b.nodeFor && m.above.Some? {
      ReparentLinks(b, m.local, m.above.value);
    }
  }

  /** The child is not drawn. */
  lemma ReplaysNothing(start: World, added: seq<nat>, made: Bridge, p: Pass, b: Bridge, m: Move, q: Pass)
    requires Replayed(start, added, made, p.moves, p.world.parent, b) && AllDrawn(start, added, made) && q.moves == p.moves + [m]
    requires m.local !in start.records && m.local !in added && q.world.parent == p.world.parent
    ensures Replayed(start, added, made, q.moves, q.world.parent, Reparented(b, m.local, m.above))
  {
    LinksMovedLast(made.parentOf, AllOf(start, added), p.moves, m);
    HangsStill(start, added, made.parentOf, p.moves, m, p.world.parent, b.parentOf);
  }

  lemma ReplaysDetach(start: World, added: seq<nat>, made: Bridge, p: Pass, b: Bridge, m: Move, q: Pass)
    requires Replayed(start, added, made, p.moves, p.world.parent, b) && AllDrawn(start, added, made) && q.moves == p.moves + [m]
    requires (m.local in start.records || m.local in added) && m.above.None? && q.world.parent == p.world.parent - {m.local}
    ensures Replayed(start, added, made, q.moves, q.world.parent, Reparented(b, m.local, m.above))
  {
    LinksMovedLast(made.parentOf, AllOf(start, added), p.moves, m);
    SmoothMove(b, m);
    HangsDetached(start, added, made.parentOf, p.moves, m, p.world.parent, b.parentOf);
  }

  lemma ReplaysHook(start: World, added: seq<nat>, made: Bridge, p: Pass, b: Bridge, m: Move, q: Pass)
    requires Replayed(start, added, made, p.moves, p.world.parent, b) && AllDrawn(start, added, made) && q.moves == p.moves + [m]
    requires (m.local in start.records || m.local in added) && m.above.Some? && (m.above.value in start.records || m.above.value in added)
    requires q.world.parent == p.world.parent[m.local := m.above.value] && !Refused(b.parentOf, AllOf(start, added), m)
    ensures Replayed(start, added, made, q.moves, q.world.parent, Reparented(b, m.local, m.above))
  {
    LinksMovedLast(made.parentOf, AllOf(start, added), p.moves, m);
    SmoothMove(b, m);
    HangsHooked(start, added, made.parentOf, p.moves, m, p.world.parent, b.parentOf, m.above.value);
  }

  /** A child that hangs nowhere, under something not drawn. */
  lemma ReplaysOrphan(start: World, added: seq<nat>, made: Bridge, p: Pass, b: Bridge, m: Move, q: Pass)
    requires Replayed(start, added, made, p.moves, p.world.parent, b) && AllDrawn(start, added, made) && q.moves == p.moves + [m]
    requires (m.local in start.records || m.local in added) && m.above.Some? && m.above.value !in start.records && m.above.value !in added
    requires q.world.parent == p.world.parent && m.local !in p.world.parent && m.local !in b.parentOf
    ensures Replayed(start, added, made, q.moves, q.world.parent, Reparented(b, m.local, m.above))
  {
    LinksMovedLast(made.parentOf, AllOf(start, added), p.moves, m);
    SmoothMove(b, m);
    assert b.parentOf - {m.local} == b.parentOf;
    HangsStill(start, added, made.parentOf, p.moves, m, p.world.parent, b.parentOf);
  }

  /** One reported move, replayed. */
  lemma MoveReplays(start: World, final: Pass, made: Bridge, p: Pass, b: Bridge, net: int, parent: Option<int>, m: Move)
    requires Midway(start, p) && Tidy(start, p, WireReparent(net, parent)) && Later(p, final)
    requires Replayed(start, final.added, made, p.moves, p.world.parent, b) && AllDrawn(start, final.added, made)
    requires Resolved(p.world, net) == Some(m.local)
    requires m.above == (if parent.Some? then Resolved(p.world, parent.value) else None) && (parent.Some? ==> m.above.Some?)
    requires !Refused(b.parentOf, AllOf(start, final.added), m)
    ensures Replayed(start, final.added, made, Applied(p, WireReparent(net, parent)).moves, Applied(p, WireReparent(net, parent)).world.parent, Reparented(b, m.local, m.above))
  {
    var q := Applied(p, WireReparent(net, parent));
    assert q.moves == p.moves + [m];
    MovedLinks(start, p, net, parent, m.local, q.world.parent);
    if m.local !in p.world.records {
      UnrecordedIsUndrawn(start, final, p, m.local);
      ReplaysNothing(start, final.added, made, p, b, m, q);
    } else {
      RecordedIsDrawn(start, final, p, m.local);
      if m.above.None? {
        ReplaysDetach(start, final.added, made, p, b, m, q);
      } else {
        AboveIsDrawn(start, final, made, p, b, net, parent, m);
        if m.above.value in p.world.alive {
          ReplaysHook(start, final.added, made, p, b, m, q);
        } else {
          ReplaysOrphan(start, final.added, made, p, b, m, q);
        }
      }
    }
  }

  /** A living parent is drawn; one without a record is not, and then the child hangs nowhere. */
  lemma AboveIsDrawn(start: World, final: Pass, made: Bridge, p: Pass, b: Bridge, net: int, parent: Option<int>, m: Move)
    requires Midway(start, p) && Tidy(start, p, WireReparent(net, parent)) && Later(p, final)
    requires Replayed(start, final.added, made, p.moves, p.world.parent, b) && AllDrawn(start, final.added, made)
    requires Resolved(p.world, net) == Some(m.local) && m.local in p.world.records
    requires parent.Some? && m.above.Some? && Resolved(p.world, parent.value) == m.above
    ensures m.above.value in b.nodeFor <==> m.above.value in p.world.alive
    ensures m.above.value !in b.nodeFor ==> m.local !in b.parentOf && m.local !in p.world.parent
  {
    var above := m.above.value;
    if above in p.world.alive {
      RecordedIsDrawn(start, final, p, above);
    } else {
      UnrecordedIsUndrawn(start, final, p, above);
      RecordedIsDrawn(start, final, p, m.local);
      assert SameAt(b.parentOf, p.world.parent, m.local);
    }
  }

  lemma StrangerUnmoved(start: World, p: Pass, local: nat)
    requires Fresh(start, p) && local !in p.world.minted
    ensures !Moved(p.moves, local)
  {
    forall i | 0 <= i < |p.moves| ensures p.moves[i].local != local {
      assert p.moves[i] in p.moves;
    }
  }

  lemma HangsAside(start: World, added: seq<nat>, made: map<nat, nat>, moves: seq<Move>, links: map<nat, nat>, drawn: map<nat, nat>,
                   local: nat, now: map<nat, nat>)
    requires HangNow(start, added, made, moves, links, drawn) && local !in start.records && !Moved(moves, local)
    requires forall e :: e != local ==> SameAt(links, now, e)
    ensures HangNow(start, added, made, moves, now, drawn)
  {
    forall e | e in start.records || (e in added && Moved(moves, e)) ensures SameAt(drawn, now, e) {
      assert SameAt(drawn, links, e) && SameAt(links, now, e);
    }
  }

  lemma SpawnReplays(start: World, final: Pass, made: Bridge, p: Pass, b: Bridge, net: int, local: nat, parent: Option<int>)
    requires Midway(start, p) && start.records <= start.minted && local !in p.world.minted
    requires Replayed(start, final.added, made, p.moves, p.world.parent, b)
    ensures Replayed(start, final.added, made, p.moves, Spawned(p.world, net, local, parent).parent, b)
  {
    StrangerUnmoved(start, p, local);
    HangsAside(start, final.added, made.parentOf, p.moves, p.world.parent, b.parentOf, local, Spawned(p.world, net, local, parent).parent);
  }

  /** What an op reports, if it is a reparent that resolves. */
  ghost function ReportOf(w: World, op: WireOp): Option<Move> {
    if op.WireReparent? && Resolved(w, op.net).Some? && (op.parent.Some? ==> Resolved(w, op.parent.value).Some?)
    then Some(Move(Resolved(w, op.net).value, if op.parent.Some? then Resolved(w, op.parent.value) else None))
    else None
  }

  lemma ReportIsMove(p: Pass, op: WireOp)
    ensures Applied(p, op).moves == p.moves + if ReportOf(p.world, op).Some? then [ReportOf(p.world, op).value] else []
  {
  }

  lemma ReportReplays(start: World, final: Pass, made: Bridge, p: Pass, op: WireOp)
    requires Midway(start, p) && Tidy(start, p, op) && Later(p, final) && op.WireReparent?
    requires Replayed(start, final.added, made, p.moves, p.world.parent, MovedAll(made, p.moves)) && AllDrawn(start, final.added, made)
    requires Unrefused(made.parentOf, AllOf(start, final.added), Applied(p, op).moves)
    ensures Replayed(start, final.added, made, Applied(p, op).moves, Applied(p, op).world.parent, MovedAll(made, Applied(p, op).moves))
  {
    ReportIsMove(p, op);
    if ReportOf(p.world, op).Some? {
      var m := ReportOf(p.world, op).value;
      UnrefusedLast(made.parentOf, AllOf(start, final.added), p.moves, m);
      MovedAllLast(made, p.moves, m);
      MoveReplays(start, final, made, p, MovedAll(made, p.moves), op.net, op.parent, m);
    }
  }

  lemma KillMovesNothing(p: Pass, net: int)
    ensures Applied(p, WireDestroy(net)).moves == p.moves && Applied(p, WireDestroy(net)).world.parent == p.world.parent
  {
  }

  lemma SpawnMovesNothing(p: Pass, net: int, local: nat, parent: Option<int>)
    ensures Applied(p, WireSpawn(net, local, parent)).moves == p.moves
    ensures Applied(p, WireSpawn(net, local, parent)).world.parent == Spawned(p.world, net, local, parent).parent
  {
  }

  lemma OpReplays(start: World, final: Pass, made: Bridge, p: Pass, op: WireOp)
    requires Midway(start, p) && start.records <= start.minted && Tidy(start, p, op) && Later(p, final)
    requires Replayed(start, final.added, made, p.moves, p.world.parent, MovedAll(made, p.moves)) && AllDrawn(start, final.added, made)
    requires Unrefused(made.parentOf, AllOf(start, final.added), Applied(p, op).moves)
    ensures Replayed(start, final.added, made, Applied(p, op).moves, Applied(p, op).world.parent, MovedAll(made, Applied(p, op).moves))
  {
    match op
    case WireSpawn(net, local, parent) =>
      SpawnMovesNothing(p, net, local, parent);
      SpawnReplays(start, final, made, p, MovedAll(made, p.moves), net, local, parent);
    case WireDestroy(net) =>
      KillMovesNothing(p, net);
    case WireReparent(_, _) =>
      ReportReplays(start, final, made, p, op);
  }

  lemma {:induction false} UnrefusedPrefix(links: map<nat, nat>, drawn: set<nat>, moves: seq<Move>, more: seq<Move>)
    requires moves <= more && Unrefused(links, drawn, more)
    ensures Unrefused(links, drawn, moves)
    decreases |more|
  {
    if moves != more {
      UnrefusedPrefix(links, drawn, moves, more[..|more| - 1]);
    }
  }

  lemma ReplayStarts(start: World, added: seq<nat>, ended: World, made: Bridge)
    requires Settled(start) && Whole(made) && made.parentOf == LinksMade(start, ended, added) && (forall e :: e in added ==> e !in start.records)
    ensures Replayed(start, added, made, [], start.parent, made)
  {
    forall e | e in start.records ensures SameAt(made.parentOf, start.parent, e) {
      OldLinksMade(start, ended, added, e);
    }
  }

  lemma {:induction false} OldLinksMade(start: World, ended: World, added: seq<nat>, e: nat)
    requires e !in added
    ensures SameAt(LinksMade(start, ended, added), start.parent, e)
  {
    if added != [] {
      OldLinksMade(start, ended, added[..|added| - 1], e);
    }
  }

  lemma {:induction false} PassNext(w: World, ops: seq<WireOp>, k: nat)
    requires 0 < k <= |ops|
    ensures PassAll(w, ops[..k]) == Applied(PassAll(w, ops[..k - 1]), ops[k - 1])
    ensures TidyOps(w, ops[..k]) ==> Tidy(w, PassAll(w, ops[..k - 1]), ops[k - 1])
  {
    var now := ops[..k];
    assert now[..|now| - 1] == ops[..k - 1] && now[|now| - 1] == ops[k - 1];
  }

  /** As long as nothing has been refused, the bridge is where the links say. */
  lemma {:induction false} AllReplay(start: World, ops: seq<WireOp>, made: Bridge, k: nat)
    requires Settled(start) && TidyOps(start, ops) && k <= |ops|
    requires var final := PassAll(start, ops);
             && Replayed(start, final.added, made, [], start.parent, made) && AllDrawn(start, final.added, made)
             && Unrefused(made.parentOf, AllOf(start, final.added), PassAll(start, ops[..k]).moves)
    ensures var final, p := PassAll(start, ops), PassAll(start, ops[..k]);
            Replayed(start, final.added, made, p.moves, p.world.parent, MovedAll(made, p.moves))
    decreases k
  {
    if k > 0 {
      LaterAll(start, ops, k - 1);
      LaterAll(start, ops, k);
      PassNext(start, ops, k);
      MidwayAll(start, ops[..k - 1]);
      OpIsLater(start, PassAll(start, ops[..k - 1]), ops[k - 1]);
      UnrefusedPrefix(made.parentOf, AllOf(start, PassAll(start, ops).added), PassAll(start, ops[..k - 1]).moves, PassAll(start, ops[..k]).moves);
      AllReplay(start, ops, made, k - 1);
      OpReplays(start, PassAll(start, ops), made, PassAll(start, ops[..k - 1]), ops[k - 1]);
    }
  }

  // ---------------------------------------------------------------------------------------------
  // The removals

  /** Exactly the doomed are gone. */
  ghost predicate Spared(b: Bridge, removed: seq<nat>, after: Bridge) {
    && (forall e :: e in after.nodeFor <==> e in b.nodeFor && !Doomed(b.parentOf, removed, e))
    && (forall e :: e in after.nodeFor ==> after.nodeFor[e] == b.nodeFor[e])
    && (forall e :: e in after.parentOf <==> e in b.parentOf && !Doomed(b.parentOf, removed, e))
    && (forall e :: e in after.parentOf ==> after.parentOf[e] == b.parentOf[e])
  }

  /** What is spared climbs as it did. */
  lemma {:induction false} SparedClimbs(b: Bridge, removed: seq<nat>, after: Bridge, e: nat, k: nat)
    requires Spared(b, removed, after) && !Doomed(b.parentOf, removed, e)
    ensures Up(after.parentOf, e, k) == Up(b.parentOf, e, k)
    decreases k
  {
    if k > 0 && e in b.parentOf {
      if Doomed(b.parentOf, removed, b.parentOf[e]) {
        DoomedParent(b.parentOf, removed, e);
      } else {
        SparedClimbs(b, removed, after, b.parentOf[e], k - 1);
      }
    }
  }

  lemma SparedBelow(b: Bridge, removed: seq<nat>, after: Bridge, e: nat, q: nat)
    requires Spared(b, removed, after) && !Doomed(b.parentOf, removed, e)
    ensures Below(after.parentOf, e, q) <==> Below(b.parentOf, e, q)
  {
    if Below(after.parentOf, e, q) {
      var k: nat :| Up(after.parentOf, e, k) == Some(q);
      SparedClimbs(b, removed, after, e, k);
    }
    if Below(b.parentOf, e, q) {
      var k: nat :| Up(b.parentOf, e, k) == Some(q);
      SparedClimbs(b, removed, after, e, k);
    }
  }

  lemma SparedOne(b: Bridge, removed: seq<nat>, after: Bridge, q: nat, e: nat)
    requires Shown(b) && Spared(b, removed, after) && e in b.nodeFor
    ensures (Doomed(b.parentOf, removed, e) || (q in after.nodeFor && Below(after.parentOf, e, q)))
            <==> Doomed(b.parentOf, removed + [q], e)
  {
    DoomedLast(b.parentOf, removed, q, e);
    if !Doomed(b.parentOf, removed, e) {
      SparedBelow(b, removed, after, e, q);
      if q !in after.nodeFor && Below(b.parentOf, e, q) {
        var k: nat :| Up(b.parentOf, e, k) == Some(q);
        StaysDrawn(b, e, k);
        DoomedBelow(b.parentOf, removed, e, q, k);
      }
    }
  }

  /** One more removal spares what it should. */
  lemma SparedNext(b: Bridge, removed: seq<nat>, after: Bridge, q: nat, all: seq<nat>)
    requires Shown(b) && Spared(b, removed, after) && all == removed + [q]
    ensures Spared(b, all, Removed(after, q))
  {
    var next := Removed(after, q);
    forall e | e in b.nodeFor ensures e in next.nodeFor <==> !Doomed(b.parentOf, all, e) {
      SparedOne(b, removed, after, q, e);
    }
    forall e | e in b.parentOf ensures e in next.parentOf <==> !Doomed(b.parentOf, all, e) {
      SparedOne(b, removed, after, q, e);
    }
  }

  lemma {:induction false} RemovedAllSpares(b: Bridge, removed: seq<nat>)
    requires Whole(b)
    ensures Whole(RemovedAll(b, removed)) && Spared(b, removed, RemovedAll(b, removed))
    decreases |removed|
  {
    if removed != [] {
      var init, q := removed[..|removed| - 1], removed[|removed| - 1];
      RemovedAllSpares(b, init);
      RemoveKeeps(RemovedAll(b, init), q);
      SparedNext(b, init, RemovedAll(b, init), q, removed);
    }
  }

  // ---------------------------------------------------------------------------------------------
  // Where the links end

  /** In the end the old and the living new hang where the world has them, and the dead new nowhere else. */
  ghost predicate EndHang(start: World, p: Pass, links: map<nat, nat>) {
    && (forall e :: e in start.records ==> SameAt(links, p.world.parent, e))
    && (forall e :: e in p.added && e in links ==> e in p.world.parent && links[e] == p.world.parent[e])
    && (forall e :: e in p.added && e in p.world.alive ==> SameAt(links, p.world.parent, e))
  }

  lemma {:induction false} LinksMadeAt(start: World, ended: World, added: seq<nat>, i: nat)
    requires i < |added| && added[i] !in start.parent && forall i, j :: 0 <= i < j < |added| ==> added[i] != added[j]
    ensures var e, links := added[i], LinksMade(start, ended, added);
            && (e in links <==> e in ended.parent && (ended.parent[e] in start.records || ended.parent[e] in added[..i]))
            && (e in links ==> links[e] == ended.parent[e])
    decreases |added|
  {
    var n := |added| - 1;
    var init := added[..n];
    if i < n {
      assert init[i] == added[i] && init[..i] == added[..i];
      LinksMadeAt(start, ended, init, i);
    } else {
      LastApart(added);
      OldLinksMade(start, ended, init, added[i]);
    }
  }

  lemma LinksEnd(start: World, p: Pass, made: Bridge, links: map<nat, nat>)
    requires Settled(start) && Midway(start, p) && made.parentOf == LinksMade(start, Drained(p), p.added)
    requires HangNow(start, p.added, made.parentOf, p.moves, p.world.parent, links)
    ensures EndHang(start, p, links)
  {
    forall e | e in p.added
      ensures e in links ==> e in p.world.parent && links[e] == p.world.parent[e]
      ensures e in p.world.alive ==> SameAt(links, p.world.parent, e)
    {
      if Moved(p.moves, e) {
        assert SameAt(links, p.world.parent, e);
      } else {
        var i :| 0 <= i < |p.added| && p.added[i] == e;
        assert e !in start.records;
        LinksMadeAt(start, Drained(p), p.added, i);
        assert SameAt(links, made.parentOf, e);
      }
    }
  }

  // ---------------------------------------------------------------------------------------------
  // The whole envelope

  lemma OldWhenDoomed(start: World, p: Pass, e: nat, root: nat)
    requires Midway(start, p) && root in p.removed && e in p.world.records && e !in p.removed && Below(p.world.parent, e, root)
    requires forall x :: x in p.added && x !in p.world.alive ==> x in p.removed
    ensures e in start.records && e in p.world.parent && p.world.parent[e] in p.world.records
  {
    assert Doomed(p.world.parent, p.removed, e);
    BelowStep(p.world.parent, e, root);
  }

  /** With new ones that died taken out by name, the bridge's removals reach whoever the world's did. */
  lemma {:induction false} DoomReaches(start: World, p: Pass, links: map<nat, nat>, e: nat, root: nat, k: nat)
    requires Midway(start, p) && root in p.removed && e in p.world.records && Up(p.world.parent, e, k) == Some(root)
    requires forall x :: x in start.records ==> SameAt(links, p.world.parent, x)
    requires forall x :: x in p.added && x !in p.world.alive ==> x in p.removed
    ensures Doomed(links, p.removed, e)
    decreases k
  {
    if e in p.removed {
      DoomedSelf(links, p.removed, e);
    } else {
      OldWhenDoomed(start, p, e, root);
      DoomReaches(start, p, links, p.world.parent[e], root, k - 1);
      assert SameAt(links, p.world.parent, e);
      DoomedParent(links, p.removed, e);
    }
  }

  lemma LinksWithin(start: World, p: Pass, b: Bridge)
    requires Shown(b) && EndHang(start, p, b.parentOf) && AllDrawn(start, p.added, b)
    ensures Within(b.parentOf, p.world.parent)
  {
    forall x | x in b.parentOf ensures x in p.world.parent && p.world.parent[x] == b.parentOf[x] {
      assert x in b.nodeFor;
      if x in start.records {
        assert SameAt(b.parentOf, p.world.parent, x);
      }
    }
  }

  lemma DoomAgrees(start: World, p: Pass, b: Bridge, e: nat)
    requires Midway(start, p) && Shown(b) && EndHang(start, p, b.parentOf) && AllDrawn(start, p.added, b)
    requires forall x :: x in p.added && x !in p.world.alive ==> x in p.removed
    requires e in p.world.records
    ensures Doomed(b.parentOf, p.removed, e) <==> e !in p.world.alive
  {
    if Doomed(b.parentOf, p.removed, e) {
      var q :| q in p.removed && Below(b.parentOf, e, q);
      var k: nat :| Up(b.parentOf, e, k) == Some(q);
      LinksWithin(start, p, b);
      UpWithin(b.parentOf, p.world.parent, e, k);
      assert Below(p.world.parent, e, q);
      assert Doomed(p.world.parent, p.removed, e);
    }
    if e !in p.world.alive {
      var q :| q in p.removed && Below(p.world.parent, e, q);
      var k: nat :| Up(p.world.parent, e, k) == Some(q);
      DoomReaches(start, p, b.parentOf, e, q, k);
    }
  }

  lemma {:induction false} DrainSettles(start: World, p: Pass)
    requires Midway(start, p)
    ensures Settled(Drained(p))
  {
    var ended := Drained(p);
    SubForest(ended.parent, p.world.parent);
    forall e | e in ended.parent ensures ended.parent[e] in ended.records {
      if p.world.parent[e] !in p.world.alive {
        DoomedParent(p.world.parent, p.removed, e);
      }
    }
  }

  ghost predicate FreshNodes(b: Bridge, nodes: seq<nat>, count: nat) {
    && |nodes| == count
    && (forall i :: 0 <= i < |nodes| ==> nodes[i] !in b.scene.minted)
    && (forall i, j :: 0 <= i < j < |nodes| ==> nodes[i] != nodes[j])
  }

  lemma AreNewborn(start: World, p: Pass, b: Bridge, nodes: seq<nat>)
    requires Settled(start) && Midway(start, p) && FreshNodes(b, nodes, |p.added|)
    ensures Newborn(start, Drained(p), p.added, nodes, b.scene.minted)
  {
    forall i | 0 <= i < |p.added| ensures p.added[i] !in start.records && ParentAt(Drained(p), p.added[i]) != Some(p.added[i]) {
      assert p.added[i] in p.added;
      NotItself(p.world.parent, p.added[i]);
    }
  }

  lemma NotItself(parent: map<nat, nat>, e: nat)
    requires Acyclic(parent)
    ensures e in parent ==> parent[e] != e
  {
    assert Up(parent, e, 1) != Some(e);
  }

  /** With exactly the dead gone, the bridge says of each entity what the drained world does. */
  lemma SparedAt(start: World, p: Pass, moved: Bridge, after: Bridge, e: nat)
    requires Midway(start, p) && Shown(moved) && EndHang(start, p, moved.parentOf) && AllDrawn(start, p.added, moved)
    requires forall x :: x in p.added && x !in p.world.alive ==> x in p.removed
    requires Spared(moved, p.removed, after)
    ensures e in after.nodeFor <==> e in Drained(p).records
    ensures SameAt(after.parentOf, Drained(p).parent, e)
  {
    assert e in moved.nodeFor <==> e in p.world.records;
    if e in p.world.records {
      DoomAgrees(start, p, moved, e);
      if e in p.world.alive {
        assert SameAt(moved.parentOf, p.world.parent, e);
      }
    }
  }

  lemma SameEverywhere(a: map<nat, nat>, b: map<nat, nat>)
    requires forall e :: SameAt(a, b, e)
    ensures a == b
  {
    forall e ensures e in a <==> e in b {
      assert SameAt(a, b, e);
    }
    forall e | e in a ensures a[e] == b[e] {
      assert SameAt(a, b, e);
    }
  }

  lemma SparedIsDrained(start: World, p: Pass, moved: Bridge, after: Bridge)
    requires Midway(start, p) && Shown(moved) && EndHang(start, p, moved.parentOf) && AllDrawn(start, p.added, moved)
    requires forall x :: x in p.added && x !in p.world.alive ==> x in p.removed
    requires Spared(moved, p.removed, after)
    ensures InStep(Drained(p), after)
  {
    forall e: nat ensures (e in after.nodeFor <==> e in Drained(p).records) && SameAt(after.parentOf, Drained(p).parent, e) {
      SparedAt(start, p, moved, after, e);
    }
    SameEverywhere(after.parentOf, Drained(p).parent);
  }

  /** The creates of a tidy envelope, ready for its moves. */
  lemma Ready(w: World, b: Bridge, ops: seq<WireOp>, nodes: seq<nat>) returns (made: Bridge)
    requires Settled(w) && Whole(b) && InStep(w, b) && TidyOps(w, ops) && FreshNodes(b, nodes, |PassAll(w, ops).added|)
    ensures var p := PassAll(w, ops);
            && Midway(w, p) && made == CreatedAll(b, Drained(p), p.added, nodes) && !CreatesThrow(b, Drained(p), p.added, nodes)
            && Whole(made) && made.parentOf == LinksMade(w, Drained(p), p.added) && AllDrawn(w, p.added, made)
            && Replayed(w, p.added, made, [], w.parent, made)
  {
    var p := PassAll(w, ops);
    MidwayAll(w, ops);
    AreNewborn(w, p, b, nodes);
    made := MadeAll(w, Drained(p), p.added, nodes, b);
    ReplayStarts(w, p.added, Drained(p), made);
  }

  /** One more op: it throws exactly when it is refused. */
  lemma ThrowsNext(w: World, added: seq<nat>, made: Bridge, p: Pass, op: WireOp)
    requires AllDrawn(w, added, made)
    requires MovesThrow(made, p.moves) <==> !Unrefused(made.parentOf, AllOf(w, added), p.moves)
    requires Unrefused(made.parentOf, AllOf(w, added), p.moves) ==> Replayed(w, added, made, p.moves, p.world.parent, MovedAll(made, p.moves))
    ensures MovesThrow(made, Applied(p, op).moves) <==> !Unrefused(made.parentOf, AllOf(w, added), Applied(p, op).moves)
  {
    ReportIsMove(p, op);
    if ReportOf(p.world, op).Some? {
      var m := ReportOf(p.world, op).value;
      UnrefusedLast(made.parentOf, AllOf(w, added), p.moves, m);
      MovedAllLast(made, p.moves, m);
      if Unrefused(made.parentOf, AllOf(w, added), p.moves) {
        ThrowsWhenRefused(w, added, made, p, MovedAll(made, p.moves), m);
      }
    }
  }

  /** The bridge is where the links say, if nothing was refused. */
  lemma ReplayedUnlessRefused(w: World, ops: seq<WireOp>, made: Bridge, added: seq<nat>, k: nat, p: Pass)
    requires Settled(w) && TidyOps(w, ops) && k <= |ops| && added == PassAll(w, ops).added && p == PassAll(w, ops[..k])
    requires Replayed(w, added, made, [], w.parent, made) && AllDrawn(w, added, made)
    ensures Unrefused(made.parentOf, AllOf(w, added), p.moves) ==> Replayed(w, added, made, p.moves, p.world.parent, MovedAll(made, p.moves))
  {
    if Unrefused(made.parentOf, AllOf(w, added), p.moves) {
      AllReplay(w, ops, made, k);
    }
  }

  /** Up to any op, an attach has thrown exactly when a move has been refused. */
  lemma {:induction false} ThrowsAt(w: World, ops: seq<WireOp>, made: Bridge, added: seq<nat>, k: nat) returns (p: Pass)
    requires Settled(w) && TidyOps(w, ops) && k <= |ops| && added == PassAll(w, ops).added
    requires Replayed(w, added, made, [], w.parent, made) && AllDrawn(w, added, made)
    ensures p == PassAll(w, ops[..k])
    ensures MovesThrow(made, p.moves) <==> !Unrefused(made.parentOf, AllOf(w, added), p.moves)
    decreases k
  {
    if k == 0 {
      assert ops[..0] == [];
      NothingThrown(w, made, AllOf(w, added));
      p := PassAll(w, []);
    } else {
      var before := ThrowsAt(w, ops, made, added, k - 1);
      ReplayedUnlessRefused(w, ops, made, added, k - 1, before);
      ThrowsNext(w, added, made, before, ops[k - 1]);
      p := Applied(before, ops[k - 1]);
      PassNext(w, ops, k);
    }
  }

  lemma NothingThrown(w: World, made: Bridge, drawn: set<nat>)
    ensures PassAll(w, []).moves == [] && !MovesThrow(made, []) && Unrefused(made.parentOf, drawn, [])
  {
  }

  /** Drawing a tidy envelope throws, and so ends the session, if and only if the replay refuses one of its moves. */
  lemma ThrowsIffRough(w: World, b: Bridge, ops: seq<WireOp>, nodes: seq<nat>)
    requires Settled(w) && Whole(b) && InStep(w, b) && TidyOps(w, ops) && FreshNodes(b, nodes, |PassAll(w, ops).added|)
    ensures ReconcileThrows(b, PassAll(w, ops), nodes) <==> !Smooth(w, ops)
  {
    var made := Ready(w, b, ops, nodes);
    var p := ThrowsAt(w, ops, made, PassAll(w, ops).added, |ops|);
    assert ops[..|ops|] == ops;
  }

  /**
   * Over a tidy envelope that is smooth the screen follows the world: the drained world is settled, no attach throws,
   * and the bridge, with the scene behind it, draws exactly its entities, each under the parent it has.
   */
  lemma EnvelopeKeepsStep(w: World, b: Bridge, ops: seq<WireOp>, nodes: seq<nat>)
    requires Settled(w) && Whole(b) && InStep(w, b) && TidyEnvelope(w, ops) && Smooth(w, ops)
    requires FreshNodes(b, nodes, |PassAll(w, ops).added|)
    ensures var p := PassAll(w, ops);
            && !ReconcileThrows(b, p, nodes)
            && Settled(Drained(p)) && Whole(Reconciled(b, p, nodes)) && InStep(Drained(p), Reconciled(b, p, nodes))
  {
    var p := PassAll(w, ops);
    ThrowsIffRough(w, b, ops, nodes);
    var made := Ready(w, b, ops, nodes);
    DrainSettles(w, p);
    assert ops[..|ops|] == ops;
    AllReplay(w, ops, made, |ops|);
    var moved := MovedAll(made, p.moves);
    LinksEnd(w, p, made, moved.parentOf);
    assert AllDrawn(w, p.added, moved);
    RemovedAllSpares(moved, p.removed);
    SparedIsDrained(w, p, moved, RemovedAll(moved, p.removed));
  }
}
