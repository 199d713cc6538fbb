/** The render bridge's six maps as the code keeps them, and the poses a resimulation is measured against. */
module RenderBridges {
  import opened Wrappers
  import opened Shared
  import opened Forests
  import opened Hierarchies
  import opened Corrections

  /** Parents and children are converse, and no child set is empty. */
  ghost predicate Converse(parentOf: map<nat, nat>, childrenOf: map<nat, set<nat>>) {
    && (forall c :: c in parentOf ==> parentOf[c] in childrenOf && c in childrenOf[parentOf[c]])
    && (forall p, c :: p in childrenOf && c in childrenOf[p] ==> c in parentOf && parentOf[c] == p)
    && (forall p :: p in childrenOf ==> childrenOf[p] != {})
  }

  function ChildrenAt(childrenOf: map<nat, set<nat>>, p: nat): set<nat> {
    if p in childrenOf then childrenOf[p] else {}
  }

  lemma ChildrenAre(parentOf: map<nat, nat>, childrenOf: map<nat, set<nat>>, p: nat)
    requires Converse(parentOf, childrenOf)
    ensures forall c :: c in ChildrenAt(childrenOf, p) <==> c in parentOf && parentOf[c] == p
  {
  }

  lemma LinkConverse(parentOf: map<nat, nat>, childrenOf: map<nat, set<nat>>, local: nat, above: nat)
    requires Converse(parentOf, childrenOf) && local !in parentOf
    ensures Converse(parentOf[local := above], childrenOf[above := ChildrenAt(childrenOf, above) + {local}])
  {
  }

  lemma UnlinkConverse(parentOf: map<nat, nat>, childrenOf: map<nat, set<nat>>, local: nat)
    requires Converse(parentOf, childrenOf) && local in parentOf
    ensures var siblings := childrenOf[parentOf[local]] - {local};
            Converse(parentOf - {local}, if siblings == {} then childrenOf - {parentOf[local]} else childrenOf[parentOf[local] := siblings])
  {
  }

  /** Dropping a set that holds every child of its members, and no child of the rest, drops it from both. */
  lemma DropConverse(parentOf: map<nat, nat>, childrenOf: map<nat, set<nat>>, gone: set<nat>)
    requires Converse(parentOf, childrenOf)
    requires forall c :: c in parentOf ==> (c in gone <==> parentOf[c] in gone)
    ensures Converse(parentOf - gone, childrenOf - gone)
  {
    var kept := childrenOf - gone;
    forall p, c | p in kept && c in kept[p] ensures c in parentOf - gone && parentOf[c] == p {
      assert p in childrenOf && kept[p] == childrenOf[p];
      assert c in parentOf && parentOf[c] == p && p !in gone;
    }
    forall c | c in parentOf - gone ensures parentOf[c] in kept && c in kept[parentOf[c]] {
      assert c in parentOf;
    }
    forall p | p in kept ensures kept[p] != {} {
      assert p in childrenOf && kept[p] == childrenOf[p];
    }
  }

  /**
   * A node for a new entity keeps the two maps inverse if and only if no entity has that node. Before the renderer is
   * ready every create is handed the same null node, and from the second on this fails.
   */
  lemma NameKeepsInverseIff(nodeFor: map<nat, nat>, entityFor: map<nat, nat>, local: nat, node: nat)
    requires Inverse(nodeFor, entityFor) && local !in nodeFor
    ensures Inverse(nodeFor[local := node], entityFor[node := local]) <==> node !in entityFor
  {
    var nodes, entities := nodeFor[local := node], entityFor[node := local];
    if node in entityFor {
      var other := entityFor[node];
      assert other in nodes && nodes[other] == node && entities[node] == local;
    }
  }

  lemma DropInverse(nodeFor: map<nat, nat>, entityFor: map<nat, nat>, id: nat)
    requires Inverse(nodeFor, entityFor)
    ensures Inverse(nodeFor - {id}, if id in nodeFor then entityFor - {nodeFor[id]} else entityFor)
  {
    if id !in nodeFor {
      assert nodeFor - {id} == nodeFor;
    }
  }

  lemma DropMore<V>(m: map<nat, V>, gone: set<nat>, id: nat)
    ensures m - gone - {id} == m - (gone + {id})
  {
  }

  /** The members of a list's first `i` entries. */
  function Taken(xs: seq<nat>, i: nat): set<nat>
    requires i <= |xs|
    decreases i
  {
    if i == 0 then {} else Taken(xs, i - 1) + {xs[i - 1]}
  }

  lemma {:induction false} TakenIs(xs: seq<nat>, i: nat)
    requires i <= |xs|
    ensures forall e :: e in Taken(xs, i) <==> exists j :: 0 <= j < i && xs[j] == e
    decreases i
  {
    if i > 0 {
      TakenIs(xs, i - 1);
      assert xs[i - 1] in Taken(xs, i);
    }
  }

  lemma TakenAll(xs: seq<nat>, gone: set<nat>)
    requires forall e :: e in gone <==> e in xs
    ensures Taken(xs, |xs|) == gone
  {
    TakenIs(xs, |xs|);
  }

  /** Leaving out a subtree, said of its members or of their ancestors. */
  lemma WithoutSubtree<V>(m: map<nat, V>, parentOf: map<nat, nat>, local: nat, gone: set<nat>)
    requires forall x: nat :: x in gone <==> Below(parentOf, x, local)
    ensures m - gone == map e | e in m && !Below(parentOf, e, local) :: m[e]
  {
  }

  // ---------------------------------------------------------------------------------------------
  // The growing worklist

  ghost predicate Distinct(xs: seq<nat>) {
    forall i, j :: 0 <= i < j < |xs| ==> xs[i] != xs[j]
  }

  lemma {:induction false} DistinctFits(xs: seq<nat>, bound: set<nat>)
    requires Distinct(xs) && forall x :: x in xs ==> x in bound
    ensures |xs| <= |bound|
    decreases |xs|
  {
    if xs != [] {
      var last := xs[|xs| - 1];
      var front := xs[..|xs| - 1];
      forall x | x in front ensures x in bound - {last} {
        assert x in xs;
      }
      DistinctFits(front, bound - {last});
    }
  }

  /** The first `visited` entries have all of their children in the list, and nothing else got in. */
  ghost predicate Worklist(parentOf: map<nat, nat>, local: nat, doomed: seq<nat>, visited: set<nat>) {
    && Distinct(doomed) && local in doomed
    && (forall e :: e in visited ==> e in doomed)
    && (forall e :: e in doomed ==> Below(parentOf, e, local))
    && (forall e :: e in doomed && e != local ==> e in parentOf && parentOf[e] in visited)
    && (forall c :: c in parentOf && parentOf[c] in visited ==> c in doomed)
  }

  lemma DistinctJoin(xs: seq<nat>, ys: seq<nat>)
    requires Distinct(xs) && Distinct(ys) && forall y :: y in ys ==> y !in xs
    ensures Distinct(xs + ys)
  {
    var all := xs + ys;
    forall i, j | 0 <= i < j < |all| ensures all[i] != all[j] {
      if i < |xs| <= j {
        assert all[i] in xs && all[j] in ys;
      }
    }
  }

  /** Visiting one more entry appends its children, none of which was listed. */
  lemma VisitOne(parentOf: map<nat, nat>, local: nat, doomed: seq<nat>, visited: set<nat>, e: nat, children: seq<nat>)
    requires !OnLoop(parentOf, local) && Worklist(parentOf, local, doomed, visited)
    requires e in doomed && e !in visited
    requires Distinct(children) && forall c :: c in children <==> c in parentOf && parentOf[c] == e
    ensures Worklist(parentOf, local, doomed + children, visited + {e})
  {
    forall c | c in children ensures c !in doomed && Below(parentOf, c, local) {
      BelowParent(parentOf, c, local);
      if c == local {
        NoLoop(parentOf, local);
      }
    }
    DistinctJoin(doomed, children);
  }

  lemma WorklistFits(parentOf: map<nat, nat>, local: nat, doomed: seq<nat>, visited: set<nat>)
    requires Worklist(parentOf, local, doomed, visited)
    ensures |doomed| <= |parentOf.Keys + {local}|
  {
    DistinctFits(doomed, parentOf.Keys + {local});
  }

  /** Once all is visited the list is exactly the subtree. */
  lemma {:induction false} DoomedIsBelow(parentOf: map<nat, nat>, local: nat, doomed: seq<nat>, visited: set<nat>, x: nat, k: nat)
    requires Worklist(parentOf, local, doomed, visited) && forall e :: e in doomed ==> e in visited
    requires Up(parentOf, x, k) == Some(local)
    ensures x in doomed
    decreases k
  {
    if k > 0 {
      DoomedIsBelow(parentOf, local, doomed, visited, parentOf[x], k - 1);
    }
  }

  lemma SubtreeListed(parentOf: map<nat, nat>, local: nat, doomed: seq<nat>, visited: set<nat>)
    requires Worklist(parentOf, local, doomed, visited) && forall e :: e in doomed ==> e in visited
    ensures forall x: nat :: x in doomed <==> Below(parentOf, x, local)
  {
    forall x: nat | Below(parentOf, x, local) ensures x in doomed {
      var k: nat :| Up(parentOf, x, k) == Some(local);
      DoomedIsBelow(parentOf, local, doomed, visited, x, k);
    }
  }

  /** A set's members in some order. */
  method Listed(items: set<nat>) returns (order: seq<nat>)
    ensures Distinct(order) && forall c :: c in order <==> c in items
  {
    order := [];
    var rest := items;
    while rest != {}
      invariant rest <= items && Distinct(order)
      invariant forall c :: c in order <==> c in items && c !in rest
      decreases rest
    {
      var c :| c in rest;
      order := order + [c];
      rest := rest - {c};
    }
  }

  lemma NewlyListed(before: seq<nat>, children: seq<nat>, visited: set<nat>, i: nat)
    requires i < |before| && Distinct(before + children)
    requires forall e :: e in visited ==> e in before
    requires forall j :: 0 <= j < |before| ==> (before[j] in visited <==> j < i)
    ensures forall j :: 0 <= j < |before + children| ==> ((before + children)[j] in visited + {before[i]} <==> j < i + 1)
  {
    var all := before + children;
    forall j | 0 <= j < |all| ensures all[j] in visited + {before[i]} <==> j < i + 1 {
      assert all[i] == before[i];
      if j >= |before| {
        assert forall m :: 0 <= m < |before| ==> before[m] == all[m];
        assert all[j] !in before;
      }
    }
  }

  /** Where the walk stands: entries before `i` are visited. */
  ghost predicate Walked(parentOf: map<nat, nat>, local: nat, doomed: seq<nat>, visited: set<nat>, i: nat) {
    && i <= |doomed| <= |parentOf.Keys + {local}| && Worklist(parentOf, local, doomed, visited)
    && forall j :: 0 <= j < |doomed| ==> (doomed[j] in visited <==> j < i)
  }

  lemma WalkStarts(parentOf: map<nat, nat>, local: nat)
    ensures Walked(parentOf, local, [local], {}, 0)
  {
    BelowSelf(parentOf, local);
    WorklistFits(parentOf, local, [local], {});
  }

  lemma WalkOn(parentOf: map<nat, nat>, local: nat, doomed: seq<nat>, visited: set<nat>, i: nat, children: seq<nat>)
    requires !OnLoop(parentOf, local) && i < |doomed| && Walked(parentOf, local, doomed, visited, i)
    requires Distinct(children) && forall c :: c in children <==> c in parentOf && parentOf[c] == doomed[i]
    ensures Walked(parentOf, local, doomed + children, visited + {doomed[i]}, i + 1)
  {
    VisitOne(parentOf, local, doomed, visited, doomed[i], children);
    NewlyListed(doomed, children, visited, i);
    WorklistFits(parentOf, local, doomed + children, visited + {doomed[i]});
  }

  lemma WalkEnds(parentOf: map<nat, nat>, local: nat, doomed: seq<nat>, visited: set<nat>)
    requires Walked(parentOf, local, doomed, visited, |doomed|)
    ensures Distinct(doomed) && forall x: nat :: x in doomed <==> Below(parentOf, x, local)
  {
    SubtreeListed(parentOf, local, doomed, visited);
  }

  /** The worklist of `#destroy`: grows while it is walked, ends, and lists exactly the subtree. */
  method Doom(ghost parentOf: map<nat, nat>, childrenOf: map<nat, set<nat>>, local: nat) returns (doomed: seq<nat>)
    requires Converse(parentOf, childrenOf) && !OnLoop(parentOf, local)
    ensures Distinct(doomed) && forall x: nat :: x in doomed <==> Below(parentOf, x, local)
  {
    doomed := [local];
    WalkStarts(parentOf, local);
    var i := 0;
    ghost var visited: set<nat> := {};
    while i < |doomed|
      invariant Walked(parentOf, local, doomed, visited, i)
      decreases |parentOf.Keys + {local}| - i
    {
      var children := Listed(ChildrenAt(childrenOf, doomed[i]));
      ChildrenAre(parentOf, childrenOf, doomed[i]);
      WalkOn(parentOf, local, doomed, visited, i, children);
      visited := visited + {doomed[i]};
      doomed := doomed + children;
      i := i + 1;
    }
    WalkEnds(parentOf, local, doomed, visited);
  }

  /** Cut at the root and then emptied of the subtree, the bridge is as it should be. */
  lemma CutIsRemoved(b: Bridge, local: nat, gone: set<nat>)
    requires local in b.nodeFor && forall x: nat :: x in gone <==> Below(b.parentOf, x, local)
    ensures Removed(b, local) == Bridge(b.nodeFor - gone, b.parentOf - {local} - gone, Destroyed(b.scene, b.nodeFor[local]))
  {
    BelowSelf(b.parentOf, local);
    WithoutSubtree(b.nodeFor, b.parentOf, local, gone);
    WithoutSubtree(b.parentOf, b.parentOf, local, gone);
    assert b.parentOf - {local} - gone == b.parentOf - gone;
  }

  // ---------------------------------------------------------------------------------------------

  class RenderBridge {
    var nodeFor: map<nat, nat>
    var entityFor: map<nat, nat>
    var parentOf: map<nat, nat>
    var childrenOf: map<nat, set<nat>>
    var corrections: map<nat, Correction>
    /** Entities with interpolation samples; the samples themselves are not modelled. */
    var tracks: set<nat>
    var lastNow: Option<real>
    /** The renderer's nodes. */
    ghost var scene: Scene

    ghost predicate Valid()
      reads this
    {
      && Inverse(nodeFor, entityFor) && entityFor.Keys <= scene.minted
      && Converse(parentOf, childrenOf)
      && (forall e :: e in parentOf ==> e in nodeFor && parentOf[e] in nodeFor)
      && Live(corrections) && Sane(scene)
    }

    ghost function View(): Bridge
      reads this
    {
      Bridge(nodeFor, parentOf, scene)
    }

    constructor (ghost renderer: Scene)
      requires Sane(renderer)
      ensures Valid() && View() == Bridge(map[], map[], renderer)
      ensures corrections == map[] && tracks == {} && lastNow == None
    {
      nodeFor, entityFor, parentOf, childrenOf := map[], map[], map[], map[];
      corrections, tracks, lastNow := map[], {}, None;
      scene := renderer;
    }

    /** `#create`: the renderer minted `node`, and `refuses` is its verdict on the parent. */
    method Create(local: nat, node: nat, parent: Option<nat>, refuses: bool) returns (threw: bool)
      requires Valid() && node !in scene.minted
      requires local !in nodeFor && parent.Some? ==>
                 (refuses <==> Throws(Created(View(), local, node, None), local, parent.value))
      modifies this`nodeFor, this`entityFor, this`parentOf, this`childrenOf, this`scene
      ensures Valid() && View() == Created(old(View()), local, node, parent)
      ensures nodeFor == if local in old(nodeFor) then old(nodeFor) else old(nodeFor)[local := node]
      ensures parentOf == if local !in old(nodeFor) && parent.Some? && parent.value in nodeFor && !refuses then old(parentOf)[local := parent.value]
                          else old(parentOf)
      ensures threw <==> old(local !in nodeFor) && parent.Some? && parent.value in nodeFor && refuses
    {
      threw := false;
      if local in nodeFor {
        return;
      }
      nodeFor := nodeFor[local := node];
      entityFor := entityFor[node := local];
      scene := scene.(minted := scene.minted + {node}, alive := scene.alive + {node});
      if parent.Some? {
        threw := Attach(local, parent.value, refuses);
      }
    }

    /** `#attach`: the renderer is asked first, and nothing is written when it throws. */
    method Attach(local: nat, above: nat, refuses: bool) returns (threw: bool)
      requires Valid() && local !in parentOf
      requires refuses <==> Throws(View(), local, above)
      modifies this`parentOf, this`childrenOf, this`scene
      ensures Valid() && View() == Joined(old(View()), local, above)
      ensures parentOf == if local in nodeFor && above in nodeFor && !refuses then old(parentOf)[local := above] else old(parentOf)
      ensures threw <==> local in nodeFor && above in nodeFor && refuses
    {
      if local !in nodeFor || above !in nodeFor {
        return false;
      }
      if refuses {
        return true;
      }
      scene := Attached(scene, nodeFor[local], nodeFor[above]);
      LinkConverse(parentOf, childrenOf, local, above);
      parentOf := parentOf[local := above];
      childrenOf := childrenOf[above := ChildrenAt(childrenOf, above) + {local}];
      threw := false;
    }

    /** `#unlink` takes one link out of both maps; who hangs from `local` still does. */
    method Unlink(local: nat)
      requires Valid()
      modifies this`parentOf, this`childrenOf
      ensures Valid() && View() == Unlinked(old(View()), local) && parentOf == old(parentOf) - {local}
      ensures Converse(parentOf, childrenOf)
    {
      if local !in parentOf {
        assert parentOf - {local} == parentOf;
        return;
      }
      UnlinkConverse(parentOf, childrenOf, local);
      var parent := parentOf[local];
      parentOf := parentOf - {local};
      var siblings := childrenOf[parent] - {local};
      if siblings == {} {
        childrenOf := childrenOf - {parent};
      } else {
        childrenOf := childrenOf[parent := siblings];
      }
    }

    /** `#reparent`: unlinked first, then detached or attached, so a throw leaves the entity unlinked here. */
    method Reparent(local: nat, above: Option<nat>, refuses: bool) returns (threw: bool)
      requires Valid()
      requires above.Some? ==> (refuses <==> Throws(Unlinked(View(), local), local, above.value))
      modifies this`parentOf, this`childrenOf, this`scene
      ensures Valid() && View() == Reparented(old(View()), local, above)
      ensures parentOf == if local !in nodeFor then old(parentOf)
                          else if above.Some? && above.value in nodeFor && !refuses then (old(parentOf) - {local})[local := above.value]
                          else old(parentOf) - {local}
      ensures threw <==> local in nodeFor && above.Some? && above.value in nodeFor && refuses
    {
      threw := false;
      if local !in nodeFor {
        return;
      }
      Unlink(local);
      if above.None? {
        scene := Detached(scene, nodeFor[local]);
        return;
      }
      threw := Attach(local, above.value, refuses);
    }

    /**
     * `#destroy`: exactly the entity and its descendants leave all six maps. The walk ends because the entity is not
     * its own ancestor, and only then.
     */
    method Destroy(local: nat)
      requires Valid() && (local in nodeFor ==> !OnLoop(parentOf, local))
      modifies this`nodeFor, this`entityFor, this`parentOf, this`childrenOf, this`corrections, this`tracks, this`scene
      ensures Valid() && View() == Removed(old(View()), local)
      ensures local !in old(nodeFor) ==> corrections == old(corrections) && tracks == old(tracks)
      ensures forall e :: e in nodeFor <==> e in old(nodeFor) && !(local in old(nodeFor) && Below(old(parentOf), e, local))
      ensures forall e :: e in parentOf <==> e in old(parentOf) && !(local in old(nodeFor) && Below(old(parentOf), e, local))
      ensures local in old(nodeFor) ==>
                && corrections == (map e | e in old(corrections) && !Below(old(parentOf), e, local) :: old(corrections)[e])
                && tracks == set e | e in old(tracks) && !Below(old(parentOf), e, local)
    {
      if local !in nodeFor {
        return;
      }
      var node := nodeFor[local];
      var doomed := Doom(parentOf, childrenOf, local);
      ghost var gone := set e | e in doomed;
      SubtreeCloses(parentOf, local, gone);
      CutIsRemoved(View(), local, gone);
      WithoutSubtree(corrections, parentOf, local, gone);
      Unlink(local);
      Forget(doomed, gone);
      PrunedSane(scene, node);
      scene := Destroyed(scene, node);
    }

    /** The doomed leave one by one. */
    method Forget(doomed: seq<nat>, ghost gone: set<nat>)
      requires Valid() && forall e :: e in gone <==> e in doomed
      requires forall c :: c in parentOf ==> (c in gone <==> parentOf[c] in gone)
      modifies this`nodeFor, this`entityFor, this`parentOf, this`childrenOf, this`corrections, this`tracks
      ensures Valid()
      ensures nodeFor == old(nodeFor) - gone && parentOf == old(parentOf) - gone
      ensures corrections == old(corrections) - gone && tracks == old(tracks) - gone
    {
      DropConverse(parentOf, childrenOf, gone);
      ghost var nodes, parents, children, offsets := nodeFor, parentOf, childrenOf, corrections;
      for i := 0 to |doomed|
        invariant Inverse(nodeFor, entityFor) && entityFor.Keys <= scene.minted
        invariant nodeFor == nodes - Taken(doomed, i) && parentOf == parents - Taken(doomed, i)
        invariant childrenOf == children - Taken(doomed, i)
        invariant corrections == offsets - Taken(doomed, i) && tracks == old(tracks) - Taken(doomed, i)
      {
        ForgetOne(doomed[i]);
        DropMore(nodes, Taken(doomed, i), doomed[i]);
        DropMore(parents, Taken(doomed, i), doomed[i]);
        DropMore(children, Taken(doomed, i), doomed[i]);
        DropMore(offsets, Taken(doomed, i), doomed[i]);
      }
      TakenAll(doomed, gone);
    }

    method ForgetOne(id: nat)
      requires Inverse(nodeFor, entityFor)
      modifies this`nodeFor, this`entityFor, this`parentOf, this`childrenOf, this`corrections, this`tracks
      ensures Inverse(nodeFor, entityFor) && entityFor.Keys <= old(entityFor).Keys
      ensures nodeFor == old(nodeFor) - {id} && parentOf == old(parentOf) - {id} && childrenOf == old(childrenOf) - {id}
      ensures corrections == old(corrections) - {id} && tracks == old(tracks) - {id}
    {
      DropInverse(nodeFor, entityFor, id);
      if id in nodeFor {
        entityFor := entityFor - {nodeFor[id]};
      }
      nodeFor := nodeFor - {id};
      parentOf := parentOf - {id};
      childrenOf := childrenOf - {id};
      corrections := corrections - {id};
      tracks := tracks - {id};
    }

    /** `clear`: every node the bridge made is destroyed, one after the other, and the six maps are empty. */
    method Clear()
      requires Valid()
      modifies this
      ensures Valid() && View() == Swept(old(View())) && lastNow == old(lastNow)
      ensures entityFor == map[] && childrenOf == map[] && corrections == map[] && tracks == {}
    {
      SweptSane(View());
      DestroyNodes();
      nodeFor, entityFor, parentOf, childrenOf := map[], map[], map[], map[];
      corrections, tracks := map[], {};
    }

    method DestroyNodes()
      requires Sane(scene)
      modifies this`scene
      ensures scene == Swept(old(View())).scene
    {
      var nodes := Listed(nodeFor.Values);
      ghost var done: seq<nat> := [];
      assert Cut(scene, [], scene);
      for i := 0 to |nodes|
        invariant done == nodes[..i] && Cut(old(scene), done, scene)
      {
        CutNext(old(scene), done, scene, nodes[i]);
        scene := Destroyed(scene, nodes[i]);
        done := done + [nodes[i]];
      }
      CutIsSwept(View().(scene := old(scene)), done, scene);
    }

    // -------------------------------------------------------------------------------------------
    // Corrections

    /** `correct`: whatever was easing is forgotten, and the new offset gets its full time. */
    method Correct(local: nat, offset: Vec)
      requires Valid()
      modifies this`corrections
      ensures Valid() && corrections == Applied(old(corrections), local, Ease(offset))
      ensures corrections == old(corrections)[local := Correction(offset, 0.1)]
    {
      corrections := corrections[local := Correction(offset, CORRECTION_SMOOTH_SECONDS)];
    }

    method ClearCorrection(local: nat)
      requires Valid()
      modifies this`corrections
      ensures Valid() && corrections == Applied(old(corrections), local, Snap)
      ensures corrections == old(corrections) - {local}
    {
      corrections := corrections - {local};
    }

    /** `#decay`: one frame, the expired gathered first and deleted after the walk. */
    method Decay(now: Option<real>)
      requires Valid()
      modifies this`corrections, this`lastNow
      ensures Valid() && lastNow == (if now.Some? then now else old(lastNow))
      ensures corrections == AgedAll(old(corrections), FrameAge(old(lastNow), now))
      ensures DecaysBy(old(corrections), corrections, FrameAge(old(lastNow), now))
    {
      AgedByZero(corrections);
      AgedAllDecays(corrections, FrameAge(lastNow, now));
      if now.None? {
        return;
      }
      var last := lastNow;
      lastNow := now;
      if last.None? || |corrections| == 0 {
        return;
      }
      var dt := Clamped(now.value - last.value);
      if dt == 0.0 {
        return;
      }
      Age(dt);
    }

    method Age(dt: real)
      requires Valid()
      modifies this`corrections
      ensures Valid() && corrections == AgedAll(old(corrections), dt)
    {
      var rest := corrections.Keys;
      var expired: set<nat> := {};
      ghost var was := corrections;
      while rest != {}
        invariant rest <= was.Keys == corrections.Keys
        invariant forall id :: id in rest ==> corrections[id] == was[id]
        invariant forall id :: id in expired <==> id in was && id !in rest && Aged(was[id], dt).None?
        invariant forall id :: id in was && id !in rest && id !in expired ==> Aged(was[id], dt) == Some(corrections[id])
        decreases rest
      {
        var id :| id in rest;
        var c := corrections[id];
        var next := c.remaining - dt;
        if next <= 0.0 {
          expired := expired + {id};
        } else {
          corrections := corrections[id := Correction(Times(c.offset, next / c.remaining), next)];
        }
        rest := rest - {id};
      }
      corrections := corrections - expired;
    }
  }

  // ---------------------------------------------------------------------------------------------
  // Poses

  function OffsetAt(cs: map<nat, Correction>, id: nat): Option<Correction> {
    if id in cs then Some(cs[id]) else None
  }

  /** Each correction is what its own verdict makes of it. */
  ghost predicate Carried(was: map<nat, Correction>, now: map<nat, Correction>, verdicts: map<nat, Verdict>) {
    forall id :: OffsetAt(now, id) == Settled(was, verdicts, id)
  }

  /** The same, with the verdicts on `rest` still to carry out. */
  ghost predicate PartCarried(was: map<nat, Correction>, now: map<nat, Correction>, verdicts: map<nat, Verdict>, rest: set<nat>) {
    forall id :: OffsetAt(now, id) == if id in rest then OffsetAt(was, id) else Settled(was, verdicts, id)
  }

  lemma CarryOne(was: map<nat, Correction>, now: map<nat, Correction>, verdicts: map<nat, Verdict>, rest: set<nat>, id: nat)
    requires PartCarried(was, now, verdicts, rest) && id in rest && id in verdicts
    ensures PartCarried(was, Applied(now, id, verdicts[id]), verdicts, rest - {id})
  {
    var next := Applied(now, id, verdicts[id]);
    forall other ensures OffsetAt(next, other) == if other in rest - {id} then OffsetAt(was, other) else Settled(was, verdicts, other) {
      assert OffsetAt(now, other) == if other in rest then OffsetAt(was, other) else Settled(was, verdicts, other);
    }
  }

  /** Every pose recorded of an entity still alive is measured, and no other correction is touched. */
  ghost predicate Measured(was: map<nat, Correction>, now: map<nat, Correction>, poses: map<nat, Vec>, sim: map<nat, Vec>) {
    forall id :: if id in poses && id in sim then MeasuredAt(was, now, id, poses[id], sim[id]) else SameCorrection(was, now, id)
  }

  lemma CarriedIsMeasured(was: map<nat, Correction>, now: map<nat, Correction>, poses: map<nat, Vec>, sim: map<nat, Vec>)
    requires Carried(was, now, Verdicts(poses, sim))
    ensures Measured(was, now, poses, sim)
  {
    forall id ensures if id in poses && id in sim then MeasuredAt(was, now, id, poses[id], sim[id]) else SameCorrection(was, now, id) {
      assert OffsetAt(now, id) == Settled(was, Verdicts(poses, sim), id);
      if id in poses && id in sim {
        JudgedMeasures(was, now, id, poses[id], sim[id]);
      }
    }
  }

  ghost function Snapped(verdicts: map<nat, Verdict>): set<nat> {
    set id | id in verdicts && verdicts[id].Snap?
  }

  /** The prediction's record of what is on screen; `sim` maps each living entity to its simulated position. */
  class Poses {
    var poses: map<nat, Vec>
    var snappedCorrections: nat

    constructor ()
      ensures poses == map[] && snappedCorrections == 0
    {
      poses, snappedCorrections := map[], 0;
    }

    /** `#recordPoses`, on the cleared record a rewind leaves it: simulated position plus what is still easing. */
    method Record(scope: set<nat>, sim: map<nat, Vec>, bridge: RenderBridge)
      modifies this`poses
      ensures poses.Keys == scope * sim.Keys
      ensures forall id :: id in poses ==> poses[id] == Plus(sim[id], OffsetOf(bridge.corrections, id))
    {
      poses := map[];
      var rest := scope;
      while rest != {}
        invariant rest <= scope && poses.Keys == (scope - rest) * sim.Keys
        invariant forall id :: id in poses ==> poses[id] == Plus(sim[id], OffsetOf(bridge.corrections, id))
        decreases rest
      {
        var id :| id in rest;
        rest := rest - {id};
        if id in sim {
          poses := poses[id := Plus(sim[id], OffsetOf(bridge.corrections, id))];
        }
      }
    }

    /** `#measureCorrections`: each recorded pose judged on its own, every other correction untouched. */
    method Measure(sim: map<nat, Vec>, bridge: RenderBridge)
      requires bridge.Valid()
      modifies this, bridge`corrections
      ensures bridge.Valid() && poses == map[]
      ensures Carried(old(bridge.corrections), bridge.corrections, Verdicts(old(poses), sim))
      ensures Measured(old(bridge.corrections), bridge.corrections, old(poses), sim)
      ensures snappedCorrections == old(snappedCorrections) + |Snapped(Verdicts(old(poses), sim))|
    {
      ghost var was, recorded := bridge.corrections, poses;
      CarryOut(Verdicts(poses, sim), bridge);
      CarriedIsMeasured(was, bridge.corrections, recorded, sim);
      poses := map[];
    }

    method CarryOut(verdicts: map<nat, Verdict>, bridge: RenderBridge)
      requires bridge.Valid()
      modifies this`snappedCorrections, bridge`corrections
      ensures bridge.Valid() && Carried(old(bridge.corrections), bridge.corrections, verdicts)
      ensures snappedCorrections == old(snappedCorrections) + |Snapped(verdicts)|
    {
      var rest := verdicts.Keys;
      ghost var snapped: set<nat> := {};
      ghost var was := bridge.corrections;
      while rest != {}
        invariant rest <= verdicts.Keys && bridge.Valid()
        invariant PartCarried(was, bridge.corrections, verdicts, rest)
        invariant forall id :: id in snapped <==> id in verdicts && id !in rest && verdicts[id].Snap?
        invariant snappedCorrections == old(snappedCorrections) + |snapped|
        decreases rest
      {
        var id :| id in rest;
        CarryOne(was, bridge.corrections, verdicts, rest, id);
        rest := rest - {id};
        match verdicts[id] {
          case Keep =>
          case Snap =>
            bridge.ClearCorrection(id);
            snappedCorrections := snappedCorrections + 1;
            snapped := snapped + {id};
          case Ease(offset) =>
            bridge.Correct(id, offset);
        }
      }
      assert snapped == Snapped(verdicts);
    }

    /**
     * Rewound at `before`, replayed to `after`: an entity predicted through both stays where it was drawn, unless
     * it snaps or an offset is outstanding where nothing is left to correct.
     */
    method Resimulate(scope: set<nat>, before: map<nat, Vec>, after: map<nat, Vec>, bridge: RenderBridge)
      requires bridge.Valid()
      modifies this, bridge`corrections
      ensures bridge.Valid()
      ensures Eased(old(bridge.corrections), bridge.corrections, scope, before, after)
    {
      ghost var was := bridge.corrections;
      Record(scope, before, bridge);
      ghost var recorded := poses;
      Measure(after, bridge);
      EachEased(was, bridge.corrections, scope, before, after, recorded);
    }
  }

  /**
   * An entity predicted before and after is drawn where it was, exactly when it neither snaps nor keeps an offset it
   * no longer needs.
   */
  ghost predicate Eased(was: map<nat, Correction>, now: map<nat, Correction>, scope: set<nat>, before: map<nat, Vec>, after: map<nat, Vec>) {
    forall id :: id in scope && id in before && id in after ==> EasedOne(was, now, id, Plus(before[id], OffsetOf(was, id)), after[id])
  }

  ghost predicate EasedOne(was: map<nat, Correction>, now: map<nat, Correction>, id: nat, pose: Vec, after: Vec) {
    Plus(after, OffsetOf(now, id)) == pose <==> Eases(Squared(Minus(pose, after)), OffsetOf(was, id))
  }

  lemma CarriedEases(was: map<nat, Correction>, now: map<nat, Correction>, id: nat, pose: Vec, after: Vec)
    requires OffsetOf(now, id) == OffsetOf(Applied(was, id, Judged(pose, after)), id)
    ensures EasedOne(was, now, id, pose, after)
  {
    DrawnUnmovedIff(was, id, pose, after);
  }

  lemma SettledOffset(was: map<nat, Correction>, now: map<nat, Correction>, verdicts: map<nat, Verdict>, id: nat)
    requires id in verdicts && Carried(was, now, verdicts)
    ensures OffsetOf(now, id) == OffsetOf(Applied(was, id, verdicts[id]), id)
  {
    assert OffsetAt(now, id) == Settled(was, verdicts, id);
  }

  lemma EachEased(was: map<nat, Correction>, now: map<nat, Correction>, scope: set<nat>, before: map<nat, Vec>, after: map<nat, Vec>, recorded: map<nat, Vec>)
    requires recorded.Keys == scope * before.Keys
    requires forall id :: id in recorded ==> recorded[id] == Plus(before[id], OffsetOf(was, id))
    requires Carried(was, now, Verdicts(recorded, after))
    ensures Eased(was, now, scope, before, after)
  {
    forall id | id in scope && id in before && id in after
      ensures EasedOne(was, now, id, Plus(before[id], OffsetOf(was, id)), after[id])
    {
      SettledOffset(was, now, Verdicts(recorded, after), id);
      CarriedEases(was, now, id, recorded[id], after[id]);
    }
  }

  /** Any frames at all: each correction is where its own decay puts it, whatever the others do. */
  method DrawFrames(bridge: RenderBridge, nows: seq<Option<real>>)
    requires bridge.Valid()
    modifies bridge`corrections, bridge`lastNow
    ensures bridge.Valid()
    ensures forall id :: OffsetAt(bridge.corrections, id) == AfterFrames(OffsetAt(old(bridge.corrections), id), old(bridge.lastNow), nows)
    decreases |nows|
  {
    if nows == [] {
      return;
    }
    bridge.Decay(nows[0]);
    DrawFrames(bridge, nows[1..]);
  }

  /** Cut off at its root, a subtree shares no link with the rest. */
  lemma SubtreeCloses(parentOf: map<nat, nat>, local: nat, gone: set<nat>)
    requires forall x: nat :: x in gone <==> Below(parentOf, x, local)
    ensures local in gone
    ensures forall c :: c in parentOf - {local} ==> (c in gone <==> parentOf[c] in gone)
  {
    BelowSelf(parentOf, local);
    forall c | c in parentOf - {local} ensures c in gone <==> parentOf[c] in gone {
      if c in gone {
        BelowStep(parentOf, c, local);
      } else if parentOf[c] in gone {
        BelowParent(parentOf, c, local);
      }
    }
  }
}
