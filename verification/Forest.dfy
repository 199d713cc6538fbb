/** Parent maps: ancestors, descendants, and when a map of parents is a forest. */
module Forests {
  import opened Wrappers

  /** The `k`-th ancestor of `x`, itself at zero. */
  ghost function Up(parent: map<nat, nat>, x: nat, k: nat): Option<nat>
    decreases k
  {
    if k == 0 then Some(x)
    else if x in parent then Up(parent, parent[x], k - 1)
    else None
  }

  /** `x` is `root` or one of its descendants. */
  ghost predicate Below(parent: map<nat, nat>, x: nat, root: nat) {
    exists k: nat :: Up(parent, x, k) == Some(root)
  }

  /** Nothing is its own proper ancestor. */
  ghost predicate Acyclic(parent: map<nat, nat>) {
    forall x: nat, k: nat :: k > 0 ==> Up(parent, x, k) != Some(x)
  }

  lemma {:induction false} UpAdds(parent: map<nat, nat>, x: nat, j: nat, mid: nat, k: nat)
    requires Up(parent, x, j) == Some(mid)
    ensures Up(parent, x, j + k) == Up(parent, mid, k)
    decreases j
  {
    if j > 0 {
      UpAdds(parent, parent[x], j - 1, mid, k);
    }
  }

  lemma BelowSelf(parent: map<nat, nat>, x: nat)
    ensures Below(parent, x, x)
  {
    assert Up(parent, x, 0) == Some(x);
  }

  lemma BelowParent(parent: map<nat, nat>, x: nat, root: nat)
    requires x in parent && Below(parent, parent[x], root)
    ensures Below(parent, x, root)
  {
    var k: nat :| Up(parent, parent[x], k) == Some(root);
    assert Up(parent, x, k + 1) == Some(root);
  }

  /** A proper descendant has a parent that is below the root too. */
  lemma BelowStep(parent: map<nat, nat>, x: nat, root: nat)
    requires Below(parent, x, root) && x != root
    ensures x in parent && Below(parent, parent[x], root)
  {
    var k: nat :| Up(parent, x, k) == Some(root);
    assert k > 0 && Up(parent, parent[x], k - 1) == Some(root);
  }

  /** `x` is its own proper ancestor. */
  ghost predicate OnLoop(parent: map<nat, nat>, x: nat) {
    exists k: nat :: k > 0 && Up(parent, x, k) == Some(x)
  }

  /** Off every loop, a root's parent is not below it. */
  lemma NoLoop(parent: map<nat, nat>, root: nat)
    requires !OnLoop(parent, root) && root in parent
    ensures !Below(parent, parent[root], root)
  {
    if Below(parent, parent[root], root) {
      var k: nat :| Up(parent, parent[root], k) == Some(root);
      UpAdds(parent, root, 1, parent[root], k);
    }
  }

  ghost predicate Within(sub: map<nat, nat>, full: map<nat, nat>) {
    forall x :: x in sub ==> x in full && full[x] == sub[x]
  }

  lemma {:induction false} UpWithin(sub: map<nat, nat>, full: map<nat, nat>, x: nat, k: nat)
    requires Within(sub, full) && Up(sub, x, k).Some?
    ensures Up(full, x, k) == Up(sub, x, k)
    decreases k
  {
    if k > 0 {
      UpWithin(sub, full, sub[x], k - 1);
    }
  }

  /** Taking links away keeps a forest. */
  lemma SubForest(sub: map<nat, nat>, full: map<nat, nat>)
    requires Within(sub, full) && Acyclic(full)
    ensures Acyclic(sub)
  {
    forall x: nat, k: nat | k > 0 ensures Up(sub, x, k) != Some(x) {
      if Up(sub, x, k) == Some(x) {
        UpWithin(sub, full, x, k);
      }
    }
  }

  /** A walk over a new link had reached its child before it. */
  lemma {:induction false} UpLinked(parent: map<nat, nat>, child: nat, above: nat, x: nat, k: nat)
    ensures Up(parent[child := above], x, k) == Up(parent, x, k) || Below(parent, x, child)
    decreases k
  {
    if x == child {
      BelowSelf(parent, x);
    } else if k > 0 && x in parent {
      UpLinked(parent, child, above, parent[x], k - 1);
      if Below(parent, parent[x], child) {
        BelowParent(parent, x, child);
      }
    }
  }

  /** A link keeps a forest exactly when its parent was not already below its child. */
  lemma LinkKeepsForestIff(parent: map<nat, nat>, child: nat, above: nat)
    requires Acyclic(parent) && child !in parent
    ensures Acyclic(parent[child := above]) <==> !Below(parent, above, child)
  {
    var linked := parent[child := above];
    if Below(parent, above, child) {
      var k: nat :| Up(parent, above, k) == Some(child);
      UpWithin(parent, linked, above, k);
      assert Up(linked, child, k + 1) == Some(child);
    } else {
      forall x: nat, k: nat | k > 0 ensures Up(linked, x, k) != Some(x) {
        if Up(linked, x, k) == Some(x) {
          LoopUsesLink(parent, child, above, x, k);
        }
      }
    }
  }

  lemma {:induction false} LoopUsesLink(parent: map<nat, nat>, child: nat, above: nat, x: nat, k: nat)
    requires Acyclic(parent) && child !in parent && k > 0
    requires Up(parent[child := above], x, k) == Some(x)
    ensures Below(parent, above, child)
  {
    var linked := parent[child := above];
    UpLinked(parent, child, above, x, k);
    var j: nat :| Up(parent, x, j) == Some(child);
    UpWithin(parent, linked, x, j);
    UpAdds(linked, x, k, x, j);
    UpAdds(linked, x, j, child, k);
    assert Up(linked, above, k - 1) == Some(child);
    UpLinked(parent, child, above, above, k - 1);
  }

  /** The two maps say the same of `x`. */
  ghost predicate SameAt(a: map<nat, nat>, b: map<nat, nat>, x: nat) {
    (x in a <==> x in b) && (x in a && x in b ==> a[x] == b[x])
  }

  /** What a moved link brings below `root` was there, or its new parent was. */
  lemma {:induction false} RelinkBelow(parent: map<nat, nat>, child: nat, above: nat, x: nat, root: nat, k: nat)
    requires Up(parent[child := above], x, k) == Some(root)
    ensures Below(parent, x, root) || Below(parent, above, root)
    decreases k
  {
    if k == 0 {
      BelowSelf(parent, x);
    } else {
      RelinkBelow(parent, child, above, parent[child := above][x], root, k - 1);
      if x != child && Below(parent, parent[x], root) {
        BelowParent(parent, x, root);
      }
    }
  }

  /** A link changed outside a subtree leaves the subtree below its root. */
  lemma {:induction false} KeepsBelow(parent: map<nat, nat>, now: map<nat, nat>, child: nat, x: nat, root: nat, k: nat)
    requires Up(parent, x, k) == Some(root) && !Below(parent, child, root)
    requires forall y :: y != child ==> SameAt(parent, now, y)
    ensures Up(now, x, k) == Some(root)
    decreases k
  {
    if k > 0 {
      assert Below(parent, x, root);
      assert SameAt(parent, now, x);
      KeepsBelow(parent, now, child, parent[x], root, k - 1);
    }
  }

  /** A climb that starts in a set closed under parents stays where the two maps agree. */
  lemma {:induction false} UpOn(parent: map<nat, nat>, other: map<nat, nat>, on: set<nat>, x: nat, k: nat)
    requires x in on && Up(other, x, k).Some?
    requires forall y :: y in on && y in other ==> y in parent && parent[y] == other[y] && other[y] in on
    ensures Up(parent, x, k) == Up(other, x, k)
    decreases k
  {
    if k > 0 {
      UpOn(parent, other, on, other[x], k - 1);
    }
  }

  /** `e` is one of `removed`, or below one. */
  ghost predicate Doomed(parent: map<nat, nat>, removed: seq<nat>, e: nat) {
    exists q :: q in removed && Below(parent, e, q)
  }

  lemma DoomedSelf(parent: map<nat, nat>, removed: seq<nat>, e: nat)
    requires e in removed
    ensures Doomed(parent, removed, e)
  {
    BelowSelf(parent, e);
  }

  lemma DoomedParent(parent: map<nat, nat>, removed: seq<nat>, e: nat)
    requires e in parent && Doomed(parent, removed, parent[e])
    ensures Doomed(parent, removed, e)
  {
    var q :| q in removed && Below(parent, parent[e], q);
    BelowParent(parent, e, q);
  }

  lemma {:induction false} DoomedBelow(parent: map<nat, nat>, removed: seq<nat>, e: nat, root: nat, k: nat)
    requires Up(parent, e, k) == Some(root) && Doomed(parent, removed, root)
    ensures Doomed(parent, removed, e)
    decreases k
  {
    if k > 0 {
      DoomedBelow(parent, removed, parent[e], root, k - 1);
      DoomedParent(parent, removed, e);
    }
  }

  lemma DoomedLast(parent: map<nat, nat>, removed: seq<nat>, q: nat, e: nat)
    ensures Doomed(parent, removed + [q], e) <==> Doomed(parent, removed, e) || Below(parent, e, q)
  {
    assert q in removed + [q];
  }
}
