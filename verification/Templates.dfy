/**
 * `closeTemplates`: heights over the graph of which template has which children, by a depth-first walk that
 * remembers them. It accepts exactly the graphs in which no walk has more nodes than the bound allows.
 */
module Templates {
  import opened Shared

  datatype TemplateId = TemplateId(key: string)

  type Graph = map<TemplateId, seq<TemplateId>>

  function ChildrenOf(g: Graph, id: TemplateId): seq<TemplateId> {
    if id in g then g[id] else []
  }

  /** A nonempty path along child edges, by the number of templates it visits. */
  ghost predicate Walk(g: Graph, w: seq<TemplateId>) {
    w != [] && forall i :: 0 <= i < |w| - 1 ==> w[i + 1] in ChildrenOf(g, w[i])
  }

  ghost predicate WalkFrom(g: Graph, id: TemplateId, w: seq<TemplateId>) {
    Walk(g, w) && w[0] == id
  }

  /** The longest walk from `id` visits exactly `h` templates. */
  ghost predicate IsHeight(g: Graph, id: TemplateId, h: int) {
    (exists w :: WalkFrom(g, id, w) && |w| == h) && forall w :: WalkFrom(g, id, w) ==> |w| <= h
  }

  ghost predicate NestsWithin(g: Graph, bound: int) {
    forall w :: Walk(g, w) ==> |w| <= bound
  }

  /** A walk that comes back to where it started. */
  ghost predicate Cycle(g: Graph, w: seq<TemplateId>) {
    Walk(g, w) && |w| > 1 && w[0] == w[|w| - 1]
  }

  datatype Verdict = Height(n: int) | ContainsItself(id: TemplateId) | TooDeep(root: TemplateId)

  datatype Outcome = Accepted | Refused(why: Verdict)

  lemma WalkJoin(g: Graph, a: seq<TemplateId>, b: seq<TemplateId>)
    requires Walk(g, a) && Walk(g, b) && b[0] in ChildrenOf(g, a[|a| - 1])
    ensures Walk(g, a + b)
  {
    var w := a + b;
    forall i | 0 <= i < |w| - 1 ensures w[i + 1] in ChildrenOf(g, w[i]) {
      assert i < |a| - 1 ==> w[i] == a[i] && w[i + 1] == a[i + 1];
      assert i >= |a| ==> w[i] == b[i - |a|] && w[i + 1] == b[i + 1 - |a|];
    }
  }

  lemma WalkSuffix(g: Graph, w: seq<TemplateId>, k: nat)
    requires Walk(g, w) && k < |w|
    ensures Walk(g, w[k..])
  {
    forall i | 0 <= i < |w[k..]| - 1 ensures w[k..][i + 1] in ChildrenOf(g, w[k..][i]) {
      assert w[k..][i] == w[k + i] && w[k..][i + 1] == w[k + i + 1];
    }
  }

  lemma WalkPrefix(g: Graph, w: seq<TemplateId>, k: nat)
    requires Walk(g, w) && 0 < k <= |w|
    ensures Walk(g, w[..k])
  {
  }

  /** Going round a cycle gives walks as long as one likes. */
  lemma {:induction false} CyclePumps(g: Graph, c: seq<TemplateId>, n: nat)
    returns (w: seq<TemplateId>)
    requires Cycle(g, c)
    ensures WalkFrom(g, c[0], w) && |w| > n
  {
    if n == 0 {
      w := c;
    } else {
      var rest := CyclePumps(g, c, n - 1);
      var lap := c[..|c| - 1];
      WalkPrefix(g, c, |c| - 1);
      assert c[|c| - 1] in ChildrenOf(g, c[|c| - 2]);
      WalkJoin(g, lap, rest);
      w := lap + rest;
    }
  }

  /** Nothing memoised is ever measured again. */
  ghost predicate Extends(was: map<TemplateId, int>, now: map<TemplateId, int>) {
    forall k :: k in was ==> k in now && now[k] == was[k]
  }

  /** `tallest` is the greatest memoised height among `kids`, zero for none. */
  ghost predicate Best(kids: seq<TemplateId>, heights: map<TemplateId, int>, tallest: int) {
    && (forall c :: c in kids ==> c in heights && 1 <= heights[c] <= tallest)
    && (kids == [] ==> tallest == 0)
    && (kids != [] ==> exists c :: c in kids && heights[c] == tallest)
  }

  lemma BestNext(kids: seq<TemplateId>, was: map<TemplateId, int>, heights: map<TemplateId, int>, tallest: int, child: TemplateId)
    requires Best(kids, was, tallest)
    requires Extends(was, heights)
    requires child in heights && 1 <= heights[child]
    ensures Best(kids + [child], heights, if heights[child] > tallest then heights[child] else tallest)
  {
    if kids != [] {
      var c :| c in kids && was[c] == tallest;
      assert c in kids + [child] && heights[c] == tallest;
    }
    assert child in kids + [child];
  }

  /** A node stands one above its tallest child, and a leaf at one. */
  lemma NodeHeight(g: Graph, id: TemplateId, heights: map<TemplateId, int>, tallest: int)
    requires forall c :: c in heights ==> IsHeight(g, c, heights[c])
    requires Best(ChildrenOf(g, id), heights, tallest)
    ensures IsHeight(g, id, tallest + 1)
  {
    if ChildrenOf(g, id) == [] {
      assert WalkFrom(g, id, [id]);
    } else {
      var c :| c in ChildrenOf(g, id) && heights[c] == tallest;
      var below :| WalkFrom(g, c, below) && |below| == tallest;
      WalkJoin(g, [id], below);
      assert WalkFrom(g, id, [id] + below);
    }
    forall w | WalkFrom(g, id, w) ensures |w| <= tallest + 1 {
      if |w| > 1 {
        WalkSuffix(g, w, 1);
        assert WalkFrom(g, w[1], w[1..]);
        assert w[0 + 1] in ChildrenOf(g, w[0]);
      }
    }
  }

  class Closer {
    const children: Graph
    var open: set<TemplateId>
    var heights: map<TemplateId, int>

    constructor (children: Graph)
      ensures this.children == children && open == {} && heights == map[]
    {
      this.children := children;
      open, heights := {}, map[];
    }

    /** Every memoised height is the true longest walk, and an open template has none yet. */
    ghost predicate Valid()
      reads this
    {
      && (forall k :: k in heights ==> IsHeight(children, k, heights[k]))
      && (forall k :: k in heights ==> k !in open)
    }

    /** The open templates are the walk from `root` that led to `id`. */
    ghost predicate Reached(path: seq<TemplateId>, id: TemplateId, root: TemplateId)
      reads this
    {
      && |path| == |open| && (forall k :: k in open <==> k in path)
      && WalkFrom(children, root, path + [id])
    }

    /** The same walk, once `id` itself is open. */
    ghost predicate Opened(path: seq<TemplateId>, id: TemplateId, root: TemplateId)
      reads this
    {
      && id in open
      && |path| + 1 == |open| && (forall k :: k in open <==> k in path + [id])
      && WalkFrom(children, root, path + [id])
    }

    /** What a failed measure has found, whichever call found it. */
    ghost predicate Justified(r: Verdict, root: TemplateId)
      reads this
    {
      match r
      case Height(_) => false
      case ContainsItself(id) => exists c :: Cycle(children, c) && c[0] == id
      case TooDeep(at) => at == root && exists w :: WalkFrom(children, root, w) && |w| > MAX_TEMPLATE_DEPTH
    }

    method Measure(id: TemplateId, root: TemplateId, ghost path: seq<TemplateId>) returns (r: Verdict)
      requires Valid() && Reached(path, id, root) && |open| <= MAX_TEMPLATE_DEPTH
      modifies this
      ensures Extends(old(heights), heights)
      ensures if r.Height? then
                && Valid() && open == old(open)
                && id in heights && heights[id] == r.n
                && 1 <= r.n && |open| + r.n <= MAX_TEMPLATE_DEPTH
              else Justified(r, root)
      decreases MAX_TEMPLATE_DEPTH - |open|, 0
    {
      if id in open {
        ClosesCycle(children, path, id);
        return ContainsItself(id);
      }
      if |open| + (if id in heights then heights[id] else 1) > MAX_TEMPLATE_DEPTH {
        TooDeepWalk(children, path, id, if id in heights then heights[id] else 1);
        return TooDeep(root);
      }
      if id in heights {
        HeightPositive(children, id, heights[id]);
        return Height(heights[id]);
      }

      ghost var before := open;
      open := open + {id};
      var tallest := Tallest(id, root, path);
      if !tallest.Height? {
        return tallest;
      }
      NodeHeight(children, id, heights, tallest.n);
      open := open - {id};
      assert open == before;
      heights := heights[id := tallest.n + 1];
      r := Height(tallest.n + 1);
    }

    /** One turn of the child loop: Height(n) is the tallest so far. */
    method Visit(child: TemplateId, id: TemplateId, root: TemplateId, tallest: int, ghost seen: seq<TemplateId>, ghost path: seq<TemplateId>)
      returns (r: Verdict)
      requires Valid() && Opened(path, id, root) && |open| <= MAX_TEMPLATE_DEPTH && child in ChildrenOf(children, id)
      requires Best(seen, heights, tallest) && |open| + tallest <= MAX_TEMPLATE_DEPTH
      modifies this
      ensures Extends(old(heights), heights)
      ensures if r.Height? then
                && Valid() && open == old(open)
                && Best(seen + [child], heights, r.n) && |open| + r.n <= MAX_TEMPLATE_DEPTH
              else Justified(r, root)
      decreases MAX_TEMPLATE_DEPTH - |open|, 1
    {
      ExtendsPath(children, path, id, child);
      r := Measure(child, root, path + [id]);
      if r.Height? {
        BestNext(seen, old(heights), heights, tallest, child);
        r := Height(if r.n > tallest then r.n else tallest);
      }
    }

    /** The loop over the children of a template just opened; Height(n) is the tallest of them, zero for none. */
    method Tallest(id: TemplateId, root: TemplateId, ghost path: seq<TemplateId>) returns (r: Verdict)
      requires Valid() && Opened(path, id, root) && |open| <= MAX_TEMPLATE_DEPTH
      modifies this
      ensures Extends(old(heights), heights)
      ensures if r.Height? then
                && Valid() && open == old(open)
                && Best(ChildrenOf(children, id), heights, r.n) && |open| + r.n <= MAX_TEMPLATE_DEPTH
              else Justified(r, root)
      decreases MAX_TEMPLATE_DEPTH - |open|, 2
    {
      var tallest := 0;
      var kids := ChildrenOf(children, id);
      ghost var seen := [];
      for at := 0 to |kids|
        invariant Valid() && open == old(open)
        invariant Extends(old(heights), heights)
        invariant |seen| == at && seen <= kids
        invariant Best(seen, heights, tallest) && |open| + tallest <= MAX_TEMPLATE_DEPTH
      {
        PrefixNext(seen, kids);
        r := Visit(kids[at], id, root, tallest, seen, path);
        if !r.Height? {
          return;
        }
        tallest, seen := r.n, seen + [kids[at]];
      }
      r := Height(tallest);
    }

    /** `closeTemplates`: accepted exactly when nothing nests past the bound, cyclic graphs included. */
    method Close() returns (outcome: Outcome)
      requires open == {} && heights == map[]
      modifies this
      ensures outcome == Accepted <==> NestsWithin(children, 8)
      ensures outcome == Accepted ==> forall id :: id in children ==> id in heights && IsHeight(children, id, heights[id])
      ensures outcome.Refused? && outcome.why.ContainsItself? ==> exists c :: Cycle(children, c) && c[0] == outcome.why.id
      ensures outcome.Refused? && outcome.why.TooDeep? ==>
                exists w :: WalkFrom(children, outcome.why.root, w) && |w| > MAX_TEMPLATE_DEPTH
    {
      var todo := children.Keys;
      while todo != {}
        invariant todo <= children.Keys && Valid() && open == {}
        invariant forall id :: id in children && id !in todo ==> id in heights && heights[id] <= MAX_TEMPLATE_DEPTH
      {
        var id :| id in todo;
        assert [] + [id] == [id];
        var measured := Measure(id, id, []);
        if !measured.Height? {
          if measured.ContainsItself? {
            ghost var c :| Cycle(children, c) && c[0] == measured.id;
            ghost var w := CyclePumps(children, c, MAX_TEMPLATE_DEPTH);
          }
          return Refused(measured);
        }
        todo := todo - {id};
      }
      forall w | Walk(children, w) ensures |w| <= MAX_TEMPLATE_DEPTH {
        if |w| > 1 {
          assert w[0 + 1] in ChildrenOf(children, w[0]);
          assert WalkFrom(children, w[0], w);
        }
      }
      outcome := Accepted;
    }
  }

  lemma PrefixNext(seen: seq<TemplateId>, kids: seq<TemplateId>)
    requires seen <= kids && |seen| < |kids|
    ensures seen + [kids[|seen|]] <= kids
  {
  }

  /** Meeting an open template again closes a cycle. */
  lemma ClosesCycle(g: Graph, path: seq<TemplateId>, id: TemplateId)
    requires Walk(g, path + [id]) && id in path
    ensures exists c :: Cycle(g, c) && c[0] == id
  {
    var k :| 0 <= k < |path| && path[k] == id;
    WalkSuffix(g, path + [id], k);
    assert Cycle(g, (path + [id])[k..]);
  }

  /** The open path and a walk below `id` are one walk from the root. */
  lemma TooDeepWalk(g: Graph, path: seq<TemplateId>, id: TemplateId, h: int)
    requires Walk(g, path + [id]) && (h == 1 || IsHeight(g, id, h))
    ensures exists w :: WalkFrom(g, (path + [id])[0], w) && |w| == |path| + h
  {
    assert h == 1 ==> WalkFrom(g, id, [id]);
    var below :| WalkFrom(g, id, below) && |below| == h;
    if path == [] {
      assert WalkFrom(g, (path + [id])[0], below);
    } else {
      var w, k := path + [id], |path| - 1;
      WalkPrefix(g, w, |path|);
      assert w[..|path|] == path;
      assert w[k + 1] in ChildrenOf(g, w[k]) && w[k] == path[k] && w[k + 1] == id;
      assert WalkFrom(g, id, below);
      WalkJoin(g, path, below);
      assert WalkFrom(g, (path + [id])[0], path + below);
    }
  }

  lemma HeightPositive(g: Graph, id: TemplateId, h: int)
    requires IsHeight(g, id, h)
    ensures h >= 1
  {
    assert WalkFrom(g, id, [id]);
  }

  lemma ExtendsPath(g: Graph, path: seq<TemplateId>, id: TemplateId, child: TemplateId)
    requires Walk(g, path + [id]) && child in ChildrenOf(g, id)
    ensures Walk(g, path + [id] + [child]) && (path + [id] + [child])[0] == (path + [id])[0]
  {
    assert (path + [id])[|path + [id]| - 1] == id;
    WalkJoin(g, path + [id], [child]);
  }

  /** Accepting rules out every cycle. */
  lemma AcceptedIsAcyclic(g: Graph, c: seq<TemplateId>)
    requires NestsWithin(g, MAX_TEMPLATE_DEPTH)
    ensures !Cycle(g, c)
  {
    if Cycle(g, c) {
      var w := CyclePumps(g, c, MAX_TEMPLATE_DEPTH);
    }
  }
}
