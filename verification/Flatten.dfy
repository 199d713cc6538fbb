/**
 * `flattenGroup`: nested visuals written out as a list with parent indices. Which trees it takes is exact, and
 * the list loses nothing, since rebuilding from the indices gives the tree back.
 */
module Flattening {
  import opened Wrappers
  import opened Shared

  const MAX_VISUAL_NODES := 64
  const MAX_WIRE_ITEMS := 65_536

  // ---------------------------------------------------------------------------------------------
  // The wire tree and the batch

  datatype Number = Finite(value: real) | NotFinite

  datatype Offset = Offset(x: Option<real>, y: Option<real>, z: Option<real>)

  /** The sprite fields passed through, each absent or given. */
  datatype Look = Look(rotation: Option<real>, scale: Option<real>, alpha: Option<real>,
                       anchorX: Option<real>, anchorY: Option<real>, tint: Option<int>, neverCull: Option<bool>)

  /** `Garbage` is whatever is no group and no sprite: a scalar, null, an unknown kind, a texture of another type. */
  datatype Child =
    | Group(offset: Offset, layer: Option<Number>, children: Children)
    | Sprite(texture: string, offset: Offset, layer: Option<Number>, look: Look)
    | Garbage

  /** What a `children` field holds: nothing, something that is no list, or a list. */
  datatype Children = Absent | NotAList | List(items: Items)

  /** A finite list of wire children, read front to back. */
  datatype Items = Nil | Cons(first: Child, rest: Items)

  datatype Desc =
    | RootGroup
    | GroupDesc(position: Vec, layer: Option<real>)
    | SpriteDesc(texture: string, position: Vec, layer: Option<real>, rotation: Option<real>, scale: Option<Vec>,
                 alpha: Option<real>, anchor: Option<Vec>, tint: Option<int>, neverCull: Option<bool>)

  datatype Node = Node(desc: Desc, parentInBatch: int)

  function Or(value: Option<real>, fallback: real): real {
    if value.Some? then value.value else fallback
  }

  function Position(o: Offset): Vec {
    Vec(Or(o.x, 0.0), Or(o.y, 0.0), Or(o.z, 0.0))
  }

  /** A layer that is not finite is dropped. */
  function Layer(layer: Option<Number>): Option<real> {
    if layer.Some? && layer.value.Finite? then Some(layer.value.value) else None
  }

  function SpriteOf(texture: string, offset: Offset, layer: Option<Number>, look: Look): Desc {
    SpriteDesc(texture, Position(offset), Layer(layer), look.rotation,
               if look.scale.Some? then Some(Vec(look.scale.value, look.scale.value, 1.0)) else None,
               look.alpha,
               if look.anchorX.Some? || look.anchorY.Some? then Some(Vec(Or(look.anchorX, 0.5), Or(look.anchorY, 0.5), 0.0)) else None,
               look.tint, look.neverCull)
  }

  /** What a child is drawn as, when it is well formed. */
  function ChildDesc(c: Child): Option<Desc> {
    match c
    case Group(offset, layer, _) => Some(GroupDesc(Position(offset), Layer(layer)))
    case Sprite(texture, offset, layer, look) => if texture == "" then None else Some(SpriteOf(texture, offset, layer, look))
    case Garbage => None
  }

  /** What is not stated of a place is zero, the unstated half of an anchor is the middle, and a scale is of both axes. */
  lemma DefaultsAre(texture: string, offset: Offset, layer: Option<Number>, look: Look)
    requires texture != ""
    ensures var d := ChildDesc(Sprite(texture, offset, layer, look));
            && d.Some? && d.value.SpriteDesc? && d.value.texture == texture && Stated(offset, layer, d.value.position, d.value.layer)
            && d.value.rotation == look.rotation && d.value.alpha == look.alpha && d.value.tint == look.tint && d.value.neverCull == look.neverCull
            && (d.value.scale.Some? <==> look.scale.Some?)
            && (look.scale.Some? ==> d.value.scale.value.x == d.value.scale.value.y == look.scale.value && d.value.scale.value.z == 1.0)
            && (d.value.anchor.Some? <==> look.anchorX.Some? || look.anchorY.Some?)
            && (d.value.anchor.Some? ==>
                  && d.value.anchor.value.x == (if look.anchorX.Some? then look.anchorX.value else 0.5)
                  && d.value.anchor.value.y == (if look.anchorY.Some? then look.anchorY.value else 0.5)
                  && d.value.anchor.value.z == 0.0)
  {
  }

  /** Where a child stands and on which layer: each coordinate as stated, or zero, and a layer only when it is finite. */
  ghost predicate Stated(offset: Offset, layer: Option<Number>, position: Vec, drawn: Option<real>) {
    && (offset.x.Some? ==> position.x == offset.x.value) && (offset.x.None? ==> position.x == 0.0)
    && (offset.y.Some? ==> position.y == offset.y.value) && (offset.y.None? ==> position.y == 0.0)
    && (offset.z.Some? ==> position.z == offset.z.value) && (offset.z.None? ==> position.z == 0.0)
    && (drawn.Some? <==> layer.Some? && layer.value.Finite?) && (drawn.Some? ==> layer == Some(Finite(drawn.value)))
  }

  lemma GroupDefaultsAre(offset: Offset, layer: Option<Number>, children: Children)
    ensures var d := ChildDesc(Group(offset, layer, children));
            d.Some? && d.value.GroupDesc? && Stated(offset, layer, d.value.position, d.value.layer)
  {
  }

  function Given(layer: Option<real>): Option<Number> {
    if layer.Some? then Some(Finite(layer.value)) else None
  }

  function Placed(p: Vec): Offset {
    Offset(Some(p.x), Some(p.y), Some(p.z))
  }

  /** A desc read back as the wire child that spells it out. */
  function Reread(d: Desc): Child {
    match d
    case RootGroup => Garbage
    case GroupDesc(position, layer) => Group(Placed(position), Given(layer), Absent)
    case SpriteDesc(texture, position, layer, rotation, scale, alpha, anchor, tint, neverCull) =>
      Sprite(texture, Placed(position), Given(layer),
             Look(rotation, if scale.Some? then Some(scale.value.x) else None, alpha,
                  if anchor.Some? then Some(anchor.value.x) else None, if anchor.Some? then Some(anchor.value.y) else None,
                  tint, neverCull))
  }

  /** A desc carries all that is drawn of a child: defaults made explicit, it reads back to itself. */
  lemma DescReadsBack(c: Child)
    requires ChildDesc(c).Some?
    ensures ChildDesc(Reread(ChildDesc(c).value)) == ChildDesc(c)
  {
  }

  /** What a child states outright reaches its desc unchanged. */
  lemma RereadIsDrawn(d: Desc, c: Child)
    requires c == Reread(d) && ChildDesc(c).Some?
    requires d.SpriteDesc? ==> d.scale.Some? ==> d.scale.value.x == d.scale.value.y && d.scale.value.z == 1.0
    requires d.SpriteDesc? ==> d.anchor.Some? ==> d.anchor.value.z == 0.0
    ensures ChildDesc(c) == Some(d)
  {
  }

  // ---------------------------------------------------------------------------------------------
  // What a tree is, independently of how it is flattened

  /** The list a walk goes into: a sprite has none, whatever it carries. */
  function Below(c: Child): Items {
    if c.Group? && c.children.List? then c.children.items else Nil
  }

  /** Nodes of the tree, each child with everything below it. */
  function Count(items: Items): nat {
    match items
    case Nil => 0
    case Cons(Group(_, _, List(below)), rest) => 1 + Count(below) + Count(rest)
    case Cons(_, rest) => 1 + Count(rest)
  }

  function CountAll(cs: Children): nat {
    if cs.List? then Count(cs.items) else 0
  }

  function Length(items: Items): nat {
    match items case Nil => 0 case Cons(_, rest) => 1 + Length(rest)
  }

  /** Every child reads as a desc, every list is a list, and no list sits below the depth limit. */
  predicate Sound(cs: Children, depth: nat)
    decreases cs
  {
    match cs
    case Absent => true
    case NotAList => false
    case List(items) => depth <= MAX_TEMPLATE_DEPTH && AllSound(items, depth)
  }

  predicate AllSound(items: Items, depth: nat)
    decreases items
  {
    match items
    case Nil => true
    case Cons(c, rest) => ChildSound(c, depth) && AllSound(rest, depth)
  }

  predicate ChildSound(c: Child, depth: nat)
    decreases c
  {
    ChildDesc(c).Some? && (c.Group? ==> Sound(c.children, depth + 1))
  }

  // ---------------------------------------------------------------------------------------------
  // Soundness said of paths: which lists a walk down from the root can reach

  function At(items: Items, i: nat): Option<Child> {
    match items
    case Nil => None
    case Cons(c, rest) => if i == 0 then Some(c) else At(rest, i - 1)
  }

  /** The children field reached by going into group after group, each by its place in its list. */
  ghost function Reached(cs: Children, path: seq<nat>): Option<Children>
    decreases |path|
  {
    if path == [] then Some(cs)
    else if cs.List? && At(cs.items, path[0]).Some? && At(cs.items, path[0]).value.Group?
    then Reached(At(cs.items, path[0]).value.children, path[1..])
    else None
  }

  /** What is reached is a list or nothing, not below the eighth level, and holds groups and textured sprites only. */
  ghost predicate SoundAt(cs: Children, path: seq<nat>, depth: nat) {
    Reached(cs, path).Some? && !Reached(cs, path).value.Absent? ==>
      var list := Reached(cs, path).value;
      && list.List? && depth + |path| <= 8
      && forall i: nat, c :: At(list.items, i) == Some(c) ==> c.Group? || (c.Sprite? && c.texture != "")
  }

  ghost predicate SoundEverywhere(cs: Children, depth: nat) {
    forall path :: SoundAt(cs, path, depth)
  }

  lemma {:induction false} AllSoundAt(items: Items, depth: nat, i: nat)
    requires AllSound(items, depth) && At(items, i).Some?
    ensures ChildSound(At(items, i).value, depth)
    decreases items
  {
    if i > 0 {
      AllSoundAt(items.rest, depth, i - 1);
    }
  }

  lemma {:induction false} SoundReaches(cs: Children, path: seq<nat>, depth: nat)
    requires Sound(cs, depth)
    ensures SoundAt(cs, path, depth)
    decreases |path|
  {
    if path != [] && Reached(cs, path).Some? {
      AllSoundAt(cs.items, depth, path[0]);
      SoundReaches(At(cs.items, path[0]).value.children, path[1..], depth + 1);
    } else if cs.List? {
      forall i: nat, c | At(cs.items, i) == Some(c) ensures c.Group? || (c.Sprite? && c.texture != "") {
        AllSoundAt(cs.items, depth, i);
      }
    }
  }

  lemma OneDown(cs: Children, i: nat, path: seq<nat>, depth: nat)
    requires cs.List? && At(cs.items, i).Some? && At(cs.items, i).value.Group? && SoundAt(cs, [i] + path, depth)
    ensures SoundAt(At(cs.items, i).value.children, path, depth + 1)
  {
    assert ([i] + path)[1..] == path;
  }

  lemma {:induction false} ReachesSound(cs: Children, depth: nat)
    requires SoundEverywhere(cs, depth)
    ensures Sound(cs, depth)
    decreases cs
  {
    assert SoundAt(cs, [], depth);
    if cs.List? {
      ItemsSound(cs, cs.items, 0, depth);
    }
  }

  /** Child by child, from the `from`-th on. */
  lemma {:induction false} ItemsSound(cs: Children, items: Items, from: nat, depth: nat)
    requires cs.List? && SoundEverywhere(cs, depth)
    requires forall i: nat :: At(items, i) == At(cs.items, from + i)
    ensures AllSound(items, depth)
    decreases items
  {
    match items
    case Nil =>
    case Cons(c, rest) =>
      assert SoundAt(cs, [], depth) && At(items, 0) == Some(c) == At(cs.items, from);
      forall i: nat ensures At(rest, i) == At(cs.items, from + 1 + i) {
        assert At(items, i + 1) == At(rest, i);
      }
      ItemsSound(cs, rest, from + 1, depth);
      if c.Group? {
        var down := depth + 1;
        forall path ensures SoundAt(c.children, path, down) {
          assert SoundAt(cs, [from] + path, depth);
          OneDown(cs, from, path, depth);
        }
        ReachesSound(c.children, down);
      }
  }

  /** A tree is sound if and only if everything a walk down it can reach is. */
  lemma SoundIffEverywhere(cs: Children, depth: nat)
    ensures Sound(cs, depth) <==> SoundEverywhere(cs, depth)
  {
    if Sound(cs, depth) {
      forall path ensures SoundAt(cs, path, depth) {
        SoundReaches(cs, path, depth);
      }
    } else if SoundEverywhere(cs, depth) {
      ReachesSound(cs, depth);
    }
  }

  /** The drawn tree: descs and their children, absent and empty lists alike. */
  datatype Art = Art(desc: Desc, parts: seq<Art>)

  function DescOf(c: Child): Desc {
    if ChildDesc(c).Some? then ChildDesc(c).value else RootGroup
  }

  function Drawn(items: Items): seq<Art>
    decreases Count(items)
  {
    match items
    case Nil => []
    case Cons(c, rest) => [Art(DescOf(c), Drawn(Below(c)))] + Drawn(rest)
  }

  // ---------------------------------------------------------------------------------------------
  // The preorder, and rebuilding from it

  /** The nodes of a child list in preorder, placed from index `base` under `parent`. */
  function Preorder(items: Items, parent: int, base: nat): (nodes: seq<Node>)
    ensures |nodes| == Count(items)
    decreases Count(items)
  {
    if items.Nil? then []
    else Block(items.first, parent, Preorder(Below(items.first), base, base + 1))
         + Preorder(items.rest, parent, base + 1 + Count(Below(items.first)))
  }

  /** A child's node, and behind it the nodes below. */
  function Block(c: Child, parent: int, below: seq<Node>): seq<Node> {
    [Node(DescOf(c), parent)] + below
  }

  /** The parts of `parent` among entries `lo` to `hi`: every entry that names it, each with all of its own parts. */
  function Parts(batch: seq<Node>, parent: int, lo: nat, hi: nat): seq<Art>
    requires hi <= |batch|
    decreases |batch| - lo
  {
    if hi <= lo then []
    else (if batch[lo].parentInBatch == parent then [Art(batch[lo].desc, Parts(batch, lo, lo + 1, |batch|))] else [])
         + Parts(batch, parent, lo + 1, hi)
  }

  function Rebuilt(batch: seq<Node>): Art
    requires batch != []
  {
    Art(batch[0].desc, Parts(batch, 0, 1, |batch|))
  }

  /** Each entry's parent is the list's own, or an earlier entry of the same block. */
  ghost predicate ParentsWithin(nodes: seq<Node>, parent: int, base: nat) {
    forall j :: 0 <= j < |nodes| ==>
                  nodes[j].parentInBatch == parent || base <= nodes[j].parentInBatch < base + j
  }

  lemma ParentsJoin(a: Node, b: seq<Node>, c: seq<Node>, parent: int, base: nat)
    requires a.parentInBatch == parent && ParentsWithin(b, base, base + 1)
    requires ParentsWithin(c, parent, base + 1 + |b|)
    ensures ParentsWithin([a] + b + c, parent, base)
  {
    var all := [a] + b + c;
    forall j | 0 <= j < |all| ensures all[j].parentInBatch == parent || base <= all[j].parentInBatch < base + j {
      if 1 <= j < 1 + |b| {
        assert all[j] == b[j - 1];
      } else if j >= 1 + |b| {
        assert all[j] == c[j - 1 - |b|];
      }
    }
  }

  lemma {:induction false} PreorderParents(items: Items, parent: int, base: nat)
    ensures ParentsWithin(Preorder(items, parent, base), parent, base)
    decreases Count(items)
  {
    match items
    case Nil =>
    case Cons(c, rest) =>
      PreorderParents(Below(c), base, base + 1);
      PreorderParents(rest, parent, base + 1 + Count(Below(c)));
      ParentsJoin(Node(DescOf(c), parent), Preorder(Below(c), base, base + 1), Preorder(rest, parent, base + 1 + Count(Below(c))), parent, base);
  }

  /** None of the entries `lo` to `hi` names `parent`. */
  ghost predicate Avoids(batch: seq<Node>, lo: nat, hi: nat, parent: int) {
    forall j :: lo <= j < hi <= |batch| ==> batch[j].parentInBatch != parent
  }

  /** Entries that do not name a parent add no part to it, ahead of the rest or behind it. */
  lemma {:induction false} PartsSkip(batch: seq<Node>, parent: int, lo: nat, mid: nat, hi: nat)
    requires lo <= mid <= hi <= |batch|
    ensures Avoids(batch, lo, mid, parent) ==> Parts(batch, parent, lo, hi) == Parts(batch, parent, mid, hi)
    ensures Avoids(batch, mid, hi, parent) ==> Parts(batch, parent, lo, hi) == Parts(batch, parent, lo, mid)
    decreases hi - lo
  {
    if lo < mid {
      PartsSkip(batch, parent, lo + 1, mid, hi);
    } else if mid < hi {
      PartsSkip(batch, parent, lo + 1, mid + 1, hi);
    }
  }

  /** Nothing from `from` on points into entries `lo` to `hi`. */
  ghost predicate Clear(batch: seq<Node>, from: nat, lo: nat, hi: nat) {
    forall j :: from <= j < |batch| ==> batch[j].parentInBatch < lo || batch[j].parentInBatch >= hi
  }

  /** The batch holds `nodes` from `base`, and nothing behind them points into them. */
  ghost predicate HoldsBlock(batch: seq<Node>, nodes: seq<Node>, base: nat) {
    base + |nodes| <= |batch| && batch[base..base + |nodes|] == nodes && Clear(batch, base + |nodes|, base, base + |nodes|)
  }

  lemma BlockPieces(batch: seq<Node>, base: nat, a: Node, b: seq<Node>, c: seq<Node>)
    requires base + 1 + |b| + |c| <= |batch|
    requires batch[base..base + 1 + |b| + |c|] == [a] + b + c
    ensures batch[base] == a && batch[base + 1..base + 1 + |b|] == b
    ensures batch[base + 1 + |b|..base + 1 + |b| + |c|] == c
  {
    var block := batch[base..base + 1 + |b| + |c|];
    forall j | 0 <= j < |b| ensures batch[base + 1 + j] == b[j] {
      assert block[1 + j] == ([a] + b + c)[1 + j];
    }
    forall j | 0 <= j < |c| ensures batch[base + 1 + |b| + j] == c[j] {
      assert block[1 + |b| + j] == ([a] + b + c)[1 + |b| + j];
    }
    assert block[0] == a;
  }

  lemma PointsWithin(batch: seq<Node>, nodes: seq<Node>, parent: int, base: nat)
    requires base + |nodes| <= |batch| && batch[base..base + |nodes|] == nodes && ParentsWithin(nodes, parent, base)
    ensures forall j :: base <= j < base + |nodes| ==> batch[j].parentInBatch == parent || batch[j].parentInBatch >= base
  {
    forall j | base <= j < base + |nodes| ensures batch[j].parentInBatch == parent || batch[j].parentInBatch >= base {
      assert batch[j] == batch[base..base + |nodes|][j - base] == nodes[j - base];
    }
  }

  /** A block is its first child, the block below it, and the block of the rest. */
  lemma BlockSplits(batch: seq<Node>, parent: int, base: nat, mid: nat, a: Node, b: seq<Node>, c: seq<Node>, block: seq<Node>)
    requires parent < base && mid == base + 1 + |b| && block == [a] + b + c && HoldsBlock(batch, block, base)
    requires ParentsWithin(b, base, base + 1) && ParentsWithin(c, parent, mid)
    ensures batch[base] == a
    ensures HoldsBlock(batch, b, base + 1) && HoldsBlock(batch, c, mid)
    ensures Avoids(batch, base + 1, mid, parent)
    ensures Avoids(batch, mid, |batch|, base)
  {
    BlockPieces(batch, base, a, b, c);
    PointsWithin(batch, b, base, base + 1);
    PointsWithin(batch, c, parent, mid);
  }

  /** The first entry's part, with all of its own, and then the parts behind its block. */
  lemma FirstPart(batch: seq<Node>, parent: int, base: nat, mid: nat, end: nat)
    requires parent < base < mid <= end <= |batch| && batch[base].parentInBatch == parent
    requires Avoids(batch, base + 1, mid, parent)
    requires Avoids(batch, mid, |batch|, base)
    ensures Parts(batch, parent, base, end)
            == [Art(batch[base].desc, Parts(batch, base, base + 1, mid))] + Parts(batch, parent, mid, end)
  {
    PartsSkip(batch, base, base + 1, mid, |batch|);
    PartsSkip(batch, parent, base + 1, mid, end);
  }

  lemma {:induction false} PreorderCons(c: Child, rest: Items, parent: int, base: nat, mid: nat)
    requires mid == base + 1 + Count(Below(c))
    ensures Count(Cons(c, rest)) == mid - base + Count(rest)
    ensures Preorder(Cons(c, rest), parent, base)
            == [Node(DescOf(c), parent)] + Preorder(Below(c), base, base + 1) + Preorder(rest, parent, mid)
  {
  }

  /** One step of the rebuild: the block splits, and nothing of one piece is mistaken for another's. */
  lemma {:induction false} BlockStep(batch: seq<Node>, c: Child, rest: Items, parent: int, base: nat, mid: nat)
    requires parent < base && mid == base + 1 + Count(Below(c)) && HoldsBlock(batch, Preorder(Cons(c, rest), parent, base), base)
    ensures HoldsBlock(batch, Preorder(Below(c), base, base + 1), base + 1)
    ensures HoldsBlock(batch, Preorder(rest, parent, mid), mid)
    ensures batch[base] == Node(DescOf(c), parent)
    ensures Avoids(batch, base + 1, mid, parent)
    ensures Avoids(batch, mid, |batch|, base)
  {
    var below, behind := Preorder(Below(c), base, base + 1), Preorder(rest, parent, mid);
    PreorderParents(Below(c), base, base + 1);
    PreorderParents(rest, parent, mid);
    PreorderCons(c, rest, parent, base, mid);
    BlockSplits(batch, parent, base, mid, Node(DescOf(c), parent), below, behind, Preorder(Cons(c, rest), parent, base));
  }

  lemma {:induction false} DrawnCons(c: Child, rest: Items)
    ensures Count(Cons(c, rest)) == 1 + Count(Below(c)) + Count(rest)
    ensures Drawn(Cons(c, rest)) == [Art(DescOf(c), Drawn(Below(c)))] + Drawn(rest)
  {
  }

  lemma {:induction false} NextPart(batch: seq<Node>, c: Child, rest: Items, parent: int, base: nat, mid: nat)
    requires parent < base && mid == base + 1 + Count(Below(c)) && mid + Count(rest) <= |batch|
    requires batch[base] == Node(DescOf(c), parent)
    requires Avoids(batch, base + 1, mid, parent)
    requires Avoids(batch, mid, |batch|, base)
    requires Parts(batch, base, base + 1, mid) == Drawn(Below(c)) && Parts(batch, parent, mid, mid + Count(rest)) == Drawn(rest)
    ensures Parts(batch, parent, base, mid + Count(rest)) == Drawn(Cons(c, rest))
  {
    FirstPart(batch, parent, base, mid, mid + Count(rest));
    DrawnCons(c, rest);
  }

  /** Rebuilding a block gives the list it came from. */
  lemma {:induction false} BlockRebuilds(batch: seq<Node>, items: Items, parent: int, base: nat)
    requires parent < base && HoldsBlock(batch, Preorder(items, parent, base), base)
    ensures Parts(batch, parent, base, base + Count(items)) == Drawn(items)
    decreases Count(items)
  {
    match items
    case Nil =>
    case Cons(c, rest) =>
      var mid := base + 1 + Count(Below(c));
      BlockStep(batch, c, rest, parent, base, mid);
      BlockRebuilds(batch, Below(c), base, base + 1);
      BlockRebuilds(batch, rest, parent, mid);
      NextPart(batch, c, rest, parent, base, mid);
  }

  function Batch(items: Items): seq<Node> {
    [Node(RootGroup, -1)] + Preorder(items, 0, 1)
  }

  /** The round trip: the flattened batch rebuilds to exactly the tree drawn. */
  lemma FlattenRebuilds(items: Items)
    ensures Rebuilt(Batch(items)) == Art(RootGroup, Drawn(items))
  {
    var batch := Batch(items);
    assert batch[1..1 + Count(items)] == Preorder(items, 0, 1);
    BlockRebuilds(batch, items, 0, 1);
  }

  /** Root first, and every other entry names an earlier one. */
  lemma ParentsComeFirst(items: Items)
    ensures forall j :: 0 < j < |Batch(items)| ==> 0 <= Batch(items)[j].parentInBatch < j
  {
    PreorderParents(items, 0, 1);
    forall j | 0 < j < |Batch(items)| ensures 0 <= Batch(items)[j].parentInBatch < j {
      assert Batch(items)[j] == Preorder(items, 0, 1)[j - 1];
    }
  }

  // ---------------------------------------------------------------------------------------------
  // The flattener

  lemma {:induction false} CountAtLeastLength(items: Items)
    ensures Count(items) >= Length(items)
  {
    match items
    case Nil =>
    case Cons(_, rest) => CountAtLeastLength(rest);
  }

  /** Appending a child and its block leaves the rest of the list to append behind them. */
  lemma {:induction false} AppendChild(before: seq<Node>, after: seq<Node>, c: Child, rest: Items, parent: int)
    requires after == before + [Node(DescOf(c), parent)] + Preorder(Below(c), |before|, |before| + 1)
    ensures |after| == |before| + 1 + Count(Below(c))
    ensures before + Preorder(Cons(c, rest), parent, |before|) == after + Preorder(rest, parent, |after|)
  {
    var below, behind := Preorder(Below(c), |before|, |before| + 1), Preorder(rest, parent, |after|);
    assert |after| == |before| + 1 + |below|;
    PreorderCons(c, rest, parent, |before|, |after|);
    Regroup(before, [Node(DescOf(c), parent)], below, behind, after, Preorder(Cons(c, rest), parent, |before|));
  }

  lemma Regroup(a: seq<Node>, b: seq<Node>, c: seq<Node>, d: seq<Node>, front: seq<Node>, back: seq<Node>)
    requires front == a + b + c && back == b + c + d
    ensures a + back == front + d
  {
  }

  class Flattener {
    var batch: seq<Node>

    constructor ()
      ensures batch == [Node(RootGroup, -1)]
    {
      batch := [Node(RootGroup, -1)];
    }

    /**
     * `pushChildren`: one level appended under `parent`, each group recursed into. It refuses exactly the lists
     * that are unsound or would carry the batch past its bound, however early it notices.
     */
    method PushChildren(cs: Children, parent: int, depth: nat) returns (ok: bool)
      requires |batch| <= MAX_VISUAL_NODES
      modifies this
      ensures ok <==> Sound(cs, depth) && old(|batch|) + CountAll(cs) <= MAX_VISUAL_NODES
      ensures ok ==> batch == old(batch) + Preorder(if cs.List? then cs.items else Nil, parent, old(|batch|))
      decreases CountAll(cs), 1
    {
      if cs.Absent? {
        return true;
      }
      if depth > MAX_TEMPLATE_DEPTH || cs.NotAList? {
        return false;
      }
      CountAtLeastLength(cs.items);
      if Length(cs.items) > MAX_WIRE_ITEMS || |batch| + Length(cs.items) > MAX_VISUAL_NODES {
        return false;
      }
      var rest := cs.items;
      ghost var whole := batch + Preorder(rest, parent, |batch|);
      while rest.Cons?
        invariant |batch| <= MAX_VISUAL_NODES && Count(rest) <= CountAll(cs)
        invariant AllSound(cs.items, depth) <==> AllSound(rest, depth)
        invariant |batch| + Count(rest) == old(|batch|) + CountAll(cs)
        invariant batch + Preorder(rest, parent, |batch|) == whole
        decreases rest
      {
        ghost var before := batch;
        ok := PushChild(rest.first, parent, depth);
        if !ok {
          return;
        }
        AppendChild(before, batch, rest.first, rest.rest, parent);
        rest := rest.rest;
      }
      ok := true;
    }

    /** One turn of the loop: the node itself, then its own children. */
    method PushChild(c: Child, parent: int, depth: nat) returns (ok: bool)
      requires |batch| <= MAX_VISUAL_NODES
      modifies this
      ensures ok <==> ChildSound(c, depth) && old(|batch|) + 1 + Count(Below(c)) <= MAX_VISUAL_NODES
      ensures ok ==> batch == old(batch) + [Node(DescOf(c), parent)] + Preorder(Below(c), old(|batch|), old(|batch|) + 1)
      decreases Count(Below(c)), 2
    {
      if |batch| >= MAX_VISUAL_NODES {
        return false;
      }
      var desc := ChildDesc(c);
      if desc.None? {
        return false;
      }
      var at := |batch|;
      batch := batch + [Node(desc.value, parent)];
      ok := true;
      if c.Group? {
        ok := PushChildren(c.children, at, depth + 1);
      }
    }
  }

  /** `flattenGroup`: accepted exactly when sound and within the node bound, and then the whole preorder. */
  method FlattenGroup(children: Children) returns (batch: Option<seq<Node>>)
    ensures batch.Some? <==> SoundEverywhere(children, 1) && 1 + CountAll(children) <= 64
    ensures batch.Some? ==> batch.value == Batch(if children.List? then children.items else Nil)
  {
    SoundIffEverywhere(children, 1);
    var flattener := new Flattener();
    var ok := flattener.PushChildren(children, 0, 1);
    batch := if ok then Some(flattener.batch) else None;
  }
}
