/**
 * The envelopes a server sends: a newborn gets its parent by a reparent that follows its spawn, before anything
 * hangs from it. Such envelopes are smooth, and a template's group is one.
 */
module Placing {
  import opened Wrappers
  import opened Forests
  import opened Hierarchies
  import opened Envelopes
  import opened Reconciling
  import opened Deliveries

  // ---------------------------------------------------------------------------------------------
  // Newborns are placed before they are used

  /** A reported move put something under `x`. */
  ghost predicate Named(moves: seq<Move>, x: nat) {
    exists i :: 0 <= i < |moves| && moves[i].above == Some(x)
  }

  ghost predicate HasChild(links: map<nat, nat>, x: nat) {
    exists e :: e in links && links[e] == x
  }

  /** The first move of a newborn finds nothing under it, now or earlier by a move. */
  ghost predicate Places(p: Pass, op: WireOp) {
    ReportOf(p.world, op).Some? ==>
      var x := ReportOf(p.world, op).value.local;
      x in p.added && !Moved(p.moves, x) ==> !Named(p.moves, x) && !HasChild(p.world.parent, x)
  }

  ghost predicate PlacingOps(w: World, ops: seq<WireOp>) {
    ops != [] ==>
      var init := ops[..|ops| - 1];
      PlacingOps(w, init) && Places(PassAll(w, init), ops[|ops| - 1])
  }

  lemma NamedLater(moves: seq<Move>, more: seq<Move>, x: nat)
    requires moves <= more && Named(moves, x)
    ensures Named(more, x)
  {
    var i :| 0 <= i < |moves| && moves[i].above == Some(x);
    assert more[i].above == Some(x);
  }

  lemma NamedLast(moves: seq<Move>, m: Move, x: nat)
    requires m.above == Some(x)
    ensures Named(moves + [m], x)
  {
    assert (moves + [m])[|moves|].above == Some(x);
  }

  // ---------------------------------------------------------------------------------------------
  // How something comes to hang from a newborn

  /** By a move that named it, or by a birth under it and no move since. */
  ghost predicate HungSo(p: Pass, e: nat) {
    e in p.world.parent && p.world.parent[e] in p.added ==>
      Named(p.moves, p.world.parent[e]) || (e in p.added && !Moved(p.moves, e))
  }

  ghost predicate Origin(p: Pass) {
    forall e :: e in p.world.parent ==> HungSo(p, e)
  }

  lemma SpawnKeepsOrigin(start: World, p: Pass, net: int, local: nat, parent: Option<int>)
    requires Midway(start, p) && Origin(p) && local !in p.world.minted
    ensures Origin(Applied(p, WireSpawn(net, local, parent)))
  {
    var q := Applied(p, WireSpawn(net, local, parent));
    StrangerUnmoved(start, p, local);
    forall e | e in q.world.parent ensures HungSo(q, e) {
      if e != local {
        assert HungSo(p, e);
      }
    }
  }

  lemma ReparentKeepsOrigin(start: World, p: Pass, op: WireOp)
    requires Midway(start, p) && Origin(p) && op.WireReparent? && Tidy(start, p, op)
    ensures Origin(Applied(p, op))
  {
    var q := Applied(p, op);
    ReportIsMove(p, op);
    if ReportOf(p.world, op).Some? {
      var m := ReportOf(p.world, op).value;
      MovedLinks(start, p, op.net, op.parent, m.local, q.world.parent);
      forall e | e in q.world.parent ensures HungSo(q, e) {
        MoveKeepsOrigin(p, q, m, e);
      }
    }
  }

  lemma MoveKeepsOrigin(p: Pass, q: Pass, m: Move, e: nat)
    requires Origin(p) && q.added == p.added && q.moves == p.moves + [m] && e in q.world.parent
    requires e != m.local ==> SameAt(p.world.parent, q.world.parent, e)
    requires e == m.local ==> Some(q.world.parent[e]) == m.above
    ensures HungSo(q, e)
  {
    if e == m.local {
      NamedLast(p.moves, m, q.world.parent[e]);
    } else {
      assert HungSo(p, e);
      MovedNext(p.moves, m, e);
      if Named(p.moves, q.world.parent[e]) {
        NamedLater(p.moves, q.moves, q.world.parent[e]);
      }
    }
  }

  lemma {:induction false} OriginAll(w: World, ops: seq<WireOp>)
    requires Settled(w) && TidyOps(w, ops)
    ensures Origin(PassAll(w, ops))
    decreases |ops|
  {
    if ops != [] {
      var init, op := ops[..|ops| - 1], ops[|ops| - 1];
      OriginAll(w, init);
      MidwayAll(w, init);
      match op
      case WireSpawn(net, local, parent) => SpawnKeepsOrigin(w, PassAll(w, init), net, local, parent);
      case WireDestroy(net) => DestroyKeepsOrigin(PassAll(w, init), net);
      case WireReparent(_, _) => ReparentKeepsOrigin(w, PassAll(w, init), op);
    }
  }

  lemma DestroyKeepsOrigin(p: Pass, net: int)
    requires Origin(p)
    ensures Origin(Applied(p, WireDestroy(net)))
  {
    var q := Applied(p, WireDestroy(net));
    forall e | e in q.world.parent ensures HungSo(q, e) {
      assert HungSo(p, e);
    }
  }

  // ---------------------------------------------------------------------------------------------
  // Newborns still to be placed

  /** Born, not moved yet, and moved by the end. */
  ghost predicate Pending(p: Pass, final: Pass, x: nat) {
    x in p.added && !Moved(p.moves, x) && Moved(final.moves, x)
  }

  /** The op of its first move. */
  lemma {:induction false} FirstMove(w: World, ops: seq<WireOp>, k: nat, x: nat) returns (j: nat)
    requires Settled(w) && TidyOps(w, ops) && k <= |ops| && Pending(PassAll(w, ops[..k]), PassAll(w, ops), x)
    ensures k <= j < |ops| && x in PassAll(w, ops[..j]).added && !Moved(PassAll(w, ops[..j]).moves, x)
    ensures var report := ReportOf(PassAll(w, ops[..j]).world, ops[j]);
            report.Some? && report.value.local == x
    decreases |ops| - k
  {
    assert ops[..|ops|] == ops;
    var p := PassAll(w, ops[..k]);
    PassNext(w, ops, k + 1);
    ReportIsMove(p, ops[k]);
    if ReportOf(p.world, ops[k]).Some? && ReportOf(p.world, ops[k]).value.local == x {
      j := k;
    } else {
      if ReportOf(p.world, ops[k]).Some? {
        MovedNext(p.moves, ReportOf(p.world, ops[k]).value, x);
      }
      LaterBetween(w, ops, k, k + 1);
      j := FirstMove(w, ops, k + 1, x);
    }
  }

  lemma {:induction false} LaterBetween(w: World, ops: seq<WireOp>, j: nat, k: nat)
    requires Settled(w) && TidyOps(w, ops) && j <= k <= |ops|
    ensures Later(PassAll(w, ops[..j]), PassAll(w, ops[..k])) && TidyOps(w, ops[..k])
  {
    LaterAll(w, ops, k);
    assert ops[..k][..j] == ops[..j];
    LaterAll(w, ops[..k], j);
  }

  lemma {:induction false} PlacesAt(w: World, ops: seq<WireOp>, j: nat)
    requires PlacingOps(w, ops) && j < |ops|
    ensures Places(PassAll(w, ops[..j]), ops[j])
    decreases |ops|
  {
    if j < |ops| - 1 {
      var init := ops[..|ops| - 1];
      assert init[..j] == ops[..j];
      PlacesAt(w, init, j);
    }
  }

  /** At its first move a newborn has never been named and has nothing under it. */
  lemma FirstMovePlaces(w: World, ops: seq<WireOp>, k: nat, x: nat) returns (j: nat, q: Pass)
    requires Settled(w) && TidyOps(w, ops) && PlacingOps(w, ops) && k <= |ops| && Pending(PassAll(w, ops[..k]), PassAll(w, ops), x)
    ensures k <= j < |ops| && q == PassAll(w, ops[..j]) && Later(PassAll(w, ops[..k]), q) && Later(q, PassAll(w, ops))
    ensures !Named(q.moves, x) && !HasChild(q.world.parent, x)
    ensures ReportOf(q.world, ops[j]).Some? && ReportOf(q.world, ops[j]).value.local == x
  {
    j := FirstMove(w, ops, k, x);
    q := PassAll(w, ops[..j]);
    PlacesAt(w, ops, j);
    LaterBetween(w, ops, k, j);
    LaterAll(w, ops, j);
  }

  /** What hangs from a newborn that is still to be placed is itself still to be placed. */
  lemma PendingAbove(w: World, ops: seq<WireOp>, k: nat, p: Pass, e: nat)
    requires Settled(w) && TidyOps(w, ops) && PlacingOps(w, ops) && k <= |ops| && p == PassAll(w, ops[..k])
    requires e in p.world.parent && Pending(p, PassAll(w, ops), p.world.parent[e])
    ensures Pending(p, PassAll(w, ops), e)
  {
    var x := p.world.parent[e];
    var j, q := FirstMovePlaces(w, ops, k, x);
    LaterAll(w, ops, k);
    OriginAll(w, ops[..k]);
    assert HungSo(p, e);
    if Named(p.moves, x) {
      NamedLater(p.moves, q.moves, x);
    }
    if !Moved(PassAll(w, ops).moves, e) {
      StaysUnder(p, q, PassAll(w, ops), e);
    }
  }

  lemma StaysUnder(p: Pass, q: Pass, final: Pass, e: nat)
    requires Later(p, q) && Later(q, final) && !Moved(final.moves, e) && e in p.added && e in p.world.parent
    ensures HasChild(q.world.parent, p.world.parent[e])
  {
    if Moved(q.moves, e) {
      MovedLater(q.moves, final.moves, e);
    }
    assert SameAt(p.world.parent, q.world.parent, e);
  }

  /** The parent a tidy move names is in its place already. */
  lemma AboveIsPlaced(w: World, ops: seq<WireOp>, k: nat, p: Pass, m: Move)
    requires Settled(w) && TidyOps(w, ops) && PlacingOps(w, ops) && k < |ops| && p == PassAll(w, ops[..k])
    requires ReportOf(p.world, ops[k]) == Some(m) && m.above.Some? && m.above != Some(m.local)
    ensures !Pending(p, PassAll(w, ops), m.above.value)
  {
    if Pending(p, PassAll(w, ops), m.above.value) {
      var j, q := FirstMovePlaces(w, ops, k, m.above.value);
      assert j != k;
      PassNext(w, ops, k + 1);
      ReportIsMove(p, ops[k]);
      NamedLast(p.moves, m, m.above.value);
      LaterBetween(w, ops, k + 1, j);
      NamedLater(PassAll(w, ops[..k + 1]).moves, q.moves, m.above.value);
    }
  }

  // ---------------------------------------------------------------------------------------------
  // Nothing is refused

  /** Among those in their places the replay's links are the world's. */
  lemma PlacedLinks(w: World, ops: seq<WireOp>, k: nat, p: Pass, made: map<nat, nat>, drawn: map<nat, nat>, e: nat)
    requires Settled(w) && TidyOps(w, ops) && k <= |ops| && p == PassAll(w, ops[..k])
    requires made == LinksMade(w, Drained(PassAll(w, ops)), PassAll(w, ops).added)
    requires HangNow(w, PassAll(w, ops).added, made, p.moves, p.world.parent, drawn)
    requires e in p.world.records && !Pending(p, PassAll(w, ops), e) && e in drawn
    ensures e in p.world.parent && p.world.parent[e] == drawn[e]
  {
    var final := PassAll(w, ops);
    LaterAll(w, ops, k);
    MidwayAll(w, ops[..k]);
    if e in w.records {
      assert SameAt(drawn, p.world.parent, e);
    } else {
      var i :| 0 <= i < |p.added| && p.added[i] == e;
      assert final.added[i] == e;
      if Moved(p.moves, e) {
        assert SameAt(drawn, p.world.parent, e);
      } else {
        assert SameAt(drawn, made, e) && SameAt(p.world.parent, final.world.parent, e);
        MidwayAll(w, ops);
        LinksMadeAt(w, Drained(final), final.added, i);
      }
    }
  }

  ghost predicate InPlace(p: Pass, final: Pass, e: nat) {
    e in p.world.records && !Pending(p, final, e)
  }

  /** A climb from something in its place is the same on both sides. */
  lemma PlacedClimbs(w: World, ops: seq<WireOp>, k: nat, p: Pass, made: map<nat, nat>, drawn: map<nat, nat>, x: nat, root: nat)
    requires Settled(w) && TidyOps(w, ops) && PlacingOps(w, ops) && k <= |ops| && p == PassAll(w, ops[..k])
    requires made == LinksMade(w, Drained(PassAll(w, ops)), PassAll(w, ops).added)
    requires HangNow(w, PassAll(w, ops).added, made, p.moves, p.world.parent, drawn)
    requires InPlace(p, PassAll(w, ops), x) && Below(drawn, x, root)
    ensures Below(p.world.parent, x, root)
  {
    var final := PassAll(w, ops);
    var on := set e | e in p.world.records && InPlace(p, final, e);
    LaterAll(w, ops, k);
    MidwayAll(w, ops[..k]);
    forall y | y in on && y in drawn ensures y in p.world.parent && p.world.parent[y] == drawn[y] && drawn[y] in on {
      PlacedLinks(w, ops, k, p, made, drawn, y);
      if Pending(p, final, drawn[y]) {
        PendingAbove(w, ops, k, p, y);
      }
    }
    var n: nat :| Up(drawn, x, n) == Some(root);
    UpOn(p.world.parent, drawn, on, x, n);
  }

  /** A tidy reparent puts nothing under itself or what is below it. */
  lemma TidyReport(start: World, p: Pass, op: WireOp, m: Move)
    requires Midway(start, p) && Tidy(start, p, op) && ReportOf(p.world, op) == Some(m) && m.above.Some? && m.local in p.world.records
    ensures m.above.value in p.world.alive ==> m.above != Some(m.local) && !Below(p.world.parent, m.above.value, m.local)
    ensures m.above.value !in p.world.alive ==> m.above.value !in p.world.records && m.above.value in p.world.minted
  {
    BelowSelf(p.world.parent, m.local);
  }

  lemma NotRefused(w: World, ops: seq<WireOp>, k: nat, p: Pass, made: map<nat, nat>, drawn: map<nat, nat>, m: Move)
    requires Settled(w) && TidyOps(w, ops) && PlacingOps(w, ops) && k < |ops| && p == PassAll(w, ops[..k])
    requires made == LinksMade(w, Drained(PassAll(w, ops)), PassAll(w, ops).added)
    requires HangNow(w, PassAll(w, ops).added, made, p.moves, p.world.parent, drawn)
    requires ReportOf(p.world, ops[k]) == Some(m)
    ensures !Refused(drawn, AllOf(w, PassAll(w, ops).added), m)
  {
    var final := PassAll(w, ops);
    LaterBetween(w, ops, k, k + 1);
    PassNext(w, ops, k + 1);
    LaterAll(w, ops, k);
    MidwayAll(w, ops[..k]);
    if m.local !in p.world.records {
      UnrecordedIsUndrawn(w, final, p, m.local);
    } else if m.above.Some? {
      TidyReport(w, p, ops[k], m);
      if m.above.value in p.world.alive {
        AboveIsPlaced(w, ops, k, p, m);
        if Below(drawn, m.above.value, m.local) {
          PlacedClimbs(w, ops, k, p, made, drawn, m.above.value, m.local);
        }
      } else {
        UnrecordedIsUndrawn(w, final, p, m.above.value);
      }
    }
  }

  lemma {:induction false} PlacedSoFar(w: World, ops: seq<WireOp>, made: Bridge, added: seq<nat>, k: nat) returns (p: Pass)
    requires Settled(w) && TidyOps(w, ops) && PlacingOps(w, ops) && k <= |ops| && added == PassAll(w, ops).added
    requires Replayed(w, added, made, [], w.parent, made) && AllDrawn(w, added, made)
    requires made.parentOf == LinksMade(w, Drained(PassAll(w, ops)), added)
    ensures p == PassAll(w, ops[..k]) && Unrefused(made.parentOf, AllOf(w, added), p.moves)
    decreases k
  {
    if k == 0 {
      assert ops[..0] == [];
      NothingThrown(w, made, AllOf(w, added));
      p := PassAll(w, []);
    } else {
      var before := PlacedSoFar(w, ops, made, added, k - 1);
      ReplayedUnlessRefused(w, ops, made, added, k - 1, before);
      PlacedNext(w, ops, k - 1, added, made.parentOf, MovedAll(made, before.moves).parentOf, before);
      PassNext(w, ops, k);
      p := Applied(before, ops[k - 1]);
    }
  }

  lemma PlacedNext(w: World, ops: seq<WireOp>, k: nat, added: seq<nat>, made: map<nat, nat>, drawn: map<nat, nat>, p: Pass)
    requires Settled(w) && TidyOps(w, ops) && PlacingOps(w, ops) && k < |ops| && p == PassAll(w, ops[..k]) && added == PassAll(w, ops).added
    requires made == LinksMade(w, Drained(PassAll(w, ops)), added) && Unrefused(made, AllOf(w, added), p.moves)
    requires HangNow(w, added, made, p.moves, p.world.parent, drawn) && drawn == LinksMoved(made, AllOf(w, added), p.moves)
    ensures Unrefused(made, AllOf(w, added), Applied(p, ops[k]).moves)
  {
    ReportIsMove(p, ops[k]);
    if ReportOf(p.world, ops[k]).Some? {
      var m := ReportOf(p.world, ops[k]).value;
      NotRefused(w, ops, k, p, made, drawn, m);
      UnrefusedLast(made, AllOf(w, added), p.moves, m);
    }
  }

  /** A bridge that draws each entity by a node of the same number. */
  ghost function DrawnAs(w: World): Bridge {
    Bridge(map e | e in w.records :: e, w.parent, Scene(w.records, w.records, w.parent))
  }

  lemma DrawnIsWhole(w: World)
    requires Settled(w)
    ensures Whole(DrawnAs(w)) && InStep(w, DrawnAs(w))
  {
  }

  lemma OwnNodes(w: World, p: Pass)
    requires Settled(w) && Midway(w, p)
    ensures FreshNodes(DrawnAs(w), p.added, |p.added|)
  {
    forall i | 0 <= i < |p.added| ensures p.added[i] !in w.records {
      assert p.added[i] in p.added;
    }
  }

  /** With newborns placed before they are used, the replay refuses nothing. */
  lemma PlacedIsSmooth(w: World, ops: seq<WireOp>)
    requires Settled(w) && TidyOps(w, ops) && PlacingOps(w, ops)
    ensures Smooth(w, ops)
  {
    var final := PassAll(w, ops);
    MidwayAll(w, ops);
    DrawnIsWhole(w);
    OwnNodes(w, final);
    var made := Ready(w, DrawnAs(w), ops, final.added);
    var p := PlacedSoFar(w, ops, made, final.added, |ops|);
    assert ops[..|ops|] == ops;
  }

  /** Such an envelope, tidy as a whole, leaves session and screen as they should be. */
  lemma PlacedFollows(s: Session, d: Delivery)
    requires Faithful(s) && Fits(s, d) && TidyEnvelope(s.world, d.ops) && PlacingOps(s.world, d.ops)
    ensures !Ends(s, d) && Faithful(Deliver(s, d))
  {
    PlacedIsSmooth(s.world, d.ops);
    EnvelopeFollowsIff(s, d);
  }

  ghost predicate PlacingRun(s: Session, ds: seq<Delivery>)
    requires TidyRun(s, ds)
    decreases |ds|
  {
    ds != [] ==> PlacingOps(s.world, ds[0].ops) && PlacingRun(Deliver(s, ds[0]), ds[1..])
  }

  /** Over every run of them no envelope ends the session, and the screen stays the world. */
  lemma {:induction false} PlacedRunFollows(s: Session, ds: seq<Delivery>)
    requires Faithful(s) && TidyRun(s, ds) && PlacingRun(s, ds)
    ensures Unbroken(s, ds) && Faithful(DeliverAll(s, ds))
    decreases |ds|
  {
    if ds != [] {
      PlacedFollows(s, ds[0]);
      PlacedRunFollows(Deliver(s, ds[0]), ds[1..]);
    }
  }

  // ---------------------------------------------------------------------------------------------
  // A template's group

  lemma {:induction false} OpsLast(w: World, ops: seq<WireOp>, op: WireOp)
    ensures PassAll(w, ops + [op]) == Applied(PassAll(w, ops), op)
    ensures TidyOps(w, ops + [op]) <==> TidyOps(w, ops) && Tidy(w, PassAll(w, ops), op)
    ensures PlacingOps(w, ops + [op]) <==> PlacingOps(w, ops) && Places(PassAll(w, ops), op)
  {
    assert (ops + [op])[..|ops|] == ops;
  }

  /** The world with a newborn in it that hangs nowhere. */
  function Born(w: World, net: int, local: nat): World {
    World(w.toLocal[net := local], w.minted + {local}, w.records + {local}, w.alive + {local}, w.parent)
  }

  lemma NothingBelow(w: World, local: nat, x: nat)
    requires Sound(w) && local !in w.records && x in w.records
    ensures !Below(w.parent, x, local)
  {
    if Below(w.parent, x, local) {
      var k: nat :| Up(w.parent, x, k) == Some(local);
      RecordsAbove(w, x, k);
    }
  }

  /** Just born, an entity can be hung from anything living. */
  lemma HangNewborn(start: World, p: Pass, net: int, local: nat, parent: int, above: nat) returns (born: Pass, hung: Pass)
    requires Midway(start, p) && local !in p.world.minted && parent != net
    requires Resolved(p.world, parent) == Some(above) && above in p.world.alive
    ensures born == Applied(p, WireSpawn(net, local, None)) && hung == Applied(born, WireReparent(net, Some(parent)))
    ensures Tidy(start, p, WireSpawn(net, local, None)) && Places(p, WireSpawn(net, local, None))
    ensures Tidy(start, born, WireReparent(net, Some(parent))) && Places(born, WireReparent(net, Some(parent)))
    ensures hung.world == Born(p.world, net, local).(parent := p.world.parent[local := above]) && hung.removed == p.removed && hung.unmap == p.unmap
  {
    born := Applied(p, WireSpawn(net, local, None));
    hung := Applied(born, WireReparent(net, Some(parent)));
    NothingBelow(p.world, local, above);
    NeverNamed(start, p, local);
    assert born.world == Born(p.world, net, local);
  }

  lemma NeverNamed(start: World, p: Pass, local: nat)
    requires Midway(start, p) && local !in p.world.minted
    ensures !Named(p.moves, local) && !HasChild(p.world.parent, local)
  {
    forall i | 0 <= i < |p.moves| ensures p.moves[i].above != Some(local) {
      assert p.moves[i] in p.moves;
    }
  }

  /** One node of a template: the netId of the node it hangs from, none for the group's root. */
  datatype Part = Part(net: int, local: nat, under: Option<int>)

  ghost predicate NamesEarlier(parts: seq<Part>, net: int) {
    exists i :: 0 <= i < |parts| && parts[i].net == net
  }

  /** Every node but a root hangs from one instantiated before it, and each is minted once. */
  ghost predicate Group(parts: seq<Part>) {
    && (forall i :: 0 <= i < |parts| && parts[i].under.Some? ==> NamesEarlier(parts[..i], parts[i].under.value))
    && (forall i, j :: 0 <= i < j < |parts| ==> parts[i].net != parts[j].net && parts[i].local != parts[j].local)
  }

  /** As journaled: spawn by spawn, each with its reparent behind it. */
  function GroupOps(parts: seq<Part>): seq<WireOp> {
    if parts == [] then []
    else
      var part := parts[|parts| - 1];
      GroupOps(parts[..|parts| - 1]) + [WireSpawn(part.net, part.local, None)]
      + if part.under.Some? then [WireReparent(part.net, part.under)] else []
  }

  /** The group is alive and hangs as its template says. */
  ghost predicate Stands(w: World, part: Part) {
    && Resolved(w, part.net) == Some(part.local) && part.local in w.alive
    && if part.under.None? then part.local !in w.parent
       else Resolved(w, part.under.value).Some? && ParentAt(w, part.local) == Resolved(w, part.under.value)
  }

  ghost predicate AllStand(w: World, parts: seq<Part>) {
    forall i :: 0 <= i < |parts| ==> Stands(w, parts[i])
  }

  ghost predicate Unminted(w: World, parts: seq<Part>) {
    forall i :: 0 <= i < |parts| ==> parts[i].local !in w.minted
  }

  function Locals(parts: seq<Part>): set<nat> {
    set i | 0 <= i < |parts| :: parts[i].local
  }

  /** What a group comes to behind the ops ahead of it. */
  ghost predicate Grouped(w: World, ahead: Pass, all: seq<WireOp>, parts: seq<Part>, p: Pass) {
    && TidyOps(w, all) && PlacingOps(w, all) && p == PassAll(w, all) && AllStand(p.world, parts)
    && p.removed == ahead.removed && p.unmap == ahead.unmap && p.world.minted == ahead.world.minted + Locals(parts)
  }

  lemma LocalsNext(init: seq<Part>, part: Part, parts: seq<Part>)
    requires parts == init + [part]
    ensures Locals(parts) == Locals(init) + {part.local}
  {
    forall x | x in Locals(init) + {part.local} ensures x in Locals(parts) {
      if x in Locals(init) {
        var i :| 0 <= i < |init| && init[i].local == x;
        assert parts[i].local == x;
      } else {
        assert parts[|init|].local == x;
      }
    }
  }

  /** The last node of a group, and the node it hangs from. */
  lemma GroupLast(parts: seq<Part>, init: seq<Part>, part: Part)
    requires Group(parts) && parts == init + [part]
    ensures Group(init) && (part.under.Some? ==> NamesEarlier(init, part.under.value) && part.under.value != part.net)
    ensures forall i :: 0 <= i < |init| ==> init[i].net != part.net && init[i].local != part.local
    ensures forall i :: 0 <= i < |init| && init[i].under.Some? ==> init[i].under.value != part.net
  {
    assert parts[..|init|] == init && parts[|init|] == part;
    forall i | 0 <= i < |init| ensures init[i] == parts[i] && init[..i] == parts[..i] {
    }
  }

  lemma StandsStill(w: World, after: World, links: map<nat, nat>, net: int, local: nat, part: Part)
    requires Sound(w) && local !in w.minted && after == Born(w, net, local).(parent := links) && (forall e :: e != local ==> SameAt(w.parent, links, e))
    requires Stands(w, part) && part.net != net && part.under != Some(net)
    ensures Stands(after, part)
  {
    assert part.local != local;
    assert SameAt(w.parent, links, part.local);
  }

  lemma StandNext(w: World, after: World, links: map<nat, nat>, init: seq<Part>, part: Part, parts: seq<Part>)
    requires Sound(w) && part.local !in w.minted && after == Born(w, part.net, part.local).(parent := links)
    requires Group(parts) && parts == init + [part] && AllStand(w, init)
    requires if part.under.None? then links == w.parent
             else Resolved(w, part.under.value).Some? && links == w.parent[part.local := Resolved(w, part.under.value).value]
    ensures AllStand(after, parts)
  {
    GroupLast(parts, init, part);
    forall i | 0 <= i < |parts| ensures Stands(after, parts[i]) {
      if i < |init| {
        assert Stands(w, init[i]);
        StandsStill(w, after, links, part.net, part.local, init[i]);
      }
    }
  }

  lemma GroupOpsNext(ops: seq<WireOp>, init: seq<Part>, part: Part, parts: seq<Part>)
    requires parts == init + [part]
    ensures var born := ops + GroupOps(init) + [WireSpawn(part.net, part.local, None)];
            ops + GroupOps(parts) == if part.under.Some? then born + [WireReparent(part.net, part.under)] else born
  {
    assert parts[..|parts| - 1] == init;
  }

  lemma SpawnRoot(start: World, p: Pass, net: int, local: nat)
    requires Midway(start, p) && local !in p.world.minted
    ensures var op := WireSpawn(net, local, None);
            && Tidy(start, p, op) && Places(p, op) && Applied(p, op).world == Born(p.world, net, local)
            && Applied(p, op).removed == p.removed && Applied(p, op).unmap == p.unmap
  {
  }

  lemma AboveStands(w: World, init: seq<Part>, net: int) returns (above: nat)
    requires AllStand(w, init) && NamesEarlier(init, net)
    ensures Resolved(w, net) == Some(above) && above in w.alive
  {
    var i :| 0 <= i < |init| && init[i].net == net;
    assert Stands(w, init[i]);
    above := init[i].local;
  }

  /** One more node. */
  lemma GroupNext(w: World, ahead: Pass, before: seq<WireOp>, init: seq<Part>, part: Part, parts: seq<Part>, all: seq<WireOp>, p: Pass) returns (q: Pass)
    requires Settled(w) && Grouped(w, ahead, before, init, p) && Group(parts) && parts == init + [part] && part.local !in p.world.minted
    requires var born := before + [WireSpawn(part.net, part.local, None)];
             all == if part.under.Some? then born + [WireReparent(part.net, part.under)] else born
    ensures Grouped(w, ahead, all, parts, q)
  {
    MidwayAll(w, before);
    GroupLast(parts, init, part);
    LocalsNext(init, part, parts);
    var spawn := WireSpawn(part.net, part.local, None);
    OpsLast(w, before, spawn);
    if part.under.None? {
      SpawnRoot(w, p, part.net, part.local);
      q := Applied(p, spawn);
      StandNext(p.world, q.world, p.world.parent, init, part, parts);
    } else {
      var above := AboveStands(p.world, init, part.under.value);
      var born, hung := HangNewborn(w, p, part.net, part.local, part.under.value, above);
      OpsLast(w, before + [spawn], WireReparent(part.net, part.under));
      q := hung;
      StandNext(p.world, q.world, p.world.parent[part.local := above], init, part, parts);
    }
  }

  /** Behind any tidy ops, a template's group of any size is tidy, is placed as it is born, and hangs as it should. */
  lemma {:induction false} GroupIsPlaced(w: World, ops: seq<WireOp>, parts: seq<Part>)
    requires Settled(w) && TidyOps(w, ops) && PlacingOps(w, ops) && Group(parts) && Unminted(PassAll(w, ops).world, parts)
    ensures Grouped(w, PassAll(w, ops), ops + GroupOps(parts), parts, PassAll(w, ops + GroupOps(parts)))
    decreases |parts|
  {
    if parts == [] {
      assert ops + GroupOps([]) == ops;
    } else {
      var init, part := parts[..|parts| - 1], parts[|parts| - 1];
      assert parts == init + [part];
      GroupLast(parts, init, part);
      GroupIsPlaced(w, ops, init);
      GroupOpsNext(ops, init, part, parts);
      var p := PassAll(w, ops + GroupOps(init));
      assert part.local !in Locals(init);
      var q := GroupNext(w, PassAll(w, ops), ops + GroupOps(init), init, part, parts, ops + GroupOps(parts), p);
    }
  }

  /** An instantiated template, as an envelope of its own, is drawn whole. */
  lemma GroupIsDrawn(s: Session, parts: seq<Part>, nodes: seq<nat>)
    requires Faithful(s) && Group(parts) && Unminted(s.world, parts) && Fits(s, Delivery(GroupOps(parts), nodes))
    ensures !Ends(s, Delivery(GroupOps(parts), nodes))
    ensures var after := Deliver(s, Delivery(GroupOps(parts), nodes));
            Faithful(after) && AllStand(after.world, parts)
  {
    LoneGroup(s.world, parts, GroupOps(parts));
    PlacedFollows(s, Delivery(GroupOps(parts), nodes));
  }

  lemma {:induction false} LoneGroup(w: World, parts: seq<Part>, ops: seq<WireOp>)
    requires Settled(w) && Group(parts) && Unminted(w, parts) && ops == GroupOps(parts)
    ensures TidyEnvelope(w, ops) && PlacingOps(w, ops) && AllStand(Drained(PassAll(w, ops)), parts)
  {
    GroupIsPlaced(w, [], parts);
    assert [] + GroupOps(parts) == ops;
    var p := PassAll(w, ops);
    MidwayAll(w, ops);
    AllLive(w, p);
    StandDrained(p, parts);
  }

  lemma AllLive(start: World, p: Pass)
    requires Midway(start, p) && p.removed == []
    ensures p.world.alive == p.world.records && forall e :: e in p.added ==> e in p.world.alive
  {
    forall e | e in p.world.records ensures e in p.world.alive {
      assert !Doomed(p.world.parent, p.removed, e);
    }
  }

  lemma StandDrained(p: Pass, parts: seq<Part>)
    requires Sound(p.world) && p.world.alive == p.world.records && p.unmap == {} && AllStand(p.world, parts)
    ensures AllStand(Drained(p), parts)
  {
    forall i | 0 <= i < |parts| ensures Stands(Drained(p), parts[i]) {
      assert Stands(p.world, parts[i]);
    }
  }

  // ---------------------------------------------------------------------------------------------
  // A newborn used before it is placed

  /** `b` put under the newborn, `a` to the root, and the newborn under `a`, which was below `b`. */
  function Rough(x: int, local: nat, a: int, b: int): seq<WireOp> {
    [WireSpawn(x, local, None), WireReparent(b, Some(x)), WireReparent(a, None), WireReparent(x, Some(a))]
  }

  ghost predicate Roughly(w: World, x: int, local: nat, a: int, b: int) {
    && a in w.toLocal && b in w.toLocal && w.toLocal[a] in w.records && w.toLocal[b] in w.records
    && w.toLocal[a] != w.toLocal[b] && Below(w.parent, w.toLocal[a], w.toLocal[b])
    && x != a && x != b && local !in w.minted
  }

  /** Op by op, the world takes it all. */
  lemma RoughIsTidy(w: World, x: int, local: nat, a: int, b: int) returns (p: Pass)
    requires Settled(w) && Roughly(w, x, local, a, b)
    ensures p == PassAll(w, Rough(x, local, a, b)) && TidyOps(w, Rough(x, local, a, b))
    ensures p.added == [local] && p.removed == []
    ensures p.moves == [Move(w.toLocal[b], Some(local)), Move(w.toLocal[a], None), Move(local, Some(w.toLocal[a]))]
    ensures p.world.parent == (w.parent[w.toLocal[b] := local] - {w.toLocal[a]})[local := w.toLocal[a]]
    ensures p.world.alive == w.records + {local}
  {
    var la, lb := w.toLocal[a], w.toLocal[b];
    var ops := Rough(x, local, a, b);
    var p1 := RoughBirth(w, x, local);
    NothingBelow(w, local, lb);
    assert Tidy(w, p1, ops[1]) by {
      HangsNowhere(w.parent, local, lb);
    }
    OpsLast(w, [ops[0]], ops[1]);
    var p2 := Applied(p1, ops[1]);
    assert p2.world.parent == w.parent[lb := local];
    assert Tidy(w, p2, ops[2]);
    OpsLast(w, [ops[0]] + [ops[1]], ops[2]);
    var p3 := Applied(p2, ops[2]);
    assert p3.world.parent == w.parent[lb := local] - {la};
    assert Tidy(w, p3, ops[3]) by {
      HangsNowhere(p3.world.parent, la, local);
    }
    OpsLast(w, [ops[0]] + [ops[1]] + [ops[2]], ops[3]);
    p := Applied(p3, ops[3]);
    assert [ops[0]] + [ops[1]] + [ops[2]] + [ops[3]] == ops;
  }

  lemma HangsNowhere(links: map<nat, nat>, x: nat, root: nat)
    requires x !in links && x != root
    ensures !Below(links, x, root)
  {
    if Below(links, x, root) {
      BelowStep(links, x, root);
    }
  }

  lemma {:induction false} RoughBirth(w: World, x: int, local: nat) returns (p: Pass)
    requires Settled(w) && local !in w.minted
    ensures p == PassAll(w, [WireSpawn(x, local, None)]) && TidyOps(w, [WireSpawn(x, local, None)])
    ensures p == Pass(Born(w, x, local), [local], [], [], {})
  {
    OneOp(w, WireSpawn(x, local, None));
    OpsLast(w, [], WireSpawn(x, local, None));
    p := PassAll(w, [WireSpawn(x, local, None)]);
    assert [] + [WireSpawn(x, local, None)] == [WireSpawn(x, local, None)];
  }

  /** The creates put the newborn under `a` at once, and `b` under the newborn is then refused. */
  lemma {:induction false} RoughRefused(w: World, ended: World, local: nat, la: nat, lb: nat, drawn: set<nat>, moves: seq<Move>)
    requires Settled(w) && local !in w.minted && la in w.records && lb in w.records && Below(w.parent, la, lb)
    requires ParentAt(ended, local) == Some(la) && moves != [] && moves[0] == Move(lb, Some(local)) && drawn == w.records + {local}
    ensures !Unrefused(LinksMade(w, ended, [local]), drawn, moves)
  {
    var links := LinksMade(w, ended, [local]);
    assert [local] == [] + [local];
    LinksMadeLast(w, ended, [], local, [local]);
    var k: nat :| Up(w.parent, la, k) == Some(lb);
    UpWithin(w.parent, links, la, k);
    BelowParent(links, local, lb);
    assert Refused(links, drawn, moves[0]);
    UnrefusedLast(links, drawn, [], moves[0]);
    if Unrefused(links, drawn, moves) {
      UnrefusedPrefix(links, drawn, [] + [moves[0]], moves);
    }
  }

  /**
   * An envelope the world takes whole and the bridge does not: with `a` below `b`, a newborn that gets `b` under it
   * before it is put under `a` itself. Whatever the session, drawing it throws.
   */
  lemma NewbornRefused(s: Session, x: int, local: nat, a: int, b: int, nodes: seq<nat>)
    requires Faithful(s) && Roughly(s.world, x, local, a, b) && Fits(s, Delivery(Rough(x, local, a, b), nodes))
    ensures TidyEnvelope(s.world, Rough(x, local, a, b)) && Ends(s, Delivery(Rough(x, local, a, b), nodes))
  {
    var w, ops := s.world, Rough(x, local, a, b);
    var p := RoughIsTidy(w, x, local, a, b);
    MidwayAll(w, ops);
    AllLive(w, p);
    assert AllOf(w, p.added) == w.records + {local};
    RoughRefused(w, Drained(p), local, w.toLocal[a], w.toLocal[b], AllOf(w, p.added), p.moves);
    ThrowsIffRough(w, s.bridge, ops, nodes);
  }
}
