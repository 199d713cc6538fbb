/**
 * One player's input state and the fold both endpoints share.
 *
 * A tick boundary empties `pressed` and `released` and leaves `held` and the axes alone.
 * An axis reads zero when it was never written, and `axisValues` filters zeros out, so a zero entry and
 * an absent one cannot be told apart: the model keeps the non-neutral axes only.
 */
module ActionStates {
  import opened Wrappers

  datatype Phase = Press | Release | Hold

  /** An edge may come with a number; a bare press counts as 1 and a bare release as 0. */
  datatype Edge = Edge(action: string, on: Phase, value: Option<real>)

  ghost predicate NoneNeutral(m: map<string, real>) {
    forall a :: a in m ==> m[a] != 0.0
  }

  type Axes = m: map<string, real> | NoneNeutral(m) witness map[]

  datatype Actions = Actions(held: set<string>, pressed: set<string>, released: set<string>, axes: Axes)

  const NEUTRAL := Actions({}, {}, {}, map[])

  function Axis(axes: Axes, action: string): real {
    if action in axes then axes[action] else 0.0
  }

  function SetAxis(axes: Axes, action: string, value: real): Axes {
    if value == 0.0 then axes - {action} else axes[action := value]
  }

  function ApplyEdge(s: Actions, e: Edge): Actions {
    match e.on
    case Press =>
      s.(held := s.held + {e.action}, pressed := s.pressed + {e.action},
         axes := SetAxis(s.axes, e.action, if e.value.Some? then e.value.value else 1.0))
    case Release =>
      s.(held := s.held - {e.action}, released := s.released + {e.action},
         axes := SetAxis(s.axes, e.action, if e.value.Some? then e.value.value else 0.0))
    case Hold =>
      if e.value.Some? then s.(axes := SetAxis(s.axes, e.action, e.value.value)) else s
  }

  function ApplyEdges(s: Actions, edges: seq<Edge>): Actions {
    if edges == [] then s
    else ApplyEdge(ApplyEdges(s, edges[..|edges| - 1]), edges[|edges| - 1])
  }

  function AdvanceTick(s: Actions): Actions {
    s.(pressed := {}, released := {})
  }

  /** One tick of the shared fold: the tick boundary, then that tick's edges in order. */
  function FoldTick(s: Actions, edges: seq<Edge>): Actions {
    ApplyEdges(AdvanceTick(s), edges)
  }

  /** What survives a tick boundary. */
  ghost predicate SamePersistent(a: Actions, b: Actions) {
    a.held == b.held && a.axes == b.axes
  }

  lemma {:induction false} ApplyEdgesConcat(s: Actions, a: seq<Edge>, b: seq<Edge>)
    ensures ApplyEdges(s, a + b) == ApplyEdges(ApplyEdges(s, a), b)
    decreases |b|
  {
    if b == [] {
      assert a + b == a;
    } else {
      assert (a + b)[..|a + b| - 1] == a + b[..|b| - 1];
      ApplyEdgesConcat(s, a, b[..|b| - 1]);
    }
  }

  /** The fold of held actions and axes never reads the one-tick-wide sets. */
  lemma {:induction false} PersistentFold(a: Actions, b: Actions, edges: seq<Edge>)
    requires SamePersistent(a, b)
    ensures SamePersistent(ApplyEdges(a, edges), ApplyEdges(b, edges))
  {
    if edges != [] {
      PersistentFold(a, b, edges[..|edges| - 1]);
    }
  }

  // ---------------------------------------------------------------------------------------------
  // What a tick reads, edge list in hand

  ghost predicate Carries(edges: seq<Edge>, action: string, on: Phase) {
    exists i :: 0 <= i < |edges| && edges[i].action == action && edges[i].on == on
  }

  /** `at` is the last entry that `says` picks, or -1 when there is none. */
  ghost predicate LastOf(edges: seq<Edge>, says: Edge -> bool, at: int) {
    && -1 <= at < |edges|
    && (at >= 0 ==> says(edges[at]))
    && forall i :: at < i < |edges| ==> !says(edges[i])
  }

  /** The axis an edge writes: its value, or full on a bare press and neutral on a bare release. */
  function Wrote(e: Edge): real {
    if e.value.Some? then e.value.value else if e.on == Press then 1.0 else 0.0
  }

  lemma CarriesLast(edges: seq<Edge>, action: string, on: Phase)
    requires edges != []
    ensures Carries(edges, action, on)
            <==> Carries(edges[..|edges| - 1], action, on) || (edges[|edges| - 1].action == action && edges[|edges| - 1].on == on)
  {
    var init := edges[..|edges| - 1];
    assert forall i :: 0 <= i < |init| ==> init[i] == edges[i];
  }

  lemma {:induction false} EdgesRead(s: Actions, edges: seq<Edge>, action: string)
    ensures action in ApplyEdges(s, edges).pressed <==> action in s.pressed || Carries(edges, action, Press)
    ensures action in ApplyEdges(s, edges).released <==> action in s.released || Carries(edges, action, Release)
  {
    if edges != [] {
      EdgesRead(s, edges[..|edges| - 1], action);
      CarriesLast(edges, action, Press);
      CarriesLast(edges, action, Release);
    }
  }

  /** The last write decides the axis. */
  lemma {:induction false} AxisByLast(s: Actions, edges: seq<Edge>, action: string, at: int)
    requires LastOf(edges, (e: Edge) => WritesAxis(e, action), at)
    ensures Axis(ApplyEdges(s, edges).axes, action) == if at < 0 then Axis(s.axes, action) else Wrote(edges[at])
    decreases |edges|
  {
    if edges != [] && at < |edges| - 1 {
      AxisByLast(s, edges[..|edges| - 1], action, at);
    }
  }

  /** A tick sees an action pressed or released exactly when one of that tick's own edges says so. */
  lemma TickReads(s: Actions, edges: seq<Edge>, action: string)
    ensures action in FoldTick(s, edges).pressed <==> Carries(edges, action, Press)
    ensures action in FoldTick(s, edges).released <==> Carries(edges, action, Release)
  {
    EdgesRead(AdvanceTick(s), edges, action);
  }

  // ---------------------------------------------------------------------------------------------
  // Re-asserting held state (`assertHeld`)

  /** What `assertHeld` leaves in `into`: a bare press per held action, then every non-neutral axis. */
  function Reasserted(from: Actions, into: Actions): Actions {
    Actions(into.held + from.held, {}, {},
            into.axes + (map a | a in from.held :: 1.0) + from.axes)
  }

  /** Held actions whose axis is neutral: the ones a bare press cannot restore. */
  function HeldNeutral(s: Actions): set<string> {
    s.held - s.axes.Keys
  }

  function AtOne(actions: set<string>): map<string, real> {
    map a | a in actions :: 1.0
  }

  lemma AtOneMore(axes: map<string, real>, done: set<string>, action: string)
    ensures (axes + AtOne(done))[action := 1.0] == axes + AtOne(done + {action})
  {
  }

  lemma KeptMore(axes: map<string, real>, from: map<string, real>, todo: set<string>, action: string)
    requires action in todo && action in from
    ensures (axes + (from - todo))[action := from[action]] == axes + (from - (todo - {action}))
  {
  }

  /** The press loop, in whatever order the set is walked. */
  method PressAll(held: set<string>, into: Actions) returns (out: Actions)
    ensures out.held == into.held + held && out.axes == into.axes + AtOne(held)
  {
    out := into;
    var todo := held;
    ghost var done: set<string> := {};
    assert into.axes + AtOne({}) == into.axes;
    while todo != {}
      invariant done + todo == held
      invariant out.held == into.held + done && out.axes == into.axes + AtOne(done)
    {
      var action :| action in todo;
      AtOneMore(into.axes, done, action);
      out := ApplyEdge(out, Edge(action, Press, None));
      todo, done := todo - {action}, done + {action};
    }
    assert done == held;
  }

  /** The axis loop, likewise. */
  method HoldAll(axes: Axes, into: Actions) returns (out: Actions)
    ensures out.held == into.held && out.axes == into.axes + axes
  {
    out := into;
    var todo := axes.Keys;
    while todo != {}
      invariant todo <= axes.Keys
      invariant out.held == into.held && out.axes == into.axes + (axes - todo)
    {
      var action :| action in todo;
      KeptMore(into.axes, axes, todo, action);
      out := ApplyEdge(out, Edge(action, Hold, Some(axes[action])));
      todo := todo - {action};
    }
    assert axes - todo == axes;
  }

  /** `assertHeld`: every held action pressed bare, then every non-neutral axis held, then the tick boundary. */
  method AssertHeld(from: Actions, into: Actions) returns (out: Actions)
    ensures out == Reasserted(from, into)
  {
    out := PressAll(from.held, into);
    out := HoldAll(from.axes, out);
    out := AdvanceTick(out);
    assert out.axes == Reasserted(from, into).axes;
  }

  /**
   * Re-asserting into a fresh state copies what persists exactly when no held action has a neutral axis.
   * A held action at zero comes back at one, because its zero is filtered out and its press is bare.
   */
  lemma ReassertCopiesIff(s: Actions)
    ensures SamePersistent(Reasserted(s, NEUTRAL), s) <==> HeldNeutral(s) == {}
    ensures forall a :: Axis(Reasserted(s, NEUTRAL).axes, a) ==
                        if a in HeldNeutral(s) then 1.0 else Axis(s.axes, a)
  {
    var r := Reasserted(s, NEUTRAL);
    if a :| a in HeldNeutral(s) {
      assert a in r.axes && a !in s.axes;
    } else {
      assert r.axes == s.axes by {
        forall a ensures a in r.axes <==> a in s.axes {
          assert a in s.held ==> a in HeldNeutral(s) || a in s.axes;
        }
      }
    }
  }

  // ---------------------------------------------------------------------------------------------
  // How a difference in the axes propagates through the fold

  predicate WritesAxis(e: Edge, action: string) {
    e.action == action && (e.on != Hold || e.value.Some?)
  }

  ghost predicate Writes(edges: seq<Edge>, action: string) {
    exists i :: 0 <= i < |edges| && WritesAxis(edges[i], action)
  }

  lemma DifferenceEdge(a: Actions, b: Actions, e: Edge, action: string)
    requires a.held == b.held
    ensures ApplyEdge(a, e).held == ApplyEdge(b, e).held
    ensures Axis(ApplyEdge(a, e).axes, action) != Axis(ApplyEdge(b, e).axes, action)
            <==> Axis(a.axes, action) != Axis(b.axes, action) && !WritesAxis(e, action)
  {
  }

  lemma WritesLast(edges: seq<Edge>, action: string)
    requires edges != []
    ensures Writes(edges, action)
            <==> Writes(edges[..|edges| - 1], action) || WritesAxis(edges[|edges| - 1], action)
  {
    var init := edges[..|edges| - 1];
    assert forall i :: 0 <= i < |init| ==> init[i] == edges[i];
  }

  /** Two folds that agree on what is held differ, after the edges, on exactly the unwritten old differences. */
  lemma {:induction false} DifferenceFold(a: Actions, b: Actions, edges: seq<Edge>, action: string)
    requires a.held == b.held
    ensures ApplyEdges(a, edges).held == ApplyEdges(b, edges).held
    ensures Axis(ApplyEdges(a, edges).axes, action) != Axis(ApplyEdges(b, edges).axes, action)
            <==> Axis(a.axes, action) != Axis(b.axes, action) && !Writes(edges, action)
  {
    if edges != [] {
      var init, last := edges[..|edges| - 1], edges[|edges| - 1];
      DifferenceFold(a, b, init, action);
      DifferenceEdge(ApplyEdges(a, init), ApplyEdges(b, init), last, action);
      WritesLast(edges, action);
    }
  }

  /** Axes are equal exactly when every axis reads the same. */
  lemma AxesExtensional(a: Axes, b: Axes)
    requires forall x :: Axis(a, x) == Axis(b, x)
    ensures a == b
  {
    forall x ensures x in a <==> x in b {
      assert Axis(a, x) == Axis(b, x);
    }
    forall x | x in a ensures a[x] == b[x] {
      assert Axis(a, x) == Axis(b, x);
    }
  }
}
