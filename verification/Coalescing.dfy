/**
 * One flush turns its pending edges into a table keyed by action and phase. An overwritten key stays where it first
 * went in, so a batch that returns to a phase reaches the wire in another order than it was played in.
 */
module Coalescing {
  import opened Wrappers
  import opened ActionStates

  predicate SameKey(a: Edge, b: Edge) {
    a.action == b.action && a.on == b.on
  }

  /** `Map.set`: overwrite in place, or append. */
  function Put(table: seq<Edge>, e: Edge): seq<Edge> {
    if table == [] then [e]
    else if SameKey(table[0], e) then [e] + table[1..]
    else [table[0]] + Put(table[1..], e)
  }

  function Coalesced(pending: seq<Edge>): seq<Edge> {
    if pending == [] then [] else Put(Coalesced(pending[..|pending| - 1]), pending[|pending| - 1])
  }

  method Coalesce(pending: seq<Edge>) returns (actions: seq<Edge>)
    ensures actions == Coalesced(pending) && IsFrameOf(pending, actions)
  {
    CoalescedIsFramed(pending);
    actions := [];
    for i := 0 to |pending|
      invariant actions == Coalesced(pending[..i])
    {
      assert pending[..i + 1][..i] == pending[..i];
      actions := Put(actions, pending[i]);
    }
    assert pending[..|pending|] == pending;
  }

  // ---------------------------------------------------------------------------------------------
  // What the table is: one entry per key, in order of first occurrence, with the last value

  ghost predicate HasKey(edges: seq<Edge>, e: Edge) {
    exists i :: 0 <= i < |edges| && SameKey(edges[i], e)
  }

  /** Where an edge's key first occurs. */
  ghost function FirstIndex(edges: seq<Edge>, e: Edge): int {
    if edges == [] then 0
    else if HasKey(edges[..|edges| - 1], e) then FirstIndex(edges[..|edges| - 1], e)
    else |edges| - 1
  }

  /** `e` is what was last put under its key. */
  ghost predicate LastUnderKey(edges: seq<Edge>, e: Edge, at: int) {
    0 <= at < |edges| && edges[at] == e && forall j :: at < j < |edges| ==> !SameKey(edges[j], e)
  }

  ghost predicate Newest(edges: seq<Edge>, e: Edge) {
    exists at :: LastUnderKey(edges, e, at)
  }

  ghost predicate ByFirst(edges: seq<Edge>, table: seq<Edge>) {
    forall i, j :: 0 <= i < j < |table| ==> FirstIndex(edges, table[i]) < FirstIndex(edges, table[j])
  }

  ghost predicate AllNewest(edges: seq<Edge>, table: seq<Edge>) {
    forall i :: 0 <= i < |table| ==> Newest(edges, table[i])
  }

  ghost predicate SameKeys(a: seq<Edge>, b: seq<Edge>) {
    forall e :: HasKey(a, e) <==> HasKey(b, e)
  }

  /** The frame of a batch: its keys once each, where they first occurred, holding what was last put there. */
  ghost predicate IsFrameOf(pending: seq<Edge>, table: seq<Edge>) {
    Distinct(table) && SameKeys(pending, table) && ByFirst(pending, table) && AllNewest(pending, table)
  }

  lemma HasKeyLast(edges: seq<Edge>, e: Edge)
    requires edges != []
    ensures HasKey(edges, e) <==> HasKey(edges[..|edges| - 1], e) || SameKey(edges[|edges| - 1], e)
  {
    var init := edges[..|edges| - 1];
    assert forall i :: 0 <= i < |init| ==> init[i] == edges[i];
  }

  lemma {:induction false} FirstIndexBelow(edges: seq<Edge>, e: Edge)
    requires HasKey(edges, e)
    ensures 0 <= FirstIndex(edges, e) < |edges|
  {
    if HasKey(edges[..|edges| - 1], e) {
      FirstIndexBelow(edges[..|edges| - 1], e);
    }
  }

  lemma HasKeySame(edges: seq<Edge>, a: Edge, b: Edge)
    requires SameKey(a, b)
    ensures HasKey(edges, a) <==> HasKey(edges, b)
  {
    if HasKey(edges, a) {
      var i :| 0 <= i < |edges| && SameKey(edges[i], a);
      assert SameKey(edges[i], b);
    }
    if HasKey(edges, b) {
      var i :| 0 <= i < |edges| && SameKey(edges[i], b);
      assert SameKey(edges[i], a);
    }
  }

  lemma {:induction false} FirstIndexSame(edges: seq<Edge>, a: Edge, b: Edge)
    requires SameKey(a, b)
    ensures FirstIndex(edges, a) == FirstIndex(edges, b)
  {
    if edges != [] {
      HasKeySame(edges[..|edges| - 1], a, b);
      FirstIndexSame(edges[..|edges| - 1], a, b);
    }
  }

  /** An overwrite touches one entry, in its place. */
  lemma {:induction false} PutOver(table: seq<Edge>, e: Edge)
    requires Distinct(table) && HasKey(table, e)
    ensures |Put(table, e)| == |table|
    ensures forall i :: 0 <= i < |table| ==> Put(table, e)[i] == if SameKey(table[i], e) then e else table[i]
  {
    var rest := table[1..];
    if SameKey(table[0], e) {
      forall i | 0 < i < |table| ensures !SameKey(table[i], e) {
        assert !SameKey(table[0], table[i]);
      }
    } else {
      var k :| 0 <= k < |table| && SameKey(table[k], e);
      assert rest[k - 1] == table[k];
      assert Distinct(rest);
      PutOver(rest, e);
    }
  }

  lemma NewestLater(edges: seq<Edge>, e: Edge, last: Edge)
    requires Newest(edges, e) && !SameKey(last, e)
    ensures Newest(edges + [last], e)
  {
    var at :| LastUnderKey(edges, e, at);
    assert LastUnderKey(edges + [last], e, at);
  }

  lemma NewestNow(edges: seq<Edge>, last: Edge)
    ensures Newest(edges + [last], last)
  {
    assert LastUnderKey(edges + [last], last, |edges|);
  }

  lemma FirstIndexKept(edges: seq<Edge>, last: Edge, e: Edge)
    requires HasKey(edges, e)
    ensures FirstIndex(edges + [last], e) == FirstIndex(edges, e)
  {
    assert (edges + [last])[..|edges|] == edges;
  }

  lemma KeysOver(edges: seq<Edge>, last: Edge, table: seq<Edge>, next: seq<Edge>)
    requires SameKeys(edges, table) && HasKey(table, last) && |next| == |table|
    requires forall i :: 0 <= i < |table| ==> next[i] == if SameKey(table[i], last) then last else table[i]
    ensures SameKeys(edges + [last], next)
  {
    assert (edges + [last])[..|edges|] == edges;
    forall e ensures HasKey(edges + [last], e) <==> HasKey(next, e) {
      HasKeyLast(edges + [last], e);
      if SameKey(last, e) {
        HasKeySame(table, last, e);
      }
      if HasKey(table, e) {
        var i :| 0 <= i < |table| && SameKey(table[i], e);
        assert SameKey(next[i], e);
      }
      if HasKey(next, e) {
        var i :| 0 <= i < |next| && SameKey(next[i], e);
        assert SameKey(table[i], e);
      }
    }
  }

  lemma OverwriteFramed(edges: seq<Edge>, last: Edge, table: seq<Edge>, next: seq<Edge>)
    requires IsFrameOf(edges, table) && HasKey(table, last) && |next| == |table|
    requires forall i :: 0 <= i < |table| ==> next[i] == if SameKey(table[i], last) then last else table[i]
    ensures IsFrameOf(edges + [last], next)
  {
    KeysOver(edges, last, table, next);
    forall i | 0 <= i < |next|
      ensures FirstIndex(edges + [last], next[i]) == FirstIndex(edges, table[i]) && Newest(edges + [last], next[i])
    {
      assert HasKey(table, table[i]);
      FirstIndexKept(edges, last, table[i]);
      FirstIndexSame(edges + [last], table[i], next[i]);
      if SameKey(table[i], last) {
        NewestNow(edges, last);
      } else {
        NewestLater(edges, table[i], last);
      }
    }
  }

  lemma AppendFramed(edges: seq<Edge>, last: Edge, table: seq<Edge>)
    requires IsFrameOf(edges, table) && !HasKey(table, last)
    ensures IsFrameOf(edges + [last], table + [last])
  {
    var all, next := edges + [last], table + [last];
    assert all[..|edges|] == edges && next[..|table|] == table;
    forall e ensures HasKey(all, e) <==> HasKey(next, e) {
      HasKeyLast(all, e);
      HasKeyLast(next, e);
    }
    forall i | 0 <= i < |table|
      ensures FirstIndex(all, table[i]) == FirstIndex(edges, table[i]) < |edges| && Newest(all, table[i]) && !SameKey(table[i], last)
    {
      assert HasKey(table, table[i]);
      assert !SameKey(table[i], last);
      FirstIndexKept(edges, last, table[i]);
      FirstIndexBelow(edges, table[i]);
      NewestLater(edges, table[i], last);
    }
    assert FirstIndex(all, last) == |edges|;
    NewestNow(edges, last);
    AppendOrdered(all, table, last);
  }

  lemma AppendOrdered(edges: seq<Edge>, table: seq<Edge>, last: Edge)
    requires Distinct(table) && ByFirst(edges, table) && AllNewest(edges, table) && Newest(edges, last)
    requires forall i :: 0 <= i < |table| ==> !SameKey(table[i], last) && FirstIndex(edges, table[i]) < FirstIndex(edges, last)
    ensures Distinct(table + [last]) && ByFirst(edges, table + [last]) && AllNewest(edges, table + [last])
  {
  }

  /** What reaches the wire is the frame of the batch. */
  lemma {:induction false} CoalescedIsFramed(pending: seq<Edge>)
    ensures IsFrameOf(pending, Coalesced(pending))
  {
    if pending != [] {
      var init, last := pending[..|pending| - 1], pending[|pending| - 1];
      assert pending == init + [last];
      var table := Coalesced(init);
      CoalescedIsFramed(init);
      if HasKey(table, last) {
        PutOver(table, last);
        OverwriteFramed(init, last, table, Put(table, last));
      } else {
        PutFresh(table, last);
        AppendFramed(init, last, table);
      }
    }
  }

  // ---------------------------------------------------------------------------------------------
  // A batch without repeats goes out as it was played

  ghost predicate Distinct(edges: seq<Edge>) {
    forall i, j :: 0 <= i < j < |edges| ==> !SameKey(edges[i], edges[j])
  }

  lemma {:induction false} PutFresh(table: seq<Edge>, e: Edge)
    requires forall i :: 0 <= i < |table| ==> !SameKey(table[i], e)
    ensures Put(table, e) == table + [e]
  {
    if table != [] {
      PutFresh(table[1..], e);
    }
  }

  lemma {:induction false} DistinctUnchanged(pending: seq<Edge>)
    requires Distinct(pending)
    ensures Coalesced(pending) == pending
  {
    if pending != [] {
      var init := pending[..|pending| - 1];
      DistinctUnchanged(init);
      PutFresh(init, pending[|pending| - 1]);
    }
  }

  // ---------------------------------------------------------------------------------------------
  // Exactly when the wire's held state is the player's

  function Own(e: Edge, action: string): seq<Phase> {
    if e.action == action && e.on != Hold then [e.on] else []
  }

  /** The press and release phases of one action, in order. */
  function Buttons(edges: seq<Edge>, action: string): seq<Phase> {
    if edges == [] then []
    else Buttons(edges[..|edges| - 1], action) + Own(edges[|edges| - 1], action)
  }

  /** The phases kept at their first position. */
  function FirstsOnly(phases: seq<Phase>): seq<Phase> {
    if phases == [] then []
    else
      var init, last := FirstsOnly(phases[..|phases| - 1]), phases[|phases| - 1];
      if last in init then init else init + [last]
  }

  lemma {:induction false} ButtonsConcat(a: seq<Edge>, b: seq<Edge>, action: string)
    ensures Buttons(a + b, action) == Buttons(a, action) + Buttons(b, action)
    decreases |b|
  {
    if b == [] {
      assert a + b == a;
    } else {
      assert (a + b)[..|a + b| - 1] == a + b[..|b| - 1];
      ButtonsConcat(a, b[..|b| - 1], action);
    }
  }

  lemma {:induction false} ButtonsCons(e: Edge, rest: seq<Edge>, action: string)
    ensures Buttons([e] + rest, action) == Own(e, action) + Buttons(rest, action)
  {
    assert [e][..0] == [];
    assert Buttons([], action) == [];
    assert Buttons([e], action) == Own(e, action);
    ButtonsConcat([e], rest, action);
  }

  function Appended(phases: seq<Phase>, e: Edge, action: string): seq<Phase> {
    if e.action == action && e.on != Hold && e.on !in phases then phases + [e.on] else phases
  }

  /** Overwriting an entry keeps its place; only a new key adds a phase, at the end. */
  lemma {:induction false} ButtonsPut(table: seq<Edge>, e: Edge, action: string)
    ensures Buttons(Put(table, e), action) == Appended(Buttons(table, action), e, action)
  {
    if table == [] {
      assert [e] == [e] + [];
      ButtonsCons(e, [], action);
    } else {
      var head, rest := table[0], table[1..];
      assert table == [head] + rest;
      ButtonsCons(head, rest, action);
      if SameKey(head, e) {
        ButtonsCons(e, rest, action);
      } else {
        ButtonsPut(rest, e, action);
        ButtonsCons(head, Put(rest, e), action);
        AppendsAfter(Own(head, action), Buttons(rest, action), e, action);
      }
    }
  }

  /** Appending behind an unrelated head is appending to the whole. */
  lemma AppendsAfter(head: seq<Phase>, rest: seq<Phase>, e: Edge, action: string)
    requires e.action == action && e.on != Hold ==> e.on !in head
    ensures head + Appended(rest, e, action) == Appended(head + rest, e, action)
  {
  }

  lemma {:induction false} CoalescedButtons(pending: seq<Edge>, action: string)
    ensures Buttons(Coalesced(pending), action) == FirstsOnly(Buttons(pending, action))
  {
    if pending != [] {
      var init, last := pending[..|pending| - 1], pending[|pending| - 1];
      CoalescedButtons(init, action);
      ButtonsPut(Coalesced(init), last, action);
      if last.action == action && last.on != Hold {
        assert Buttons(pending, action)[..|Buttons(init, action)|] == Buttons(init, action);
      } else {
        assert Buttons(pending, action) == Buttons(init, action);
      }
    }
  }

  /** What is held after a batch is decided by the action's last press or release. */
  lemma {:induction false} HeldIsLastButton(s: Actions, edges: seq<Edge>, action: string)
    ensures action in ApplyEdges(s, edges).held
            <==> var b := Buttons(edges, action);
                 if b == [] then action in s.held else b[|b| - 1] == Press
  {
    if edges != [] {
      HeldIsLastButton(s, edges[..|edges| - 1], action);
    }
  }

  /** The batch comes back to the phase it began with: press, release, press. */
  ghost predicate Returns(phases: seq<Phase>) {
    phases != [] && phases[0] == phases[|phases| - 1] && exists i :: 0 <= i < |phases| && phases[i] != phases[0]
  }

  ghost predicate ButtonsOnly(phases: seq<Phase>) {
    forall i :: 0 <= i < |phases| ==> phases[i] == Press || phases[i] == Release
  }

  lemma {:induction false} ButtonsAreButtons(edges: seq<Edge>, action: string)
    ensures ButtonsOnly(Buttons(edges, action))
  {
    if edges != [] {
      ButtonsAreButtons(edges[..|edges| - 1], action);
    }
  }

  lemma {:induction false} FirstsOnlyShape(phases: seq<Phase>)
    requires ButtonsOnly(phases) && phases != []
    ensures FirstsOnly(phases)
            == if forall i :: 0 <= i < |phases| ==> phases[i] == phases[0] then [phases[0]]
               else [phases[0], if phases[0] == Press then Release else Press]
  {
    var init, last := phases[..|phases| - 1], phases[|phases| - 1];
    if init == [] {
      assert FirstsOnly([]) == [];
      assert FirstsOnly(phases) == [last];
    } else {
      FirstsOnlyShape(init);
      assert init[0] == phases[0];
      assert forall i :: 0 <= i < |init| ==> init[i] == phases[i];
    }
  }

  /**
   * The frame on the wire leaves an action held exactly as the player left it, whatever was held before,
   * if and only if the batch does not return to the phase that action began with.
   */
  lemma {:induction false} CoalescingKeepsHeldIff(s: Actions, pending: seq<Edge>, action: string)
    ensures (action in ApplyEdges(s, Coalesced(pending)).held <==> action in ApplyEdges(s, pending).held)
            <==> !Returns(Buttons(pending, action))
  {
    var b := Buttons(pending, action);
    HeldIsLastButton(s, pending, action);
    HeldIsLastButton(s, Coalesced(pending), action);
    CoalescedButtons(pending, action);
    ButtonsAreButtons(pending, action);
    if b != [] {
      FirstsOnlyShape(b);
    }
  }

  // ---------------------------------------------------------------------------------------------
  // Exactly when the wire's axis is the player's

  /** The last edge of some phase of `action`, one that writes its axis. */
  ghost predicate Finishing(pending: seq<Edge>, action: string, at: int) {
    0 <= at < |pending| && LastUnderKey(pending, pending[at], at) && WritesAxis(pending[at], action)
  }

  /** Of those, `decider` belongs to the phase that came in last; -1 when there is none. */
  ghost predicate Decides(pending: seq<Edge>, action: string, decider: int) {
    && (decider != -1 ==> Finishing(pending, action, decider))
    && forall j :: Finishing(pending, action, j) ==>
                     decider != -1 && FirstIndex(pending, pending[j]) <= FirstIndex(pending, pending[decider])
  }

  lemma NewestFinishes(pending: seq<Edge>, e: Edge, action: string) returns (at: int)
    requires Newest(pending, e) && WritesAxis(e, action)
    ensures Finishing(pending, action, at) && pending[at] == e
  {
    at :| LastUnderKey(pending, e, at);
  }

  lemma NothingWrites(pending: seq<Edge>, e: Edge, action: string)
    requires Newest(pending, e) && forall j :: !Finishing(pending, action, j)
    ensures !WritesAxis(e, action)
  {
    var at :| LastUnderKey(pending, e, at);
    assert !Finishing(pending, action, at);
  }

  /** The frame's last write is the deciding edge. */
  lemma FrameDecides(pending: seq<Edge>, table: seq<Edge>, action: string, decider: int) returns (k: int)
    requires IsFrameOf(pending, table) && Decides(pending, action, decider)
    ensures LastOf(table, (e: Edge) => WritesAxis(e, action), k)
    ensures k == -1 <==> decider == -1
    ensures k >= 0 ==> table[k] == pending[decider]
  {
    if decider == -1 {
      k := -1;
      forall i | 0 <= i < |table| ensures !WritesAxis(table[i], action) {
        NothingWrites(pending, table[i], action);
      }
    } else {
      assert HasKey(pending, pending[decider]);
      k :| 0 <= k < |table| && SameKey(table[k], pending[decider]);
      var at :| LastUnderKey(pending, table[k], at);
      assert at == decider;
      forall i | k < i < |table| ensures !WritesAxis(table[i], action) {
        if WritesAxis(table[i], action) {
          var j := NewestFinishes(pending, table[i], action);
        }
      }
    }
  }

  /**
   * The frame on the wire leaves an action's axis as the player did if and only if the last edge of the phase that
   * came in last carries what the last write carried.
   */
  lemma CoalescingKeepsAxisIff(s: Actions, pending: seq<Edge>, action: string, at: int, decider: int)
    requires LastOf(pending, (e: Edge) => WritesAxis(e, action), at) && Decides(pending, action, decider)
    ensures Axis(ApplyEdges(s, Coalesced(pending)).axes, action) == Axis(ApplyEdges(s, pending).axes, action)
            <==> (if decider < 0 then Axis(s.axes, action) else Wrote(pending[decider])) == (if at < 0 then Axis(s.axes, action) else Wrote(pending[at]))
  {
    CoalescedIsFramed(pending);
    var k := FrameDecides(pending, Coalesced(pending), action, decider);
    AxisByLast(s, pending, action, at);
    AxisByLast(s, Coalesced(pending), action, k);
  }

  /** Some edge decides, whatever the batch: the search over its first `n` edges. */
  lemma {:induction false} SomethingDecides(pending: seq<Edge>, action: string, n: nat) returns (decider: int)
    requires n <= |pending|
    ensures decider != -1 ==> 0 <= decider < n && Finishing(pending, action, decider)
    ensures forall j :: 0 <= j < n && Finishing(pending, action, j) ==>
                          decider != -1 && FirstIndex(pending, pending[j]) <= FirstIndex(pending, pending[decider])
    decreases n
  {
    decider := -1;
    if n > 0 {
      decider := SomethingDecides(pending, action, n - 1);
      if Finishing(pending, action, n - 1)
         && (decider == -1 || FirstIndex(pending, pending[decider]) <= FirstIndex(pending, pending[n - 1])) {
        decider := n - 1;
      }
    }
  }

  lemma DeciderExists(pending: seq<Edge>, action: string) returns (decider: int)
    ensures Decides(pending, action, decider)
  {
    decider := SomethingDecides(pending, action, |pending|);
  }

  /** Press, release, press: the player ends at full deflection, the wire at neutral. */
  lemma {:induction false} ReturningPressDiverges(s: Actions, press: Edge, release: Edge)
    requires press == Edge("jump", Press, None) && release == Edge("jump", Release, None)
    ensures Axis(ApplyEdges(s, [press, release, press]).axes, "jump") == 1.0
    ensures Axis(ApplyEdges(s, Coalesced([press, release, press])).axes, "jump") == 0.0
  {
    var pending := [press, release, press];
    var one, two := [press], [press, release];
    assert one[..0] == [] && two == one + [release] && pending == two + [press];
    assert SameKey(one[0], press) && SameKey(two[1], release);
    assert two[..1] == one && !HasKey(one, release);
    FirstIndexKept(one, release, press);
    FirstIndexKept(two, press, press);
    FirstIndexKept(two, press, release);
    assert Finishing(pending, "jump", 1);
    assert Decides(pending, "jump", 1);
    CoalescedIsFramed(pending);
    var k := FrameDecides(pending, Coalesced(pending), "jump", 1);
    AxisByLast(s, pending, "jump", 2);
    AxisByLast(s, Coalesced(pending), "jump", k);
  }
}
