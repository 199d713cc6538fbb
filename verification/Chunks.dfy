/** The pieces of a split snapshot: buffered up to two caps, then put back together by index. */
module Chunks {
  import opened Wrappers

  const MAX_SNAPSHOT_CHUNKS := 256
  const MAX_SNAPSHOT_BYTES := 16 * 1024 * 1024

  /** `bytes` is the encoded size the codec measures on arrival. */
  datatype Chunk<E, S> = Chunk(index: int, entities: seq<E>, state: seq<S>, bytes: nat)

  datatype Welcome<E, S> = Welcome(snapshotChunks: Option<int>, entities: seq<E>, state: seq<S>)

  function Entities<E, S>(chunks: seq<Chunk<E, S>>): seq<E> {
    if chunks == [] then [] else chunks[0].entities + Entities(chunks[1..])
  }

  function States<E, S>(chunks: seq<Chunk<E, S>>): seq<S> {
    if chunks == [] then [] else chunks[0].state + States(chunks[1..])
  }

  function TotalBytes<E, S>(chunks: seq<Chunk<E, S>>): nat {
    if chunks == [] then 0 else TotalBytes(chunks[..|chunks| - 1]) + chunks[|chunks| - 1].bytes
  }

  // ---------------------------------------------------------------------------------------------
  // Sorting by index, stably, as the runtime's sort does

  ghost predicate SortedByIndex<E, S>(chunks: seq<Chunk<E, S>>) {
    forall i, j :: 0 <= i < j < |chunks| ==> chunks[i].index <= chunks[j].index
  }

  /** Behind every chunk not past it. */
  function Inserted<E, S>(sorted: seq<Chunk<E, S>>, c: Chunk<E, S>): seq<Chunk<E, S>> {
    if sorted == [] || sorted[|sorted| - 1].index <= c.index then sorted + [c]
    else Inserted(sorted[..|sorted| - 1], c) + [sorted[|sorted| - 1]]
  }

  function Sorted<E, S>(chunks: seq<Chunk<E, S>>): seq<Chunk<E, S>> {
    if chunks == [] then [] else Inserted(Sorted(chunks[..|chunks| - 1]), chunks[|chunks| - 1])
  }

  lemma {:induction false} InsertedKeeps<E, S>(sorted: seq<Chunk<E, S>>, c: Chunk<E, S>)
    ensures multiset(Inserted(sorted, c)) == multiset(sorted) + multiset{c}
    ensures |Inserted(sorted, c)| == |sorted| + 1
    ensures forall x :: x in Inserted(sorted, c) ==> x == c || x in sorted
  {
    if sorted != [] && sorted[|sorted| - 1].index > c.index {
      var init, last := sorted[..|sorted| - 1], sorted[|sorted| - 1];
      assert sorted == init + [last];
      InsertedKeeps(init, c);
    }
  }

  lemma SortedAppend<E, S>(sorted: seq<Chunk<E, S>>, c: Chunk<E, S>)
    requires SortedByIndex(sorted) && forall x :: x in sorted ==> x.index <= c.index
    ensures SortedByIndex(sorted + [c])
  {
    forall i, j | 0 <= i < j < |sorted| + 1 ensures (sorted + [c])[i].index <= (sorted + [c])[j].index {
      assert sorted[i] in sorted;
    }
  }

  lemma {:induction false} InsertedSorts<E, S>(sorted: seq<Chunk<E, S>>, c: Chunk<E, S>)
    requires SortedByIndex(sorted)
    ensures SortedByIndex(Inserted(sorted, c))
  {
    if sorted == [] || sorted[|sorted| - 1].index <= c.index {
      SortedAppend(sorted, c);
    } else {
      var init, last := sorted[..|sorted| - 1], sorted[|sorted| - 1];
      InsertedSorts(init, c);
      InsertedKeeps(init, c);
      SortedAppend(Inserted(init, c), last);
    }
  }

  lemma {:induction false} SortedSorts<E, S>(chunks: seq<Chunk<E, S>>)
    ensures SortedByIndex(Sorted(chunks))
    ensures multiset(Sorted(chunks)) == multiset(chunks)
    ensures |Sorted(chunks)| == |chunks|
  {
    if chunks != [] {
      var init, last := chunks[..|chunks| - 1], chunks[|chunks| - 1];
      assert chunks == init + [last];
      SortedSorts(init);
      InsertedSorts(Sorted(init), last);
      InsertedKeeps(Sorted(init), last);
    }
  }

  // ---------------------------------------------------------------------------------------------
  // Exactly when the set is complete

  /** Every index below the count is present: with as many chunks as indices, each exactly once. */
  ghost predicate Complete<E, S>(chunks: seq<Chunk<E, S>>) {
    forall k :: 0 <= k < |chunks| ==> HasIndex(chunks, k)
  }

  ghost predicate HasIndex<E, S>(chunks: seq<Chunk<E, S>>, k: int) {
    exists i :: 0 <= i < |chunks| && chunks[i].index == k
  }

  ghost predicate InPlace<E, S>(chunks: seq<Chunk<E, S>>) {
    forall i :: 0 <= i < |chunks| ==> chunks[i].index == i
  }

  /** Distinct values need distinct places. */
  lemma {:induction false} Pigeonhole<E, S>(chunks: seq<Chunk<E, S>>, lo: int, hi: int)
    requires lo <= hi && forall k :: lo <= k < hi ==> HasIndex(chunks, k)
    ensures |chunks| >= hi - lo
    decreases hi - lo
  {
    if lo < hi {
      assert HasIndex(chunks, hi - 1);
      var at :| 0 <= at < |chunks| && chunks[at].index == hi - 1;
      var rest := chunks[..at] + chunks[at + 1..];
      forall k | lo <= k < hi - 1 ensures HasIndex(rest, k) {
        assert HasIndex(chunks, k);
        var i :| 0 <= i < |chunks| && chunks[i].index == k;
        assert rest[if i < at then i else i - 1] == chunks[i];
      }
      Pigeonhole(rest, lo, hi - 1);
    }
  }

  /** A sorted complete set is in place. */
  lemma SortedCompleteInPlace<E, S>(s: seq<Chunk<E, S>>)
    requires SortedByIndex(s) && Complete(s)
    ensures InPlace(s)
  {
    forall at | 0 <= at < |s| ensures s[at].index == at {
      if s[at].index > at {
        forall k | 0 <= k < at + 1 ensures HasIndex(s[..at], k) {
          assert HasIndex(s, k);
          var i :| 0 <= i < |s| && s[i].index == k;
          assert s[..at][i] == s[i];
        }
        Pigeonhole(s[..at], 0, at + 1);
      } else if s[at].index < at {
        var above := s[at + 1..];
        forall k | at <= k < |s| ensures HasIndex(above, k) {
          assert HasIndex(s, k);
          var i :| 0 <= i < |s| && s[i].index == k;
          assert above[i - at - 1] == s[i];
        }
        Pigeonhole(above, at, |s|);
      }
    }
  }

  lemma SameIndices<E, S>(a: seq<Chunk<E, S>>, b: seq<Chunk<E, S>>, k: int)
    requires multiset(a) == multiset(b)
    ensures HasIndex(a, k) ==> HasIndex(b, k)
  {
    if HasIndex(a, k) {
      var i :| 0 <= i < |a| && a[i].index == k;
      assert a[i] in multiset(b);
    }
  }

  /** The gap check after sorting passes exactly when the held indices are 0 to n - 1. */
  lemma InPlaceIffComplete<E, S>(held: seq<Chunk<E, S>>)
    ensures InPlace(Sorted(held)) <==> Complete(held)
  {
    var s := Sorted(held);
    SortedSorts(held);
    if Complete(held) {
      forall k | 0 <= k < |s| ensures HasIndex(s, k) {
        SameIndices(held, s, k);
      }
      SortedCompleteInPlace(s);
    } else if InPlace(s) {
      forall k | 0 <= k < |held| ensures HasIndex(held, k) {
        assert s[k].index == k;
        SameIndices(s, held, k);
      }
    }
  }

  /** Whatever order a complete set of pieces arrives in, sorting restores the order it was cut in. */
  lemma AnyOrderRestores<E, S>(pieces: seq<Chunk<E, S>>, held: seq<Chunk<E, S>>)
    requires InPlace(pieces) && multiset(held) == multiset(pieces)
    ensures Sorted(held) == pieces
  {
    var s := Sorted(held);
    SortedSorts(held);
    assert |s| == |multiset(s)| == |multiset(pieces)| == |pieces|;
    forall k | 0 <= k < |s| ensures HasIndex(s, k) {
      assert pieces[k].index == k;
      SameIndices(pieces, s, k);
    }
    SortedCompleteInPlace(s);
    forall i | 0 <= i < |s| ensures s[i] == pieces[i] {
      assert s[i] in multiset(pieces);
      var j :| 0 <= j < |pieces| && pieces[j] == s[i];
    }
  }

  // ---------------------------------------------------------------------------------------------
  // Lists cut and put together again

  /** `n` stretches that follow one another from the front of a list to `end`. */
  ghost predicate Cuts(cut: seq<nat>, n: nat, end: nat) {
    |cut| == n + 1 && cut[0] == 0 && cut[n] == end && forall i, j :: 0 <= i <= j <= n ==> cut[i] <= cut[j]
  }

  /** The chunks hold the stretches of the two lists, by index. */
  ghost predicate CutFrom<E, S>(chunks: seq<Chunk<E, S>>, entities: seq<E>, state: seq<S>, atEntity: seq<nat>, atState: seq<nat>) {
    && Cuts(atEntity, |chunks|, |entities|) && Cuts(atState, |chunks|, |state|)
    && forall c :: c in chunks ==> HoldsStretch(c, |chunks|, entities, state, atEntity, atState)
  }

  /** A chunk holds the stretch its index names of either list. */
  ghost predicate HoldsStretch<E, S>(c: Chunk<E, S>, n: nat, entities: seq<E>, state: seq<S>, atEntity: seq<nat>, atState: seq<nat>)
    requires |atEntity| == |atState| == n + 1
  {
    && 0 <= c.index < n
    && atEntity[c.index] <= atEntity[c.index + 1] <= |entities| && c.entities == entities[atEntity[c.index]..atEntity[c.index + 1]]
    && atState[c.index] <= atState[c.index + 1] <= |state| && c.state == state[atState[c.index]..atState[c.index + 1]]
  }

  /** Put back from the `k`-th on, they are the rest of the lists. */
  lemma {:induction false} Rejoins<E, S>(chunks: seq<Chunk<E, S>>, entities: seq<E>, state: seq<S>, atEntity: seq<nat>, atState: seq<nat>, k: nat)
    requires InPlace(chunks) && CutFrom(chunks, entities, state, atEntity, atState) && k <= |chunks|
    ensures Entities(chunks[k..]) == entities[atEntity[k]..] && States(chunks[k..]) == state[atState[k]..]
    decreases |chunks| - k
  {
    if k < |chunks| {
      Rejoins(chunks, entities, state, atEntity, atState, k + 1);
      assert chunks[k..][1..] == chunks[k + 1..];
      assert chunks[k] in chunks;
      Stretch(entities, atEntity[k], atEntity[k + 1]);
      Stretch(state, atState[k], atState[k + 1]);
    }
  }

  lemma Stretch<T>(whole: seq<T>, from: nat, until: nat)
    requires from <= until <= |whole|
    ensures whole[from..until] + whole[until..] == whole[from..]
  {
  }

  /** And however chunks in place came about, what they are put together to can be cut into them. */
  lemma {:induction false} Cuttable<E, S>(chunks: seq<Chunk<E, S>>) returns (atEntity: seq<nat>, atState: seq<nat>)
    requires InPlace(chunks)
    ensures CutFrom(chunks, Entities(chunks), States(chunks), atEntity, atState)
  {
    atEntity, atState := CuttableTo(chunks, |chunks|);
    assert chunks[..|chunks|] == chunks;
  }

  lemma {:induction false} CuttableTo<E, S>(chunks: seq<Chunk<E, S>>, n: nat) returns (atEntity: seq<nat>, atState: seq<nat>)
    requires InPlace(chunks) && n <= |chunks|
    ensures CutFrom(chunks[..n], Entities(chunks[..n]), States(chunks[..n]), atEntity, atState)
    decreases n
  {
    if n == 0 {
      atEntity, atState := [0], [0];
    } else {
      var init, last := chunks[..n - 1], chunks[n - 1];
      atEntity, atState := CuttableTo(chunks, n - 1);
      assert chunks[..n] == init + [last];
      JoinedLast(init, last);
      CutOneMore(init, last, atEntity, atState);
      atEntity := atEntity + [|Entities(init)| + |last.entities|];
      atState := atState + [|States(init)| + |last.state|];
    }
  }

  lemma {:induction false} JoinedLast<E, S>(init: seq<Chunk<E, S>>, last: Chunk<E, S>)
    ensures Entities(init + [last]) == Entities(init) + last.entities && States(init + [last]) == States(init) + last.state
  {
    if init == [] {
      assert [last][1..] == [];
      assert last.entities + [] == last.entities && last.state + [] == last.state;
    } else {
      assert (init + [last])[1..] == init[1..] + [last];
      JoinedLast(init[1..], last);
    }
  }

  lemma CutOneMore<E, S>(init: seq<Chunk<E, S>>, last: Chunk<E, S>, atEntity: seq<nat>, atState: seq<nat>)
    requires CutFrom(init, Entities(init), States(init), atEntity, atState) && last.index == |init|
    ensures CutFrom(init + [last], Entities(init) + last.entities, States(init) + last.state,
                    atEntity + [|Entities(init)| + |last.entities|], atState + [|States(init)| + |last.state|])
  {
    var n := |init|;
    var moreEntity, moreState := atEntity + [|Entities(init)| + |last.entities|], atState + [|States(init)| + |last.state|];
    CutsMore(atEntity, n, |Entities(init)|, |last.entities|);
    CutsMore(atState, n, |States(init)|, |last.state|);
    forall c | c in init + [last] ensures HoldsStretch(c, n + 1, Entities(init) + last.entities, States(init) + last.state, moreEntity, moreState) {
      assert c in init || c == last;
      StretchesAt(init, last, atEntity, atState, moreEntity, moreState, c);
    }
  }

  lemma StretchesAt<E, S>(init: seq<Chunk<E, S>>, last: Chunk<E, S>, atEntity: seq<nat>, atState: seq<nat>,
                          moreEntity: seq<nat>, moreState: seq<nat>, c: Chunk<E, S>)
    requires CutFrom(init, Entities(init), States(init), atEntity, atState) && last.index == |init| && (c in init || c == last)
    requires moreEntity == atEntity + [|Entities(init)| + |last.entities|] && moreState == atState + [|States(init)| + |last.state|]
    ensures HoldsStretch(c, |init| + 1, Entities(init) + last.entities, States(init) + last.state, moreEntity, moreState)
  {
    if c in init {
      assert HoldsStretch(c, |init|, Entities(init), States(init), atEntity, atState);
    }
    StretchAt(atEntity, |init|, Entities(init), last.entities, c.index);
    StretchAt(atState, |init|, States(init), last.state, c.index);
  }

  lemma CutsMore(cut: seq<nat>, n: nat, end: nat, more: nat)
    requires Cuts(cut, n, end)
    ensures Cuts(cut + [end + more], n + 1, end + more)
  {
    var all := cut + [end + more];
    forall i, j | 0 <= i <= j <= n + 1 ensures all[i] <= all[j] {
      if i <= n {
        assert cut[i] <= cut[n];
      }
    }
  }

  lemma StretchAt<T>(cut: seq<nat>, n: nat, whole: seq<T>, more: seq<T>, i: nat)
    requires Cuts(cut, n, |whole|) && i <= n
    ensures var all := cut + [|whole| + |more|];
            && all[i] <= all[i + 1] <= |whole| + |more|
            && (whole + more)[all[i]..all[i + 1]] == if i < n then whole[cut[i]..cut[i + 1]] else more
  {
    if i < n {
      assert cut[i + 1] <= cut[n];
    }
  }

  /** What chunks were put together to: lists of which they are the stretches, ahead of what was there. */
  ghost predicate JoinsInto<E, S>(chunks: seq<Chunk<E, S>>, welcome: Welcome<E, S>, full: Welcome<E, S>) {
    && |welcome.entities| <= |full.entities| && |welcome.state| <= |full.state|
    && var entities, state := full.entities[..|full.entities| - |welcome.entities|], full.state[..|full.state| - |welcome.state|];
       && full == welcome.(entities := entities + welcome.entities, state := state + welcome.state)
       && exists atEntity, atState :: CutFrom(chunks, entities, state, atEntity, atState)
  }

  lemma SortedJoin<E, S>(held: seq<Chunk<E, S>>, welcome: Welcome<E, S>)
    requires InPlace(Sorted(held))
    ensures JoinsInto(held, welcome, welcome.(entities := Entities(Sorted(held)) + welcome.entities, state := States(Sorted(held)) + welcome.state))
  {
    var sorted := Sorted(held);
    SortedSorts(held);
    var atEntity, atState := Cuttable(sorted);
    forall c | c in held ensures c in sorted {
      assert c in multiset(held);
    }
    assert CutFrom(held, Entities(sorted), States(sorted), atEntity, atState);
    assert (Entities(sorted) + welcome.entities)[..|Entities(sorted)|] == Entities(sorted);
    assert (States(sorted) + welcome.state)[..|States(sorted)|] == States(sorted);
  }

  // ---------------------------------------------------------------------------------------------
  // The buffer

  class SnapshotChunks<E, S> {
    var held: seq<Chunk<E, S>>
    var bytes: nat
    var dropped: nat

    constructor ()
      ensures Valid() && held == [] && bytes == 0 && dropped == 0
    {
      held, bytes, dropped := [], 0, 0;
    }

    /** Neither cap is ever passed, and the byte count is the true one. */
    ghost predicate Valid()
      reads this
    {
      |held| <= MAX_SNAPSHOT_CHUNKS && bytes == TotalBytes(held) <= MAX_SNAPSHOT_BYTES
    }

    method Offer(chunk: Chunk<E, S>, answered: bool)
      requires Valid()
      modifies this
      ensures Valid()
      ensures if !answered && |old(held)| < 256 && old(bytes) + chunk.bytes <= 16_777_216
              then held == old(held) + [chunk] && bytes == old(bytes) + chunk.bytes && dropped == old(dropped)
              else held == old(held) && bytes == old(bytes) && dropped == old(dropped) + 1
    {
      if answered || |held| >= MAX_SNAPSHOT_CHUNKS || bytes + chunk.bytes > MAX_SNAPSHOT_BYTES {
        dropped := dropped + 1;
        return;
      }
      bytes := bytes + chunk.bytes;
      held := held + [chunk];
      assert held[..|held| - 1] == old(held);
    }

    method Clear()
      modifies this
      ensures Valid() && held == [] && bytes == 0 && dropped == old(dropped)
    {
      held, bytes := [], 0;
    }

    /** A short or long set leaves the buffer alone; a full one is spent whether or not it has gaps. */
    method FoldInto(welcome: Welcome<E, S>) returns (ok: bool, full: Welcome<E, S>)
      requires Valid()
      modifies this
      ensures Valid() && dropped == old(dropped)
      ensures var expected := if welcome.snapshotChunks.Some? then welcome.snapshotChunks.value else 0;
              && (ok <==> |old(held)| == expected && Complete(old(held)))
              && held == (if |old(held)| == expected then [] else old(held))
      ensures full == if ok then welcome.(entities := Entities(Sorted(old(held))) + welcome.entities,
                                          state := States(Sorted(old(held))) + welcome.state)
                      else welcome
      ensures ok ==> JoinsInto(old(held), welcome, full)
    {
      full := welcome;
      var expected := if welcome.snapshotChunks.Some? then welcome.snapshotChunks.value else 0;
      if |held| != expected {
        return false, welcome;
      }
      var taken := held;
      held, bytes := [], 0;
      if expected == 0 {
        assert Entities<E, S>([]) + welcome.entities == welcome.entities;
        assert States<E, S>([]) + welcome.state == welcome.state;
        SortedJoin(taken, welcome);
        return true, welcome;
      }
      InPlaceIffComplete(taken);
      SortedSorts(taken);
      var sorted := Sorted(taken);
      if exists at :: 0 <= at < |sorted| && sorted[at].index != at {
        return false, welcome;
      }
      SortedJoin(taken, welcome);
      full := welcome.(entities := Entities(sorted) + welcome.entities, state := States(sorted) + welcome.state);
      ok := true;
    }
  }

  lemma {:induction false} TotalBytesPrefix<E, S>(chunks: seq<Chunk<E, S>>, n: nat)
    requires n <= |chunks|
    ensures TotalBytes(chunks[..n]) <= TotalBytes(chunks)
    decreases |chunks| - n
  {
    if n < |chunks| {
      TotalBytesPrefix(chunks, n + 1);
      assert chunks[..n + 1][..n] == chunks[..n];
    } else {
      assert chunks[..n] == chunks;
    }
  }

  /**
   * Two lists cut into stretches at any points, one chunk to each pair of stretches, and offered in any order within
   * the caps: the lists come back whole, ahead of what the welcome carried itself.
   */
  method Reassemble<E, S>(offers: seq<Chunk<E, S>>, welcome: Welcome<E, S>, ghost pieces: seq<Chunk<E, S>>,
                          ghost entities: seq<E>, ghost state: seq<S>, ghost atEntity: seq<nat>, ghost atState: seq<nat>)
    returns (ok: bool, full: Welcome<E, S>)
    requires InPlace(pieces) && CutFrom(pieces, entities, state, atEntity, atState) && multiset(offers) == multiset(pieces)
    requires |offers| <= MAX_SNAPSHOT_CHUNKS && TotalBytes(offers) <= MAX_SNAPSHOT_BYTES
    requires welcome.snapshotChunks == Some(|offers|)
    ensures ok && full == welcome.(entities := entities + welcome.entities, state := state + welcome.state)
  {
    var buffer := new SnapshotChunks<E, S>();
    for i := 0 to |offers|
      invariant buffer.Valid() && buffer.held == offers[..i]
    {
      TotalBytesPrefix(offers, i + 1);
      assert offers[..i + 1][..i] == offers[..i];
      buffer.Offer(offers[i], false);
    }
    assert offers[..|offers|] == offers;
    AnyOrderRestores(pieces, offers);
    InPlaceIffComplete(offers);
    ok, full := buffer.FoldInto(welcome);
    Rejoins(pieces, entities, state, atEntity, atState, 0);
    assert pieces[0..] == pieces && entities[0..] == entities && state[0..] == state;
  }
}
