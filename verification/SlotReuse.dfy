/** Which slots a table reuses, and in what order: the latest freed first, and after a clear the lowest. */
module SlotReuse {
  import opened Wrappers
  import opened Handles
  import opened SlotTables

  function Creates<R>(records: seq<R>): seq<Op<R>> {
    seq(|records|, i requires 0 <= i < |records| => OpCreate(records[i]))
  }

  function Releases<R>(indices: seq<int>): seq<Op<R>> {
    seq(|indices|, i requires 0 <= i < |indices| => OpReleaseAt(indices[i]))
  }

  // ---------------------------------------------------------------------------------------------
  // Creates on any table

  /** The slot of the `k`-th create: the freelist from its end, and then new ones. */
  ghost function SlotAt<R>(t: Table<R>, k: nat): int {
    if k < |t.freeList| then t.freeList[|t.freeList| - 1 - k] else |t.records| + k - |t.freeList|
  }

  ghost function AgeAt<R>(t: Table<R>, k: nat): int {
    if k < |t.freeList| && 0 <= SlotAt(t, k) < |t.generations| then t.generations[SlotAt(t, k)] else FIRST_GENERATION
  }

  /** The table's shape after `n` creates. */
  ghost predicate Popped<R>(t: Table<R>, n: nat, now: Table<R>) {
    && Ok(now) && |t.generations| == |t.records|
    && (if n <= |t.freeList| then now.freeList == t.freeList[..|t.freeList| - n] && |now.records| == |t.records|
        else now.freeList == [] && |now.records| == |t.records| + n - |t.freeList|)
    && forall i :: 0 <= i < |t.records| ==> now.generations[i] == t.generations[i]
  }

  /** And what is in the slots they took. */
  ghost predicate Filled<R>(t: Table<R>, records: seq<R>, now: Table<R>) {
    forall k :: 0 <= k < |records| ==> 0 <= SlotAt(t, k) < |now.records| && now.records[SlotAt(t, k)] == Some(records[k])
  }

  ghost predicate MintedInOrder<R>(t: Table<R>, handles: seq<int>) {
    forall k :: 0 <= k < |handles| ==> handles[k] == PackHandle(SlotAt(t, k), AgeAt(t, k))
  }

  ghost predicate Room<R>(t: Table<R>, count: nat) {
    count <= |t.freeList| + INDEX_RANGE - |t.records|
  }

  lemma {:induction false} CreatesLast<R>(t: Table<R>, init: seq<R>, last: R, before: Table<R>, minted: seq<int>, now: Table<R>, h: int)
    requires Ok(t) && before == Run(t, Creates(init)) && minted == AllMinted(t, Creates(init))
    requires (now, Some(h)) == Created(before, last)
    ensures now == Run(t, Creates(init + [last])) && minted + [h] == AllMinted(t, Creates(init + [last]))
  {
    var ops := Creates(init + [last]);
    assert ops[..|ops| - 1] == Creates(init) && ops[|ops| - 1] == OpCreate(last);
  }

  /** Distinct creates get distinct slots. */
  lemma SlotsApart<R>(t: Table<R>, j: nat, k: nat)
    requires Ok(t) && j < k
    ensures SlotAt(t, j) != SlotAt(t, k)
  {
    if j < |t.freeList| {
      assert SlotAt(t, j) in t.freeList;
    }
  }

  lemma PoppedNext<R>(t: Table<R>, n: nat, last: R, before: Table<R>) returns (now: Table<R>)
    requires Ok(t) && Popped(t, n, before) && Room(t, n + 1)
    ensures (now, Some(PackHandle(SlotAt(t, n), AgeAt(t, n)))) == Created(before, last) && Popped(t, n + 1, now)
    ensures 0 <= SlotAt(t, n) < |now.records| && |before.records| <= |now.records| && now.records[SlotAt(t, n)] == Some(last)
    ensures forall i :: 0 <= i < |before.records| && i != SlotAt(t, n) ==> now.records[i] == before.records[i]
  {
    now := Created(before, last).0;
    CreateOk(before, last);
    if n < |t.freeList| {
      assert before.freeList[|before.freeList| - 1] == SlotAt(t, n);
      assert SlotAt(t, n) in t.freeList;
    }
  }

  lemma FilledNext<R>(t: Table<R>, init: seq<R>, last: R, before: Table<R>, now: Table<R>)
    requires Ok(t) && Filled(t, init, before) && |before.records| <= |now.records|
    requires 0 <= SlotAt(t, |init|) < |now.records| && now.records[SlotAt(t, |init|)] == Some(last)
    requires forall i :: 0 <= i < |before.records| && i != SlotAt(t, |init|) ==> now.records[i] == before.records[i]
    ensures Filled(t, init + [last], now)
  {
    forall k | 0 <= k < |init| + 1 ensures 0 <= SlotAt(t, k) < |now.records| && now.records[SlotAt(t, k)] == Some((init + [last])[k]) {
      if k < |init| {
        SlotsApart(t, k, |init|);
      }
    }
  }

  /** As many creates as there is room for: each takes the slot on top of the freelist, and then new ones. */
  lemma {:induction false} CreatesMint<R>(t: Table<R>, records: seq<R>) returns (now: Table<R>, handles: seq<int>)
    requires Ok(t) && Room(t, |records|)
    ensures now == Run(t, Creates(records)) && handles == AllMinted(t, Creates(records))
    ensures Popped(t, |records|, now) && Filled(t, records, now) && |handles| == |records| && MintedInOrder(t, handles)
    decreases |records|
  {
    if records == [] {
      assert Creates(records) == [];
      now, handles := t, [];
    } else {
      var init, last := records[..|records| - 1], records[|records| - 1];
      assert records == init + [last];
      var before, minted := CreatesMint(t, init);
      now, handles := CreateMints(t, init, last, before, minted);
    }
  }

  lemma InOrderNext<R>(t: Table<R>, minted: seq<int>, h: int)
    requires MintedInOrder(t, minted) && h == PackHandle(SlotAt(t, |minted|), AgeAt(t, |minted|))
    ensures MintedInOrder(t, minted + [h])
  {
  }

  lemma CreateMints<R>(t: Table<R>, init: seq<R>, last: R, before: Table<R>, minted: seq<int>) returns (now: Table<R>, handles: seq<int>)
    requires Ok(t) && Room(t, |init| + 1) && before == Run(t, Creates(init)) && minted == AllMinted(t, Creates(init))
    requires Popped(t, |init|, before) && Filled(t, init, before) && |minted| == |init| && MintedInOrder(t, minted)
    ensures now == Run(t, Creates(init + [last])) && handles == AllMinted(t, Creates(init + [last]))
    ensures Popped(t, |init| + 1, now) && Filled(t, init + [last], now) && |handles| == |init| + 1 && MintedInOrder(t, handles)
  {
    var h := PackHandle(SlotAt(t, |init|), AgeAt(t, |init|));
    now := PoppedNext(t, |init|, last, before);
    handles := minted + [h];
    CreatesLast(t, init, last, before, minted, now, h);
    FilledNext(t, init, last, before, now);
    InOrderNext(t, minted, h);
  }

  // ---------------------------------------------------------------------------------------------
  // After releases

  ghost predicate Distinct(indices: seq<int>) {
    forall i, j :: 0 <= i < j < |indices| ==> indices[i] != indices[j]
  }

  /** Slots in use with generations to go. */
  ghost predicate Recyclable<R>(t: Table<R>, indices: seq<int>) {
    forall i :: i in indices ==> Occupied(t, i) && i < |t.generations| && t.generations[i] < MAX_GENERATION
  }

  /** The table once they are released, one by one. */
  ghost predicate Freed<R>(t: Table<R>, indices: seq<int>, now: Table<R>) {
    && Ok(now) && |now.records| == |t.records| == |t.generations| && now.freeList == t.freeList + indices
    && (forall i :: 0 <= i < |t.records| && i in indices ==> now.generations[i] == t.generations[i] + 1)
    && (forall i :: 0 <= i < |t.records| && i !in indices ==> now.generations[i] == t.generations[i] && now.records[i] == t.records[i])
  }

  lemma FreedNext<R>(t: Table<R>, init: seq<int>, last: int, before: Table<R>)
    requires Ok(t) && Freed(t, init, before) && Recyclable(t, init + [last]) && last !in init
    ensures Freed(t, init + [last], Released(before, last))
  {
    assert last in init + [last];
    ReleaseOk(before, last);
    forall i ensures i in init + [last] <==> i in init || i == last {
    }
  }

  lemma {:induction false} ReleasesFree<R>(t: Table<R>, indices: seq<int>) returns (now: Table<R>)
    requires Ok(t) && Recyclable(t, indices) && Distinct(indices)
    ensures now == Run(t, Releases(indices)) && Freed(t, indices, now)
    decreases |indices|
  {
    if indices == [] {
      assert Releases<R>(indices) == [];
      assert t.freeList + [] == t.freeList;
      now := t;
    } else {
      var init, last := indices[..|indices| - 1], indices[|indices| - 1];
      assert indices == init + [last];
      var before := ReleasesFree(t, init);
      assert Releases<R>(indices)[..|indices| - 1] == Releases(init);
      FreedNext(t, init, last, before);
      now := Released(before, last);
    }
  }

  /** The last of `indices` first: each handle names its slot one generation on, and the slot holds the new record. */
  ghost predicate Reused<R>(t: Table<R>, indices: seq<int>, records: seq<R>, handles: seq<int>, now: Table<R>) {
    && |handles| == |records| <= |indices|
    && forall k :: 0 <= k < |records| ==>
                     var slot := indices[|indices| - 1 - k];
                     && 0 <= slot < |t.generations| && slot < |now.records|
                     && handles[k] == (t.generations[slot] + 1) * 0x100_0000 + slot && now.records[slot] == Some(records[k])
  }

  lemma ReusedSlots<R>(t: Table<R>, indices: seq<int>, freed: Table<R>, records: seq<R>, handles: seq<int>, now: Table<R>)
    requires Ok(t) && Recyclable(t, indices) && Freed(t, indices, freed) && |records| <= |indices|
    requires Filled(freed, records, now) && |handles| == |records| && MintedInOrder(freed, handles)
    ensures Reused(t, indices, records, handles, now)
  {
    forall k | 0 <= k < |records|
      ensures SlotAt(freed, k) == indices[|indices| - 1 - k] && AgeAt(freed, k) == t.generations[indices[|indices| - 1 - k]] + 1
    {
      assert indices[|indices| - 1 - k] in indices;
      assert freed.freeList[|freed.freeList| - 1 - k] == indices[|indices| - 1 - k];
    }
  }

  /** What was freed last is minted again first. */
  lemma {:induction false} LastFreedFirst<R>(t: Table<R>, indices: seq<int>, records: seq<R>)
    requires Ok(t) && Distinct(indices) && |records| <= |indices|
    requires forall i :: i in indices ==> Occupied(t, i) && i < |t.generations| && t.generations[i] < MAX_GENERATION
    ensures var freed := Run(t, Releases(indices));
            Reused(t, indices, records, AllMinted(freed, Creates(records)), Run(freed, Creates(records)))
  {
    var freed := ReleasesFree(t, indices);
    var now, handles := CreatesMint(freed, records);
    ReusedSlots(t, indices, freed, records, handles, now);
  }

  // ---------------------------------------------------------------------------------------------
  // After a clear

  ghost predicate Ascending(slots: seq<int>) {
    forall i, j :: 0 <= i < j < |slots| ==> slots[i] < slots[j]
  }

  /** A slot a clear leaves usable, and at which generation: moved on by one where it was in use. */
  ghost predicate UsableAt<R>(t: Table<R>, index: int, generation: int) {
    && 0 <= index < |t.records| && index < |t.generations|
    && if t.records[index].Some? then t.generations[index] < MAX_GENERATION && generation == t.generations[index] + 1
       else t.generations[index] > 0 && generation == t.generations[index]
  }

  ghost predicate Usable<R>(t: Table<R>, index: int) {
    exists generation :: UsableAt(t, index, generation)
  }

  lemma {:induction false} DescendingIs(generations: seq<int>, n: nat, slots: seq<int>)
    requires n <= |generations| && Ascending(slots)
    requires forall i :: i in slots <==> 0 <= i < n && generations[i] != RETIRED_GENERATION
    ensures |Descending(generations, n)| == |slots|
    ensures forall k :: 0 <= k < |slots| ==> Descending(generations, n)[k] == slots[|slots| - 1 - k]
    decreases n
  {
    if n > 0 {
      if generations[n - 1] == RETIRED_GENERATION {
        DescendingIs(generations, n - 1, slots);
      } else {
        var init := TopSlot(slots, n);
        forall i ensures i in init <==> 0 <= i < n - 1 && generations[i] != RETIRED_GENERATION {
          assert i in slots <==> i in init || i == n - 1;
        }
        DescendingIs(generations, n - 1, init);
      }
    } else {
      NoneIn(slots);
    }
  }

  lemma NoneIn(slots: seq<int>)
    requires forall i :: i !in slots
    ensures slots == []
  {
    forall i ensures multiset(slots)[i] == 0 {
      assert i !in slots;
    }
    assert |multiset(slots)| == 0;
  }

  lemma TopSlot(slots: seq<int>, n: nat) returns (init: seq<int>)
    requires Ascending(slots) && n > 0 && n - 1 in slots && forall i :: i in slots ==> i < n
    ensures slots == init + [n - 1] && n - 1 !in init && Ascending(init)
  {
    var k :| 0 <= k < |slots| && slots[k] == n - 1;
    assert slots[|slots| - 1] in slots;
    init := slots[..|slots| - 1];
  }

  /** The slots and generations of the creates behind a clear. */
  ghost predicate Refilled<R>(t: Table<R>, slots: seq<int>, records: seq<R>, handles: seq<int>, now: Table<R>) {
    && |handles| == |records|
    && (forall k, generation :: 0 <= k < |records| && k < |slots| && UsableAt(t, slots[k], generation) ==>
          handles[k] == generation * 0x100_0000 + slots[k])
    && (forall k :: |slots| <= k < |records| ==> handles[k] == 0x100_0000 + |t.records| + k - |slots|)
    && forall k :: 0 <= k < |records| ==>
                     var slot := if k < |slots| then slots[k] else |t.records| + k - |slots|;
                     0 <= slot < |now.records| && now.records[slot] == Some(records[k])
  }

  lemma ClearedIs<R>(t: Table<R>, slots: seq<int>) returns (cleared: Table<R>)
    requires Ok(t) && Ascending(slots) && forall i :: i in slots <==> Usable(t, i)
    ensures cleared == Cleared(t) && Ok(cleared) && |cleared.records| == |t.records| && |cleared.freeList| == |slots|
    ensures forall k :: 0 <= k < |slots| ==> cleared.freeList[|slots| - 1 - k] == slots[k]
    ensures forall i, g :: UsableAt(t, i, g) ==> cleared.generations[i] == g
  {
    cleared := Cleared(t);
    ClearOk(t);
    var ages := ClearedGenerations(t);
    forall i ensures i in slots <==> 0 <= i < |ages| && ages[i] != RETIRED_GENERATION {
      if 0 <= i < |ages| && ages[i] != RETIRED_GENERATION {
        assert UsableAt(t, i, ages[i]);
      }
    }
    DescendingIs(ages, |ages|, slots);
    forall k | 0 <= k < |slots| ensures cleared.freeList[|slots| - 1 - k] == slots[k] {
      assert cleared.freeList == Descending(ages, |ages|);
    }
  }

  lemma RefilledSlots<R>(t: Table<R>, slots: seq<int>, cleared: Table<R>, records: seq<R>, handles: seq<int>, now: Table<R>)
    requires Ok(cleared) && |cleared.records| == |t.records| && |cleared.freeList| == |slots|
    requires forall k :: 0 <= k < |slots| ==> cleared.freeList[|slots| - 1 - k] == slots[k]
    requires forall i, g :: UsableAt(t, i, g) ==> 0 <= i < |cleared.generations| && cleared.generations[i] == g
    requires Filled(cleared, records, now) && |handles| == |records| && MintedInOrder(cleared, handles)
    ensures Refilled(t, slots, records, handles, now)
  {
    forall k: nat | k < |records|
      ensures SlotAt(cleared, k) == if k < |slots| then slots[k] else |t.records| + k - |slots|
    {
    }
  }

  /** Behind a clear the usable slots are minted lowest first, and then new ones. */
  lemma {:induction false} LowestFirst<R>(t: Table<R>, slots: seq<int>, records: seq<R>)
    requires Ok(t) && Ascending(slots) && (forall i :: i in slots <==> Usable(t, i))
    requires |records| <= |slots| + 0x100_0000 - |t.records|
    ensures var cleared := Run(t, [OpClear]);
            Refilled(t, slots, records, AllMinted(cleared, Creates(records)), Run(cleared, Creates(records)))
  {
    var cleared := ClearedIs(t, slots);
    var clear: seq<Op<R>> := [OpClear];
    assert clear[..0] == [];
    assert Run(t, [OpClear]) == cleared;
    var now, handles := CreatesMint(cleared, records);
    RefilledSlots(t, slots, cleared, records, handles, now);
  }
}
