/** Generation-packed handles and the slot table that mints them. */
module Handles {
  import opened Shared

  const INDEX_RANGE := 0x100_0000
  const MAX_INDEX := INDEX_RANGE - 1
  const MAX_GENERATION := MAX_SAFE_INTEGER / INDEX_RANGE
  const FIRST_GENERATION := 1

  function PackHandle(index: int, generation: int): int {
    generation * INDEX_RANGE + index
  }

  function HandleIndex(handle: int): int {
    handle % INDEX_RANGE
  }

  function HandleGeneration(handle: int): int {
    handle / INDEX_RANGE
  }

  /** Every handle a table can mint is a positive safe integer that unpacks to its own parts. */
  lemma PackUnpacks(index: int, generation: int)
    requires 0 <= index <= MAX_INDEX && FIRST_GENERATION <= generation <= MAX_GENERATION
    ensures 0 < PackHandle(index, generation) <= MAX_SAFE_INTEGER
    ensures HandleIndex(PackHandle(index, generation)) == index
    ensures HandleGeneration(PackHandle(index, generation)) == generation
  {
  }

  lemma UnpackPacks(handle: int)
    requires 0 < handle <= MAX_SAFE_INTEGER
    ensures PackHandle(HandleIndex(handle), HandleGeneration(handle)) == handle
    ensures 0 <= HandleIndex(handle) <= MAX_INDEX && 0 <= HandleGeneration(handle) <= MAX_GENERATION
  {
  }
}

module SlotTables {
  import opened Wrappers
  import opened Handles
  import opened Shared

  /** 0 is never minted, so it marks a slot that has run out of generations. */
  const RETIRED_GENERATION := 0

  /** A number a caller passes as a handle: an integer, or a fraction, infinity or NaN cast to one. */
  datatype Number = Whole(n: int) | NotWhole

  /** The table's contents, with records as values. */
  datatype Table<R> = Table(records: seq<Option<R>>, generations: seq<int>, freeList: seq<int>, live: int)

  // ---------------------------------------------------------------------------------------------
  // The representation invariant

  function CountLive<R>(records: seq<Option<R>>): nat {
    if records == [] then 0
    else CountLive(records[..|records| - 1]) + if records[|records| - 1].Some? then 1 else 0
  }

  ghost predicate NoDuplicates(s: seq<int>) {
    forall i, j :: 0 <= i < j < |s| ==> s[i] != s[j]
  }

  /** The freelist names exactly the free, unretired slots, each once. */
  ghost predicate FreeListExact<R>(t: Table<R>)
    requires |t.generations| == |t.records|
  {
    && NoDuplicates(t.freeList)
    && forall i :: i in t.freeList <==>
                   0 <= i < |t.records| && t.records[i].None? && t.generations[i] != RETIRED_GENERATION
  }

  ghost predicate Ok<R>(t: Table<R>) {
    && |t.generations| == |t.records| <= INDEX_RANGE
    && (forall i :: 0 <= i < |t.records| ==> 0 <= t.generations[i] <= MAX_GENERATION)
    && (forall i :: 0 <= i < |t.records| && t.records[i].Some? ==> t.generations[i] != RETIRED_GENERATION)
    && FreeListExact(t)
    && t.live == CountLive(t.records)
  }

  // ---------------------------------------------------------------------------------------------
  // Operations

  /** The most recently freed slot, else a new one; None is the full-table error. */
  function Created<R>(t: Table<R>, record: R): (Table<R>, Option<int>)
    requires Ok(t)
  {
    if t.freeList != [] then
      var reused := t.freeList[|t.freeList| - 1];
      assert reused in t.freeList;
      (t.(records := t.records[reused := Some(record)], freeList := t.freeList[..|t.freeList| - 1], live := t.live + 1),
       Some(PackHandle(reused, t.generations[reused])))
    else if |t.records| > MAX_INDEX then (t, None)
    else
      (t.(records := t.records + [Some(record)], generations := t.generations + [FIRST_GENERATION], live := t.live + 1),
       Some(PackHandle(|t.records|, FIRST_GENERATION)))
  }

  predicate Occupied<R>(t: Table<R>, index: int) {
    0 <= index < |t.records| && t.records[index].Some?
  }

  function SlotOf<R>(t: Table<R>, id: Number): int
    requires |t.generations| == |t.records|
  {
    if id.NotWhole? || id.n <= 0 || id.n > MAX_SAFE_INTEGER then -1
    else
      var index := HandleIndex(id.n);
      if !Occupied(t, index) then -1
      else if t.generations[index] == HandleGeneration(id.n) then index else -1
  }

  function Recycled(generation: int): int {
    if generation >= MAX_GENERATION then RETIRED_GENERATION else generation + 1
  }

  function Released<R>(t: Table<R>, index: int): Table<R>
    requires |t.generations| == |t.records|
  {
    if !Occupied(t, index) then t
    else
      var next := Recycled(t.generations[index]);
      Table(t.records[index := None], t.generations[index := next],
            if next == RETIRED_GENERATION then t.freeList else t.freeList + [index], t.live - 1)
  }

  /** Generations after a clear: only occupied slots advance. */
  function ClearedGenerations<R>(t: Table<R>): (g: seq<int>)
    requires |t.generations| == |t.records|
    ensures |g| == |t.records|
  {
    seq(|t.records|, i requires 0 <= i < |t.records| =>
      if t.records[i].Some? then Recycled(t.generations[i]) else t.generations[i])
  }

  /** The slots below `n` that can be used again, in descending order. */
  function Descending(generations: seq<int>, n: nat): seq<int>
    requires n <= |generations|
  {
    if n == 0 then []
    else (if generations[n - 1] == RETIRED_GENERATION then [] else [n - 1]) + Descending(generations, n - 1)
  }

  function Cleared<R>(t: Table<R>): Table<R>
    requires |t.generations| == |t.records|
  {
    var g := ClearedGenerations(t);
    Table(seq(|t.records|, i => None), g, Descending(g, |g|), 0)
  }

  lemma {:induction false} CountLiveUpdate<R>(records: seq<Option<R>>, index: nat, value: Option<R>)
    requires index < |records|
    ensures CountLive(records[index := value])
            == CountLive(records) + (if value.Some? then 1 else 0) - (if records[index].Some? then 1 else 0)
  {
    var n := |records| - 1;
    if index < n {
      CountLiveUpdate(records[..n], index, value);
      assert records[index := value][..n] == records[..n][index := value];
    } else {
      assert records[index := value][..n] == records[..n];
    }
  }

  lemma {:induction false} CountLiveNext<R>(records: seq<Option<R>>, index: nat)
    requires index < |records|
    ensures CountLive(records[..index + 1]) == CountLive(records[..index]) + if records[index].Some? then 1 else 0
  {
    assert records[..index + 1][..index] == records[..index];
  }

  lemma {:induction false} CountLiveNone<R>(records: seq<Option<R>>)
    requires forall i :: 0 <= i < |records| ==> records[i].None?
    ensures CountLive(records) == 0
  {
    if records != [] {
      CountLiveNone(records[..|records| - 1]);
    }
  }

  lemma ReuseOk<R>(t: Table<R>, record: R)
    requires Ok(t) && t.freeList != []
    ensures Ok(Created(t, record).0)
  {
    var reused := t.freeList[|t.freeList| - 1];
    assert reused in t.freeList;
    CountLiveUpdate(t.records, reused, Some(record));
    PopExact(t.freeList);
    var after := Created(t, record).0;
    forall i ensures i in after.freeList <==>
                     0 <= i < |after.records| && after.records[i].None? && after.generations[i] != RETIRED_GENERATION
    {
      assert i in t.freeList <==> 0 <= i < |t.records| && t.records[i].None? && t.generations[i] != RETIRED_GENERATION;
    }
  }

  lemma CountLiveAppend<R>(records: seq<Option<R>>, record: R)
    ensures CountLive(records + [Some(record)]) == CountLive(records) + 1
  {
    assert (records + [Some(record)])[..|records|] == records;
  }

  lemma AppendOk<R>(t: Table<R>, record: R)
    requires Ok(t) && t.freeList == [] && |t.records| <= MAX_INDEX
    ensures Ok(Created(t, record).0)
  {
    CountLiveAppend(t.records, record);
    var after := Created(t, record).0;
    forall i ensures i in after.freeList <==>
                     0 <= i < |after.records| && after.records[i].None? && after.generations[i] != RETIRED_GENERATION
    {
      assert i in t.freeList <==> 0 <= i < |t.records| && t.records[i].None? && t.generations[i] != RETIRED_GENERATION;
    }
  }

  lemma CreateOk<R>(t: Table<R>, record: R)
    requires Ok(t)
    ensures Ok(Created(t, record).0)
  {
    if t.freeList != [] {
      ReuseOk(t, record);
    } else if |t.records| <= MAX_INDEX {
      AppendOk(t, record);
    }
  }

  lemma PopExact(s: seq<int>)
    requires s != [] && NoDuplicates(s)
    ensures NoDuplicates(s[..|s| - 1])
    ensures forall i :: i in s[..|s| - 1] <==> i in s && i != s[|s| - 1]
  {
    assert s == s[..|s| - 1] + [s[|s| - 1]];
  }

  lemma ReleaseOk<R>(t: Table<R>, index: int)
    requires Ok(t)
    ensures Ok(Released(t, index))
  {
    if Occupied(t, index) {
      CountLiveUpdate(t.records, index, None);
      assert index !in t.freeList;
    }
  }

  lemma {:induction false} DescendingExact(generations: seq<int>, n: nat)
    requires n <= |generations|
    ensures forall i :: i in Descending(generations, n) <==> 0 <= i < n && generations[i] != RETIRED_GENERATION
    ensures NoDuplicates(Descending(generations, n))
  {
    if n > 0 {
      DescendingExact(generations, n - 1);
    }
  }

  lemma ClearOk<R>(t: Table<R>)
    requires Ok(t)
    ensures Ok(Cleared(t))
  {
    DescendingExact(ClearedGenerations(t), |t.records|);
    CountLiveNone(Cleared(t).records);
  }

  // ---------------------------------------------------------------------------------------------
  // Handles over whole runs

  /** A handle the table has minted at some point, by what its slot's generation has reached. */
  ghost predicate Issued<R>(t: Table<R>, h: int)
    requires |t.generations| == |t.records|
  {
    && 0 < h <= MAX_SAFE_INTEGER
    && var i, g := HandleIndex(h), HandleGeneration(h);
       && FIRST_GENERATION <= g
       && i < |t.records|
       && (t.generations[i] == RETIRED_GENERATION || g < t.generations[i] || (g == t.generations[i] && t.records[i].Some?))
  }

  ghost predicate Valid<R>(t: Table<R>, h: int)
    requires |t.generations| == |t.records|
  {
    SlotOf(t, Whole(h)) >= 0
  }

  /** Minted and no longer accepted. */
  ghost predicate Spent<R>(t: Table<R>, h: int)
    requires |t.generations| == |t.records|
  {
    Issued(t, h) && !Valid(t, h)
  }

  datatype Op<R> = OpCreate(record: R) | OpRelease(id: Number) | OpReleaseAt(index: int) | OpClear

  function After<R>(t: Table<R>, op: Op<R>): Table<R>
    requires Ok(t)
  {
    match op
    case OpCreate(record) => Created(t, record).0
    case OpRelease(id) => Released(t, SlotOf(t, id))
    case OpReleaseAt(index) => Released(t, index)
    case OpClear => Cleared(t)
  }

  /** The handle an operation hands out, if any. */
  function Minted<R>(t: Table<R>, op: Op<R>): Option<int>
    requires Ok(t)
  {
    match op
    case OpCreate(record) => Created(t, record).1
    case _ => None
  }

  lemma ApplyOk<R>(t: Table<R>, op: Op<R>)
    requires Ok(t)
    ensures Ok(After(t, op))
  {
    match op
    case OpCreate(record) => CreateOk(t, record);
    case OpRelease(id) => ReleaseOk(t, SlotOf(t, id));
    case OpReleaseAt(index) => ReleaseOk(t, index);
    case OpClear => ClearOk(t);
  }

  /** A create mints a handle never issued before, accepted from then on; everything else mints nothing. */
  lemma MintsFresh<R>(t: Table<R>, op: Op<R>)
    requires Ok(t) && Minted(t, op).Some?
    ensures var h := Minted(t, op).value;
            && 0 < h <= MAX_SAFE_INTEGER
            && !Issued(t, h) && Issued(After(t, op), h) && Valid(After(t, op), h)
  {
    var i := if t.freeList == [] then |t.records| else t.freeList[|t.freeList| - 1];
    var g := if t.freeList == [] then FIRST_GENERATION else t.generations[i];
    assert i in t.freeList || i == |t.records|;
    PackUnpacks(i, g);
  }

  lemma IssuedByCreate<R>(t: Table<R>, record: R, h: int)
    requires Ok(t) && Ok(Created(t, record).0)
    ensures Issued(Created(t, record).0, h) <==> Issued(t, h) || Created(t, record).1 == Some(h)
  {
    if t.freeList != [] {
      var i := t.freeList[|t.freeList| - 1];
      assert i in t.freeList;
      PackUnpacks(i, t.generations[i]);
    } else if |t.records| <= MAX_INDEX {
      PackUnpacks(|t.records|, FIRST_GENERATION);
    }
    if 0 < h <= MAX_SAFE_INTEGER {
      UnpackPacks(h);
    }
  }

  lemma IssuedByRelease<R>(t: Table<R>, index: int, h: int)
    requires Ok(t)
    ensures Issued(Released(t, index), h) <==> Issued(t, h)
  {
    if 0 < h <= MAX_SAFE_INTEGER {
      UnpackPacks(h);
    }
  }

  /** Nothing is issued but by minting, and nothing issued is ever forgotten. */
  lemma IssuedExactly<R>(t: Table<R>, op: Op<R>, h: int)
    requires Ok(t)
    ensures |After(t, op).generations| == |After(t, op).records|
    ensures Issued(After(t, op), h) <==> Issued(t, h) || Minted(t, op) == Some(h)
  {
    ApplyOk(t, op);
    match op
    case OpCreate(record) => IssuedByCreate(t, record, h);
    case OpRelease(id) => IssuedByRelease(t, SlotOf(t, id), h);
    case OpReleaseAt(index) => IssuedByRelease(t, index, h);
    case OpClear =>
      if 0 < h <= MAX_SAFE_INTEGER {
        UnpackPacks(h);
      }
  }

  /** A handle once rejected is rejected for good, slot reuse, clears and retirement included. */
  lemma SpentForever<R>(t: Table<R>, op: Op<R>, h: int)
    requires Ok(t) && Spent(t, h)
    ensures |After(t, op).generations| == |After(t, op).records|
    ensures Spent(After(t, op), h)
  {
    IssuedExactly(t, op, h);
    UnpackPacks(h);
    match op
    case OpCreate(record) =>
      if t.freeList != [] {
        assert t.freeList[|t.freeList| - 1] in t.freeList;
      }
    case OpRelease(id) =>
    case OpReleaseAt(index) =>
    case OpClear =>
  }

  function Empty<R>(): Table<R> {
    Table([], [], [], 0)
  }

  function Run<R>(t: Table<R>, ops: seq<Op<R>>): (t': Table<R>)
    requires Ok(t)
    ensures Ok(t')
  {
    if ops == [] then t
    else
      var before := Run(t, ops[..|ops| - 1]);
      ApplyOk(before, ops[|ops| - 1]);
      After(before, ops[|ops| - 1])
  }

  /** Every handle handed out along a run, in order. */
  function AllMinted<R>(t: Table<R>, ops: seq<Op<R>>): seq<int>
    requires Ok(t)
  {
    if ops == [] then []
    else
      var init := ops[..|ops| - 1];
      var minted := Minted(Run(t, init), ops[|ops| - 1]);
      AllMinted(t, init) + if minted.Some? then [minted.value] else []
  }

  /** Along any run from an empty table, what counts as issued is exactly what was minted. */
  lemma {:induction false} IssuedIsMinted<R>(ops: seq<Op<R>>, h: int)
    ensures Issued(Run(Empty<R>(), ops), h) <==> h in AllMinted(Empty<R>(), ops)
  {
    if ops != [] {
      var init, last := ops[..|ops| - 1], ops[|ops| - 1];
      IssuedIsMinted(init, h);
      IssuedExactly(Run(Empty<R>(), init), last, h);
    }
  }

  /** No handle is ever minted twice. */
  lemma {:induction false} NoHandleMintedTwice<R>(ops: seq<Op<R>>)
    ensures NoDuplicates(AllMinted(Empty<R>(), ops))
    ensures forall h :: h in AllMinted(Empty<R>(), ops) ==> 0 < h <= MAX_SAFE_INTEGER
  {
    if ops != [] {
      var init, last := ops[..|ops| - 1], ops[|ops| - 1];
      NoHandleMintedTwice(init);
      var t := Run(Empty<R>(), init);
      if Minted(t, last).Some? {
        MintsFresh(t, last);
        IssuedIsMinted(init, Minted(t, last).value);
      }
    }
  }

  lemma {:induction false} RunConcat<R>(t: Table<R>, ops: seq<Op<R>>, more: seq<Op<R>>)
    requires Ok(t)
    ensures Run(t, ops + more) == Run(Run(t, ops), more)
    decreases |more|
  {
    if more == [] {
      assert ops + more == ops;
    } else {
      assert (ops + more)[..|ops + more| - 1] == ops + more[..|more| - 1];
      RunConcat(t, ops, more[..|more| - 1]);
    }
  }

  lemma {:induction false} SpentStays<R>(t: Table<R>, more: seq<Op<R>>, h: int)
    requires Ok(t) && Spent(t, h)
    ensures Spent(Run(t, more), h)
  {
    if more != [] {
      SpentStays(t, more[..|more| - 1], h);
      SpentForever(Run(t, more[..|more| - 1]), more[|more| - 1], h);
    }
  }

  /** A handle minted along a run and rejected at its end is rejected after every continuation. */
  lemma {:induction false} RejectedForever<R>(ops: seq<Op<R>>, more: seq<Op<R>>, h: int)
    requires h in AllMinted(Empty<R>(), ops) && !Valid(Run(Empty<R>(), ops), h)
    ensures !Valid(Run(Empty<R>(), ops + more), h)
  {
    IssuedIsMinted(ops, h);
    RunConcat(Empty<R>(), ops, more);
    SpentStays(Run(Empty<R>(), ops), more, h);
  }

  /** Releasing a handle is what makes it rejected: accepted before, spent after. */
  lemma ReleaseSpends<R>(t: Table<R>, h: int)
    requires Ok(t) && Valid(t, h)
    ensures Ok(After(t, OpRelease(Whole(h)))) && Spent(After(t, OpRelease(Whole(h))), h)
  {
    ApplyOk(t, OpRelease(Whole(h)));
    UnpackPacks(h);
  }

  // ---------------------------------------------------------------------------------------------
  // The table as an object, with records held by reference

  lemma PushNext(pushed: seq<int>, generations: seq<int>, index: nat)
    requires index < |generations|
    ensures pushed + Descending(generations, index + 1)
            == (if generations[index] != RETIRED_GENERATION then pushed + [index] else pushed) + Descending(generations, index)
  {
  }

  class Record<T> {
    var value: T

    constructor (value: T)
      ensures this.value == value
    {
      this.value := value;
    }

    /** The caller's `cloneRecord`: a new object with the same contents. */
    method Clone() returns (copy: Record<T>)
      ensures fresh(copy) && copy.value == value
    {
      copy := new Record(value);
    }
  }

  ghost function Contents<T>(records: seq<Record?<T>>): (c: seq<Option<T>>)
    reads set r: Record<T> | r in records
    ensures |c| == |records|
  {
    seq(|records|, i requires 0 <= i < |records| reads set r: Record<T> | r in records =>
      if records[i] == null then None else Some(records[i].value))
  }

  /** An array of numbers, held by reference. */
  class Numbers {
    var items: seq<int>

    constructor (items: seq<int>)
      ensures this.items == items
    {
      this.items := items;
    }

    /** `refill`: overwritten in place, element by element, so the array stays the same object. */
    method Refill(source: Numbers)
      requires source != this
      modifies this
      ensures items == source.items
    {
      items := [];
      for index := 0 to |source.items|
        invariant items == source.items[..index]
      {
        items := items + [source.items[index]];
      }
    }
  }

  /** The first `index` slots emptied, each occupied one's generation moved on. */
  ghost predicate Dropped<T>(was: seq<Record?<T>>, ages: seq<int>, records: seq<Record?<T>>, generations: seq<int>, index: nat) {
    && |was| == |ages| == |records| == |generations|
    && (forall i :: 0 <= i < |was| ==> records[i] == if i < index then null else was[i])
    && (forall i :: 0 <= i < |was| ==> generations[i] == if i < index && was[i] != null then Recycled(ages[i]) else ages[i])
  }

  lemma DroppedNext<T>(was: seq<Record?<T>>, ages: seq<int>, records: seq<Record?<T>>, generations: seq<int>, index: nat)
    requires index < |was| && Dropped(was, ages, records, generations, index)
    ensures records[index] == was[index]
    ensures records[index] == null ==> Dropped(was, ages, records, generations, index + 1)
    ensures records[index] != null ==>
              Dropped(was, ages, records[index := null], generations[index := Recycled(generations[index])], index + 1)
  {
  }

  /** What `capture` hands out: as much as it takes to be the table again. */
  class Snapshot<T> {
    var records: seq<Record?<T>>
    var generations: Numbers
    var freeList: Numbers
    var live: int

    constructor ()
      ensures fresh(generations) && fresh(freeList) && generations != freeList && records == []
    {
      generations := new Numbers([]);
      freeList := new Numbers([]);
      records, live := [], 0;
    }

    ghost function View(): Table<T>
      reads this, generations, freeList, set r: Record<T> | r in records
    {
      Table(Contents(records), generations.items, freeList.items, live)
    }
  }

  class SlotTable<T> {
    var records: seq<Record?<T>>
    var generations: Numbers
    var freeList: Numbers
    var live: int

    constructor ()
      ensures Valid() && View() == Empty() && records == [] && fresh(generations) && fresh(freeList)
    {
      generations := new Numbers([]);
      freeList := new Numbers([]);
      records, live := [], 0;
    }

    ghost function View(): Table<T>
      reads this, generations, freeList, set r: Record<T> | r in records
    {
      Table(Contents(records), generations.items, freeList.items, live)
    }

    ghost predicate Valid()
      reads this, generations, freeList, set r: Record<T> | r in records
    {
      generations != freeList && Ok(View())
    }

    /** The table keeps the arrays it has. */
    twostate predicate SameArrays()
      reads this
    {
      generations == old(generations) && freeList == old(freeList)
    }

    method IndexOf(id: Number) returns (index: int)
      requires Valid()
      ensures index == SlotOf(View(), id)
      ensures index != -1 ==> && id.Whole? && 0 < id.n <= 0x1F_FFFF_FFFF_FFFF && index == id.n % 0x100_0000 < |records|
                              && records[index] != null && generations.items[index] == id.n / 0x100_0000
      ensures id.Whole? && 0 < id.n <= 0x1F_FFFF_FFFF_FFFF && id.n % 0x100_0000 < |records| && records[id.n % 0x100_0000] != null
              && generations.items[id.n % 0x100_0000] == id.n / 0x100_0000
              ==> index == id.n % 0x100_0000
    {
      if id.NotWhole? || id.n <= 0 || id.n > MAX_SAFE_INTEGER {
        return -1;
      }
      index := HandleIndex(id.n);
      if index >= |records| || records[index] == null || generations.items[index] != HandleGeneration(id.n) {
        index := -1;
      }
    }

    method Create(record: Record<T>) returns (id: Option<int>)
      requires Valid()
      modifies this, generations, freeList
      ensures SameArrays()
      ensures Valid() && (View(), id) == Created(old(View()), record.value)
      ensures id.None? <==> old(freeList.items) == [] && |old(records)| == 0x100_0000
      ensures id.None? ==> View() == old(View())
      ensures old(freeList.items) != [] ==>
                var slot := old(freeList.items)[|old(freeList.items)| - 1];
                && freeList.items == old(freeList.items)[..|old(freeList.items)| - 1] && generations.items == old(generations.items)
                && 0 <= slot < |records| && slot < |generations.items|
                && id == Some(generations.items[slot] * 0x100_0000 + slot) && records == old(records)[slot := record]
      ensures old(freeList.items) == [] && id.Some? ==>
                && freeList.items == [] && generations.items == old(generations.items) + [1]
                && id == Some(0x100_0000 + |old(records)|) && records == old(records) + [record]
      ensures forall r :: r in records ==> r == record || r in old(records)
    {
      CreateOk(View(), record.value);
      if freeList.items != [] {
        id := Reuse(record);
      } else if |records| > MAX_INDEX {
        id := None;
      } else {
        id := Append(record);
      }
    }

    method Reuse(record: Record<T>) returns (id: Option<int>)
      requires Valid() && freeList.items != []
      modifies this, generations, freeList
      ensures SameArrays()
      ensures (View(), id) == Created(old(View()), record.value)
      ensures var slot := old(freeList.items)[|old(freeList.items)| - 1];
              0 <= slot < |old(records)| && records == old(records)[slot := record]
      ensures forall r :: r in records ==> r == record || r in old(records)
    {
      var reused := freeList.items[|freeList.items| - 1];
      assert reused in View().freeList;
      freeList.items := freeList.items[..|freeList.items| - 1];
      records := records[reused := record];
      live := live + 1;
      assert Contents(records) == old(Contents(records))[reused := Some(record.value)];
      id := Some(PackHandle(reused, generations.items[reused]));
    }

    method Append(record: Record<T>) returns (id: Option<int>)
      requires Valid() && freeList.items == [] && |records| <= MAX_INDEX
      modifies this, generations, freeList
      ensures SameArrays()
      ensures (View(), id) == Created(old(View()), record.value)
      ensures records == old(records) + [record]
      ensures forall r :: r in records ==> r == record || r in old(records)
    {
      id := Some(PackHandle(|records|, FIRST_GENERATION));
      records := records + [record];
      generations.items := generations.items + [FIRST_GENERATION];
      live := live + 1;
      assert Contents(records) == old(Contents(records)) + [Some(record.value)];
    }

    method ReleaseAt(index: int)
      requires Valid()
      modifies this, generations, freeList
      ensures SameArrays()
      ensures Valid() && View() == Released(old(View()), index)
      ensures if 0 <= index < |old(records)| && old(records)[index] != null && index < |old(generations.items)| then
                && records == old(records)[index := null] && live == old(live) - 1
                && (if old(generations.items)[index] < MAX_GENERATION then
                      generations.items == old(generations.items)[index := old(generations.items)[index] + 1]
                      && freeList.items == old(freeList.items) + [index]
                    else generations.items == old(generations.items)[index := 0] && freeList.items == old(freeList.items))
              else View() == old(View())
      ensures forall r :: r in records ==> r == null || r in old(records)
    {
      ReleaseOk(View(), index);
      if 0 <= index < |records| && records[index] != null {
        records := records[index := null];
        live := live - 1;
        var next := Recycled(generations.items[index]);
        generations.items := generations.items[index := next];
        if next != RETIRED_GENERATION {
          freeList.items := freeList.items + [index];
        }
        assert Contents(records) == Released(old(View()), index).records;
      }
    }

    method Release(id: Number)
      requires Valid()
      modifies this, generations, freeList
      ensures SameArrays()
      ensures Valid() && View() == After(old(View()), OpRelease(id))
      ensures forall r :: r in records ==> r == null || r in old(records)
    {
      var index := IndexOf(id);
      ReleaseAt(index);
    }

    method Clear()
      requires Valid()
      modifies this, generations, freeList
      ensures SameArrays()
      ensures Valid() && View() == Cleared(old(View()))
      ensures forall r :: r in records ==> r == null
    {
      ghost var t := View();
      ClearOk(t);
      DropRecords(t);
      RefillFreeList();
      assert Contents(records) == Cleared(t).records;
    }

    /** The second loop of `clear`, pushing the highest slot first. */
    method RefillFreeList()
      requires generations != freeList
      modifies freeList
      ensures freeList.items == Descending(generations.items, |generations.items|)
    {
      freeList.items := [];
      var index := |generations.items|;
      while index > 0
        invariant 0 <= index <= |generations.items|
        invariant freeList.items + Descending(generations.items, index) == Descending(generations.items, |generations.items|)
      {
        index := index - 1;
        PushNext(freeList.items, generations.items, index);
        if generations.items[index] != RETIRED_GENERATION {
          freeList.items := freeList.items + [index];
        }
      }
    }

    /** The first loop of `clear`: an already free slot keeps its generation. */
    method DropRecords(ghost t: Table<T>)
      requires Valid() && t == View()
      modifies this`records, this`live, generations
      ensures |records| == |t.records| && generations.items == ClearedGenerations(t) && live == 0
      ensures forall i :: 0 <= i < |records| ==> records[i] == null
    {
      var n := |records|;
      ghost var was, ages := records, generations.items;
      for index := 0 to n
        invariant |generations.items| == n && Dropped(was, ages, records, generations.items, index)
        invariant live == t.live - CountLive(t.records[..index])
      {
        CountLiveNext(t.records, index);
        DroppedNext(was, ages, records, generations.items, index);
        if records[index] != null {
          records := records[index := null];
          generations.items := generations.items[index := Recycled(generations.items[index])];
          live := live - 1;
        }
      }
      assert t.records[..n] == t.records;
      assert generations.items == ClearedGenerations(t);
    }

    /** `captureInto`: the whole value of the table, in storage of its own. */
    method CaptureInto(target: Snapshot<T>)
      requires {target.generations, target.freeList} !! {generations, freeList} && target.generations != target.freeList
      modifies target, target.generations, target.freeList
      ensures target.View() == View() == old(View())
      ensures target.generations == old(target.generations) && target.freeList == old(target.freeList)
      ensures forall r :: r in target.records && r != null ==> fresh(r)
    {
      target.records := CloneAll(records);
      target.generations.Refill(generations);
      target.freeList.Refill(freeList);
      target.live := live;
    }

    /** `apply`: the table the snapshot describes, on arrays and records newly made. */
    method Apply(from: Snapshot<T>)
      modifies this
      ensures View() == from.View() == old(from.View())
      ensures fresh(generations) && fresh(freeList) && generations != freeList
      ensures forall r :: r in records && r != null ==> fresh(r)
    {
      records := CloneAll(from.records);
      generations := new Numbers(from.generations.items);
      freeList := new Numbers(from.freeList.items);
      live := from.live;
    }

    /** Anything a caller does to a live table, the contents of a record it holds included. */
    method Mutate(m: Mutation<T>)
      requires Valid()
      modifies this, generations, freeList, set r: Record<T> | r in records
      ensures SameArrays()
      ensures Valid()
      ensures forall r :: r in records ==> r == null || r in old(records) || fresh(r)
    {
      match m
      case Structural(OpCreate(value)) =>
        var record := new Record(value);
        var id := Create(record);
      case Structural(OpRelease(id)) => Release(id);
      case Structural(OpReleaseAt(index)) => ReleaseAt(index);
      case Structural(OpClear) => Clear();
      case Write(index, value) =>
        if 0 <= index < |records| && records[index] != null {
          ghost var before := View();
          records[index].value := value;
          SameShape(before, View());
        }
    }
  }

  datatype Mutation<T> = Structural(op: Op<T>) | Write(index: int, value: T)

  lemma {:induction false} SameShapeCount<R>(a: seq<Option<R>>, b: seq<Option<R>>)
    requires |a| == |b| && forall i :: 0 <= i < |a| ==> (a[i].Some? <==> b[i].Some?)
    ensures CountLive(a) == CountLive(b)
  {
    if a != [] {
      SameShapeCount(a[..|a| - 1], b[..|b| - 1]);
    }
  }

  /** The invariant is about which slots are occupied, never about what is in them. */
  lemma SameShape<R>(a: Table<R>, b: Table<R>)
    requires Ok(a) && |a.records| == |b.records| && b == a.(records := b.records)
    requires forall i :: 0 <= i < |a.records| ==> (a.records[i].Some? <==> b.records[i].Some?)
    ensures Ok(b)
  {
    SameShapeCount(a.records, b.records);
  }

  /**
   * Capture, any mutations at all, apply: the table is the one captured, down to its freelist and
   * generations, so every later run mints the same handles and answers the same queries.
   */
  method CaptureApply<T>(table: SlotTable<T>, mutations: seq<Mutation<T>>)
    requires table.Valid()
    modifies table, table.generations, table.freeList, set r: Record<T> | r in table.records
    ensures table.Valid() && table.View() == old(table.View())
    ensures fresh(table.generations) && fresh(table.freeList)
  {
    var snapshot := new Snapshot<T>();
    table.CaptureInto(snapshot);
    for i := 0 to |mutations|
      invariant table.Valid() && table.generations == old(table.generations) && table.freeList == old(table.freeList)
      invariant fresh(snapshot.generations) && fresh(snapshot.freeList)
      invariant forall r :: r in table.records && r != null ==> r in old(table.records) || fresh(r)
      invariant forall r :: r in table.records && r != null ==> r !in snapshot.records
      invariant fresh(snapshot) && snapshot.View() == old(table.View())
      invariant forall r :: r in snapshot.records && r != null ==> fresh(r)
    {
      table.Mutate(mutations[i]);
    }
    table.Apply(snapshot);
  }

  method CloneAll<T>(records: seq<Record?<T>>) returns (copies: seq<Record?<T>>)
    ensures Contents(copies) == Contents(records) == old(Contents(records))
    ensures forall r :: r in copies && r != null ==> fresh(r)
  {
    copies := [];
    for i := 0 to |records|
      invariant |copies| == i && Contents(records) == old(Contents(records))
      invariant forall r :: r in copies && r != null ==> fresh(r)
      invariant forall j :: 0 <= j < i ==> (copies[j] == null <==> records[j] == null)
      invariant forall j :: 0 <= j < i && records[j] != null ==> copies[j].value == records[j].value
    {
      if records[i] == null {
        copies := copies + [null];
      } else {
        var copy := records[i].Clone();
        copies := copies + [copy];
      }
    }
  }
}
