/** The object pool: slabs of slots, and a free list threaded through the dead slots themselves. A
    slot is its index in the concatenation of the slabs. */
module Pools {
  import opened Types

  /** What a slot holds: the free-list link while dead, the client's bits while live. */
  type Word = Option<nat>

  function Blank(n: nat): (words: seq<Word>)
    ensures |words| == n
  {
    seq(n, _ => None)
  }

  ghost function Link(free: seq<nat>, i: nat): Word {
    if i < |free| then Some(free[i]) else None
  }

  /** The chain that starts at `head` visits exactly `free`, in order. */
  ghost predicate Threads(memory: seq<Word>, head: Word, free: seq<nat>) {
    && head == Link(free, 0)
    && forall i {:trigger free[i]} :: 0 <= i < |free| ==> free[i] < |memory| && memory[free[i]] == Link(free, i + 1)
  }

  ghost predicate NoRepeats(free: seq<nat>) {
    forall i, j :: 0 <= i < j < |free| ==> free[i] != free[j]
  }

  /** Writing outside the chain leaves the chain alone. */
  lemma {:induction false} ThreadsOther(memory: seq<Word>, head: Word, free: seq<nat>, x: nat, w: Word)
    requires Threads(memory, head, free) && x < |memory| && x !in Members(free)
    ensures Threads(memory[x := w], head, free)
  {
    forall i | 0 <= i < |free| ensures free[i] != x {}
  }

  lemma {:induction false} HeadIs(memory: seq<Word>, head: Word, free: seq<nat>)
    requires Threads(memory, head, free)
    ensures head == if free == [] then None else Some(free[0])
  {
  }

  lemma {:induction false} ThreadsMore(memory: seq<Word>, head: Word, free: seq<nat>, memory': seq<Word>)
    requires Threads(memory, head, free) && memory <= memory'
    ensures Threads(memory', head, free) && forall i :: 0 <= i < |free| ==> free[i] < |memory|
  {
  }

  lemma {:induction false} ThreadsPush(memory: seq<Word>, head: Word, free: seq<nat>, x: nat)
    requires Threads(memory, head, free) && x < |memory| && x !in Members(free)
    ensures Threads(memory[x := head], Some(x), [x] + free)
  {
    ThreadsOther(memory, head, free, x, head);
    var memory', free' := memory[x := head], [x] + free;
    forall i: nat ensures Link(free', i + 1) == Link(free, i) {}
    forall i | 0 <= i < |free'| ensures free'[i] < |memory'| && memory'[free'[i]] == Link(free', i + 1) {
      if i > 0 {
        assert free'[i] == free[i - 1];
      }
    }
  }

  lemma {:induction false} ThreadsPop(memory: seq<Word>, head: Word, free: seq<nat>, w: Word)
    requires Threads(memory, head, free) && NoRepeats(free) && free != []
    ensures free[0] < |memory| && Threads(memory[free[0] := w], memory[free[0]], free[1..])
  {
    var memory', free' := memory[free[0] := w], free[1..];
    forall i: nat ensures Link(free', i) == Link(free, i + 1) {}
    forall i | 0 <= i < |free'| ensures free'[i] < |memory'| && memory'[free'[i]] == Link(free', i + 1) {
      assert free'[i] == free[i + 1];
    }
    assert memory[free[0]] == Link(free, 1);
  }

  ghost function Members(free: seq<nat>): set<nat> {
    set i | 0 <= i < |free| :: free[i]
  }

  ghost function Slots(n: nat): (s: set<nat>)
    ensures |s| == n && forall x: nat :: x in s <==> x < n
  {
    if n == 0 then {} else Slots(n - 1) + {n - 1}
  }

  ghost function LiveOf(capacity: nat, free: seq<nat>): (live: set<nat>)
    ensures forall x: nat :: x in live ==> x < capacity
  {
    Slots(capacity) - Members(free)
  }

  lemma {:induction false} MembersCount(free: seq<nat>)
    requires NoRepeats(free)
    ensures |Members(free)| == |free|
  {
    if free != [] {
      var front := free[..|free| - 1];
      MembersCount(front);
      assert Members(free) == Members(front) + {free[|free| - 1]} by {
        assert forall i :: 0 <= i < |front| ==> free[i] == front[i];
      }
      assert free[|free| - 1] !in Members(front);
    }
  }

  function Upward(lo: nat, hi: nat): seq<nat>
    requires lo <= hi
    decreases hi - lo
  {
    if lo == hi then [] else [lo] + Upward(lo + 1, hi)
  }

  lemma {:induction false} UpwardIs(lo: nat, hi: nat)
    requires lo <= hi
    ensures |Upward(lo, hi)| == hi - lo && forall k :: 0 <= k < hi - lo ==> Upward(lo, hi)[k] == lo + k
    decreases hi - lo
  {
    if lo < hi {
      UpwardIs(lo + 1, hi);
    }
  }

  /** A new slab's slots are new to the free list, and none of them is live. */
  lemma {:induction false} NewSlabFree(base: nat, capacity: nat, free: seq<nat>)
    requires base <= capacity && NoRepeats(free) && forall i :: 0 <= i < |free| ==> free[i] < base
    ensures NoRepeats(Upward(base, capacity) + free)
    ensures LiveOf(capacity, Upward(base, capacity) + free) == LiveOf(base, free)
  {
    var up := Upward(base, capacity);
    UpwardIs(base, capacity);
    forall x: nat | base <= x < capacity ensures x in Members(up + free) {
      assert (up + free)[x - base] == x;
    }
    forall x | x in Members(free) ensures x in Members(up + free) {
      var i :| 0 <= i < |free| && free[i] == x;
      assert (up + free)[|up| + i] == x;
    }
  }

  lemma {:induction false} NothingUp(x: nat, free: seq<nat>)
    ensures Upward(x, x) + free == free
  {
  }

  lemma {:induction false} NotYetFree(base: nat, x: nat, capacity: nat, free: seq<nat>)
    requires base <= x < capacity && forall i :: 0 <= i < |free| ==> free[i] < base
    ensures x !in Members(Upward(x + 1, capacity) + free)
    ensures Upward(x, capacity) + free == [x] + (Upward(x + 1, capacity) + free)
  {
    UpwardIs(x + 1, capacity);
  }

  lemma {:induction false} TakeFirst(capacity: nat, free: seq<nat>)
    requires free != [] && NoRepeats(free) && free[0] < capacity
    ensures NoRepeats(free[1..]) && free[0] !in LiveOf(capacity, free)
    ensures LiveOf(capacity, free[1..]) == LiveOf(capacity, free) + {free[0]}
  {
    var rest := free[1..];
    forall i | 0 <= i < |rest| ensures rest[i] == free[i + 1] {}
    forall x | x in Members(free) ensures x == free[0] || x in Members(rest) {
      var i :| 0 <= i < |free| && free[i] == x;
      if i > 0 {
        assert rest[i - 1] == x;
      }
    }
    assert Members(free) == {free[0]} + Members(rest);
  }

  lemma {:induction false} PutFirst(capacity: nat, free: seq<nat>, slot: nat)
    requires NoRepeats(free) && slot in LiveOf(capacity, free)
    ensures slot < capacity && slot !in Members(free) && NoRepeats([slot] + free)
    ensures LiveOf(capacity, [slot] + free) == LiveOf(capacity, free) - {slot}
  {
    assert Members([slot] + free) == {slot} + Members(free) by {
      forall x | x in Members(free) ensures x in Members([slot] + free) {
        var i :| 0 <= i < |free| && free[i] == x;
        assert ([slot] + free)[i + 1] == x;
      }
      assert ([slot] + free)[0] == slot;
    }
  }

  /** The capacity after an allocation with `live` of `capacity` slots taken. */
  function PoolGrow(capacity: nat, live: nat, slab: nat): nat {
    if live == capacity then capacity + slab else capacity
  }

  /** The slots of so many slabs. */
  function Slabs(n: nat, slab: nat): nat {
    n * slab
  }

  lemma {:induction false} SlabsMore(n: nat, slab: nat)
    ensures Slabs(0, slab) == 0 && Slabs(n + 1, slab) == Slabs(n, slab) + slab
  {
  }

  class Pool {
    const slabObjects: nat
    var capacity: nat
    var live: nat
    var freeHead: Word
    var memory: seq<Word>
    ghost var free: seq<nat>

    ghost predicate Valid()
      reads this
    {
      && slabObjects > 0
      && capacity == |memory|
      && Threads(memory, freeHead, free) && NoRepeats(free)
      && live + |free| == capacity
    }

    /** The slots handed out and not given back. */
    ghost function Live(): set<nat>
      reads this
    {
      LiveOf(capacity, free)
    }

    constructor (slabObjects: nat)
      requires slabObjects > 0
      ensures Valid() && this.slabObjects == slabObjects && capacity == 0 && live == 0 && Live() == {}
    {
      this.slabObjects := slabObjects;
      capacity, live := 0, 0;
      freeHead, memory, free := None, [], [];
    }

    /** Live and free slots partition the capacity, and `live` counts the live ones. */
    lemma {:induction false} Partition()
      requires Valid()
      ensures Live() !! Members(free) && Live() + Members(free) == Slots(capacity)
      ensures |Live()| == live
    {
      MembersCount(free);
      assert Members(free) <= Slots(capacity);
      assert Slots(capacity) == Live() + Members(free);
    }

    lemma {:induction false} LiveCounts()
      requires Valid()
      ensures |Live()| == live
    {
      Partition();
    }

    /** Link a dead slot in at the head of the free list. */
    method Push(slot: nat)
      requires Threads(memory, freeHead, free) && slot < |memory| && slot !in Members(free)
      modifies `memory, `freeHead, `free
      ensures Threads(memory, freeHead, free) && free == [slot] + old(free)
      ensures memory == old(memory)[slot := old(freeHead)]
    {
      ThreadsPush(memory, freeHead, free, slot);
      memory := memory[slot := freeHead];
      freeHead := Some(slot);
      free := [slot] + free;
    }

    /** One slab more, threaded back to front: its slots are free in ascending order ahead of the rest. */
    method AddSlab()
      requires Valid()
      modifies this
      ensures Valid() && live == old(live)
      ensures capacity == old(capacity) + slabObjects
      ensures free == Upward(old(capacity), capacity) + old(free)
      ensures Live() == old(Live())
      ensures old(memory) <= memory
    {
      var base := capacity;
      ghost var memory0, free0 := memory, free;
      hide Threads, NoRepeats, LiveOf, Members, Upward;
      memory := memory + Blank(slabObjects);
      assert memory[..base] == memory0;
      ThreadsMore(memory0, freeHead, free, memory);
      ThreadSlab(base);
      capacity := capacity + slabObjects;
      UpwardIs(base, capacity);
      NewSlabFree(base, capacity, free0);
    }

    method ThreadSlab(base: nat)
      requires Threads(memory, freeHead, free) && |memory| == base + slabObjects
      requires forall i :: 0 <= i < |free| ==> free[i] < base
      modifies `memory, `freeHead, `free
      ensures Threads(memory, freeHead, free) && |memory| == base + slabObjects
      ensures free == Upward(base, base + slabObjects) + old(free)
      ensures memory[..base] == old(memory)[..base]
    {
      hide Threads, Members, Upward;
      var i: nat := slabObjects;
      NothingUp(base + slabObjects, free);
      while i > 0
        invariant i <= slabObjects && |memory| == base + slabObjects
        invariant free == Upward(base + i, base + slabObjects) + old(free)
        invariant Threads(memory, freeHead, free)
        invariant memory[..base] == old(memory)[..base]
      {
        i := i - 1;
        NotYetFree(base, base + i, base + slabObjects, old(free));
        Push(base + i);
      }
    }

    /** Grow until `n` slots exist. */
    method Reserve(n: nat)
      requires Valid()
      modifies this
      ensures Valid() && live == old(live) && Live() == old(Live())
      ensures capacity >= n
      ensures if old(capacity) >= n then capacity == old(capacity) else capacity < n + slabObjects
      ensures exists k: nat :: capacity == old(capacity) + Slabs(k, slabObjects)
      ensures old(memory) <= memory
    {
      hide Slabs;
      ghost var slabs := 0;
      SlabsMore(0, slabObjects);
      while capacity < n
        invariant Valid() && live == old(live) && Live() == old(Live())
        invariant capacity == old(capacity) + Slabs(slabs, slabObjects)
        invariant if old(capacity) >= n then capacity == old(capacity) else capacity < n + slabObjects
        invariant old(memory) <= memory
      {
        AddSlab();
        SlabsMore(slabs, slabObjects);
        slabs := slabs + 1;
      }
    }

    /** Hands out a slot that was not live: the one freed last, if any is free. */
    method Alloc(content: Word) returns (slot: nat)
      requires Valid()
      modifies this
      ensures Valid()
      ensures slot !in old(Live()) && Live() == old(Live()) + {slot} && live == old(live) + 1
      ensures old(free) != [] ==> slot == old(free)[0] && free == old(free)[1..]
      ensures old(free) == [] ==> slot == old(capacity)
      ensures capacity == PoolGrow(old(capacity), old(live), slabObjects)
      ensures capacity == if old(live) == old(capacity) then old(capacity) + slabObjects else old(capacity)
      ensures memory[slot] == content && forall x :: x in old(Live()) ==> memory[x] == old(memory)[x]
    {
      hide Threads, NoRepeats, Upward, LiveOf;
      HeadIs(memory, freeHead, free);
      if freeHead == None {
        AddSlab();
        UpwardIs(old(capacity), capacity);
        HeadIs(memory, freeHead, free);
      }
      slot := freeHead.value;
      Unlink(slot, content);
    }

    method Unlink(slot: nat, content: Word)
      requires Valid() && freeHead == Some(slot) && free != [] && free[0] == slot
      modifies this
      ensures Valid() && capacity == old(capacity) && free == old(free)[1..]
      ensures slot !in old(Live()) && Live() == old(Live()) + {slot} && live == old(live) + 1
      ensures slot < |memory| && memory == old(memory)[slot := content]
    {
      TakeFirst(capacity, free);
      ThreadsPop(memory, freeHead, free, content);
      hide Threads, NoRepeats, LiveOf;
      freeHead := memory[slot];
      live := live + 1;
      free := free[1..];
      memory := memory[slot := content];
    }

    /** Takes a live slot back; it is the next to be handed out. */
    method Dealloc(slot: nat)
      requires Valid() && slot in Live()
      modifies this
      ensures Valid() && capacity == old(capacity)
      ensures Live() == old(Live()) - {slot} && live == old(live) - 1
      ensures free == [slot] + old(free) && memory == old(memory)[slot := old(freeHead)]
    {
      Partition();
      PutFirst(capacity, free, slot);
      hide Threads, NoRepeats, LiveOf, Members;
      Push(slot);
      live := live - 1;
    }

    /** The client writes to an object it holds; the free list does not notice. */
    method Write(slot: nat, content: Word)
      requires Valid() && slot in Live()
      modifies this`memory
      ensures Valid() && memory == old(memory)[slot := content]
    {
      ThreadsOther(memory, freeHead, free, slot, content);
      memory := memory[slot := content];
    }
  }
}
