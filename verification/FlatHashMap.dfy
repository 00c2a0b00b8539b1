/** The open-addressing map: linear probing, backward-shift deletion, load at most one half.  For
    every hash function it is a mathematical map. */
module FlatHashMaps {
  import opened Cyclic
  import opened Types

  datatype Slot<K, V> = Slot(key: K, value: V)

  function Home<K>(mix: K -> nat, key: K, cap: nat): (h: nat)
    requires cap > 0
    ensures h < cap
  {
    mix(key) % cap
  }

  /** The home of a key is its hash, but for whole turns around the table. */
  lemma {:induction false} HomeIsHash<K>(mix: K -> nat, key: K, cap: nat)
    requires cap > 0
    ensures exists turns: nat :: mix(key) == Turns(turns, cap) + Home(mix, key, cap)
  {
    assert mix(key) == Turns(mix(key) / cap, cap) + Home(mix, key, cap);
  }

  function Turns(n: nat, cap: nat): nat {
    n * cap
  }

  /** `x` is on the probe path that leads from the home of `key` to slot `p`. */
  ghost predicate OnPath<K>(mix: K -> nat, key: K, x: nat, p: nat, cap: nat)
    requires x < cap && p < cap
  {
    Dist(Home(mix, key, cap), x, cap) <= Dist(Home(mix, key, cap), p, cap)
  }

  /** `pos` says where every key sits, and every used slot is the place of its key. */
  ghost predicate Seated<K, V>(slots: seq<Slot<K, V>>, used: seq<bool>, pos: map<K, nat>) {
    && |slots| == |used|
    && (forall k :: k in pos ==> pos[k] < |used| && used[pos[k]] && slots[pos[k]].key == k)
    && (forall p :: 0 <= p < |used| && used[p] ==> slots[p].key in pos && pos[slots[p].key] == p)
  }

  /** No probe path to a used slot has a gap. */
  ghost predicate Chained<K, V>(mix: K -> nat, slots: seq<Slot<K, V>>, used: seq<bool>) {
    && |slots| == |used|
    && (forall p, x :: 0 <= p < |used| && 0 <= x < |used| && used[p] && OnPath(mix, slots[p].key, x, p, |used|) ==> used[x])
  }

  ghost predicate Table<K, V>(mix: K -> nat, slots: seq<Slot<K, V>>, used: seq<bool>, pos: map<K, nat>) {
    Seated(slots, used, pos) && Chained(mix, slots, used)
  }

  /** The key-to-value reading of the slots. */
  ghost function Reading<K, V>(slots: seq<Slot<K, V>>, used: seq<bool>, pos: map<K, nat>): map<K, V>
    requires Seated(slots, used, pos)
  {
    map k | k in pos :: slots[pos[k]].value
  }

  /** While fewer keys than slots are seated, some slot is empty. */
  lemma {:induction false} SomeEmpty<K, V>(slots: seq<Slot<K, V>>, used: seq<bool>, pos: map<K, nat>) returns (e: nat)
    requires Seated(slots, used, pos) && |pos| < |used|
    ensures e < |used| && !used[e]
  {
    if forall p :: 0 <= p < |used| ==> used[p] {
      CountUsed(slots, used, pos, |used|);
      assert false;
    }
    e :| 0 <= e < |used| && !used[e];
  }

  lemma {:induction false} CountUsed<K, V>(slots: seq<Slot<K, V>>, used: seq<bool>, pos: map<K, nat>, n: nat)
    requires Seated(slots, used, pos) && n <= |used| && forall p :: 0 <= p < n ==> used[p]
    ensures n <= |pos|
  {
    CountKeys(slots, used, pos, n);
    Subset(KeysBelow(pos, n), pos.Keys);
  }

  ghost function KeysBelow<K>(pos: map<K, nat>, n: nat): set<K> {
    set k | k in pos && pos[k] < n
  }

  lemma {:induction false} KeysStep<K, V>(slots: seq<Slot<K, V>>, used: seq<bool>, pos: map<K, nat>, n: nat)
    requires Seated(slots, used, pos) && 0 < n <= |used|
    ensures |KeysBelow(pos, n)| == |KeysBelow(pos, n - 1)| + if used[n - 1] then 1 else 0
  {
    assert KeysBelow(pos, n) == KeysBelow(pos, n - 1) + if used[n - 1] then {slots[n - 1].key} else {};
  }

  lemma {:induction false} CountKeys<K, V>(slots: seq<Slot<K, V>>, used: seq<bool>, pos: map<K, nat>, n: nat)
    requires Seated(slots, used, pos) && n <= |used| && forall p :: 0 <= p < n ==> used[p]
    ensures |KeysBelow(pos, n)| == n
  {
    if n > 0 {
      CountKeys(slots, used, pos, n - 1);
      KeysStep(slots, used, pos, n);
    } else {
      assert KeysBelow(pos, 0) == {};
    }
  }

  lemma {:induction false} Subset<T>(a: set<T>, b: set<T>)
    requires a <= b
    ensures |a| <= |b|
  {
    assert b == a + (b - a);
  }

  // ---- probing ----

  /** Every slot that a probe for `key` passed before `idx` is used, and by another key. */
  ghost predicate Passed<K, V>(mix: K -> nat, slots: seq<Slot<K, V>>, used: seq<bool>, key: K, idx: nat)
    requires |slots| == |used| && idx < |used|
  {
    var home := Home(mix, key, |used|);
    forall x :: 0 <= x < |used| && Dist(home, x, |used|) < Dist(home, idx, |used|) ==> used[x] && slots[x].key != key
  }

  lemma {:induction false} PassedNone<K, V>(mix: K -> nat, slots: seq<Slot<K, V>>, used: seq<bool>, key: K)
    requires |slots| == |used| && |used| > 0
    ensures Passed(mix, slots, used, key, Home(mix, key, |used|))
  {
    hide Home;
  }

  /** A probe that reaches an empty slot has seen that the key is nowhere. */
  lemma {:induction false} NotSeated<K, V>(mix: K -> nat, slots: seq<Slot<K, V>>, used: seq<bool>,
          pos: map<K, nat>, key: K, idx: nat)
    requires Table(mix, slots, used, pos) && idx < |used| && !used[idx] && Passed(mix, slots, used, key, idx)
    ensures key !in pos
  {
    hide Home;
    forall k | k in pos ensures k != key {
      assert used[pos[k]] && slots[pos[k]].key == k;
      assert !OnPath(mix, slots[pos[k]].key, idx, pos[k], |used|);
    }
  }

  /** Filling the slot a probe stopped at keeps the table. */
  lemma {:induction false} Filled<K, V>(mix: K -> nat, slots: seq<Slot<K, V>>, used: seq<bool>,
          pos: map<K, nat>, key: K, value: V, idx: nat)
    requires Table(mix, slots, used, pos) && idx < |used| && !used[idx] && Passed(mix, slots, used, key, idx) && key !in pos
    ensures Table(mix, slots[idx := Slot(key, value)], used[idx := true], pos[key := idx])
    ensures Reading(slots[idx := Slot(key, value)], used[idx := true], pos[key := idx])
            == Reading(slots, used, pos)[key := value]
  {
    hide Home;
    var slots', used', pos' := slots[idx := Slot(key, value)], used[idx := true], pos[key := idx];
    assert Seated(slots', used', pos') by {
      forall k | k in pos ensures pos[k] != idx {}
    }
    forall p, x | 0 <= p < |used'| && 0 <= x < |used'| && used'[p] && OnPath(mix, slots'[p].key, x, p, |used'|) ensures used'[x] {
      if p != idx {
        assert OnPath(mix, slots[p].key, x, p, |used|);
      } else if x != idx {
        DifferentPlaces(Home(mix, key, |used|), x, idx, |used|);
      }
    }
  }

  lemma {:induction false} DifferentPlaces(h: nat, x: nat, y: nat, cap: nat)
    requires h < cap && x < cap && y < cap && x != y
    ensures Dist(h, x, cap) != Dist(h, y, cap)
  {
  }

  // ---- deleting ----

  /** The state of a deletion: `hole` is free (though still marked used), and a path may lack it
      only if it leads to a slot that the probe has not reached. */
  ghost predicate Shifting<K, V>(mix: K -> nat, slots: seq<Slot<K, V>>, used: seq<bool>, pos: map<K, nat>, hole: nat, probe: nat) {
    && |slots| == |used| && hole < |used| && probe < |used| && used[hole]
    && Seated(slots, used[hole := false], pos)
    && (forall p, x :: 0 <= p < |used| && 0 <= x < |used| && used[p] && p != hole && OnPath(mix, slots[p].key, x, p, |used|) ==>
          used[x] && (x == hole ==> Dist(hole, probe, |used|) < Dist(hole, p, |used|)))
    && (forall x :: 0 <= x < |used| && Dist(hole, x, |used|) <= Dist(hole, probe, |used|) ==> used[x])
  }

  lemma {:induction false} ShiftStarts<K, V>(mix: K -> nat, slots: seq<Slot<K, V>>, used: seq<bool>,
          pos: map<K, nat>, key: K)
    requires Table(mix, slots, used, pos) && key in pos
    ensures Shifting(mix, slots, used, pos - {key}, pos[key], pos[key])
    ensures Reading(slots, used[pos[key] := false], pos - {key}) == Reading(slots, used, pos) - {key}
  {
    var hole := pos[key];
    assert Seated(slots, used[hole := false], pos - {key}) by {
      forall p | 0 <= p < |used| && used[hole := false][p] ensures slots[p].key in pos - {key} {}
    }
    forall x | 0 <= x < |used| && Dist(hole, x, |used|) <= Dist(hole, hole, |used|) ensures used[x] {
      assert x == hole;
    }
    forall p | 0 <= p < |used| && p != hole ensures 0 < Dist(hole, p, |used|) {}
  }

  lemma {:induction false} MoveSeated<K, V>(slots: seq<Slot<K, V>>, used: seq<bool>, pos: map<K, nat>, hole: nat, q: nat)
    requires |slots| == |used| && hole < |used| && q < |used| && q != hole && used[hole] && used[q]
    requires Seated(slots, used[hole := false], pos)
    ensures slots[q].key in pos
    ensures Seated(slots[hole := slots[q]], used[q := false], pos[slots[q].key := hole])
    ensures Reading(slots[hole := slots[q]], used[q := false], pos[slots[q].key := hole]) == Reading(slots, used[hole := false], pos)
  {
    var slots', used', pos', key := slots[hole := slots[q]], used[q := false], pos[slots[q].key := hole], slots[q].key;
    assert used[hole := false][q];
    forall k | k in pos' && k != key
      ensures pos'[k] < |used| && used'[pos'[k]] && slots'[pos'[k]] == slots[pos[k]] && slots[pos[k]].key == k
    {
      assert used[hole := false][pos[k]] && slots[pos[k]].key == k;
    }
    forall p | 0 <= p < |used| && used'[p] ensures slots'[p].key in pos' && pos'[slots'[p].key] == p {
      if p != hole {
        assert used[hole := false][p];
      }
    }
  }

  /** The code's test for moving: no further from home than from the hole. */
  lemma {:induction false} MoveTest<K>(mix: K -> nat, key: K, hole: nat, q: nat, cap: nat)
    requires hole < cap && q < cap
    ensures (q - Home(mix, key, cap)) % cap >= (q - hole) % cap <==> OnPath(mix, key, hole, q, cap)
  {
    hide Home;
    var home := Home(mix, key, cap);
    Masked(q, home, q, cap);
    Masked(q, hole, q, cap);
    OnTheWay(home, hole, q, cap);
  }

  /** A key whose path contains the hole moves into it, and its old slot becomes the hole. */
  lemma {:induction false} ShiftMoves<K, V>(mix: K -> nat, slots: seq<Slot<K, V>>, used: seq<bool>,
          pos: map<K, nat>, hole: nat, probe: nat, q: nat)
    requires Shifting(mix, slots, used, pos, hole, probe) && q == Next(probe, |used|) && used[q] && q != hole
    requires OnPath(mix, slots[q].key, hole, q, |used|)
    ensures slots[q].key in pos
    ensures Shifting(mix, slots[hole := slots[q]], used, pos[slots[q].key := hole], q, q)
    ensures Seated(slots[hole := slots[q]], used[q := false], pos[slots[q].key := hole])
    ensures Reading(slots[hole := slots[q]], used[q := false], pos[slots[q].key := hole]) == Reading(slots, used[hole := false], pos)
  {
    hide Home, Reading;
    MoveSeated(slots, used, pos, hole, q);
    var slots', key, cap := slots[hole := slots[q]], slots[q].key, |used|;
    forall p, x | 0 <= p < cap && 0 <= x < cap && used[p] && p != q && OnPath(mix, slots'[p].key, x, p, cap)
      ensures used[x] && (x == q ==> Dist(q, q, cap) < Dist(q, p, cap))
    {
      if p == hole {
        assert OnPath(mix, key, x, q, cap);
        if x == q {
          DifferentPlaces(Home(mix, key, cap), q, hole, cap);
        }
      } else {
        assert OnPath(mix, slots[p].key, x, p, cap);
      }
    }
    forall x | 0 <= x < cap && Dist(q, x, cap) <= Dist(q, q, cap) ensures x == q {}
  }

  /** A key whose path does not contain the hole stays. */
  lemma {:induction false} ShiftSkips<K, V>(mix: K -> nat, slots: seq<Slot<K, V>>, used: seq<bool>,
          pos: map<K, nat>, hole: nat, probe: nat, q: nat)
    requires Shifting(mix, slots, used, pos, hole, probe) && q == Next(probe, |used|) && used[q] && q != hole
    requires !OnPath(mix, slots[q].key, hole, q, |used|)
    ensures Shifting(mix, slots, used, pos, hole, q)
  {
    hide Home;
    var cap := |used|;
    DistNext(hole, probe, cap);
    forall p, x | 0 <= p < cap && 0 <= x < cap && used[p] && p != hole && OnPath(mix, slots[p].key, x, p, cap)
      ensures used[x] && (x == hole ==> Dist(hole, q, cap) < Dist(hole, p, cap))
    {
      if x == hole && p != q {
        DifferentPlaces(hole, p, q, cap);
      }
    }
    forall x | 0 <= x < cap && Dist(hole, x, cap) <= Dist(hole, q, cap) ensures used[x] {
      if x != q {
        DifferentPlaces(hole, x, q, cap);
      }
    }
  }

  /** Once the probe meets an empty slot the hole can be given up. */
  lemma {:induction false} ShiftEnds<K, V>(mix: K -> nat, slots: seq<Slot<K, V>>, used: seq<bool>,
          pos: map<K, nat>, hole: nat, probe: nat, q: nat)
    requires Shifting(mix, slots, used, pos, hole, probe) && q == Next(probe, |used|) && !used[q]
    ensures Table(mix, slots, used[hole := false], pos)
  {
    hide Home, Reading;
    var cap := |used|;
    DistNext(hole, probe, cap);
    forall p | 0 <= p < cap && used[p] && p != hole ensures !OnPath(mix, slots[p].key, hole, p, cap) {
      var home := Home(mix, slots[p].key, cap);
      assert !OnPath(mix, slots[p].key, q, p, cap);
      OnTheWay(home, hole, p, cap);
      OnTheWay(hole, q, p, cap);
      OnTheWay(home, q, p, cap);
    }
  }

  /** A probe goes on past a used slot that holds another key, and comes closer to an empty one. */
  lemma {:induction false} PassedOn<K, V>(mix: K -> nat, slots: seq<Slot<K, V>>, used: seq<bool>, key: K, idx: nat, e: nat)
    requires |slots| == |used| && idx < |used| && e < |used| && !used[e]
    requires Passed(mix, slots, used, key, idx) && used[idx] && slots[idx].key != key
    ensures Passed(mix, slots, used, key, Next(idx, |used|))
    ensures Dist(Next(idx, |used|), e, |used|) < Dist(idx, e, |used|)
  {
    hide Home;
    var home, cap := Home(mix, key, |used|), |used|;
    DistNext(home, idx, cap);
    forall x | 0 <= x < cap && Dist(home, x, cap) < Dist(home, Next(idx, cap), cap)
      ensures used[x] && slots[x].key != key
    {
      if x != idx {
        DifferentPlaces(home, x, idx, cap);
      }
    }
  }

  /** The probe cannot come round to the hole while some slot is empty. */
  lemma {:induction false} NotRound<K, V>(mix: K -> nat, slots: seq<Slot<K, V>>, used: seq<bool>,
          pos: map<K, nat>, hole: nat, probe: nat, e: nat)
    requires Shifting(mix, slots, used, pos, hole, probe) && e < |used| && !used[e]
    ensures Next(probe, |used|) != hole
    ensures Dist(Next(probe, |used|), e, |used|) < Dist(probe, e, |used|)
  {
    hide Home, Seated;
    assert probe != e;
    assert Dist(hole, probe, |used|) < Dist(hole, e, |used|);
  }

  /** The part of the map that sat in the first `n` slots. */
  ghost function Moved<K, V>(contents: map<K, V>, pos: map<K, nat>, n: nat): map<K, V> {
    map k | k in contents && k in pos && pos[k] < n :: contents[k]
  }

  lemma {:induction false} KeysOf<K, V>(slots: seq<Slot<K, V>>, used: seq<bool>, pos: map<K, nat>)
    requires Seated(slots, used, pos)
    ensures Reading(slots, used, pos).Keys == pos.Keys && |Reading(slots, used, pos)| == |pos|
  {
    var m := Reading(slots, used, pos);
    assert m.Keys == pos.Keys;
    assert |m| == |m.Keys| && |pos| == |pos.Keys|;
  }

  lemma {:induction false} MoveNone<K, V>(contents: map<K, V>, pos: map<K, nat>)
    ensures Moved(contents, pos, 0) == map[]
  {
  }

  lemma {:induction false} MoveAll<K, V>(slots: seq<Slot<K, V>>, used: seq<bool>, pos: map<K, nat>)
    requires Seated(slots, used, pos)
    ensures Moved(Reading(slots, used, pos), pos, |used|) == Reading(slots, used, pos)
  {
  }

  /** One more slot moves one more key, if it is used, and then there was room for it. */
  lemma {:induction false} MoveNext<K, V>(slots: seq<Slot<K, V>>, used: seq<bool>, pos: map<K, nat>, n: nat)
    requires Seated(slots, used, pos) && n < |used|
    ensures var m := Moved(Reading(slots, used, pos), pos, n);
      Moved(Reading(slots, used, pos), pos, n + 1) == if used[n] then m[slots[n].key := slots[n].value] else m
    ensures var m := Moved(Reading(slots, used, pos), pos, n);
      used[n] ==> slots[n].key !in m && |m| < |pos|
  {
    var m := Moved(Reading(slots, used, pos), pos, n);
    if used[n] {
      assert m.Keys + {slots[n].key} <= pos.Keys;
      Subset(m.Keys + {slots[n].key}, pos.Keys);
      assert |m| == |m.Keys|;
    }
  }

  // ---- the map ----

  lemma {:induction false} Doubled(n: nat)
    requires PowerOfTwo(n)
    ensures PowerOfTwo(n * 2)
  {
  }

  lemma {:induction false} Sixteen()
    ensures PowerOfTwo(16)
  {
    assert PowerOfTwo(1) && PowerOfTwo(2) && PowerOfTwo(4) && PowerOfTwo(8);
  }

  /** The least of 16, 32, 64, ... that is not below `n`. */
  method NextPow2(n: nat) returns (cap: nat)
    ensures PowerOfTwo(cap) && cap >= 16 && cap >= n
    ensures cap == 16 || cap < 2 * n
  {
    Sixteen();
    cap := 16;
    while cap < n
      invariant PowerOfTwo(cap) && cap >= 16
      invariant cap == 16 || cap < 2 * n
    {
      Doubled(cap);
      cap := cap * 2;
    }
  }

  /** The capacity after an insertion into a map of `size` keys. */
  function MapGrow(capacity: nat, size: nat): nat {
    if (size + 1) * 2 > capacity then capacity * 2 else capacity
  }

  class FlatHashMap<K(==, 0), V(0)> {
    const mix: K -> nat
    var slots: array<Slot<K, V>>
    var used: array<bool>
    var size: nat
    ghost var pos: map<K, nat>

    ghost predicate Valid()
      reads this, slots, used
    {
      && slots.Length == used.Length
      && used.Length >= 16 && PowerOfTwo(used.Length)
      && Table(mix, slots[..], used[..], pos)
      && size == |pos| && size * 2 <= used.Length
    }

    ghost function Contents(): map<K, V>
      requires Valid()
      reads this, slots, used
    {
      Reading(slots[..], used[..], pos)
    }

    lemma {:induction false} SizeCounts()
      requires Valid()
      ensures size == |Contents()|
    {
      KeysOf(slots[..], used[..], pos);
    }

    /** Whether one more key would take the load above one half. */
    predicate Full()
      reads this
    {
      (size + 1) * 2 > used.Length
    }

    constructor (mix: K -> nat, initialCapacity: nat)
      ensures Valid() && Contents() == map[] && this.mix == mix && size == 0
      ensures initialCapacity <= used.Length && (used.Length == 16 || used.Length < 2 * initialCapacity)
      ensures fresh(slots) && fresh(used)
    {
      var cap := NextPow2(initialCapacity);
      this.mix := mix;
      slots := new Slot<K, V>[cap];
      used := new bool[cap](_ => false);
      size := 0;
      pos := map[];
    }

    /** The probe loop of all three operations: the slot of `key`, or the empty slot that shows
        it is absent. */
    method Probe(key: K) returns (idx: nat, hit: bool)
      requires Valid()
      ensures hit == (key in Contents()) && idx < used.Length
      ensures if hit then pos[key] == idx && slots[idx] == Slot(key, Contents()[key])
              else !used[idx] && Passed(mix, slots[..], used[..], key, idx)
    {
      hide Home, Passed, Chained;
      ghost var e := SomeEmpty(slots[..], used[..], pos);
      idx := Home(mix, key, used.Length);
      PassedNone(mix, slots[..], used[..], key);
      while used[idx]
        invariant idx < used.Length && Passed(mix, slots[..], used[..], key, idx)
        decreases Dist(idx, e, used.Length)
      {
        if slots[idx].key == key {
          return idx, true;
        }
        PassedOn(mix, slots[..], used[..], key, idx, e);
        Masked(idx, 0, 0, used.Length);
        idx := (idx + 1) % used.Length;
      }
      NotSeated(mix, slots[..], used[..], pos, key, idx);
      hit := false;
    }

    method Find(key: K) returns (found: Option<V>)
      requires Valid()
      ensures found == if key in Contents() then Some(Contents()[key]) else None
    {
      var idx, hit := Probe(key);
      return if hit then Some(slots[idx].value) else None;
    }

    /** False, and nothing stored, if the key is present; the table may have grown before that is
        noticed. */
    method Insert(key: K, value: V) returns (ok: bool)
      requires Valid()
      modifies this, slots, used
      ensures Valid() && size == old(size) + if ok then 1 else 0
      ensures ok == (key !in old(Contents()))
      ensures Contents() == if ok then old(Contents())[key := value] else old(Contents())
      ensures used.Length == MapGrow(old(used.Length), old(size))
      ensures used.Length == if (old(size) + 1) * 2 > old(used.Length) then 2 * old(used.Length) else old(used.Length)
      ensures if old(Full()) then fresh(slots) && fresh(used) else slots == old(slots) && used == old(used)
      decreases if Full() then 2 else 0
    {
      hide Home, Passed, PowerOfTwo, Table, Reading;
      if Full() {
        Doubled(used.Length);
        Rehash(used.Length * 2);
      }
      var idx, hit := Probe(key);
      if hit {
        return false;
      }
      Place(key, value, idx);
      return true;
    }

    method Place(key: K, value: V, idx: nat)
      requires Valid() && !Full() && key !in Contents()
      requires idx < used.Length && !used[idx] && Passed(mix, slots[..], used[..], key, idx)
      modifies this`size, this`pos, slots, used
      ensures Valid() && Contents() == old(Contents())[key := value] && size == old(size) + 1
    {
      hide Home, Passed, Chained, PowerOfTwo, Reading, Seated;
      ghost var slots0, used0, pos0 := slots[..], used[..], pos;
      assert key !in pos by { KeysOf(slots0, used0, pos0); }
      Filled(mix, slots0, used0, pos0, key, value, idx);
      slots[idx] := Slot(key, value);
      used[idx] := true;
      size := size + 1;
      pos := pos[key := idx];
      assert slots[..] == slots0[idx := Slot(key, value)] && used[..] == used0[idx := true];
    }

    /** Every insertion this makes finds room, so it does not come back here. */
    method Rehash(newCap: nat)
      requires Valid() && newCap >= 16 && PowerOfTwo(newCap) && size * 2 <= newCap
      modifies this
      ensures Valid() && Contents() == old(Contents()) && size == old(size)
      ensures used.Length == newCap && fresh(slots) && fresh(used)
      decreases 1
    {
      hide Home, Chained, PowerOfTwo, Seated, Reading, Moved;
      var oldSlots, oldUsed := slots, used;
      ghost var slots0, used0, pos0, contents := slots[..], used[..], pos, Contents();
      MoveNone(contents, pos);
      Clear(newCap);
      var i := 0;
      while i < oldSlots.Length
        invariant i <= oldSlots.Length
        invariant Valid() && used.Length == newCap && fresh(slots) && fresh(used)
        invariant slots != oldSlots && used != oldUsed
        invariant Contents() == Moved(contents, pos0, i)
      {
        MoveNext(slots0, used0, pos0, i);
        KeysOf(slots[..], used[..], pos);
        if oldUsed[i] {
          var _ := Insert(oldSlots[i].key, oldSlots[i].value);
        }
        i := i + 1;
      }
      MoveAll(slots0, used0, pos0);
      KeysOf(slots0, used0, pos0);
      KeysOf(slots[..], used[..], pos);
    }

    /** Make room for `n` keys. */
    method Reserve(n: nat)
      requires Valid()
      modifies this
      ensures Valid() && Contents() == old(Contents())
      ensures n * 2 <= used.Length
      ensures if n * 2 > old(used.Length) then used.Length < 4 * n || used.Length == 16
              else slots == old(slots) && used == old(used) && used.Length == old(used.Length)
      ensures unchanged(old(slots)) && unchanged(old(used))
      ensures used.Length > old(used.Length) ==> fresh(slots) && fresh(used)
    {
      hide PowerOfTwo, Table, Reading;
      if n * 2 > used.Length {
        var cap := NextPow2(n * 2);
        Rehash(cap);
      }
    }

    /** Deletes by shifting back every later key whose probe path contains the hole. */
    method Erase(key: K) returns (ok: bool)
      requires Valid()
      modifies this`size, this`pos, slots, used
      ensures Valid() && size == old(size) - if ok then 1 else 0
      ensures ok == (key in old(Contents()))
      ensures Contents() == old(Contents()) - {key}
    {
      hide Home, OnPath, Seated, Reading, Chained, Dist, PowerOfTwo;
      var idx, hit := Probe(key);
      KeysOf(slots[..], used[..], pos);
      if !hit {
        assert Contents() - {key} == Contents();
        return false;
      }
      ghost var e := SomeEmpty(slots[..], used[..], pos);
      ghost var rest := Contents() - {key};
      size := size - 1;
      ShiftStarts(mix, slots[..], used[..], pos, key);
      pos := pos - {key};
      CloseHole(idx, e);
      return true;
    }

    method CloseHole(idx: nat, ghost e: nat)
      requires slots.Length == used.Length && e < used.Length && !used[e] && idx < used.Length
      requires Shifting(mix, slots[..], used[..], pos, idx, idx)
      requires Seated(slots[..], used[..][idx := false], pos)
      modifies this`pos, slots, used
      ensures Table(mix, slots[..], used[..], pos) && |pos| == old(|pos|)
      ensures Reading(slots[..], used[..], pos) == old(Reading(slots[..], used[..][idx := false], pos))
    {
      hide *;
      ghost var rest := Reading(slots[..], used[..][idx := false], pos);
      var hole: nat, probe: nat := idx, idx;
      while true
        invariant hole < used.Length && probe < used.Length
        invariant Shifting(mix, slots[..], used[..], pos, hole, probe)
        invariant Seated(slots[..], used[..][hole := false], pos)
        invariant Reading(slots[..], used[..][hole := false], pos) == rest
        invariant |pos| == old(|pos|)
        invariant used[..] == old(used[..])
        decreases Dist(probe, e, used.Length)
      {
        ghost var before, slots0 := probe, slots[..];
        NotRound(mix, slots0, used[..], pos, hole, probe, e);
        Masked(probe, 0, 0, used.Length);
        probe := (probe + 1) % used.Length;
        if !used[probe] {
          ShiftEnds(mix, slots0, used[..], pos, hole, before, probe);
          break;
        }
        var home := Home(mix, slots[probe].key, used.Length);
        MoveTest(mix, slots[probe].key, hole, probe, used.Length);
        if (probe - home) % used.Length >= (probe - hole) % used.Length {
          ShiftMoves(mix, slots0, used[..], pos, hole, before, probe);
          pos := pos[slots[probe].key := hole];
          slots[hole] := slots[probe];
          assert slots[..] == slots0[hole := slots0[probe]];
          hole := probe;
        } else {
          ShiftSkips(mix, slots0, used[..], pos, hole, before, probe);
        }
      }
      ghost var used0 := used[..];
      used[hole] := false;
      assert used[..] == used0[hole := false];
    }

    method Clear(newCap: nat)
      requires newCap >= 16 && PowerOfTwo(newCap)
      modifies this
      ensures Valid() && Contents() == map[]
      ensures used.Length == newCap && fresh(slots) && fresh(used)
    {
      slots := new Slot<K, V>[newCap];
      used := new bool[newCap](_ => false);
      size := 0;
      pos := map[];
    }
  }
}
