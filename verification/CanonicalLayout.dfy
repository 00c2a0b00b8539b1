/** Deletion leaves no residue: which slots are occupied, and how far all keys together sit from
    their homes, depends only on the keys, the hash and the capacity, never on the history. */
module CanonicalLayouts {
  import opened Cyclic
  import opened FlatHashMaps

  /** Total distance of the keys in the first `n` slots from their homes. */
  ghost function ProbeDistance<K, V>(mix: K -> nat, slots: seq<Slot<K, V>>, used: seq<bool>, n: nat): nat
    requires |slots| == |used| && n <= |used|
  {
    if n == 0 then 0
    else ProbeDistance(mix, slots, used, n - 1)
         + if used[n - 1] then Dist(Home(mix, slots[n - 1].key, |used|), n - 1, |used|) else 0
  }

  ghost predicate Within<K>(pos: map<K, nat>, cap: nat) {
    forall k :: k in pos ==> pos[k] < cap
  }

  /** The keys seated below slot `n` whose probe path goes through slot `i` and further. */
  ghost function Crossing<K>(mix: K -> nat, pos: map<K, nat>, cap: nat, i: nat, n: nat): set<K>
    requires i < cap && Within(pos, cap)
  {
    set k | k in pos && pos[k] < n && Dist(Home(mix, k, cap), i, cap) < Dist(Home(mix, k, cap), pos[k], cap)
  }

  ghost function AtHome<K>(mix: K -> nat, keys: set<K>, cap: nat, i: nat): set<K>
    requires cap > 0
  {
    set k | k in keys && Home(mix, k, cap) == i
  }

  /** What enters slot `j` either stays in it or crosses it, and one key stays if any enters. */
  lemma {:induction false} Flow<K, V>(mix: K -> nat, slots: seq<Slot<K, V>>, used: seq<bool>, pos: map<K, nat>, i: nat)
    requires Table(mix, slots, used, pos) && Within(pos, |used|) && i < |used|
    ensures var cap, j := |used|, Next(i, |used|);
      var entering := |Crossing(mix, pos, cap, i, cap)| + |AtHome(mix, pos.Keys, cap, j)|;
      used[j] == (entering > 0) && |Crossing(mix, pos, cap, j, cap)| == if used[j] then entering - 1 else 0
  {
    hide Home;
    var cap, j := |used|, Next(i, |used|);
    var crossing, home, on := Crossing(mix, pos, cap, i, cap), AtHome(mix, pos.Keys, cap, j), Crossing(mix, pos, cap, j, cap);
    var staying := set k | k in pos && pos[k] == j;
    forall k | k in pos ensures k in crossing || k in home <==> OnPath(mix, k, j, pos[k], cap) {
      DistNext(Home(mix, k, cap), i, cap);
    }
    forall k | k in pos ensures !(k in crossing && k in home) {
      DistNext(Home(mix, k, cap), i, cap);
    }
    forall k | k in pos ensures k in on || k in staying <==> OnPath(mix, k, j, pos[k], cap) {
      if pos[k] != j {
        DifferentPlaces(Home(mix, k, cap), j, pos[k], cap);
      }
    }
    Parts(crossing, home, on, staying);
    Stays(mix, slots, used, pos, crossing + home, staying, j);
  }

  lemma {:induction false} Parts<K>(a: set<K>, b: set<K>, c: set<K>, d: set<K>)
    requires a + b == c + d && a !! b && c !! d
    ensures |a| + |b| == |c| + |d|
  {
    assert |a + b| == |a| + |b|;
    assert |c + d| == |c| + |d|;
  }

  lemma {:induction false} Stays<K, V>(mix: K -> nat, slots: seq<Slot<K, V>>, used: seq<bool>,
          pos: map<K, nat>, entering: set<K>, staying: set<K>, j: nat)
    requires Table(mix, slots, used, pos) && Within(pos, |used|) && j < |used|
    requires forall k :: k in staying <==> k in pos && pos[k] == j
    requires forall k :: k in entering <==> k in pos && OnPath(mix, k, j, pos[k], |used|)
    ensures used[j] == (entering != {})
    ensures |staying| == if used[j] then 1 else 0
  {
    hide Home;
    if used[j] {
      assert staying == {slots[j].key};
      assert slots[j].key in entering;
    } else {
      forall k | k in pos ensures k !in entering && k !in staying {
        assert used[pos[k]] && slots[pos[k]].key == k;
      }
      assert entering == {} && staying == {};
    }
  }

  // ---- two tables with the same keys ----

  ghost predicate SameKeys<K, V>(mix: K -> nat, slots1: seq<Slot<K, V>>, used1: seq<bool>, pos1: map<K, nat>,
                                 slots2: seq<Slot<K, V>>, used2: seq<bool>, pos2: map<K, nat>) {
    && Table(mix, slots1, used1, pos1) && Table(mix, slots2, used2, pos2)
    && |used1| == |used2| && pos1.Keys == pos2.Keys && Within(pos1, |used1|) && Within(pos2, |used1|)
  }

  /** If fewer paths cross slot 0 in the first table, fewer cross every slot. */
  lemma {:induction false} Dominated<K, V>(mix: K -> nat, slots1: seq<Slot<K, V>>, used1: seq<bool>, pos1: map<K, nat>,
                                           slots2: seq<Slot<K, V>>, used2: seq<bool>, pos2: map<K, nat>, i: nat)
    requires SameKeys(mix, slots1, used1, pos1, slots2, used2, pos2) && i < |used1|
    requires |Crossing(mix, pos1, |used1|, 0, |used1|)| <= |Crossing(mix, pos2, |used1|, 0, |used1|)|
    ensures |Crossing(mix, pos1, |used1|, i, |used1|)| <= |Crossing(mix, pos2, |used1|, i, |used1|)|
  {
    hide Home, Crossing, AtHome, Table;
    if i > 0 {
      Dominated(mix, slots1, used1, pos1, slots2, used2, pos2, i - 1);
      Flow(mix, slots1, used1, pos1, i - 1);
      Flow(mix, slots2, used2, pos2, i - 1);
    }
  }

  lemma {:induction false} UsedBelow<K, V>(mix: K -> nat, slots1: seq<Slot<K, V>>, used1: seq<bool>, pos1: map<K, nat>,
                                           slots2: seq<Slot<K, V>>, used2: seq<bool>, pos2: map<K, nat>)
    requires SameKeys(mix, slots1, used1, pos1, slots2, used2, pos2) && |used1| > 0
    requires |Crossing(mix, pos1, |used1|, 0, |used1|)| <= |Crossing(mix, pos2, |used1|, 0, |used1|)|
    ensures forall j :: 0 <= j < |used1| && used1[j] ==> used2[j]
  {
    hide Home, Crossing, AtHome, Table;
    var cap := |used1|;
    forall j | 0 <= j < cap && used1[j] ensures used2[j] {
      var i := if j == 0 then cap - 1 else j - 1;
      Dominated(mix, slots1, used1, pos1, slots2, used2, pos2, i);
      Flow(mix, slots1, used1, pos1, i);
      Flow(mix, slots2, used2, pos2, i);
    }
  }

  lemma {:induction false} UsedWithin<K, V>(mix: K -> nat, slots1: seq<Slot<K, V>>, used1: seq<bool>, pos1: map<K, nat>,
                                            slots2: seq<Slot<K, V>>, used2: seq<bool>, pos2: map<K, nat>)
    requires SameKeys(mix, slots1, used1, pos1, slots2, used2, pos2) && |used1| > 0
    requires |Crossing(mix, pos1, |used1|, 0, |used1|)| <= |Crossing(mix, pos2, |used1|, 0, |used1|)|
    ensures used1 == used2
  {
    hide Home, Crossing, AtHome, Chained;
    var cap := |used1|;
    UsedBelow(mix, slots1, used1, pos1, slots2, used2, pos2);
    AllUsed(slots1, used1, pos1);
    AllUsed(slots2, used2, pos2);
    assert |pos1| == |pos1.Keys| && |pos2| == |pos2.Keys|;
    SameUsed(used1, used2);
  }

  ghost function UsedSlots(used: seq<bool>, n: nat): set<nat>
    requires n <= |used|
  {
    set p: nat | p < n && used[p]
  }

  lemma {:induction false} UsedCount<K, V>(slots: seq<Slot<K, V>>, used: seq<bool>, pos: map<K, nat>, n: nat)
    requires Seated(slots, used, pos) && n <= |used|
    ensures |UsedSlots(used, n)| == |KeysBelow(pos, n)|
  {
    if n == 0 {
      assert KeysBelow(pos, 0) == {};
    } else {
      hide Seated, KeysBelow, UsedSlots;
      UsedCount(slots, used, pos, n - 1);
      UsedStep(used, n);
      KeysStep(slots, used, pos, n);
    }
  }

  lemma {:induction false} UsedStep(used: seq<bool>, n: nat)
    requires 0 < n <= |used|
    ensures |UsedSlots(used, n)| == |UsedSlots(used, n - 1)| + if used[n - 1] then 1 else 0
  {
    assert UsedSlots(used, n) == UsedSlots(used, n - 1) + if used[n - 1] then {n - 1} else {};
  }

  lemma {:induction false} AllUsed<K, V>(slots: seq<Slot<K, V>>, used: seq<bool>, pos: map<K, nat>)
    requires Seated(slots, used, pos)
    ensures |UsedSlots(used, |used|)| == |pos.Keys|
  {
    UsedCount(slots, used, pos, |used|);
    assert KeysBelow(pos, |used|) == pos.Keys;
  }

  lemma {:induction false} SameUsed(used1: seq<bool>, used2: seq<bool>)
    requires |used1| == |used2| && |UsedSlots(used1, |used1|)| == |UsedSlots(used2, |used1|)|
    requires forall j :: 0 <= j < |used1| && used1[j] ==> used2[j]
    ensures used1 == used2
  {
    SubsetSameSize(UsedSlots(used1, |used1|), UsedSlots(used2, |used1|));
    forall j: nat | j < |used1| ensures used1[j] == used2[j] {
      assert used1[j] <==> j in UsedSlots(used1, |used1|);
      assert used2[j] <==> j in UsedSlots(used2, |used1|);
    }
  }

  lemma {:induction false} SubsetSameSize<T>(a: set<T>, b: set<T>)
    requires a <= b && |a| == |b|
    ensures a == b
  {
    assert b == a + (b - a);
  }

  /** Equal occupancy makes the crossings differ by the same amount at every slot. */
  lemma {:induction false} SameDifference<K, V>(mix: K -> nat, slots1: seq<Slot<K, V>>, used1: seq<bool>, pos1: map<K, nat>,
                                                slots2: seq<Slot<K, V>>, used2: seq<bool>, pos2: map<K, nat>, i: nat)
    requires SameKeys(mix, slots1, used1, pos1, slots2, used2, pos2) && i < |used1| && used1 == used2
    ensures var cap := |used1|;
      |Crossing(mix, pos1, cap, i, cap)| - |Crossing(mix, pos2, cap, i, cap)|
      == |Crossing(mix, pos1, cap, 0, cap)| - |Crossing(mix, pos2, cap, 0, cap)|
  {
    hide Home, Crossing, AtHome, Table;
    if i > 0 {
      SameDifference(mix, slots1, used1, pos1, slots2, used2, pos2, i - 1);
      Flow(mix, slots1, used1, pos1, i - 1);
      Flow(mix, slots2, used2, pos2, i - 1);
    }
  }

  /** Nothing crosses an empty slot, so the crossings agree everywhere. */
  lemma {:induction false} SameCrossings<K, V>(mix: K -> nat, slots1: seq<Slot<K, V>>, used1: seq<bool>, pos1: map<K, nat>,
                                               slots2: seq<Slot<K, V>>, used2: seq<bool>, pos2: map<K, nat>, e: nat, i: nat)
    requires SameKeys(mix, slots1, used1, pos1, slots2, used2, pos2) && used1 == used2
    requires i < |used1| && e < |used1| && !used1[e]
    ensures |Crossing(mix, pos1, |used1|, i, |used1|)| == |Crossing(mix, pos2, |used1|, i, |used1|)|
  {
    hide Home, Crossing, AtHome, Table;
    var previous := if e == 0 then |used1| - 1 else e - 1;
    Flow(mix, slots1, used1, pos1, previous);
    Flow(mix, slots2, used2, pos2, previous);
    SameDifference(mix, slots1, used1, pos1, slots2, used2, pos2, e);
    SameDifference(mix, slots1, used1, pos1, slots2, used2, pos2, i);
  }

  // ---- distances are crossings, counted the other way ----

  ghost function SumCrossing<K>(mix: K -> nat, pos: map<K, nat>, cap: nat, m: nat, n: nat): nat
    requires m <= cap && Within(pos, cap)
  {
    if m == 0 then 0 else SumCrossing(mix, pos, cap, m - 1, n) + |Crossing(mix, pos, cap, m - 1, n)|
  }

  /** How many of the first `m` slots a path from `h` to `p` leaves behind. */
  ghost function Behind(h: nat, p: nat, cap: nat, m: nat): nat
    requires h < cap && p < cap && m <= cap
  {
    if m == 0 then 0 else Behind(h, p, cap, m - 1) + if Dist(h, m - 1, cap) < Dist(h, p, cap) then 1 else 0
  }

  lemma {:induction false} BehindIs(h: nat, p: nat, cap: nat, m: nat)
    requires h < cap && p < cap && m <= cap
    ensures Behind(h, p, cap, m) ==
      if h <= p then (if m <= h then 0 else if m <= p then m - h else p - h)
      else (if m <= p then m else p) + (if m <= h then 0 else m - h)
  {
    if m > 0 {
      BehindIs(h, p, cap, m - 1);
    }
  }

  lemma {:induction false} OneMoreKey<K, V>(mix: K -> nat, slots: seq<Slot<K, V>>, used: seq<bool>,
          pos: map<K, nat>, m: nat, n: nat)
    requires Seated(slots, used, pos) && Within(pos, |used|) && m <= |used| && n < |used|
    ensures SumCrossing(mix, pos, |used|, m, n + 1) == SumCrossing(mix, pos, |used|, m, n)
      + if used[n] then Behind(Home(mix, slots[n].key, |used|), n, |used|, m) else 0
  {
    hide Home, Dist, Crossing;
    if m > 0 {
      OneMoreKey(mix, slots, used, pos, m - 1, n);
      OneMoreAt(mix, slots, used, pos, m - 1, n);
    }
  }

  lemma {:induction false} OneMoreAt<K, V>(mix: K -> nat, slots: seq<Slot<K, V>>, used: seq<bool>,
          pos: map<K, nat>, i: nat, n: nat)
    requires Seated(slots, used, pos) && Within(pos, |used|) && i < |used| && n < |used|
    ensures |Crossing(mix, pos, |used|, i, n + 1)| == |Crossing(mix, pos, |used|, i, n)|
      + if used[n] && Dist(Home(mix, slots[n].key, |used|), i, |used|) < Dist(Home(mix, slots[n].key, |used|), n, |used|) then 1 else 0
  {
    hide Home, Dist;
    var cap := |used|;
    var less, more := Crossing(mix, pos, cap, i, n), Crossing(mix, pos, cap, i, n + 1);
    assert forall k :: k in pos && pos[k] == n ==> used[n] && k == slots[n].key;
    if used[n] && Dist(Home(mix, slots[n].key, cap), i, cap) < Dist(Home(mix, slots[n].key, cap), n, cap) {
      assert more == less + {slots[n].key};
    } else {
      assert more == less;
    }
  }

  lemma {:induction false} NoKeys<K>(mix: K -> nat, pos: map<K, nat>, cap: nat, m: nat)
    requires m <= cap && Within(pos, cap)
    ensures SumCrossing(mix, pos, cap, m, 0) == 0
  {
    if m > 0 {
      NoKeys(mix, pos, cap, m - 1);
      assert Crossing(mix, pos, cap, m - 1, 0) == {};
    }
  }

  lemma {:induction false} CountedTwice<K, V>(mix: K -> nat, slots: seq<Slot<K, V>>, used: seq<bool>,
          pos: map<K, nat>, n: nat)
    requires Seated(slots, used, pos) && Within(pos, |used|) && n <= |used|
    ensures ProbeDistance(mix, slots, used, n) == SumCrossing(mix, pos, |used|, |used|, n)
  {
    hide Home;
    if n == 0 {
      NoKeys(mix, pos, |used|, |used|);
    } else {
      CountedTwice(mix, slots, used, pos, n - 1);
      OneMoreKey(mix, slots, used, pos, |used|, n - 1);
      if used[n - 1] {
        BehindIs(Home(mix, slots[n - 1].key, |used|), n - 1, |used|, |used|);
      }
    }
  }

  lemma {:induction false} SameSums<K>(mix: K -> nat, pos1: map<K, nat>, pos2: map<K, nat>, cap: nat, m: nat)
    requires m <= cap && Within(pos1, cap) && Within(pos2, cap)
    requires forall i :: 0 <= i < cap ==> |Crossing(mix, pos1, cap, i, cap)| == |Crossing(mix, pos2, cap, i, cap)|
    ensures SumCrossing(mix, pos1, cap, m, cap) == SumCrossing(mix, pos2, cap, m, cap)
  {
    if m > 0 {
      SameSums(mix, pos1, pos2, cap, m - 1);
    }
  }

  /** Two tables of one capacity with the same keys occupy the same slots, at the same total probe
      distance, however they were built. */
  lemma {:induction false} SameLayout<K, V>(mix: K -> nat, slots1: seq<Slot<K, V>>, used1: seq<bool>, pos1: map<K, nat>,
                                            slots2: seq<Slot<K, V>>, used2: seq<bool>, pos2: map<K, nat>)
    requires Table(mix, slots1, used1, pos1) && Table(mix, slots2, used2, pos2)
    requires |used1| == |used2| && pos1.Keys == pos2.Keys && |pos1| < |used1|
    ensures used1 == used2
    ensures ProbeDistance(mix, slots1, used1, |used1|) == ProbeDistance(mix, slots2, used2, |used2|)
  {
    hide Home, Crossing, Chained, SumCrossing, ProbeDistance;
    var cap := |used1|;
    assert SameKeys(mix, slots1, used1, pos1, slots2, used2, pos2) && SameKeys(mix, slots2, used2, pos2, slots1, used1, pos1);
    if |Crossing(mix, pos1, cap, 0, cap)| <= |Crossing(mix, pos2, cap, 0, cap)| {
      UsedWithin(mix, slots1, used1, pos1, slots2, used2, pos2);
    } else {
      UsedWithin(mix, slots2, used2, pos2, slots1, used1, pos1);
    }
    var e := SomeEmpty(slots1, used1, pos1);
    forall i | 0 <= i < cap ensures |Crossing(mix, pos1, cap, i, cap)| == |Crossing(mix, pos2, cap, i, cap)| {
      SameCrossings(mix, slots1, used1, pos1, slots2, used2, pos2, e, i);
    }
    SameSums(mix, pos1, pos2, cap, cap);
    CountedTwice(mix, slots1, used1, pos1, cap);
    CountedTwice(mix, slots2, used2, pos2, cap);
  }

  /** Whatever insertions and deletions `a` went through, it looks like a `b` that never had any
      key but the present ones. */
  lemma {:induction false} NoResidue<K(0), V(0)>(a: FlatHashMap<K, V>, b: FlatHashMap<K, V>)
    requires a.Valid() && b.Valid() && a.mix == b.mix && a.used.Length == b.used.Length
    requires a.Contents().Keys == b.Contents().Keys
    ensures a.used[..] == b.used[..]
    ensures ProbeDistance(a.mix, a.slots[..], a.used[..], a.used.Length) == ProbeDistance(b.mix, b.slots[..], b.used[..], b.used.Length)
  {
    hide Home, PowerOfTwo, Chained, ProbeDistance;
    KeysOf(a.slots[..], a.used[..], a.pos);
    KeysOf(b.slots[..], b.used[..], b.pos);
    SameLayout(a.mix, a.slots[..], a.used[..], a.pos, b.slots[..], b.used[..], b.pos);
  }
}
