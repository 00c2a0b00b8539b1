/** Whole histories of the flat map: it answers like a mathematical map, and keeps no trace of what
    was deleted. */
module MapHistories {
  import opened Types
  import opened FlatHashMaps
  import opened CanonicalLayouts

  datatype MapOp<K, V> = Put(key: K, value: V) | Take(key: K) | Get(key: K)

  datatype Answer<V> = Done(ok: bool) | Found(value: Option<V>)

  function MapStep<K(==), V>(m: map<K, V>, op: MapOp<K, V>): (map<K, V>, Answer<V>) {
    match op
    case Put(k, v) => if k in m then (m, Done(false)) else (m[k := v], Done(true))
    case Take(k) => (m - {k}, Done(k in m))
    case Get(k) => (m, Found(if k in m then Some(m[k]) else None))
  }

  function MapRun<K(==), V>(ops: seq<MapOp<K, V>>): (map<K, V>, seq<Answer<V>>)
    decreases |ops|
  {
    if ops == [] then (map[], [])
    else
      var (m, answers) := MapRun(ops[..|ops| - 1]);
      var (m', a) := MapStep(m, ops[|ops| - 1]);
      (m', answers + [a])
  }

  lemma {:induction false} RunNext<K, V>(ops: seq<MapOp<K, V>>, i: nat)
    requires i < |ops|
    ensures var (m, answers) := MapRun(ops[..i]);
      MapRun(ops[..i + 1]) == (MapStep(m, ops[i]).0, answers + [MapStep(m, ops[i]).1])
  {
    assert ops[..i + 1][..i] == ops[..i];
  }

  /** Any history, any hash, any initial capacity: the answers are the mathematical map's. */
  method RunMap<K(==, 0), V(0)>(mix: K -> nat, initialCapacity: nat, ops: seq<MapOp<K, V>>)
    returns (table: FlatHashMap<K, V>, answers: seq<Answer<V>>)
    ensures fresh(table) && table.Valid() && table.mix == mix
    ensures (table.Contents(), answers) == MapRun(ops)
  {
    assert MapRun<K, V>([]) == (map[], []);
    hide FlatHashMap.Valid, FlatHashMap.Contents, MapRun;
    table := new FlatHashMap<K, V>(mix, initialCapacity);
    answers := [];
    for i := 0 to |ops|
      invariant table.Valid() && table.mix == mix && fresh(table) && fresh(table.slots) && fresh(table.used)
      invariant (table.Contents(), answers) == MapRun(ops[..i])
    {
      RunNext(ops, i);
      var a;
      match ops[i] {
        case Put(k, v) =>
          var ok := table.Insert(k, v);
          a := Done(ok);
        case Take(k) =>
          var ok := table.Erase(k);
          a := Done(ok);
        case Get(k) =>
          var found := table.Find(k);
          a := Found(found);
      }
      answers := answers + [a];
    }
    assert ops[..|ops|] == ops;
  }

  /** Two histories that end with the same keys: if their tables have the same capacity, these occupy
      the same slots at the same total distance. One history may have inserted only what is left. */
  method CompareHistories<K(==, 0), V(0)>(mix: K -> nat, capacity: nat, ops1: seq<MapOp<K, V>>, ops2: seq<MapOp<K, V>>)
    returns (a: FlatHashMap<K, V>, b: FlatHashMap<K, V>)
    requires MapRun(ops1).0.Keys == MapRun(ops2).0.Keys
    ensures a.Valid() && a.mix == mix && a.Contents() == MapRun(ops1).0
    ensures b.Valid() && b.mix == mix && b.Contents() == MapRun(ops2).0
    ensures a.used.Length == b.used.Length ==>
      && a.used[..] == b.used[..]
      && ProbeDistance(mix, a.slots[..], a.used[..], a.used.Length) == ProbeDistance(mix, b.slots[..], b.used[..], b.used.Length)
  {
    hide FlatHashMap.Valid, FlatHashMap.Contents, MapRun, ProbeDistance;
    var answers1, answers2;
    a, answers1 := RunMap(mix, capacity, ops1);
    b, answers2 := RunMap(mix, capacity, ops2);
    if a.used.Length == b.used.Length {
      NoResidue(a, b);
    }
  }
}
