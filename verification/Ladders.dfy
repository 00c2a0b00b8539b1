/** One side of a book as a list of price levels, and how that list flattens to a priority queue. */
module Ladders {
  import opened Types
  import opened PriceTimeBook
  import opened QueueLemmas

  datatype Level = Level(price: Price, queue: Queue)

  type Ladder = seq<Level>

  function Flatten(l: Ladder): Queue {
    if l == [] then [] else l[0].queue + Flatten(l[1..])
  }

  /** Strictly best to worst, every order filed under its own price. */
  ghost predicate Graded(s: Side, l: Ladder) {
    && (forall i, j :: 0 <= i < j < |l| ==> Better(s, l[i].price, l[j].price))
    && (forall i, k :: 0 <= i < |l| && 0 <= k < |l[i].queue| ==> l[i].queue[k].price == l[i].price)
  }

  ghost predicate NoneEmpty(l: Ladder) {
    forall i :: 0 <= i < |l| ==> l[i].queue != []
  }

  /** Only row `i` may be empty. */
  ghost predicate NoneEmptyBut(l: Ladder, i: nat) {
    forall k :: 0 <= k < |l| && k != i ==> l[k].queue != []
  }

  lemma {:induction false} FlattenConcat(a: Ladder, b: Ladder)
    ensures Flatten(a + b) == Flatten(a) + Flatten(b)
  {
    if a == [] {
      assert a + b == b;
    } else {
      assert (a + b)[1..] == a[1..] + b;
      FlattenConcat(a[1..], b);
    }
  }

  lemma {:induction false} FlattenAt(l: Ladder, i: nat)
    requires i < |l|
    ensures Flatten(l) == Flatten(l[..i]) + l[i].queue + Flatten(l[i + 1..])
  {
    assert l == l[..i] + l[i..];
    FlattenConcat(l[..i], l[i..]);
    assert l[i..][1..] == l[i + 1..];
    assert Flatten(l[i..]) == l[i].queue + Flatten(l[i + 1..]);
  }

  /** Orders before level `i` have better prices, orders after it worse ones. */
  lemma {:induction false} FlattenPrices(s: Side, l: Ladder, price: Price)
    requires Graded(s, l)
    ensures (forall i :: 0 <= i < |l| ==> Better(s, l[i].price, price))
            ==> forall k :: 0 <= k < |Flatten(l)| ==> Better(s, Flatten(l)[k].price, price)
    ensures (forall i :: 0 <= i < |l| ==> Better(s, price, l[i].price))
            ==> forall k :: 0 <= k < |Flatten(l)| ==> Better(s, price, Flatten(l)[k].price)
  {
    if l != [] {
      assert Graded(s, l[1..]);
      FlattenPrices(s, l[1..], price);
      var f, t := l[0].queue, Flatten(l[1..]);
      forall k | 0 <= k < |f + t| ensures (f + t)[k] == if k < |f| then f[k] else t[k - |f|] {}
    }
  }

  /** The rows of a ladder other than `i` after one row changes. */
  function Replace(l: Ladder, i: nat, q: Queue): Ladder
    requires i < |l|
  {
    l[i := l[i].(queue := q)]
  }

  function Without(l: Ladder, i: nat): Ladder
    requires i < |l|
  {
    l[..i] + l[i + 1..]
  }

  lemma {:induction false} FlattenReplace(l: Ladder, i: nat, q: Queue)
    requires i < |l|
    ensures Flatten(Replace(l, i, q)) == Flatten(l[..i]) + q + Flatten(l[i + 1..])
  {
    var l' := Replace(l, i, q);
    FlattenAt(l', i);
    assert l'[..i] == l[..i] && l'[i + 1..] == l[i + 1..];
  }

  /** Dropping an empty row, or adding one, leaves the queue alone. */
  lemma {:induction false} FlattenWithout(l: Ladder, i: nat)
    requires i < |l| && l[i].queue == []
    ensures Flatten(Without(l, i)) == Flatten(l)
  {
    FlattenAt(l, i);
    FlattenConcat(l[..i], l[i + 1..]);
    hide Flatten;
    assert Flatten(l[..i]) + [] == Flatten(l[..i]);
  }

  /** Row `i` is where a level for `price` belongs. */
  ghost predicate Slot(s: Side, l: Ladder, i: nat, price: Price) {
    && i <= |l|
    && (forall k :: 0 <= k < i ==> Better(s, l[k].price, price))
    && (forall k :: i <= k < |l| ==> Better(s, price, l[k].price))
  }

  function WithRow(l: Ladder, i: nat, price: Price): Ladder
    requires i <= |l|
  {
    l[..i] + [Level(price, [])] + l[i..]
  }

  lemma {:induction false} FlattenWithRow(s: Side, l: Ladder, i: nat, price: Price)
    requires Graded(s, l) && Slot(s, l, i, price)
    ensures Flatten(WithRow(l, i, price)) == Flatten(l) && Graded(s, WithRow(l, i, price))
  {
    assert Without(WithRow(l, i, price), i) == l;
    FlattenWithout(WithRow(l, i, price), i);
    WithRowGraded(s, l, i, price);
  }

  lemma {:induction false} WithRowGraded(s: Side, l: Ladder, i: nat, price: Price)
    requires Graded(s, l) && Slot(s, l, i, price)
    ensures Graded(s, WithRow(l, i, price))
  {
    var w := WithRow(l, i, price);
    forall k | 0 <= k < |w| ensures w[k] == if k < i then l[k] else if k == i then Level(price, []) else l[k - 1] {}
  }

  lemma {:induction false} WithRowEmpty(l: Ladder, i: nat, price: Price)
    requires i <= |l|
    ensures NoneEmpty(l) ==> NoneEmptyBut(WithRow(l, i, price), i)
  {
    var w := WithRow(l, i, price);
    forall k | 0 <= k < |w| && k != i ensures w[k] == l[if k < i then k else k - 1] {}
  }

  lemma {:induction false} PushGraded(s: Side, l: Ladder, i: nat, o: Resting)
    requires Graded(s, l) && i < |l| && l[i].price == o.price
    ensures Graded(s, Replace(l, i, l[i].queue + [o]))
  {
  }

  lemma {:induction false} WithoutGraded(s: Side, l: Ladder, i: nat)
    requires Graded(s, l) && i < |l|
    ensures Graded(s, Without(l, i))
  {
  }

  lemma {:induction false} ResizeGraded(s: Side, l: Ladder, i: nat, j: nat, n: Qty)
    requires Graded(s, l) && i < |l| && j < |l[i].queue|
    ensures Graded(s, Replace(l, i, l[i].queue[j := l[i].queue[j].(qty := n)]))
  {
  }

  /** Better prices, then `price` itself: nothing `price` would go ahead of. */
  lemma {:induction false} NoneWorse(s: Side, better: Queue, same: Queue, price: Price)
    requires forall k :: 0 <= k < |better| ==> Better(s, better[k].price, price)
    requires forall k :: 0 <= k < |same| ==> same[k].price == price
    ensures forall k :: 0 <= k < |better + same| ==> !Better(s, price, (better + same)[k].price)
  {
  }

  lemma {:induction false} FlattenPush(s: Side, l: Ladder, i: nat, o: Resting)
    requires Graded(s, l) && i < |l| && l[i].price == o.price
    ensures Flatten(Replace(l, i, l[i].queue + [o])) == Insert(s, Flatten(l), o)
  {
    FlattenReplace(l, i, l[i].queue + [o]);
    FlattenAt(l, i);
    FlattenPrices(s, l[..i], o.price);
    FlattenPrices(s, l[i + 1..], o.price);
    assert forall k :: 0 <= k < |l[i].queue| ==> l[i].queue[k].price == o.price;
    hide Flatten, Insert, Graded;
    var a, b := Flatten(l[..i]) + l[i].queue, Flatten(l[i + 1..]);
    NoneWorse(s, Flatten(l[..i]), l[i].queue, o.price);
    assert b != [] ==> Better(s, o.price, b[0].price);
    InsertSplit(s, a, b, o);
    Regroup(Flatten(l[..i]), l[i].queue, [o], b);
  }

  lemma {:induction false} Regroup(x: Queue, y: Queue, z: Queue, w: Queue)
    ensures x + (y + z) + w == x + y + z + w
  {
    assert x + (y + z) == x + y + z;
  }

  /** What stands ahead of position `j` of row `i`, and what stands behind it. */
  function Ahead(l: Ladder, i: nat, j: nat): Queue
    requires i < |l| && j <= |l[i].queue|
  {
    Flatten(l[..i]) + l[i].queue[..j]
  }

  function Behind(l: Ladder, i: nat, j: nat): Queue
    requires i < |l| && j < |l[i].queue|
  {
    l[i].queue[j + 1..] + Flatten(l[i + 1..])
  }

  /** Row `i`, position `j` of the ladder is one place of the flattened queue. */
  lemma {:induction false} FlattenPlace(l: Ladder, i: nat, j: nat)
    requires i < |l| && j < |l[i].queue|
    ensures Flatten(l) == Ahead(l, i, j) + [l[i].queue[j]] + Behind(l, i, j)
  {
    FlattenAt(l, i);
    var f := l[i].queue;
    hide Flatten;
    assert f == f[..j] + [f[j]] + f[j + 1..];
    Nested(Flatten(l[..i]), f[..j], [f[j]], f[j + 1..], Flatten(l[i + 1..]));
  }

  lemma {:induction false} Nested(u: Queue, x: Queue, y: Queue, z: Queue, v: Queue)
    ensures u + (x + y + z) + v == (u + x) + y + (z + v)
  {
    assert u + (x + y + z) == (u + x) + y + z;
  }

  /** ... and what is put in its stead lands at that place. */
  lemma {:induction false} FlattenPatch(l: Ladder, i: nat, j: nat, q: Queue)
    requires i < |l| && j < |l[i].queue|
    ensures Flatten(Replace(l, i, l[i].queue[..j] + q + l[i].queue[j + 1..]))
            == Ahead(l, i, j) + q + Behind(l, i, j)
  {
    FlattenReplace(l, i, l[i].queue[..j] + q + l[i].queue[j + 1..]);
  }

  lemma {:induction false} CutGraded(s: Side, l: Ladder, i: nat, j: nat)
    requires Graded(s, l) && i < |l| && j < |l[i].queue|
    ensures Graded(s, Replace(l, i, l[i].queue[..j] + l[i].queue[j + 1..]))
  {
  }

  lemma {:induction false} FlattenCut(l: Ladder, i: nat, j: nat)
    requires i < |l| && j < |l[i].queue| && Distinct(Flatten(l))
    ensures var id := l[i].queue[j].id;
            && Has(Flatten(l), id) && Lookup(Flatten(l), id) == l[i].queue[j]
            && Flatten(Replace(l, i, l[i].queue[..j] + l[i].queue[j + 1..])) == Remove(Flatten(l), id)
            && Distinct(Remove(Flatten(l), id))
            && Ids(Remove(Flatten(l), id)) == Ids(Flatten(l)) - {id}
  {
    var o, a, b := l[i].queue[j], Ahead(l, i, j), Behind(l, i, j);
    FlattenPlace(l, i, j);
    RemoveSplit(a, o, b);
    DistinctSplit(a, o, b);
    FlattenPatchNone(l, i, j);
    hide Flatten, Remove, Lookup, Has, Ids, Ahead, Behind, Distinct, Replace;
  }

  lemma {:induction false} FlattenPatchNone(l: Ladder, i: nat, j: nat)
    requires i < |l| && j < |l[i].queue|
    ensures Flatten(Replace(l, i, l[i].queue[..j] + l[i].queue[j + 1..])) == Ahead(l, i, j) + Behind(l, i, j)
  {
    FlattenPatch(l, i, j, []);
    hide Flatten, Ahead, Behind, Replace;
    assert l[i].queue[..j] + [] == l[i].queue[..j];
    assert Ahead(l, i, j) + [] == Ahead(l, i, j);
  }

  lemma {:induction false} FlattenResize(l: Ladder, i: nat, j: nat, n: Qty)
    requires i < |l| && j < |l[i].queue| && Distinct(Flatten(l))
    ensures var o := l[i].queue[j];
            && Has(Flatten(l), o.id)
            && Flatten(Replace(l, i, l[i].queue[j := o.(qty := n)])) == Resize(Flatten(l), o.id, n)
            && Distinct(Resize(Flatten(l), o.id, n))
            && Ids(Resize(Flatten(l), o.id, n)) == Ids(Flatten(l))
  {
    var o, a, b := l[i].queue[j], Ahead(l, i, j), Behind(l, i, j);
    FlattenPlace(l, i, j);
    ResizeSplit(a, o, b, n);
    ResizeIds(a + [o] + b, o.id, n);
    FlattenPatch(l, i, j, [o.(qty := n)]);
    assert l[i].queue[j := o.(qty := n)] == l[i].queue[..j] + [o.(qty := n)] + l[i].queue[j + 1..];
  }

  lemma {:induction false} AheadBehind(l: Ladder, i: nat, j: nat, k: nat, m: nat)
    requires i < |l| && k < |l| && j < |l[i].queue| && m < |l[k].queue|
    requires i < k || (i == k && j < m)
    ensures Ahead(l, i, j) + [l[i].queue[j]] <= Ahead(l, k, m)
  {
    if i < k {
      FlattenAt(l[..k], i);
      assert l[..k][..i] == l[..i];
      assert l[i].queue == l[i].queue[..j] + [l[i].queue[j]] + l[i].queue[j + 1..];
    } else {
      assert l[i].queue[..j] + [l[i].queue[j]] <= l[i].queue[..m];
    }
  }

  /** Different places hold different ids. */
  lemma {:induction false} PlacesDiffer(l: Ladder, i: nat, j: nat, k: nat, m: nat)
    requires Distinct(Flatten(l))
    requires i < |l| && k < |l| && j < |l[i].queue| && m < |l[k].queue|
    requires (i, j) != (k, m)
    ensures l[i].queue[j].id != l[k].queue[m].id
  {
    FlattenPlace(l, i, j);
    FlattenPlace(l, k, m);
    if i < k || (i == k && j < m) {
      AheadBehind(l, i, j, k, m);
    } else {
      AheadBehind(l, k, m, i, j);
    }
    var f := Flatten(l);
    assert f[|Ahead(l, i, j)|] == l[i].queue[j] && f[|Ahead(l, k, m)|] == l[k].queue[m];
  }

  /** The inverse of FlattenPlace: every place of the queue is some row and position. */
  lemma {:induction false} PlaceOf(l: Ladder, k: nat) returns (i: nat, j: nat)
    requires k < |Flatten(l)|
    ensures i < |l| && j < |l[i].queue| && l[i].queue[j] == Flatten(l)[k]
  {
    if k < |l[0].queue| {
      i, j := 0, k;
    } else {
      i, j := PlaceOf(l[1..], k - |l[0].queue|);
      i := i + 1;
    }
  }

  /** The total a level keeps is the depth of the queue at that price. */
  lemma {:induction false} DepthOfLevel(s: Side, l: Ladder, i: nat)
    requires Graded(s, l) && i < |l|
    ensures Depth(Flatten(l), l[i].price) == Total(l[i].queue)
  {
    var rest, p := l[1..], l[i].price;
    DepthSplit(l[0].queue, Flatten(rest), p);
    assert Graded(s, rest);
    if i == 0 {
      DepthAlone(l[0].queue, p);
      DepthOfNoLevel(rest, s, p);
    } else {
      DepthElsewhere(l[0].queue, p);
      DepthOfLevel(s, rest, i - 1);
    }
  }

  lemma {:induction false} DepthOfNoLevel(l: Ladder, s: Side, p: Price)
    requires Graded(s, l) && forall i :: 0 <= i < |l| ==> l[i].price != p
    ensures Depth(Flatten(l), p) == 0
  {
    forall k | 0 <= k < |Flatten(l)| ensures Flatten(l)[k].price != p {
      var i, j := PlaceOf(l, k);
    }
    DepthElsewhere(Flatten(l), p);
  }

  lemma {:induction false} DepthElsewhere(q: Queue, p: Price)
    requires forall k :: 0 <= k < |q| ==> q[k].price != p
    ensures Depth(q, p) == 0
  {
    if q != [] {
      DepthElsewhere(q[1..], p);
    }
  }

  lemma {:induction false} DepthAlone(q: Queue, p: Price)
    requires forall k :: 0 <= k < |q| ==> q[k].price == p
    ensures Depth(q, p) == Total(q)
  {
    if q != [] {
      DepthAlone(q[1..], p);
    }
  }

  /** With no empty rows the head of the queue is the front of the first level. */
  lemma {:induction false} FlattenHead(l: Ladder)
    requires NoneEmpty(l)
    ensures Flatten(l) == [] <==> l == []
    ensures l != [] ==> Flatten(l)[0] == l[0].queue[0]
  {
  }

  lemma {:induction false} RemoveHead(q: Queue)
    requires q != []
    ensures Has(q, q[0].id) && Remove(q, q[0].id) == q[1..] && Lookup(q, q[0].id) == q[0]
    ensures forall n :: Resize(q, q[0].id, n) == [q[0].(qty := n)] + q[1..]
  {
    assert IndexOf(q, q[0].id) == 0;
  }
}
