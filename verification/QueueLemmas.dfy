/** How the queue operations act on a queue split in two around one order. */
module QueueLemmas {
  import opened Types
  import opened PriceTimeBook

  lemma {:induction false} HasIds(q: Queue, id: OrderId)
    ensures Has(q, id) <==> id in Ids(q)
  {
    assert forall k :: 0 <= k < |q| ==> q[k].id in Ids(q);
  }

  lemma {:induction false} IndexOfSplit(a: Queue, o: Resting, b: Queue)
    requires !Has(a, o.id)
    ensures Has(a + [o] + b, o.id)
    ensures IndexOf(a + [o] + b, o.id) == |a|
  {
    var q := a + [o] + b;
    assert q[|a|] == o;
    forall i | 0 <= i < |a| ensures q[i].id != o.id {
      assert q[i] == a[i];
    }
  }

  lemma {:induction false} DistinctSplit(a: Queue, o: Resting, b: Queue)
    requires Distinct(a + [o] + b)
    ensures !Has(a, o.id) && !Has(b, o.id)
    ensures Distinct(a + b)
    ensures Ids(a + b) == Ids(a + [o] + b) - {o.id}
  {
    var q := a + [o] + b;
    assert q[|a|] == o;
    forall i | 0 <= i < |a| ensures a[i].id != o.id { assert q[i] == a[i]; }
    forall i | 0 <= i < |b| ensures b[i].id != o.id { assert q[|a| + 1 + i] == b[i]; }
    forall i | 0 <= i < |a + b|
      ensures (a + b)[i] == q[if i < |a| then i else i + 1]
    {}
    forall id | id in Ids(q) && id != o.id ensures id in Ids(a + b) {
      var i :| 0 <= i < |q| && q[i].id == id;
      assert (a + b)[if i < |a| then i else i - 1].id == id;
    }
  }

  lemma {:induction false} RemoveSplit(a: Queue, o: Resting, b: Queue)
    requires Distinct(a + [o] + b)
    ensures Has(a + [o] + b, o.id)
    ensures Lookup(a + [o] + b, o.id) == o
    ensures Remove(a + [o] + b, o.id) == a + b
  {
    DistinctSplit(a, o, b);
    IndexOfSplit(a, o, b);
  }

  lemma {:induction false} ResizeSplit(a: Queue, o: Resting, b: Queue, n: Qty)
    requires Distinct(a + [o] + b)
    ensures Has(a + [o] + b, o.id)
    ensures Resize(a + [o] + b, o.id, n) == a + [o.(qty := n)] + b
  {
    DistinctSplit(a, o, b);
    IndexOfSplit(a, o, b);
  }

  /** Resizing keeps every id in its place. */
  lemma {:induction false} ResizeIds(q: Queue, id: OrderId, n: Qty)
    requires Has(q, id)
    ensures Ids(Resize(q, id, n)) == Ids(q)
    ensures Distinct(q) ==> Distinct(Resize(q, id, n))
  {
    var r := Resize(q, id, n);
    forall k | 0 <= k < |q| ensures r[k].id == q[k].id {}
    forall x | x in Ids(q) ensures x in Ids(r) {
      var k :| 0 <= k < |q| && q[k].id == x;
      assert r[k].id == x;
    }
  }

  lemma {:induction false} InsertSplit(s: Side, a: Queue, b: Queue, o: Resting)
    requires forall i :: 0 <= i < |a| ==> !Better(s, o.price, a[i].price)
    requires b != [] ==> Better(s, o.price, b[0].price)
    ensures Insert(s, a + b, o) == a + [o] + b
  {
    if a == [] {
      assert a + b == b;
    } else {
      assert (a + b)[1..] == a[1..] + b;
      InsertSplit(s, a[1..], b, o);
    }
  }

  /** Every insertion is such a split: the order lands right behind the orders that beat or tie it. */
  lemma {:induction false} InsertPlace(s: Side, q: Queue, o: Resting) returns (k: nat)
    ensures k <= |q|
    ensures forall i :: 0 <= i < k ==> !Better(s, o.price, q[i].price)
    ensures k < |q| ==> Better(s, o.price, q[k].price)
    ensures Insert(s, q, o) == q[..k] + [o] + q[k..]
  {
    if q == [] || Better(s, o.price, q[0].price) {
      k := 0;
    } else {
      k := InsertPlace(s, q[1..], o);
      k := k + 1;
      assert q[..k] == [q[0]] + q[1..][..k - 1];
    }
  }

  lemma {:induction false} TotalSplit(a: Queue, b: Queue)
    ensures Total(a + b) == Total(a) + Total(b)
  {
    if a == [] {
      assert a + b == b;
    } else {
      assert (a + b)[1..] == a[1..] + b;
      TotalSplit(a[1..], b);
    }
  }

  lemma {:induction false} TotalUpdate(q: Queue, j: nat, o: Resting)
    requires j < |q|
    ensures Total(q[j := o]) == Total(q) - q[j].qty + o.qty
    ensures q[j].qty <= Total(q)
  {
    assert q == q[..j] + ([q[j]] + q[j + 1..]);
    assert q[j := o] == q[..j] + ([o] + q[j + 1..]);
    TotalSplit(q[..j], [q[j]] + q[j + 1..]);
    TotalSplit(q[..j], [o] + q[j + 1..]);
  }

  lemma {:induction false} TotalWithout(q: Queue, j: nat)
    requires j < |q|
    ensures Total(q[..j] + q[j + 1..]) == Total(q) - q[j].qty
    ensures q[j].qty <= Total(q)
  {
    assert q == q[..j] + ([q[j]] + q[j + 1..]);
    TotalSplit(q[..j], [q[j]] + q[j + 1..]);
    TotalSplit(q[..j], q[j + 1..]);
  }

  lemma {:induction false} DepthSplit(a: Queue, b: Queue, price: Price)
    ensures Depth(a + b, price) == Depth(a, price) + Depth(b, price)
  {
    if a == [] {
      assert a + b == b;
    } else {
      assert (a + b)[1..] == a[1..] + b;
      DepthSplit(a[1..], b, price);
    }
  }

  lemma {:induction false} DistinctInsert(s: Side, q: Queue, o: Resting)
    requires Distinct(q) && !Has(q, o.id)
    ensures Distinct(Insert(s, q, o))
    ensures Ids(Insert(s, q, o)) == Ids(q) + {o.id}
    ensures |Insert(s, q, o)| == |q| + 1
  {
    hide Insert, Better;
    var k := InsertPlace(s, q, o);
    var r := Insert(s, q, o);
    assert r[k] == o;
    forall i | 0 <= i < |q| ensures r[if i < k then i else i + 1] == q[i] {}
  }

  lemma {:induction false} CountDistinct(q: Queue)
    requires Distinct(q)
    ensures |Ids(q)| == |q|
  {
    if q != [] {
      var n := |q| - 1;
      CountDistinct(q[..n]);
      assert Ids(q) == Ids(q[..n]) + {q[n].id} by {
        forall id | id in Ids(q) ensures id in Ids(q[..n]) + {q[n].id} {
          var k :| 0 <= k < |q| && q[k].id == id;
          if k < n {
            assert q[..n][k].id == id;
          }
        }
      }
    }
  }
}
