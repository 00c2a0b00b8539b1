/** What every message leaves true of the book, in particular that it is never crossed. */
module BookInvariants {
  import opened Types
  import opened PriceTimeBook
  import opened QueueLemmas

  /** Best price first. */
  ghost predicate Sorted(s: Side, q: Queue) {
    forall i, j :: 0 <= i < j < |q| ==> !Better(s, q[j].price, q[i].price)
  }

  ghost predicate Positive(q: Queue) {
    forall i :: 0 <= i < |q| ==> q[i].qty > 0
  }

  ghost predicate Uncrossed(b: Book) {
    forall i, j :: 0 <= i < |b.bids| && 0 <= j < |b.asks| ==> b.bids[i].price < b.asks[j].price
  }

  ghost predicate GoodQueue(s: Side, q: Queue) {
    Sorted(s, q) && Positive(q) && Distinct(q)
  }

  ghost predicate Good(b: Book) {
    && GoodQueue(Bid, b.bids) && GoodQueue(Ask, b.asks)
    && Ids(b.bids) !! Ids(b.asks)
    && Uncrossed(b)
  }

  // ---- sweeping ----

  /** `q'` is `q` after its first `k` orders are gone and `cut` units of the next one. */
  ghost predicate Consumed(q: Queue, k: nat, cut: Qty, q': Queue) {
    && k <= |q|
    && if cut == 0 then q' == q[k..]
       else k < |q| && cut < q[k].qty && q' == [q[k].(qty := q[k].qty - cut)] + q[k + 1..]
  }

  lemma {:induction false} ConsumedOneMore(q: Queue, k: nat, cut: Qty, q': Queue)
    requires q != [] && Consumed(q[1..], k, cut, q')
    ensures Consumed(q, k + 1, cut, q')
  {
    assert q[1..][k..] == q[k + 1..];
    if cut > 0 {
      assert q[1..][k + 1..] == q[k + 2..];
    }
  }

  /** A sweep takes orders off the front only, all of them crossing, and when units are left over
      it stopped because nothing more crosses. */
  lemma {:induction false} SweepShape(stp: StpPolicy, t: Taker, rem: Qty, q: Queue) returns (k: nat, cut: Qty)
    ensures Consumed(q, k, cut, Match(stp, t, rem, q).queue)
    ensures forall i :: 0 <= i < k ==> Crosses(t, q[i].price)
    ensures cut > 0 ==> Crosses(t, q[k].price) && Match(stp, t, rem, q).rem == 0
    ensures var r := Match(stp, t, rem, q); r.rem > 0 ==> r.queue == [] || !Crosses(t, r.queue[0].price)
    ensures Match(stp, t, rem, q).rem <= rem
  {
    k, cut := 0, 0;
    assert Consumed(q, 0, 0, q);
    assert 0 < rem && q != [] && rem < q[0].qty ==> Consumed(q, 0, rem, [q[0].(qty := q[0].qty - rem)] + q[1..]);
    hide Match, Consumed;
    if rem == 0 || q == [] || !Crosses(t, q[0].price) {
      MatchNone(stp, t, rem, q);
    } else {
      MatchHead(stp, t, rem, q);
      var fill := Min(rem, q[0].qty);
      if SelfTrade(stp, t, q[0]) {
        if stp != CancelIncoming {
          k, cut := SweepShape(stp, t, rem, q[1..]);
          ConsumedOneMore(q, k, cut, Match(stp, t, rem, q[1..]).queue);
          k := k + 1;
        }
      } else if fill == q[0].qty {
        k, cut := SweepShape(stp, t, rem - fill, q[1..]);
        ConsumedOneMore(q, k, cut, Match(stp, t, rem - fill, q[1..]).queue);
        k := k + 1;
      } else {
        cut := fill;
        MatchNone(stp, t, 0, [q[0].(qty := q[0].qty - fill)] + q[1..]);
      }
    }
  }

  lemma {:induction false} ConsumedGood(s: Side, q: Queue, k: nat, cut: Qty, q': Queue)
    requires GoodQueue(s, q) && Consumed(q, k, cut, q')
    ensures GoodQueue(s, q') && Ids(q') <= Ids(q)
    ensures forall i :: 0 <= i < |q'| ==> q'[i].price == q[k + i].price && q'[i].id == q[k + i].id
  {
    assert |q'| == |q| - k;
    forall i | 0 <= i < |q'| ensures q'[i].price == q[k + i].price && q'[i].id == q[k + i].id && q'[i].qty > 0 {
      if cut == 0 {
        assert q'[i] == q[k + i];
      } else if i > 0 {
        assert q'[i] == q[k + 1..][i - 1];
      }
    }
  }

  ghost predicate PriceIn(q: Queue, p: Price) {
    exists i :: 0 <= i < |q| && q[i].price == p
  }

  /** A side that takes no new price cannot cross the book. */
  lemma {:induction false} StaysUncrossed(b: Book, s: Side, q': Queue)
    requires Uncrossed(b) && forall i :: 0 <= i < |q'| ==> PriceIn(b.At(s), q'[i].price)
    ensures Uncrossed(b.With(s, q'))
  {
  }

  lemma {:induction false} SweepGood(stp: StpPolicy, b: Book, t: Taker, qty: Qty)
    requires Good(b)
    ensures Good(Sweep(stp, b, t, qty).1)
    ensures forall s :: Ids(Sweep(stp, b, t, qty).1.At(s)) <= Ids(b.At(s))
    ensures Sweep(stp, b, t, qty).0 > 0 ==> NothingCrosses(t, Sweep(stp, b, t, qty).1)
  {
    var s := t.side.Opposite();
    var q := b.At(s);
    var r := Match(stp, t, qty, q);
    var k, cut := SweepShape(stp, t, qty, q);
    ConsumedGood(s, q, k, cut, r.queue);
    forall i | 0 <= i < |r.queue| ensures PriceIn(q, r.queue[i].price) {
      assert r.queue[i].price == q[k + i].price;
    }
    StaysUncrossed(b, s, r.queue);
    if r.rem > 0 && r.queue != [] {
      forall j | 0 <= j < |r.queue| ensures !Crosses(t, r.queue[j].price) {
        assert j > 0 ==> !Better(s, r.queue[j].price, r.queue[0].price);
      }
    }
  }

  ghost predicate NothingCrosses(t: Taker, b: Book) {
    forall j :: 0 <= j < |b.At(t.side.Opposite())| ==> !Crosses(t, b.At(t.side.Opposite())[j].price)
  }

  lemma {:induction false} InsertGood(s: Side, q: Queue, o: Resting)
    requires GoodQueue(s, q) && o.qty > 0 && !Has(q, o.id)
    ensures GoodQueue(s, Insert(s, q, o))
    ensures forall i :: 0 <= i < |Insert(s, q, o)| ==> Insert(s, q, o)[i].price == o.price || PriceIn(q, Insert(s, q, o)[i].price)
  {
    var k := InsertRows(s, q, o);
    var q' := Insert(s, q, o);
    DistinctInsert(s, q, o);
    hide Insert, Has, Distinct;
    InsertedSorted(s, q, o, k, q');
    hide Sorted, Better;
  }

  lemma {:induction false} InsertRows(s: Side, q: Queue, o: Resting) returns (k: nat)
    ensures k <= |q| && |Insert(s, q, o)| == |q| + 1
    ensures forall i {:trigger Insert(s, q, o)[i]} :: 0 <= i <= |q| ==>
      Insert(s, q, o)[i] == if i < k then q[i] else if i == k then o else q[i - 1]
    ensures forall i :: 0 <= i < k ==> !Better(s, o.price, q[i].price)
    ensures k < |q| ==> Better(s, o.price, q[k].price)
  {
    k := InsertPlace(s, q, o);
    hide Insert, Better;
  }

  lemma {:induction false} InsertedSorted(s: Side, q: Queue, o: Resting, k: nat, q': Queue)
    requires Sorted(s, q) && k <= |q| && |q'| == |q| + 1
    requires forall i {:trigger q'[i]} :: 0 <= i < |q'| ==> q'[i] == if i < k then q[i] else if i == k then o else q[i - 1]
    requires forall i :: 0 <= i < k ==> !Better(s, o.price, q[i].price)
    requires k < |q| ==> Better(s, o.price, q[k].price)
    ensures Sorted(s, q')
  {
    forall i, j | 0 <= i < j < |q'| ensures !Better(s, q'[j].price, q'[i].price) {
      if j <= k {
        assert q'[i] == q[i] && (j < k ==> q'[j] == q[j]);
      } else if i == k {
        assert q'[j] == q[j - 1] && (j - 1 > k ==> !Better(s, q[j - 1].price, q[k].price));
      } else {
        assert q'[j] == q[j - 1] && q'[i] == q[if i < k then i else i - 1];
      }
    }
  }

  lemma {:induction false} RestGood(b: Book, t: Taker, qty: Qty)
    requires Good(b) && qty > 0 && !t.market && NothingCrosses(t, b)
    requires t.id !in Ids(b.bids) && t.id !in Ids(b.asks)
    ensures Good(Rest(b, t, qty))
  {
    var o := Resting(t.id, t.participant, t.price, qty);
    var q := b.At(t.side);
    HasIds(q, t.id);
    InsertGood(t.side, q, o);
    DistinctInsert(t.side, q, o);
    var b', q' := Rest(b, t, qty), Insert(t.side, q, o);
    forall x, y | 0 <= x < |b'.bids| && 0 <= y < |b'.asks| ensures b'.bids[x].price < b'.asks[y].price {
      var mine, theirs := if t.side == Bid then x else y, if t.side == Bid then y else x;
      assert !Crosses(t, b.At(t.side.Opposite())[theirs].price);
      assert q'[mine].price == o.price || PriceIn(q, q'[mine].price);
    }
  }

  lemma {:induction false} RemoveGoodQueue(s: Side, q: Queue, id: OrderId)
    requires GoodQueue(s, q) && Has(q, id)
    ensures GoodQueue(s, Remove(q, id)) && Ids(Remove(q, id)) == Ids(q) - {id}
    ensures forall j :: 0 <= j < |Remove(q, id)| ==> PriceIn(q, Remove(q, id)[j].price)
  {
    hide Sorted, Positive, PriceIn, Ids, Distinct;
    var i := IndexOf(q, id);
    assert q == q[..i] + [q[i]] + q[i + 1..] && Remove(q, id) == q[..i] + q[i + 1..];
    DistinctSplit(q[..i], q[i], q[i + 1..]);
    CutGood(s, q, i);
  }

  lemma {:induction false} CutGood(s: Side, q: Queue, i: nat)
    requires Sorted(s, q) && Positive(q) && i < |q|
    ensures var q' := q[..i] + q[i + 1..];
      Sorted(s, q') && Positive(q') && forall j :: 0 <= j < |q'| ==> PriceIn(q, q'[j].price)
  {
    var q' := q[..i] + q[i + 1..];
    forall j | 0 <= j < |q'| ensures q'[j] == q[if j < i then j else j + 1] {}
  }

  lemma {:induction false} RemoveGood(b: Book, s: Side, id: OrderId)
    requires Good(b) && Has(b.At(s), id)
    ensures Good(b.With(s, Remove(b.At(s), id)))
    ensures id !in Ids(b.With(s, Remove(b.At(s), id)).bids) && id !in Ids(b.With(s, Remove(b.At(s), id)).asks)
  {
    RemoveGoodQueue(s, b.At(s), id);
    HasIds(b.At(s), id);
    StaysUncrossed(b, s, Remove(b.At(s), id));
  }

  lemma {:induction false} ResizeGood(b: Book, s: Side, id: OrderId, qty: Qty)
    requires Good(b) && Has(b.At(s), id) && qty > 0
    ensures Good(b.With(s, Resize(b.At(s), id, qty)))
  {
    var q := b.At(s);
    var q' := Resize(q, id, qty);
    ResizeIds(q, id, qty);
    forall j | 0 <= j < |q'| ensures q'[j].price == q[j].price && q'[j].qty > 0 && PriceIn(q, q'[j].price) {}
    StaysUncrossed(b, s, q');
  }

  lemma {:induction false} LocateIds(b: Book, id: OrderId)
    ensures b.Locate(id) == None <==> id !in Ids(b.bids) && id !in Ids(b.asks)
    ensures b.Locate(id).Some? ==> Has(b.At(b.Locate(id).value), id)
  {
    HasIds(b.bids, id);
    HasIds(b.asks, id);
  }

  // ---- every message, every run ----

  lemma {:induction false} StepGood(stp: StpPolicy, b: Book, m: Message)
    requires Good(b)
    ensures Good(Step(stp, b, m).book)
  {
    LocateIds(b, m.id);
    match m
    case AddLimit(id, participant, side, price, qty, tif) =>
      var t := Taker(id, participant, side, price, false);
      if b.Locate(id) == None {
        SubmitGood(stp, b, t, qty);
      }
    case AddMarket(id, participant, side, qty) =>
      SweepGood(stp, b, Taker(id, participant, side, 0, true), qty);
    case Cancel(id) =>
      if b.Locate(id).Some? {
        RemoveGood(b, b.Locate(id).value, id);
      }
    case Modify(id, price, qty) =>
      if b.Locate(id).Some? {
        var s := b.Locate(id).value;
        RemoveGood(b, s, id);
        if qty > 0 {
          ResizeGood(b, s, id, qty);
          var o := Lookup(b.At(s), id);
          SubmitGood(stp, b.With(s, Remove(b.At(s), id)), Taker(id, o.participant, s, price, false), qty);
        }
      }
  }

  /** Sweeping and then resting the remainder of an order that is not in the book. */
  lemma {:induction false} SubmitGood(stp: StpPolicy, b: Book, t: Taker, qty: Qty)
    requires Good(b) && !t.market && t.id !in Ids(b.bids) && t.id !in Ids(b.asks)
    ensures var (rem, b1, _) := Sweep(stp, b, t, qty);
      Good(b1) && (rem > 0 ==> Good(Rest(b1, t, rem)))
  {
    SweepGood(stp, b, t, qty);
    var (rem, b1, _) := Sweep(stp, b, t, qty);
    assert Ids(b1.At(Bid)) <= Ids(b.At(Bid)) && Ids(b1.At(Ask)) <= Ids(b.At(Ask));
    if rem > 0 {
      RestGood(b1, t, rem);
    }
  }

  lemma {:induction false} EmptyGood()
    ensures Good(EmptyBook)
  {
  }

  /** After any message stream the book is good: sorted, positive, ids unique, never crossed or locked. */
  lemma {:induction false} RunGood(stp: StpPolicy, b: Book, ms: seq<Message>)
    requires Good(b)
    ensures Good(Run(stp, b, ms).0)
    decreases |ms|
  {
    if ms != [] {
      RunGood(stp, b, ms[..|ms| - 1]);
      StepGood(stp, Run(stp, b, ms[..|ms| - 1]).0, ms[|ms| - 1]);
    }
  }

  /** Best bid strictly below best ask, for every policy and every run from the empty book. */
  lemma {:induction false} NeverCrossed(stp: StpPolicy, ms: seq<Message>)
    ensures var b := Run(stp, EmptyBook, ms).0;
      Best(b.bids).Some? && Best(b.asks).Some? ==> Best(b.bids).value.0 < Best(b.asks).value.0
  {
    RunGood(stp, EmptyBook, ms);
  }

  /** The log of a stream starts with the log of each of its prefixes. */
  lemma {:induction false} RunPrefix(stp: StpPolicy, b: Book, ms: seq<Message>, n: nat)
    requires n <= |ms|
    ensures Run(stp, b, ms[..n]).1 <= Run(stp, b, ms).1
    decreases |ms| - n
  {
    if n < |ms| {
      RunPrefix(stp, b, ms, n + 1);
      assert ms[..n + 1][..n] == ms[..n];
    } else {
      assert ms[..n] == ms;
    }
  }
}
