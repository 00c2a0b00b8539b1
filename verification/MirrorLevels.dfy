/** One level update on a mirror that is in order does to the book exactly what it says, unless the
    new price crosses. */
module MirrorLevels {
  import opened Types
  import opened PriceTimeBook
  import opened QueueLemmas
  import opened BookInvariants
  import opened Mirrors

  /** One resting order per tracked price, and no other order. */
  ghost predicate OneEach(q: Queue, ids: map<Price, OrderId>) {
    && (forall i :: 0 <= i < |q| ==> q[i].price in ids && ids[q[i].price] == q[i].id)
    && (forall p :: p in ids ==> Rests(q, ids[p], p))
  }

  ghost predicate Rests(q: Queue, id: OrderId, p: Price) {
    exists i :: 0 <= i < |q| && q[i].id == id && q[i].price == p
  }

  ghost predicate Below(q: Queue, id: OrderId) {
    forall i :: 0 <= i < |q| ==> q[i].id < id
  }

  ghost predicate InOrder(m: Mirror) {
    && Good(m.book)
    && OneEach(m.book.bids, m.bidIds) && OneEach(m.book.asks, m.askIds)
    && Below(m.book.bids, m.nextId) && Below(m.book.asks, m.nextId)
  }

  /** The book `b'` is `b` with quantity `qty` at one price of one side. */
  ghost predicate Became(b: Book, b': Book, s: Side, p: Price, qty: Qty) {
    && b'.At(s.Opposite()) == b.At(s.Opposite())
    && forall x {:trigger Depth(b'.At(s), x)} :: Depth(b'.At(s), x) == if x == p then qty else Depth(b.At(s), x)
  }

  /** `log'` continues `log` without a trade. */
  ghost predicate Quiet(log: seq<Event>, log': seq<Event>) {
    log <= log' && forall i :: |log| <= i < |log'| ==> !log'[i].Traded?
  }

  // ---- depth in a queue with one order per price ----

  lemma {:induction false} DepthNone(q: Queue, p: Price)
    requires forall i :: 0 <= i < |q| ==> q[i].price != p
    ensures Depth(q, p) == 0
  {
    if q != [] {
      DepthNone(q[1..], p);
    }
  }

  lemma {:induction false} DepthOne(o: Resting, p: Price)
    ensures Depth([o], p) == if o.price == p then o.qty else 0
  {
    assert Depth([o][1..], p) == 0;
  }

  lemma {:induction false} DepthAround(a: Queue, o: Resting, b: Queue, p: Price)
    ensures Depth(a + [o] + b, p) == Depth(a + b, p) + if o.price == p then o.qty else 0
  {
    DepthSplit(a + [o], b, p);
    DepthSplit(a, [o], p);
    DepthSplit(a, b, p);
    DepthOne(o, p);
  }

  /** A queue, taken apart at one of its orders. */
  lemma {:induction false} SplitAt(q: Queue, id: OrderId) returns (a: Queue, o: Resting, b: Queue)
    requires Has(q, id)
    ensures q == a + [o] + b && o == Lookup(q, id) && o.id == id
    ensures Remove(q, id) == a + b
    ensures forall n :: Resize(q, id, n) == a + [o.(qty := n)] + b
  {
    var i := IndexOf(q, id);
    a, o, b := q[..i], q[i], q[i + 1..];
  }

  lemma {:induction false} DepthTracked(q: Queue, ids: map<Price, OrderId>, p: Price)
    requires OneEach(q, ids) && Distinct(q)
    ensures p in ids ==> Has(q, ids[p]) && Lookup(q, ids[p]).price == p
    ensures Depth(q, p) == if p in ids then Lookup(q, ids[p]).qty else 0
  {
    if p in ids {
      var k :| 0 <= k < |q| && q[k].id == ids[p] && q[k].price == p;
      LookupAt(q, k);
      RemoveDepth(q, ids[p], p);
      OneEachRemove(q, ids, p);
    } else {
      DepthNone(q, p);
    }
  }

  // ---- the three things done to a queue ----

  lemma {:induction false} InsertDepth(s: Side, q: Queue, o: Resting, x: Price)
    ensures Depth(Insert(s, q, o), x) == Depth(q, x) + if x == o.price then o.qty else 0
  {
    hide Depth, Insert, Better;
    var k := InsertPlace(s, q, o);
    assert q[..k] + q[k..] == q;
    DepthAround(q[..k], o, q[k..], x);
  }

  lemma {:induction false} RemoveDepth(q: Queue, id: OrderId, x: Price)
    requires Has(q, id)
    ensures Depth(q, x) == Depth(Remove(q, id), x) + if x == Lookup(q, id).price then Lookup(q, id).qty else 0
  {
    hide Depth, Remove, Lookup;
    var a, o, b := SplitAt(q, id);
    DepthAround(a, o, b, x);
  }

  /** `q'` is `q` with `o` put in at `k`. */
  ghost predicate PutIn(q: Queue, o: Resting, k: nat, q': Queue) {
    k <= |q| && q' == q[..k] + [o] + q[k..]
  }

  lemma {:induction false} OneEachMore(q: Queue, ids: map<Price, OrderId>, o: Resting, k: nat, q': Queue)
    requires OneEach(q, ids) && PutIn(q, o, k, q') && o.price !in ids
    ensures OneEach(q', ids[o.price := o.id])
  {
    forall i | 0 <= i < |q'| ensures q'[i] == if i < k then q[i] else if i == k then o else q[i - 1] {}
    forall p | p in ids ensures Rests(q', ids[p], p) {
      var i :| 0 <= i < |q| && q[i].id == ids[p] && q[i].price == p;
      assert q'[if i < k then i else i + 1] == q[i];
    }
    assert Rests(q', o.id, o.price) by {
      assert q'[k] == o;
    }
  }

  lemma {:induction false} PutPlaces(q: Queue, o: Resting, k: nat, q': Queue)
    requires PutIn(q, o, k, q')
    ensures |q'| == |q| + 1 && q'[k] == o
    ensures forall i :: 0 <= i < k ==> q[i] == q'[i]
    ensures forall i :: k <= i < |q| ==> q[i] == q'[i + 1]
  {
  }

  lemma {:induction false} DistinctLess(q: Queue, o: Resting, k: nat, q': Queue)
    requires PutIn(q, o, k, q') && Distinct(q')
    ensures Distinct(q) && !Has(q, o.id)
  {
    PutPlaces(q, o, k, q');
    hide PutIn;
    forall i | 0 <= i < |q| ensures q[i].id != o.id {
      assert q'[if i < k then i else i + 1].id != q'[k].id;
    }
  }

  lemma {:induction false} OneEachLess(q: Queue, ids: map<Price, OrderId>, o: Resting, k: nat, q': Queue)
    requires OneEach(q', ids) && PutIn(q, o, k, q') && Distinct(q')
    ensures o.price in ids && ids[o.price] == o.id
    ensures OneEach(q, ids - {o.price}) && Distinct(q) && !Has(q, o.id)
  {
    DistinctLess(q, o, k, q');
    PutPlaces(q, o, k, q');
    hide PutIn, Distinct, Has, Rests;
    assert q'[k].price in ids && ids[q'[k].price] == q'[k].id;
    forall i | 0 <= i < |q| ensures q[i].price in ids - {o.price} && (ids - {o.price})[q[i].price] == q[i].id {
      var j := if i < k then i else i + 1;
      assert q'[j].price in ids && ids[q'[j].price] == q'[j].id;
      OtherId(q, i, o);
    }
    forall p | p in ids && p != o.price ensures Rests(q, ids[p], p) {
      assert Rests(q', ids[p], p);
      StillRests(q, o, k, q', ids[p], p);
    }
  }

  lemma {:induction false} StillRests(q: Queue, o: Resting, k: nat, q': Queue, id: OrderId, p: Price)
    requires PutIn(q, o, k, q') && Rests(q', id, p) && p != o.price
    ensures Rests(q, id, p)
  {
    var i :| 0 <= i < |q'| && q'[i].id == id && q'[i].price == p;
    PutPlaces(q, o, k, q');
    assert q[if i < k then i else i - 1] == q'[i];
  }

  lemma {:induction false} OtherId(q: Queue, i: nat, o: Resting)
    requires i < |q| && !Has(q, o.id)
    ensures q[i].id != o.id
  {
  }

  lemma {:induction false} OneEachInsert(s: Side, q: Queue, ids: map<Price, OrderId>, o: Resting)
    requires OneEach(q, ids) && o.price !in ids
    ensures OneEach(Insert(s, q, o), ids[o.price := o.id])
    ensures forall x :: Depth(Insert(s, q, o), x) == if x == o.price then o.qty else Depth(q, x)
  {
    var k := InsertPlace(s, q, o);
    OneEachMore(q, ids, o, k, Insert(s, q, o));
    forall x ensures Depth(Insert(s, q, o), x) == if x == o.price then o.qty else Depth(q, x) {
      InsertDepth(s, q, o, x);
      if x == o.price {
        DepthNone(q, x);
      }
    }
  }

  lemma {:induction false} LookupAt(q: Queue, i: nat)
    requires Distinct(q) && i < |q|
    ensures Has(q, q[i].id) && Lookup(q, q[i].id) == q[i]
  {
  }

  lemma {:induction false} OneEachRemove(q: Queue, ids: map<Price, OrderId>, p: Price)
    requires OneEach(q, ids) && Distinct(q) && p in ids
    ensures Has(q, ids[p]) && Lookup(q, ids[p]).price == p
    ensures var q' := Remove(q, ids[p]);
      && OneEach(q', ids - {p}) && Distinct(q') && !Has(q', ids[p])
      && forall x :: Depth(q', x) == if x == p then 0 else Depth(q, x)
  {
    var k :| 0 <= k < |q| && q[k].id == ids[p] && q[k].price == p;
    LookupAt(q, k);
    var a, o, b := SplitAt(q, ids[p]);
    PutBetween(a, o, b);
    OneEachLess(a + b, ids, o, |a|, q);
    forall x ensures Depth(a + b, x) == if x == p then 0 else Depth(q, x) {
      RemoveDepth(q, ids[p], x);
      if x == p {
        DepthNone(a + b, x);
      }
    }
  }

  lemma {:induction false} OneEachResize(q: Queue, ids: map<Price, OrderId>, p: Price, n: Qty)
    requires OneEach(q, ids) && Distinct(q) && p in ids
    ensures Has(q, ids[p]) && OneEach(Resize(q, ids[p], n), ids)
    ensures forall x :: Depth(Resize(q, ids[p], n), x) == if x == p then n else Depth(q, x)
  {
    OneEachRemove(q, ids, p);
    ResizeOneEach(q, ids, p, n);
    hide *;
    forall x ensures Depth(Resize(q, ids[p], n), x) == if x == p then n else Depth(q, x) {
      ResizeDepth(q, ids[p], n, x);
    }
  }

  lemma {:induction false} ResizeDepth(q: Queue, id: OrderId, n: Qty, x: Price)
    requires Has(q, id) && Depth(Remove(q, id), x) == if x == Lookup(q, id).price then 0 else Depth(q, x)
    ensures Depth(Resize(q, id, n), x) == if x == Lookup(q, id).price then n else Depth(q, x)
  {
    var a, o, b := SplitAt(q, id);
    hide *;
    DepthAround(a, o.(qty := n), b, x);
  }

  lemma {:induction false} ResizeOneEach(q: Queue, ids: map<Price, OrderId>, p: Price, n: Qty)
    requires p in ids && Has(q, ids[p]) && Lookup(q, ids[p]).price == p
    requires OneEach(Remove(q, ids[p]), ids - {p})
    ensures OneEach(Resize(q, ids[p], n), ids)
  {
    var a, o, b := SplitAt(q, ids[p]);
    hide *;
    var o' := o.(qty := n);
    PutBetween(a, o', b);
    OneEachMore(a + b, ids - {p}, o', |a|, a + [o'] + b);
    assert (ids - {p})[p := ids[p]] == ids;
  }

  lemma {:induction false} PutBetween(a: Queue, o: Resting, b: Queue)
    ensures PutIn(a + b, o, |a|, a + [o] + b)
  {
  }

  // ---- one update ----

  /** Nothing on the other side meets price `p` of side `s`. */
  ghost predicate Clear(b: Book, s: Side, p: Price) {
    forall j :: 0 <= j < |b.At(s.Opposite())| ==> Better(s, b.At(s.Opposite())[j].price, p)
  }

  lemma {:induction false} SweepNothing(stp: StpPolicy, b: Book, t: Taker, qty: Qty)
    requires Clear(b, t.side, t.price) && !t.market
    ensures Sweep(stp, b, t, qty) == (qty, b, [])
  {
    MatchNone(stp, t, qty, b.At(t.side.Opposite()));
  }

  lemma {:induction false} UnknownBelow(m: Mirror)
    requires InOrder(m)
    ensures m.book.Locate(m.nextId) == None
  {
  }

  /** What is tracked on a side is found on that side. */
  lemma {:induction false} Tracked(m: Mirror, s: Side, p: Price)
    requires InOrder(m) && p in m.IdsOf(s)
    ensures m.book.Locate(m.IdsOf(s)[p]) == Some(s)
    ensures Has(m.book.At(s), m.IdsOf(s)[p])
    ensures Lookup(m.book.At(s), m.IdsOf(s)[p]).price == p && Lookup(m.book.At(s), m.IdsOf(s)[p]).id == m.IdsOf(s)[p]
    ensures OpenQty(m.book, m.IdsOf(s)[p]) == Depth(m.book.At(s), p) > 0
  {
    DepthTracked(m.book.At(s), m.IdsOf(s), p);
    HasIds(m.book.bids, m.IdsOf(s)[p]);
    HasIds(m.book.asks, m.IdsOf(s)[p]);
  }

  lemma {:induction false} Untracked(m: Mirror, s: Side, p: Price)
    requires InOrder(m) && p !in m.IdsOf(s)
    ensures Depth(m.book.At(s), p) == 0
  {
    DepthTracked(m.book.At(s), m.IdsOf(s), p);
  }

  /** The update leaves the mirror in order and changes one price to `qty`, silently but for an
      accept or a cancel. */
  ghost predicate Exact(m: Mirror, m': Mirror, s: Side, lu: LevelUpdate) {
    && InOrder(m') && Became(m.book, m'.book, s, lu.price, lu.qty) && Quiet(m.log, m'.log)
    && m'.applied == m.applied + 1
  }

  /** Putting the pieces of one side together. */
  lemma {:induction false} ExactFrom(m: Mirror, m': Mirror, s: Side, lu: LevelUpdate)
    requires InOrder(m) && Good(m'.book)
    requires m'.book.At(s.Opposite()) == m.book.At(s.Opposite()) && m'.IdsOf(s.Opposite()) == m.IdsOf(s.Opposite())
    requires m'.nextId >= m.nextId && m'.applied == m.applied + 1 && Quiet(m.log, m'.log)
    requires OneEach(m'.book.At(s), m'.IdsOf(s)) && Below(m'.book.At(s), m'.nextId)
    requires forall x :: Depth(m'.book.At(s), x) == if x == lu.price then lu.qty else Depth(m.book.At(s), x)
    ensures Exact(m, m', s, lu)
  {
    hide Good, OneEach, Depth;
  }

  lemma {:induction false} SideParts(m: Mirror, s: Side)
    requires InOrder(m)
    ensures Good(m.book) && Distinct(m.book.At(s)) && OneEach(m.book.At(s), m.IdsOf(s)) && Below(m.book.At(s), m.nextId)
  {
  }

  /** An addition that nothing crosses comes to rest. */
  lemma {:induction false} AddStep(stp: StpPolicy, m: Mirror, s: Side, lu: LevelUpdate)
    requires lu.price !in m.IdsOf(s) && lu.qty > 0 && m.book.Locate(m.nextId) == None && Clear(m.book, s, lu.price)
    ensures var m' := ApplyLevel(stp, m, s, lu);
      && m'.book.At(s) == Insert(s, m.book.At(s), Resting(m.nextId, MirrorParticipant, lu.price, lu.qty))
      && m'.book.At(s.Opposite()) == m.book.At(s.Opposite())
      && m'.book == Step(stp, m.book, AddLimit(m.nextId, MirrorParticipant, s, lu.price, lu.qty, GTC)).book
      && m'.IdsOf(s) == m.IdsOf(s)[lu.price := m.nextId] && m'.IdsOf(s.Opposite()) == m.IdsOf(s.Opposite())
      && m'.nextId == m.nextId + 1 && m'.applied == m.applied + 1 && Quiet(m.log, m'.log)
  {
    var t := Taker(m.nextId, MirrorParticipant, s, lu.price, false);
    SweepNothing(stp, m.book, t, lu.qty);
    hide Sweep, Clear, Insert, Book.Locate;
    assert ApplyLevel(stp, m, s, lu).log == m.log + ([Accepted(t.id, s, lu.price, lu.qty)] + []);
  }

  lemma {:induction false} AddExact(stp: StpPolicy, m: Mirror, s: Side, lu: LevelUpdate)
    requires InOrder(m) && lu.price !in m.IdsOf(s) && lu.qty > 0 && Clear(m.book, s, lu.price)
    ensures Exact(m, ApplyLevel(stp, m, s, lu), s, lu)
  {
    var q, ids, o := m.book.At(s), m.IdsOf(s), Resting(m.nextId, MirrorParticipant, lu.price, lu.qty);
    SideParts(m, s);
    UnknownBelow(m);
    AddStep(stp, m, s, lu);
    hide *;
    StepGood(stp, m.book, AddLimit(m.nextId, MirrorParticipant, s, lu.price, lu.qty, GTC));
    OneEachInsert(s, q, ids, o);
    BelowInsert(s, q, o, m.nextId);
    ExactFrom(m, ApplyLevel(stp, m, s, lu), s, lu);
  }

  /** Out and in again, at the same price under the same id. */
  lemma {:induction false} OneEachReplace(s: Side, q: Queue, ids: map<Price, OrderId>, o: Resting, n: OrderId)
    requires OneEach(q, ids) && Distinct(q) && Below(q, n) && o.price in ids && ids[o.price] == o.id && Has(q, o.id)
    ensures OneEach(Insert(s, Remove(q, o.id), o), ids) && Below(Insert(s, Remove(q, o.id), o), n)
    ensures forall x :: Depth(Insert(s, Remove(q, o.id), o), x) == if x == o.price then o.qty else Depth(q, x)
  {
    hide *;
    OneEachRemove(q, ids, o.price);
    BelowRemove(q, o.id, n);
    OneEachInsert(s, Remove(q, o.id), ids - {o.price}, o);
    BelowInsert(s, Remove(q, o.id), o, n);
    assert (ids - {o.price})[o.price := o.id] == ids;
  }

  lemma {:induction false} BelowInsert(s: Side, q: Queue, o: Resting, n: OrderId)
    requires Below(q, n) && o.id <= n
    ensures Below(Insert(s, q, o), n + 1)
    ensures o.id < n ==> Below(Insert(s, q, o), n)
  {
    var k := InsertPlace(s, q, o);
  }

  lemma {:induction false} BelowRemove(q: Queue, id: OrderId, n: OrderId)
    requires Below(q, n) && Has(q, id)
    ensures Below(Remove(q, id), n) && id < n
  {
    assert q[IndexOf(q, id)].id == id;
  }

  lemma {:induction false} BelowResize(q: Queue, id: OrderId, qty: Qty, n: OrderId)
    requires Below(q, n) && Has(q, id)
    ensures Below(Resize(q, id, qty), n)
  {
    forall i | 0 <= i < |q| ensures Resize(q, id, qty)[i].id == q[i].id {}
  }

  lemma {:induction false} CancelStep(stp: StpPolicy, m: Mirror, s: Side, lu: LevelUpdate)
    requires lu.price in m.IdsOf(s) && lu.qty == 0 && m.book.Locate(m.IdsOf(s)[lu.price]) == Some(s)
    requires Has(m.book.At(s), m.IdsOf(s)[lu.price])
    ensures var q, id, m' := m.book.At(s), m.IdsOf(s)[lu.price], ApplyLevel(stp, m, s, lu);
      && m'.book == m.book.With(s, Remove(q, id)) == Step(stp, m.book, Cancel(id)).book
      && Quiet(m.log, m'.log) && m'.applied == m.applied + 1 && m'.nextId == m.nextId
      && m'.IdsOf(s) == m.IdsOf(s) - {lu.price} && m'.IdsOf(s.Opposite()) == m.IdsOf(s.Opposite())
  {
    hide Remove, Has, Book.Locate;
  }

  /** A raise is a cancel/replace in which nothing matches. */
  lemma {:induction false} RaiseStep(stp: StpPolicy, m: Mirror, s: Side, lu: LevelUpdate)
    requires lu.price in m.IdsOf(s) && m.book.Locate(m.IdsOf(s)[lu.price]) == Some(s)
    requires Has(m.book.At(s), m.IdsOf(s)[lu.price]) && Lookup(m.book.At(s), m.IdsOf(s)[lu.price]).id == m.IdsOf(s)[lu.price]
    requires lu.qty > OpenQty(m.book, m.IdsOf(s)[lu.price]) && Clear(m.book, s, lu.price)
    ensures var q, id, m' := m.book.At(s), m.IdsOf(s)[lu.price], ApplyLevel(stp, m, s, lu);
      && m'.book.At(s) == Insert(s, Remove(q, id), Lookup(q, id).(price := lu.price, qty := lu.qty))
      && m'.book.At(s.Opposite()) == m.book.At(s.Opposite())
      && m'.book == Step(stp, m.book, Modify(id, lu.price, lu.qty)).book
      && m'.IdsOf(s) == m.IdsOf(s) && m'.IdsOf(s.Opposite()) == m.IdsOf(s.Opposite()) && Quiet(m.log, m'.log)
      && m' == m.(book := m'.book, applied := m.applied + 1)
  {
    var q, id := m.book.At(s), m.IdsOf(s)[lu.price];
    hide Remove, Has, Book.Locate, Lookup, Insert, CancelOrder;
    var t := Taker(id, Lookup(q, id).participant, s, lu.price, false);
    var b := m.book.With(s, Remove(q, id));
    assert b.At(s.Opposite()) == m.book.At(s.Opposite());
    assert Clear(b, t.side, t.price);
    SweepNothing(stp, b, t, lu.qty);
    hide Sweep, Clear;
    assert m.log + [] == m.log;
  }

  lemma {:induction false} CancelExact(stp: StpPolicy, m: Mirror, s: Side, lu: LevelUpdate)
    requires InOrder(m) && lu.price in m.IdsOf(s) && lu.qty == 0
    ensures Exact(m, ApplyLevel(stp, m, s, lu), s, lu)
  {
    var q, ids := m.book.At(s), m.IdsOf(s);
    var id := ids[lu.price];
    SideParts(m, s);
    Tracked(m, s, lu.price);
    StepGood(stp, m.book, Cancel(id));
    OneEachRemove(q, ids, lu.price);
    BelowRemove(q, id, m.nextId);
    CancelStep(stp, m, s, lu);
    hide *;
    ExactFrom(m, ApplyLevel(stp, m, s, lu), s, lu);
  }

  lemma {:induction false} ReduceStep(stp: StpPolicy, m: Mirror, s: Side, lu: LevelUpdate)
    requires lu.price in m.IdsOf(s) && m.book.Locate(m.IdsOf(s)[lu.price]) == Some(s)
    requires Has(m.book.At(s), m.IdsOf(s)[lu.price]) && Lookup(m.book.At(s), m.IdsOf(s)[lu.price]).price == lu.price
    requires 0 < lu.qty < OpenQty(m.book, m.IdsOf(s)[lu.price])
    ensures var id, m' := m.IdsOf(s)[lu.price], ApplyLevel(stp, m, s, lu);
      && m'.book.At(s) == Resize(m.book.At(s), id, lu.qty) && m'.book.At(s.Opposite()) == m.book.At(s.Opposite())
      && m'.book == Step(stp, m.book, Modify(id, lu.price, lu.qty)).book
      && m'.IdsOf(s) == m.IdsOf(s) && m'.IdsOf(s.Opposite()) == m.IdsOf(s.Opposite()) && Quiet(m.log, m'.log)
      && m' == m.(book := m'.book, applied := m.applied + 1)
  {
    hide Resize, Has, Lookup, Book.Locate, CancelOrder, Sweep;
    assert m.log + [] == m.log;
  }

  lemma {:induction false} ReduceExact(stp: StpPolicy, m: Mirror, s: Side, lu: LevelUpdate)
    requires InOrder(m) && lu.price in m.IdsOf(s) && 0 < lu.qty < OpenQty(m.book, m.IdsOf(s)[lu.price])
    ensures Exact(m, ApplyLevel(stp, m, s, lu), s, lu)
  {
    var q, ids := m.book.At(s), m.IdsOf(s);
    SideParts(m, s);
    Tracked(m, s, lu.price);
    ReduceStep(stp, m, s, lu);
    hide *;
    StepGood(stp, m.book, Modify(ids[lu.price], lu.price, lu.qty));
    OneEachResize(q, ids, lu.price, lu.qty);
    BelowResize(q, ids[lu.price], lu.qty, m.nextId);
    ExactFrom(m, ApplyLevel(stp, m, s, lu), s, lu);
  }

  lemma {:induction false} RaiseExact(stp: StpPolicy, m: Mirror, s: Side, lu: LevelUpdate)
    requires InOrder(m) && lu.price in m.IdsOf(s) && lu.qty > OpenQty(m.book, m.IdsOf(s)[lu.price])
    requires Clear(m.book, s, lu.price)
    ensures Exact(m, ApplyLevel(stp, m, s, lu), s, lu)
  {
    var q, ids := m.book.At(s), m.IdsOf(s);
    var id := ids[lu.price];
    SideParts(m, s);
    Tracked(m, s, lu.price);
    var o := Lookup(q, id).(price := lu.price, qty := lu.qty);
    RaiseStep(stp, m, s, lu);
    hide *;
    StepGood(stp, m.book, Modify(id, lu.price, lu.qty));
    OneEachReplace(s, q, ids, o, m.nextId);
    ExactFrom(m, ApplyLevel(stp, m, s, lu), s, lu);
  }

  /** An update that takes away, or adds where nothing crosses, is exact. */
  lemma {:induction false} LevelExact(stp: StpPolicy, m: Mirror, s: Side, lu: LevelUpdate)
    requires InOrder(m)
    requires IsReduction(m, s, lu) || lu.qty == 0 || Clear(m.book, s, lu.price)
    ensures Exact(m, ApplyLevel(stp, m, s, lu), s, lu)
  {
    var ids, m' := m.IdsOf(s), ApplyLevel(stp, m, s, lu);
    if lu.price !in ids {
      Untracked(m, s, lu.price);
      if lu.qty > 0 {
        AddExact(stp, m, s, lu);
      }
    } else {
      Tracked(m, s, lu.price);
      if lu.qty == 0 {
        CancelExact(stp, m, s, lu);
      } else if lu.qty < OpenQty(m.book, ids[lu.price]) {
        ReduceExact(stp, m, s, lu);
      } else if lu.qty > OpenQty(m.book, ids[lu.price]) {
        RaiseExact(stp, m, s, lu);
      }
    }
  }
}
