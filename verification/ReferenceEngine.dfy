/** The repository's own oracle: sorted maps of queues and linear scans, proved against the same
    meaning as the optimized engine.  A sorted map of levels is kept as the list of its entries. */
module ReferenceEngines {
  import opened Types
  import opened PriceTimeBook
  import opened QueueLemmas
  import opened Ladders

  datatype LiveRef = LiveRef(side: Side, price: Price)

  type LiveMap = map<OrderId, LiveRef>

  /** The live map names exactly the resting orders and says where they rest. */
  ghost predicate Tracks(live: LiveMap, b: Book) {
    && live.Keys == Ids(b.bids) + Ids(b.asks)
    && Ids(b.bids) !! Ids(b.asks)
    && (forall s, k :: 0 <= k < |b.At(s)| ==> b.At(s)[k].id in live && live[b.At(s)[k].id] == LiveRef(s, b.At(s)[k].price))
  }

  /** The first entry not better than `price`: where the map finds it or would insert it. */
  function LowerBound(s: Side, l: Ladder, price: Price): (i: nat)
    ensures i <= |l|
    ensures forall k :: 0 <= k < i ==> Better(s, l[k].price, price)
    ensures i < |l| ==> !Better(s, l[i].price, price)
  {
    if l == [] || !Better(s, l[0].price, price) then 0 else 1 + LowerBound(s, l[1..], price)
  }

  lemma {:induction false} LowerBoundAt(s: Side, l: Ladder, i: nat)
    requires Graded(s, l) && i < |l|
    ensures LowerBound(s, l, l[i].price) == i
  {
    assert forall k :: 0 <= k < i ==> Better(s, l[k].price, l[i].price);
  }

  // ---- entries of the sorted map ----

  function WithEntry(s: Side, l: Ladder, price: Price): (l': Ladder)
    ensures LowerBound(s, l, price) < |l'|
  {
    var i := LowerBound(s, l, price);
    if i == |l| || l[i].price != price then WithRow(l, i, price) else l
  }

  /** Push to the back of the queue at the order's price, which is created if need be. */
  function File(s: Side, l: Ladder, o: Resting): Ladder {
    var i, l' := LowerBound(s, l, o.price), WithEntry(s, l, o.price);
    Replace(l', i, l'[i].queue + [o])
  }

  lemma {:induction false} FileIs(s: Side, l: Ladder, o: Resting)
    requires Graded(s, l) && NoneEmpty(l) && Distinct(Flatten(l)) && !Has(Flatten(l), o.id)
    ensures var l' := File(s, l, o);
      Graded(s, l') && NoneEmpty(l') && Flatten(l') == Insert(s, Flatten(l), o) && Distinct(Flatten(l'))
  {
    var i := LowerBound(s, l, o.price);
    var l' := WithEntry(s, l, o.price);
    WithEntryIs(s, l, o.price);
    hide WithEntry;
    FlattenPush(s, l', i, o);
    PushGraded(s, l', i, o);
    DistinctInsert(s, Flatten(l), o);
    hide Flatten, Insert, Graded, Distinct;
  }

  lemma {:induction false} WithEntryIs(s: Side, l: Ladder, price: Price)
    requires Graded(s, l) && NoneEmpty(l)
    ensures var i, l' := LowerBound(s, l, price), WithEntry(s, l, price);
      && i < |l'| && l'[i].price == price && Graded(s, l') && Flatten(l') == Flatten(l) && NoneEmptyBut(l', i)
  {
    var i := LowerBound(s, l, price);
    if i == |l| || l[i].price != price {
      assert forall k :: i <= k < |l| ==> Better(s, price, l[k].price);
      FlattenWithRow(s, l, i, price);
      WithRowEmpty(l, i, price);
      hide Flatten, Graded, NoneEmpty, NoneEmptyBut;
    }
  }

  /** Take one order out of one entry; an entry that empties goes too. */
  function CutOut(l: Ladder, i: nat, j: nat): Ladder
    requires i < |l| && j < |l[i].queue|
  {
    var q := l[i].queue[..j] + l[i].queue[j + 1..];
    if q == [] then Without(l, i) else Replace(l, i, q)
  }

  lemma {:induction false} CutOutIs(s: Side, l: Ladder, i: nat, j: nat)
    requires Graded(s, l) && NoneEmpty(l) && Distinct(Flatten(l)) && i < |l| && j < |l[i].queue|
    ensures var l', id := CutOut(l, i, j), l[i].queue[j].id;
      && Has(Flatten(l), id) && Flatten(l') == Remove(Flatten(l), id)
      && Graded(s, l') && NoneEmpty(l') && Distinct(Flatten(l'))
  {
    FlattenCut(l, i, j);
    CutGraded(s, l, i, j);
    var cut := Replace(l, i, l[i].queue[..j] + l[i].queue[j + 1..]);
    if cut[i].queue == [] {
      FlattenWithout(cut, i);
      WithoutGraded(s, cut, i);
      assert Without(cut, i) == Without(l, i);
    }
  }

  /** `pop_front` on the best entry. */
  function Popped(l: Ladder): Ladder
    requires l != [] && l[0].queue != []
  {
    Replace(l, 0, l[0].queue[1..])
  }

  lemma {:induction false} PoppedIs(s: Side, l: Ladder)
    requires Graded(s, l) && Distinct(Flatten(l)) && NoneEmptyBut(l, 0) && l != [] && l[0].queue != []
    ensures Graded(s, Popped(l)) && Distinct(Flatten(Popped(l))) && NoneEmptyBut(Popped(l), 0)
    ensures var q := Flatten(l);
      q != [] && q[0] == l[0].queue[0] && Has(q, q[0].id) && Remove(q, q[0].id) == q[1..] && Flatten(Popped(l)) == q[1..]
  {
    hide *;
    FlattenFirst(l);
    PoppedCuts(l);
    FlattenCut(l, 0, 0);
    CutGraded(s, l, 0, 0);
    RemoveHead(Flatten(l));
  }

  lemma {:induction false} PoppedCuts(l: Ladder)
    requires NoneEmptyBut(l, 0) && l != [] && l[0].queue != []
    ensures Popped(l) == Replace(l, 0, l[0].queue[..0] + l[0].queue[1..]) && NoneEmptyBut(Popped(l), 0)
  {
    assert l[0].queue[..0] + l[0].queue[1..] == l[0].queue[1..];
  }

  lemma {:induction false} FlattenFirst(l: Ladder)
    requires l != [] && l[0].queue != []
    ensures Flatten(l) != [] && Flatten(l)[0] == l[0].queue[0]
  {
  }

  lemma {:induction false} ErasedIs(s: Side, l: Ladder)
    requires Graded(s, l) && NoneEmptyBut(l, 0) && l != [] && l[0].queue == []
    ensures Graded(s, l[1..]) && NoneEmpty(l[1..]) && Flatten(l[1..]) == Flatten(l)
  {
    WithoutGraded(s, l, 0);
    assert Without(l, 0) == l[1..];
    FlattenWithout(l, 0);
  }

  // ---- the live map follows ----

  lemma {:induction false} TracksRemove(live: LiveMap, b: Book, s: Side, id: OrderId)
    requires Tracks(live, b) && Distinct(b.At(s)) && Has(b.At(s), id)
    ensures Tracks(live - {id}, b.With(s, Remove(b.At(s), id)))
  {
    var q, other := b.At(s), b.At(s.Opposite());
    HasIds(q, id);
    assert Refers(live, s, q) && Refers(live, s.Opposite(), other);
    RefersRemove(live, s, q, id);
    RefersOther(live, s.Opposite(), other, id);
    var live', b' := live - {id}, b.With(s, Remove(q, id));
    hide Remove, Has, Distinct, Ids, Refers;
    forall x ensures Refers(live', x, b'.At(x)) {
      assert x == s || x == s.Opposite();
    }
    TracksFrom(live', b');
  }

  lemma {:induction false} TracksFrom(live: LiveMap, b: Book)
    requires live.Keys == Ids(b.bids) + Ids(b.asks) && Ids(b.bids) !! Ids(b.asks)
    requires forall x :: Refers(live, x, b.At(x))
    ensures Tracks(live, b)
  {
    hide Ids;
    forall x, k | 0 <= k < |b.At(x)| ensures b.At(x)[k].id in live && live[b.At(x)[k].id] == LiveRef(x, b.At(x)[k].price) {
      assert Refers(live, x, b.At(x));
    }
  }

  lemma {:induction false} RefersRemove(live: LiveMap, s: Side, q: Queue, id: OrderId)
    requires Refers(live, s, q) && Distinct(q) && Has(q, id)
    ensures Refers(live - {id}, s, Remove(q, id)) && Ids(Remove(q, id)) == Ids(q) - {id}
  {
    var i, q' := IndexOf(q, id), Remove(q, id);
    assert q == q[..i] + [q[i]] + q[i + 1..];
    DistinctSplit(q[..i], q[i], q[i + 1..]);
    hide Distinct, Has;
    forall k | 0 <= k < |q'| ensures q'[k].id in live - {id} && live[q'[k].id] == LiveRef(s, q'[k].price) {
      assert q'[k] == q[if k < i then k else k + 1];
      assert q'[k].id in Ids(q');
    }
  }

  lemma {:induction false} RefersOther(live: LiveMap, s: Side, q: Queue, id: OrderId)
    requires Refers(live, s, q) && id !in Ids(q)
    ensures Refers(live - {id}, s, q)
  {
    forall k | 0 <= k < |q| ensures q[k].id != id {
      assert q[k].id in Ids(q);
    }
  }

  /** The live map leads to every order of one side. */
  ghost predicate Refers(live: LiveMap, s: Side, q: Queue) {
    forall k :: 0 <= k < |q| ==> q[k].id in live && live[q[k].id] == LiveRef(s, q[k].price)
  }

  lemma {:induction false} RefersInsert(live: LiveMap, s: Side, q: Queue, o: Resting)
    requires Refers(live, s, q) && o.id !in live
    ensures Refers(live[o.id := LiveRef(s, o.price)], s, Insert(s, q, o))
  {
    var i := InsertPlace(s, q, o);
    hide Insert, Better;
    var q' := Insert(s, q, o);
    forall k | 0 <= k < |q'| ensures q'[k] == if k < i then q[k] else if k == i then o else q[k - 1] {}
  }

  lemma {:induction false} NotResting(live: LiveMap, b: Book, s: Side, id: OrderId)
    requires Tracks(live, b) && id !in live
    ensures !Has(b.At(s), id)
  {
    HasIds(b.At(s), id);
  }

  lemma {:induction false} TracksInsert(live: LiveMap, b: Book, s: Side, o: Resting)
    requires Tracks(live, b) && Distinct(b.At(s)) && o.id !in live
    ensures Tracks(live[o.id := LiveRef(s, o.price)], b.With(s, Insert(s, b.At(s), o)))
  {
    var q := b.At(s);
    HasIds(q, o.id);
    assert Refers(live, s, q) && Refers(live, s.Opposite(), b.At(s.Opposite()));
    hide Insert, Better, Has, Distinct;
    RefersInsert(live, s, q, o);
    DistinctInsert(s, q, o);
    var live', b' := live[o.id := LiveRef(s, o.price)], b.With(s, Insert(s, q, o));
    assert Refers(live', s.Opposite(), b.At(s.Opposite()));
    forall x ensures Refers(live', x, b'.At(x)) {
      assert x == s || x == s.Opposite();
    }
  }

  lemma {:induction false} TracksResize(live: LiveMap, b: Book, s: Side, id: OrderId, qty: Qty)
    requires Tracks(live, b) && Has(b.At(s), id)
    ensures Tracks(live, b.With(s, Resize(b.At(s), id, qty)))
  {
    ResizeIds(b.At(s), id, qty);
    var b' := b.With(s, Resize(b.At(s), id, qty));
    forall x, k | 0 <= k < |b'.At(x)| ensures b'.At(x)[k].id == b.At(x)[k].id && b'.At(x)[k].price == b.At(x)[k].price {}
  }

  lemma {:induction false} TracksLocate(live: LiveMap, b: Book, id: OrderId)
    requires Tracks(live, b)
    ensures b.Locate(id) == if id in live then Some(live[id].side) else None
    ensures id in live ==> Has(b.At(live[id].side), id) && Lookup(b.At(live[id].side), id).price == live[id].price
  {
    HasIds(b.bids, id);
    HasIds(b.asks, id);
    if id in live {
      var s := if id in Ids(b.bids) then Bid else Ask;
      assert b.At(s)[IndexOf(b.At(s), id)].id == id;
    }
  }

  class ReferenceEngine {
    const stp: StpPolicy
    var bids: Ladder
    var asks: Ladder
    var live: LiveMap
    var events: seq<Event>

    constructor (stp: StpPolicy)
      ensures Valid() && this.stp == stp && Contents() == EmptyBook && events == []
    {
      this.stp := stp;
      this.bids, this.asks, this.live, this.events := [], [], map[], [];
    }

    ghost predicate Valid()
      reads this
    {
      && Graded(Bid, bids) && NoneEmpty(bids) && Distinct(Flatten(bids))
      && Graded(Ask, asks) && NoneEmpty(asks) && Distinct(Flatten(asks))
      && Tracks(live, Contents())
    }

    ghost function Contents(): Book
      reads this
    {
      Book(Flatten(bids), Flatten(asks))
    }

    function At(s: Side): Ladder
      reads this
    {
      if s.Bid? then bids else asks
    }

    method Set(s: Side, l: Ladder)
      modifies `bids, `asks
      ensures At(s) == l && At(s.Opposite()) == old(At(s.Opposite()))
    {
      if s.Bid? {
        bids := l;
      } else {
        asks := l;
      }
    }

    /** A new ladder on side `s`, with the ids that go with it. */
    method Commit(s: Side, l: Ladder, now: LiveMap)
      requires Valid() && Graded(s, l) && NoneEmpty(l) && Distinct(Flatten(l))
      requires Tracks(now, Contents().With(s, Flatten(l)))
      modifies `bids, `asks, `live
      ensures Valid() && live == now && Contents() == old(Contents()).With(s, Flatten(l))
    {
      hide Tracks, Graded, NoneEmpty, Distinct, Flatten;
      live := now;
      Set(s, l);
    }

    // ---- resting ----

    method Rest(t: Taker, qty: Qty)
      requires Valid() && t.id !in live
      modifies `bids, `asks, `live
      ensures Valid() && Contents() == PriceTimeBook.Rest(old(Contents()), t, qty)
    {
      var o := Resting(t.id, t.participant, t.price, qty);
      hide Tracks, Graded, NoneEmpty, Distinct, File, Insert, Flatten, Has;
      NotResting(live, Contents(), t.side, t.id);
      TracksInsert(live, Contents(), t.side, o);
      FileIs(t.side, At(t.side), o);
      Commit(t.side, File(t.side, At(t.side), o), live[t.id := LiveRef(t.side, t.price)]);
    }

    /** The place of a live id: its entry by price, its position by scanning the queue. */
    method Find(id: OrderId) returns (i: nat, j: nat)
      requires Valid() && id in live
      ensures var l := At(live[id].side); i < |l| && j < |l[i].queue| && l[i].queue[j].id == id
      ensures var q := Contents().At(live[id].side);
        Has(q, id) && Lookup(q, id) == At(live[id].side)[i].queue[j]
    {
      var s, l := live[id].side, At(live[id].side);
      TracksLocate(live, Contents(), id);
      i := LowerBound(s, l, live[id].price);
      ghost var row, place := PlaceOf(l, IndexOf(Flatten(l), id));
      LowerBoundAt(s, l, row);
      j := 0;
      while l[i].queue[j].id != id
        invariant i == row && 0 <= j <= place
        decreases place - j
      {
        j := j + 1;
      }
      FlattenCut(l, i, j);
    }

    method Unrest(id: OrderId)
      requires Valid() && id in live
      modifies `bids, `asks, `live
      ensures Valid() && id in old(live) && id !in live && live == old(live) - {id}
      ensures Has(old(Contents().At(live[id].side)), id)
      ensures Contents() == old(Contents().With(live[id].side, Remove(Contents().At(live[id].side), id)))
    {
      var s, l := live[id].side, At(live[id].side);
      var i, j := Find(id);
      TracksRemove(live, Contents(), s, id);
      CutOutIs(s, l, i, j);
      hide Tracks, Graded, NoneEmpty, Distinct, CutOut, Remove, Flatten, Has, Lookup;
      Commit(s, CutOut(l, i, j), live - {id});
    }

    /** `order.remaining = qty` for the order at entry `i`, position `j`. */
    method Resize(s: Side, i: nat, j: nat, qty: Qty)
      requires Valid() && i < |At(s)| && j < |At(s)[i].queue|
      modifies `bids, `asks
      ensures Valid() && Has(old(Contents().At(s)), old(At(s)[i].queue[j].id))
      ensures Contents() == old(Contents().With(s, PriceTimeBook.Resize(Contents().At(s), At(s)[i].queue[j].id, qty)))
    {
      var l := At(s);
      var o := l[i].queue[j];
      FlattenResize(l, i, j, qty);
      ResizeGraded(s, l, i, j, qty);
      TracksResize(live, Contents(), s, o.id, qty);
      assert NoneEmpty(Replace(l, i, l[i].queue[j := o.(qty := qty)]));
      hide Tracks, Graded, NoneEmpty, Distinct, PriceTimeBook.Resize, Flatten, Has;
      Set(s, Replace(l, i, l[i].queue[j := o.(qty := qty)]));
    }

    // ---- matching ----

    /** Valid, except that the best entry of side `s` may have run empty. */
    ghost predicate Loose(s: Side)
      reads this
    {
      && Graded(Bid, bids) && Distinct(Flatten(bids))
      && Graded(Ask, asks) && Distinct(Flatten(asks))
      && NoneEmptyBut(At(s), 0) && NoneEmpty(At(s.Opposite()))
      && Tracks(live, Contents())
    }

    /** The maker at the front leaves its queue and the live map. */
    method PopFront(s: Side)
      requires Loose(s) && At(s) != [] && At(s)[0].queue != []
      modifies `bids, `asks, `live
      ensures Loose(s) && old(Contents().At(s)) != [] && live.Keys <= old(live.Keys)
      ensures Contents() == old(Contents().With(s, Contents().At(s)[1..]))
      ensures |At(s)| == old(|At(s)|) && At(s)[0] == Level(old(At(s)[0].price), old(At(s)[0].queue[1..]))
    {
      var l := At(s);
      var id := l[0].queue[0].id;
      PoppedIs(s, l);
      TracksRemove(live, Contents(), s, id);
      hide Tracks, Graded, NoneEmpty, NoneEmptyBut, Distinct, Remove, Flatten, Has;
      live := live - {id};
      Set(s, Popped(l));
    }

    method ReduceFront(s: Side, qty: Qty)
      requires Loose(s) && At(s) != [] && At(s)[0].queue != []
      modifies `bids, `asks
      ensures Loose(s) && old(Contents().At(s)) != []
      ensures Contents() == old(Contents().With(s, [Contents().At(s)[0].(qty := qty)] + Contents().At(s)[1..]))
      ensures |At(s)| == old(|At(s)|) && At(s)[0].price == old(At(s)[0].price)
      ensures At(s)[0].queue == old(At(s)[0].queue[0 := At(s)[0].queue[0].(qty := qty)])
    {
      var l := At(s);
      var o := l[0].queue[0];
      FlattenResize(l, 0, 0, qty);
      ResizeGraded(s, l, 0, 0, qty);
      TracksResize(live, Contents(), s, o.id, qty);
      RemoveHead(Flatten(l));
      assert NoneEmptyBut(Replace(l, 0, l[0].queue[0 := o.(qty := qty)]), 0);
      hide Tracks, Graded, NoneEmpty, NoneEmptyBut, Distinct, PriceTimeBook.Resize, Flatten, Has;
      Set(s, Replace(l, 0, l[0].queue[0 := o.(qty := qty)]));
    }

    /** One pass of the inner loop against the front of the best entry. */
    method MatchFront(t: Taker, rem: Qty) returns (left: Qty, dead: bool, ghost log: seq<Event>)
      requires Loose(t.side.Opposite()) && rem > 0
      requires At(t.side.Opposite()) != [] && At(t.side.Opposite())[0].queue != []
      requires Crosses(t, At(t.side.Opposite())[0].price)
      modifies `bids, `asks, `live, `events
      ensures Loose(t.side.Opposite()) && live.Keys <= old(live.Keys) && events == old(events) + log
      ensures Contents() == old(Contents()).With(t.side.Opposite(), Contents().At(t.side.Opposite()))
      ensures Advances(stp, t, rem, old(Contents().At(t.side.Opposite())), left, Contents().At(t.side.Opposite()), dead, log)
      ensures |At(t.side.Opposite())| == old(|At(t.side.Opposite())|)
      ensures At(t.side.Opposite())[0].price == old(At(t.side.Opposite())[0].price)
      ensures !dead && left > 0 ==> |At(t.side.Opposite())[0].queue| < old(|At(t.side.Opposite())[0].queue|)
      ensures dead ==> NoneEmpty(At(t.side.Opposite()))
    {
      hide PriceTimeBook.Match, Tracks, Graded, Distinct;
      ghost var s, q := t.side.Opposite(), Contents().At(t.side.Opposite());
      var maker := At(t.side.Opposite())[0].queue[0];
      var lvlPrice := At(t.side.Opposite())[0].price;
      dead, left := false, rem;
      assert q != [] && q[0] == maker && maker.price == lvlPrice by {
        FrontOf(s);
      }
      MatchHead(stp, t, rem, q);
      hide Flatten;
      if maker.participant == t.participant && stp != Allow {
        if stp == CancelIncoming {
          events := events + [Cancelled(t.id, SelfTradePrevention)];
          log := [Cancelled(t.id, SelfTradePrevention)];
          return left, true, log;
        }
        PopFront(t.side.Opposite());
        events := events + [Cancelled(maker.id, SelfTradePrevention)];
        log := [Cancelled(maker.id, SelfTradePrevention)];
        return;
      }
      var fill := Min(rem, maker.qty);
      left := rem - fill;
      events := events + [Traded(t.id, maker.id, lvlPrice, fill, t.side)];
      log := [Traded(t.id, maker.id, lvlPrice, fill, t.side)];
      if maker.qty == fill {
        PopFront(t.side.Opposite());
      } else {
        ReduceFront(t.side.Opposite(), maker.qty - fill);
      }
    }

    lemma {:induction false} FrontOf(s: Side)
      requires Loose(s) && At(s) != [] && At(s)[0].queue != []
      ensures Contents().At(s) != [] && Contents().At(s)[0] == At(s)[0].queue[0]
      ensures At(s)[0].queue[0].price == At(s)[0].price
    {
    }

    /** The inner loop: the best entry until it is empty or the taker is done. */
    method MatchLevel(t: Taker, rem: Qty) returns (left: Qty, dead: bool, ghost log: seq<Event>)
      requires Valid() && rem > 0 && At(t.side.Opposite()) != []
      requires Crosses(t, At(t.side.Opposite())[0].price)
      modifies `bids, `asks, `live, `events
      ensures Valid() && live.Keys <= old(live.Keys) && events == old(events) + log
      ensures Contents() == old(Contents()).With(t.side.Opposite(), Contents().At(t.side.Opposite()))
      ensures Advances(stp, t, rem, old(Contents().At(t.side.Opposite())), left, Contents().At(t.side.Opposite()), dead, log)
      ensures !dead && left > 0 ==> |At(t.side.Opposite())| < old(|At(t.side.Opposite())|)
    {
      hide PriceTimeBook.Match, Tracks, Graded, Distinct, Flatten, Advances;
      ghost var s, q := t.side.Opposite(), Contents().At(t.side.Opposite());
      left, dead, log := rem, false, [];
      AdvancesNil(stp, t, rem, q);
      while At(t.side.Opposite())[0].queue != [] && left > 0
        invariant Loose(s) && live.Keys <= old(live.Keys) && events == old(events) + log
        invariant Contents() == old(Contents()).With(s, Contents().At(s))
        invariant Advances(stp, t, rem, q, left, Contents().At(s), false, log)
        invariant At(s) != [] && Crosses(t, At(s)[0].price) && |At(s)| == old(|At(s)|)
        decreases left > 0, |At(s)[0].queue|
      {
        ghost var step, was, q' := [], left, Contents().At(s);
        left, dead, step := MatchFront(t, left);
        AdvancesTrans(stp, t, rem, q, was, q', log, left, Contents().At(s), dead, step);
        log := log + step;
        if dead {
          return;
        }
      }
      if At(t.side.Opposite())[0].queue == [] {
        EraseBest(t.side.Opposite());
      }
    }

    method EraseBest(s: Side)
      requires Loose(s) && At(s) != [] && At(s)[0].queue == []
      modifies `bids, `asks
      ensures Valid() && Contents() == old(Contents()) && |At(s)| == old(|At(s)|) - 1
    {
      var l := At(s);
      ErasedIs(s, l);
      hide Tracks, Graded, NoneEmpty, NoneEmptyBut, Distinct, Flatten;
      Set(s, l[1..]);
    }

    method Match(t: Taker, qty: Qty) returns (remaining: Qty)
      requires Valid()
      modifies `bids, `asks, `live, `events
      ensures Valid() && live.Keys <= old(live.Keys)
      ensures var (rem, b, log) := Sweep(stp, old(Contents()), t, qty);
        remaining == rem && Contents() == b && events == old(events) + log
    {
      hide Tracks, Graded, Distinct, Advances;
      ghost var s, q, log := t.side.Opposite(), Contents().At(t.side.Opposite()), [];
      remaining := qty;
      AdvancesNil(stp, t, qty, q);
      while remaining > 0
        invariant Valid() && live.Keys <= old(live.Keys) && events == old(events) + log
        invariant Contents() == old(Contents()).With(s, Contents().At(s))
        invariant Advances(stp, t, qty, q, remaining, Contents().At(s), false, log)
        decreases remaining > 0, |At(s)|
      {
        if At(t.side.Opposite()) == [] || !Crosses(t, At(t.side.Opposite())[0].price) {
          break;
        }
        ghost var step, was, q' := [], remaining, Contents().At(s);
        var dead;
        remaining, dead, step := MatchLevel(t, remaining);
        AdvancesTrans(stp, t, qty, q, was, q', log, remaining, Contents().At(s), dead, step);
        log := log + step;
        if dead {
          AdvancesEnd(stp, t, qty, q, remaining, Contents().At(s), true, log);
          return 0;
        }
      }
      Stopped(t, remaining);
      AdvancesEnd(stp, t, qty, q, remaining, Contents().At(s), false, log);
    }

    lemma {:induction false} Stopped(t: Taker, rem: Qty)
      requires Valid()
      requires var l := At(t.side.Opposite()); rem == 0 || l == [] || !Crosses(t, l[0].price)
      ensures var q := Contents().At(t.side.Opposite()); rem == 0 || q == [] || !Crosses(t, q[0].price)
    {
    }

    // ---- order entry ----

    method ValidateNew(id: OrderId, qty: Qty) returns (ok: bool)
      requires Valid()
      modifies `events
      ensures Valid() && Contents() == old(Contents())
      ensures ok <==> qty != 0 && Contents().Locate(id) == None
      ensures ok ==> events == old(events) && id !in live
      ensures !ok ==> events == old(events) + [Rejected(id, if qty == 0 then ZeroQty else DuplicateOrderId)]
    {
      TracksLocate(live, Contents(), id);
      hide Tracks, Graded, Distinct, Flatten, Has;
      if qty == 0 {
        events := events + [Rejected(id, ZeroQty)];
        return false;
      }
      if id in live {
        events := events + [Rejected(id, DuplicateOrderId)];
        return false;
      }
      return true;
    }

    method AddLimit(id: OrderId, participant: ParticipantId, side: Side, price: Price, qty: Qty, tif: TimeInForce)
      returns (ok: bool)
      requires Valid()
      modifies this
      ensures Valid()
      ensures var o := SubmitLimit(stp, old(Contents()), Taker(id, participant, side, price, false), qty, tif);
        ok == o.ok && Contents() == o.book && events == old(events) + o.events
    {
      hide Tracks, Graded, Distinct, Flatten, PriceTimeBook.Match, Insert;
      ok := ValidateNew(id, qty);
      if !ok {
        return;
      }
      events := events + [Accepted(id, side, price, qty)];
      var t := Taker(id, participant, side, price, false);
      var remaining := Match(t, qty);
      if remaining == 0 {
        return true;
      }
      if tif == IOC {
        events := events + [Cancelled(id, IocRemainder)];
        return true;
      }
      Rest(t, remaining);
    }

    method AddMarket(id: OrderId, participant: ParticipantId, side: Side, qty: Qty) returns (ok: bool)
      requires Valid()
      modifies this
      ensures Valid()
      ensures var o := SubmitMarket(stp, old(Contents()), Taker(id, participant, side, 0, true), qty);
        ok == o.ok && Contents() == o.book && events == old(events) + o.events
    {
      hide Tracks, Graded, Distinct, Flatten, PriceTimeBook.Match;
      ok := ValidateNew(id, qty);
      if !ok {
        return;
      }
      events := events + [Accepted(id, side, 0, qty)];
      var remaining := Match(Taker(id, participant, side, 0, true), qty);
      if remaining > 0 {
        events := events + [Cancelled(id, MarketRemainder)];
      }
    }

    method CancelById(id: OrderId) returns (ok: bool)
      requires Valid()
      modifies this
      ensures Valid()
      ensures var o := CancelOrder(old(Contents()), id);
        ok == o.ok && Contents() == o.book && events == old(events) + o.events
    {
      TracksLocate(live, Contents(), id);
      hide Tracks, Graded, Distinct, Flatten, Has, Remove;
      if id !in live {
        events := events + [Rejected(id, UnknownOrderId)];
        return false;
      }
      Unrest(id);
      events := events + [Cancelled(id, User)];
      return true;
    }

    method ModifyById(id: OrderId, newPrice: Price, newQty: Qty) returns (ok: bool)
      requires Valid()
      modifies this
      ensures Valid()
      ensures var o := ModifyOrder(stp, old(Contents()), id, newPrice, newQty);
        ok == o.ok && Contents() == o.book && events == old(events) + o.events
    {
      TracksLocate(live, Contents(), id);
      hide Tracks, Graded, Distinct, Flatten, Has, Remove, IndexOf, Lookup, PriceTimeBook.Resize, PriceTimeBook.Match, Insert;
      if id !in live {
        events := events + [Rejected(id, UnknownOrderId)];
        return false;
      }
      if newQty == 0 {
        Unrest(id);
        events := events + [Cancelled(id, User)];
        return true;
      }
      var ref := live[id];
      var i, j := Find(id);
      var order := At(ref.side)[i].queue[j];
      if newPrice == ref.price && newQty <= order.qty {
        Resize(ref.side, i, j, newQty);
        return true;
      }
      var t := Taker(id, order.participant, ref.side, newPrice, false);
      Unrest(id);
      var remaining := Match(t, newQty);
      if remaining > 0 {
        Rest(t, remaining);
      }
      return true;
    }

    method Apply(m: Message) returns (ok: bool)
      requires Valid()
      modifies this
      ensures Valid()
      ensures var o := Step(stp, old(Contents()), m);
        ok == o.ok && Contents() == o.book && events == old(events) + o.events
    {
      hide Tracks, Graded, Distinct, Flatten, SubmitLimit, SubmitMarket, CancelOrder, ModifyOrder;
      match m
      case AddLimit(id, participant, side, price, qty, tif) =>
        ok := AddLimit(id, participant, side, price, qty, tif);
      case AddMarket(id, participant, side, qty) =>
        ok := AddMarket(id, participant, side, qty);
      case Cancel(id) =>
        ok := CancelById(id);
      case Modify(id, price, qty) =>
        ok := ModifyById(id, price, qty);
    }

    // ---- queries ----

    static method LevelQty(q: Queue) returns (total: Qty)
      ensures total == Total(q)
    {
      total := 0;
      for i := 0 to |q|
        invariant total == Total(q[..i])
      {
        assert q[..i + 1] == q[..i] + [q[i]];
        TotalSplit(q[..i], [q[i]]);
        total := total + q[i].qty;
      }
      assert q[..|q|] == q;
    }

    method BestOf(s: Side) returns (r: Option<(Price, Qty)>)
      requires Valid()
      ensures r == Best(Contents().At(s))
      ensures r == if At(s) == [] then None else Some((At(s)[0].price, Total(At(s)[0].queue)))
    {
      var l := At(s);
      FlattenHead(l);
      if l == [] {
        return None;
      }
      DepthOfLevel(s, l, 0);
      var qty := LevelQty(l[0].queue);
      return Some((l[0].price, qty));
    }

    method DepthAt(s: Side, price: Price) returns (qty: Qty)
      requires Valid()
      ensures qty == Depth(Contents().At(s), price)
    {
      var l := At(s);
      var i := LowerBound(s, l, price);
      if i == |l| || l[i].price != price {
        assert forall k :: i <= k < |l| ==> l[k].price != price;
        DepthOfNoLevel(l, s, price);
        return 0;
      }
      DepthOfLevel(s, l, i);
      qty := LevelQty(l[i].queue);
    }

    method OpenQtyOf(id: OrderId) returns (qty: Qty)
      requires Valid()
      ensures qty == OpenQty(Contents(), id)
    {
      TracksLocate(live, Contents(), id);
      if id !in live {
        return 0;
      }
      var i, j := Find(id);
      return At(live[id].side)[i].queue[j].qty;
    }

    method OpenOrderCount() returns (n: nat)
      requires Valid()
      ensures n == OpenOrders(Contents())
    {
      CountDistinct(Flatten(bids));
      CountDistinct(Flatten(asks));
      return |live|;
    }
  }
}
