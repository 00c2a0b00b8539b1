/** The matching engine over the intrusive book: every public operation does to the book, and
    tells the handler, exactly what `PriceTimeBook.Step` says. */
module MatchingEngines {
  import opened Types
  import opened PriceTimeBook
  import opened QueueLemmas
  import opened Ladders
  import opened IntrusiveBook

  lemma {:induction false} UnionWithout<K, V>(a: map<K, V>, b: map<K, V>, k: K)
    requires a.Keys !! b.Keys && k in b
    ensures (a + b) - {k} == a + (b - {k})
  {
  }

  lemma {:induction false} UnionWith<K, V>(a: map<K, V>, b: map<K, V>, k: K, v: V)
    ensures (a + b)[k := v] == a + b[k := v]
  {
  }

  /** The units of the orders of a level. */
  ghost function Remaining(orders: seq<Order>): Qty
    reads orders
  {
    if orders == [] then 0 else orders[0].remaining + Remaining(orders[1..])
  }

  lemma {:induction false} RemainingIs(orders: seq<Order>, q: Queue)
    requires |orders| == |q| && forall i :: 0 <= i < |q| ==> orders[i].Value() == q[i]
    ensures Remaining(orders) == Total(q)
  {
    if q != [] {
      RemainingIs(orders[1..], q[1..]);
    }
  }

  class MatchingEngine {
    const stp: StpPolicy
    const bids: BookSide
    const asks: BookSide
    var ordersById: map<OrderId, Order>
    /** What the handler has been told so far. */
    var events: seq<Event>

    constructor (stp: StpPolicy)
      ensures Valid() && fresh(Repr()) && this.stp == stp
      ensures Contents() == EmptyBook && events == []
    {
      hide BookSide.Valid;
      this.stp := stp;
      this.bids := new BookSide(Bid);
      this.asks := new BookSide(Ask);
      this.ordersById := map[];
      this.events := [];
    }

    function Side(s: Side): BookSide {
      if s.Bid? then bids else asks
    }

    ghost function Repr(): set<object>
      reads this, bids, asks
    {
      {this} + bids.repr + asks.repr
    }

    ghost predicate Valid()
      reads this, bids, asks, bids.repr, asks.repr
    {
      && bids.side == Bid && bids.Valid() && NoneEmpty(bids.ladder)
      && asks.side == Ask && asks.Valid() && NoneEmpty(asks.ladder)
      && this !in bids.repr && this !in asks.repr && bids.repr !! asks.repr
      && bids.index.Keys !! asks.index.Keys
      && ordersById == bids.index + asks.index
    }

    /** The book this engine stands for. */
    ghost function Contents(): Book
      reads bids, asks
    {
      Book(bids.Contents(), asks.Contents())
    }

    /** `order` is the `j`-th of row `i` on its side. */
    ghost predicate StandsAt(order: Order, i: nat, j: nat)
      reads this, bids, asks, bids.repr, asks.repr, order
      requires Valid()
    {
      var s := Side(order.side);
      i < |s.levels| && j < |s.levels[i].queue| && s.levels[i].queue[j] == order && order.level == s.levels[i]
    }

    /** Every id of the map leads to an order standing somewhere in the book. */
    lemma {:induction false} Locate(id: OrderId) returns (i: nat, j: nat)
      requires Valid() && id in ordersById
      ensures StandsAt(ordersById[id], i, j)
      ensures var o := ordersById[id]; var q := Contents().At(o.side);
        && o.id == id && Contents().Locate(id) == Some(o.side)
        && Has(q, id) && Lookup(q, id) == o.Value()
    {
      hide BookSide.Valid;
      if id in bids.index {
        i, j := bids.Locate(id);
      } else {
        i, j := asks.Locate(id);
        bids.NotHere(id);
      }
    }

    lemma {:induction false} SplitIndex(s: Side)
      requires Valid()
      ensures ordersById == Side(s.Opposite()).index + Side(s).index
      ensures Side(s.Opposite()).index.Keys !! Side(s).index.Keys
      ensures Contents().At(s) == Side(s).Contents()
    {
      hide BookSide.Valid;
      assert bids.index + asks.index == asks.index + bids.index;
    }

    lemma {:induction false} Unknown(id: OrderId)
      requires Valid() && id !in ordersById
      ensures Contents().Locate(id) == None
    {
      hide BookSide.Valid;
      bids.NotHere(id);
      asks.NotHere(id);
    }

    /** What `Valid` comes to at the `i`-th level of a side: its neighbours in the list point back at
        it, prices get strictly worse along the list, the price map leads to it, and its total is
        what rests at its price. */
    lemma {:induction false} LevelAgrees(s: Types.Side, i: nat)
      requires Valid() && i < |Side(s).levels|
      ensures var side := Side(s);
        var lvl := side.levels[i];
        && (if i == 0 then side.best == lvl && lvl.better == null
            else lvl.better == side.levels[i - 1] && side.levels[i - 1].worse == lvl && Better(s, side.levels[i - 1].price, lvl.price))
        && (i + 1 == |side.levels| ==> lvl.worse == null)
        && lvl.price in side.levelsByPrice && side.levelsByPrice[lvl.price] == lvl
        && lvl.orderCount == |lvl.queue| > 0
        && lvl.totalQty == Depth(Contents().At(s), lvl.price)
    {
      var side := Side(s);
      side.ChainAt(i);
      DepthOfLevel(s, side.ladder, i);
      if i > 0 {
        side.ChainAt(i - 1);
      }
      hide BookSide.Valid, PriceLevel.Linked, Flatten, Depth;
    }

    /** And at the `j`-th order of that level: its neighbours in the queue point back at it, it is
        filed under its price and side, and the id map leads to it. */
    lemma {:induction false} OrderAgrees(s: Types.Side, i: nat, j: nat)
      requires Valid() && i < |Side(s).levels| && j < |Side(s).levels[i].queue|
      ensures var lvl := Side(s).levels[i];
        var o := lvl.queue[j];
        && (if j == 0 then lvl.front == o && o.prev == null else o.prev == lvl.queue[j - 1] && lvl.queue[j - 1].next == o)
        && (j + 1 == |lvl.queue| ==> lvl.back == o && o.next == null)
        && o.level == lvl && o.side == s && o.price == lvl.price
        && o.id in ordersById && ordersById[o.id] == o
    {
      hide BookSide.Valid;
      Side(s).Node(i, j);
      SplitIndex(s);
    }

    /** The id map and the price maps hold nothing else. */
    lemma {:induction false} MapsAgree(s: Types.Side)
      requires Valid()
      ensures ordersById.Keys == Ids(Contents().bids) + Ids(Contents().asks)
      ensures forall p :: p in Side(s).levelsByPrice ==>
        exists i :: 0 <= i < |Side(s).levels| && Side(s).levels[i].price == p && Side(s).levelsByPrice[p] == Side(s).levels[i]
    {
      var side := Side(s);
      forall p | p in side.levelsByPrice
        ensures exists i :: 0 <= i < |side.levels| && side.levels[i].price == p && side.levelsByPrice[p] == side.levels[i]
      {
        var i := side.RowFor(p);
        side.RowOf(i);
        assert side.levels[i].price == p;
      }
    }

    /** Side `s` did its own work and the engine's map followed; the other side was not touched. */
    twostate lemma OneSideValid(new s: Types.Side)
      requires old(Valid())
      requires Side(s).Valid() && NoneEmpty(Side(s).ladder)
      requires this !in Side(s).repr && Side(s).repr !! old(Side(s.Opposite()).repr)
      requires forall x :: x in old(Side(s.Opposite()).repr) ==> unchanged(x)
      requires Side(s).index.Keys !! old(Side(s.Opposite()).index.Keys)
      requires ordersById == old(Side(s.Opposite()).index) + Side(s).index
      ensures Valid()
      ensures Contents() == old(Contents()).With(s, Side(s).Contents())
      ensures Side(s.Opposite()).repr == old(Side(s.Opposite()).repr)
    {
      hide BookSide.Valid;
      var own, other := Side(s), Side(s.Opposite());
      other.Intact();
      assert own.index + other.index == other.index + own.index;
    }

    /** Telling the handler of an event changes nothing else. */
    twostate lemma Told()
      requires old(Valid()) && ordersById == old(ordersById)
      requires forall x :: x in old(Repr()) && x != this ==> unchanged(x)
      ensures Valid() && Contents() == old(Contents()) && Repr() == old(Repr())
    {
      hide BookSide.Valid;
      assert forall x :: x in old(bids.repr) || x in old(asks.repr) ==> x in old(Repr());
      bids.Intact();
      asks.Intact();
    }

    /** Erase from the id map, then unlink. */
    method Detach(own: BookSide, order: Order, ghost i: nat, ghost j: nat)
      requires own.Valid() && NoneEmpty(own.ladder) && this !in own.repr
      requires i < |own.levels| && j < |own.levels[i].queue| && own.levels[i].queue[j] == order && order.level == own.levels[i]
      modifies `ordersById, own.repr
      ensures own.Valid() && NoneEmpty(own.ladder) && own.repr == old(own.repr)
      ensures Has(old(own.Contents()), old(order.id)) && own.Contents() == Remove(old(own.Contents()), old(order.id))
      ensures old(order.id) in old(own.index) && own.index == old(own.index) - {old(order.id)}
      ensures ordersById == old(ordersById) - {old(order.id)}
      ensures i == 0 && j == 0 && old(order.next) != null ==>
        old(order.level).price == old(order.level.price) && own.IsFront(old(order.level), old(order.next))
    {
      hide BookSide.Valid;
      own.IdAt(i, j);
      ordersById := ordersById - {order.id};
      own.RemoveOrder(order, i, j);
    }

    /** Build the order, file it under its price, enter its id. */
    method Attach(own: BookSide, id: OrderId, participant: ParticipantId, price: Price, qty: Qty) returns (order: Order)
      requires own.Valid() && NoneEmpty(own.ladder) && this !in own.repr && id !in own.index
      modifies `ordersById, own.repr
      ensures own.Valid() && NoneEmpty(own.ladder) && fresh(own.repr - old(own.repr))
      ensures own.Contents() == Insert(own.side, old(own.Contents()), Resting(id, participant, price, qty))
      ensures own.index == old(own.index)[id := order]
      ensures ordersById == old(ordersById)[id := order]
    {
      hide BookSide.Valid;
      order := new Order(id, participant, own.side, price, qty);
      var lvl;
      ghost var i;
      lvl, i := own.GetOrCreateLevel(price);
      own.PushOrder(lvl, order, i);
      ordersById := ordersById[id := order];
    }

    /** One fill against the order at the front of `opp`. */
    method Fill(opp: BookSide, maker: Order, fill: Qty)
      requires opp.Valid() && NoneEmpty(opp.ladder) && this !in opp.repr
      requires maker.level != null && opp.IsFront(maker.level, maker) && fill <= maker.remaining
      modifies `ordersById, opp.repr
      ensures opp.Valid() && NoneEmpty(opp.ladder) && opp.repr == old(opp.repr)
      ensures var q, o := old(opp.Contents()), old(maker.Value());
        && q != [] && q[0] == o && o.id in old(opp.index)
        && (if fill == o.qty then
              && opp.Contents() == q[1..]
              && opp.index == old(opp.index) - {o.id} && ordersById == old(ordersById) - {o.id}
            else
              && opp.Contents() == [o.(qty := o.qty - fill)] + q[1..]
              && opp.index == old(opp.index) && ordersById == old(ordersById))
      ensures fill == old(maker.remaining) && old(maker.next) != null ==>
        old(maker.level).price == old(maker.level.price) && opp.IsFront(old(maker.level), old(maker.next))
    {
      hide BookSide.Valid;
      opp.FrontValue(maker.level, maker);
      RemoveHead(opp.Contents());
      opp.ReduceOrder(maker, fill, 0, 0);
      if maker.remaining == 0 {
        RemoveHead(opp.Contents());
        Detach(opp, maker, 0, 0);
      }
    }

    method RemoveResting(order: Order, ghost i: nat, ghost j: nat)
      requires Valid() && StandsAt(order, i, j)
      modifies `ordersById, Side(order.side).repr
      ensures Valid() && Repr() == old(Repr())
      ensures Has(old(Contents().At(order.side)), old(order.id))
      ensures Contents() == old(Contents().With(order.side, Remove(Contents().At(order.side), order.id)))
      ensures ordersById == old(ordersById) - {old(order.id)}
      ensures Side(old(order.side)).repr == old(Side(order.side).repr)
      ensures i == 0 && j == 0 && old(order.next) != null ==>
        old(order.level).price == old(order.level.price) && Side(old(order.side)).IsFront(old(order.level), old(order.next))
    {
      hide BookSide.Valid;
      ghost var s, id := order.side, order.id;
      var own := Side(order.side);
      ghost var other := Side(s.Opposite());
      SplitIndex(s);
      Detach(own, order, i, j);
      UnionWithout(old(other.index), old(own.index), id);
      OneSideValid(s);
    }

    /** One fill against the order at the front of side `s`. */
    method FillResting(ghost s: Types.Side, maker: Order, fill: Qty)
      requires Valid() && maker.side == s && maker.level != null && Side(s).IsFront(maker.level, maker)
      requires fill <= maker.remaining
      modifies `ordersById, Side(s).repr
      ensures Valid() && Repr() == old(Repr()) && ordersById.Keys <= old(ordersById.Keys)
      ensures var q, o := old(Contents().At(s)), old(maker.Value());
        q != [] && Contents() == old(Contents()).With(s, if fill == o.qty then q[1..] else [o.(qty := o.qty - fill)] + q[1..])
      ensures Side(s).repr == old(Side(s).repr)
      ensures fill == old(maker.remaining) && old(maker.next) != null ==>
        old(maker.level).price == old(maker.level.price) && Side(s).IsFront(old(maker.level), old(maker.next))
    {
      hide BookSide.Valid;
      var opp := Side(maker.side);
      ghost var other, id := Side(s.Opposite()), maker.id;
      SplitIndex(s);
      Fill(opp, maker, fill);
      UnionWithout(old(other.index), old(opp.index), id);
      OneSideValid(s);
    }

    // ---- matching ----

    lemma {:induction false} FrontOf(s: Types.Side, lvl: PriceLevel, order: Order)
      requires Valid() && Side(s).IsFront(lvl, order)
      ensures Contents().At(s) != [] && Contents().At(s)[0] == order.Value()
      ensures order.level == lvl && lvl.price == order.price && order.side == s && StandsAt(order, 0, 0)
      ensures this !in Side(s).repr
    {
      hide BookSide.Valid;
      Side(s).FrontValue(lvl, order);
    }

    /** The taker meets the order at the front of the opposite side: one pass of the inner loop. */
    method MatchFront(t: Taker, ghost lvl: PriceLevel, lvlPrice: Price, maker: Order, rem: Qty)
      returns (left: Qty, next: Order?, dead: bool, ghost log: seq<Event>)
      requires Valid() && rem > 0
      requires Side(t.side.Opposite()).IsFront(lvl, maker) && lvl.price == lvlPrice && Crosses(t, lvlPrice)
      modifies `ordersById, `events, Side(t.side.Opposite()).repr
      ensures Valid() && Repr() == old(Repr()) && ordersById.Keys <= old(ordersById.Keys)
      ensures events == old(events) + log
      ensures Contents() == old(Contents()).With(t.side.Opposite(), Contents().At(t.side.Opposite()))
      ensures Advances(stp, t, rem, old(Contents().At(t.side.Opposite())), left, Contents().At(t.side.Opposite()), dead, log)
      ensures !dead ==> |Contents().At(t.side.Opposite())| + left < old(|Contents().At(t.side.Opposite())|) + rem
      ensures !dead && left > 0 && next != null ==> lvl.price == lvlPrice && Side(t.side.Opposite()).IsFront(lvl, next)
      ensures Side(t.side.Opposite()).repr == old(Side(t.side.Opposite()).repr)
    {
      hide MatchingEngine.Valid, Advances, Match, Crosses, Has, IndexOf, Lookup, Remove, Resize;
      ghost var s := t.side.Opposite();
      ghost var q := Contents().At(s);
      FrontOf(s, lvl, maker);
      FrontAdvances(stp, t, rem, q);
      RemoveHead(q);
      next, dead := maker.next, false;
      if maker.participant == t.participant && stp != Allow {
        left := rem;
        if stp == CancelIncoming {
          events := events + [Cancelled(t.id, SelfTradePrevention)];
          log := [Cancelled(t.id, SelfTradePrevention)];
          Told();
          return 0, next, true, log;
        }
        var makerId := maker.id;
        RemoveResting(maker, 0, 0);
        label Pulled:
        events := events + [Cancelled(makerId, SelfTradePrevention)];
        log := [Cancelled(makerId, SelfTradePrevention)];
        Told@Pulled();
        return left, next, false, log;
      }
      var fill := Min(rem, maker.remaining);
      left := rem - fill;
      events := events + [Traded(t.id, maker.id, lvlPrice, fill, t.side)];
      log := [Traded(t.id, maker.id, lvlPrice, fill, t.side)];
      Told();
      FillResting(s, maker, fill);
    }

    lemma {:induction false} MatchStops(t: Taker, rem: Qty, opp: BookSide)
      requires opp.Valid() && NoneEmpty(opp.ladder)
      requires rem == 0 || opp.best == null || !Crosses(t, opp.best.price)
      ensures Match(stp, t, rem, opp.Contents()) == Matched(rem, opp.Contents(), [])
    {
      opp.Touch();
      if opp.best != null {
        opp.FrontValue(opp.best, opp.best.front);
      }
    }

    /** The inner loop: walk the orders of the best level. `lvl` may be freed on the way. */
    method MatchLevel(t: Taker, lvl: PriceLevel, rem: Qty) returns (left: Qty, dead: bool, ghost log: seq<Event>)
      requires Valid() && rem > 0 && lvl.front != null
      requires Side(t.side.Opposite()).IsFront(lvl, lvl.front) && Crosses(t, lvl.price)
      modifies `ordersById, `events, Side(t.side.Opposite()).repr
      ensures Valid() && Repr() == old(Repr()) && ordersById.Keys <= old(ordersById.Keys)
      ensures Side(t.side.Opposite()).repr == old(Side(t.side.Opposite()).repr)
      ensures events == old(events) + log
      ensures Contents() == old(Contents()).With(t.side.Opposite(), Contents().At(t.side.Opposite()))
      ensures Advances(stp, t, rem, old(Contents().At(t.side.Opposite())), left, Contents().At(t.side.Opposite()), dead, log)
      ensures !dead ==> |Contents().At(t.side.Opposite())| + left < old(|Contents().At(t.side.Opposite())|) + rem
    {
      hide BookSide.Valid, Advances;
      ghost var s, opp := t.side.Opposite(), Side(t.side.Opposite());
      SplitIndex(s);
      ghost var q, size := Contents().At(s), |Contents().At(s)| + rem;
      left, dead, log := rem, false, [];
      AdvancesNil(stp, t, rem, q);
      var maker: Order?, lvlPrice := lvl.front, lvl.price;
      while maker != null && left > 0
        invariant Valid() && Repr() == old(Repr()) && ordersById.Keys <= old(ordersById.Keys)
        invariant opp.repr == old(opp.repr) && events == old(events) + log
        invariant Contents() == old(Contents()).With(s, Contents().At(s))
        invariant Advances(stp, t, rem, q, left, Contents().At(s), false, log)
        invariant maker != null && left > 0 ==> opp.IsFront(lvl, maker) && lvl.price == lvlPrice
        invariant |Contents().At(s)| + left <= size
        invariant |Contents().At(s)| + left == size ==> maker != null && left > 0
        decreases |Contents().At(s)| + left
      {
        ghost var step, was, q' := [], left, Contents().At(s);
        left, maker, dead, step := MatchFront(t, lvl, lvlPrice, maker, left);
        AdvancesTrans(stp, t, rem, q, was, q', log, left, Contents().At(s), dead, step);
        log := log + step;
        if dead {
          return;
        }
      }
    }

    /** Sweep the opposite side with `t` for `qty` units; returns what is left. */
    method MatchIncoming(t: Taker, qty: Qty) returns (remaining: Qty)
      requires Valid()
      modifies `ordersById, `events, Side(t.side.Opposite()).repr
      ensures Valid() && Repr() == old(Repr()) && ordersById.Keys <= old(ordersById.Keys)
      ensures var (rem, b, log) := Sweep(stp, old(Contents()), t, qty);
        remaining == rem && Contents() == b && events == old(events) + log
    {
      hide BookSide.Valid, Match;
      ghost var s := t.side.Opposite();
      var opp := Side(t.side.Opposite());
      remaining := qty;
      ghost var log: seq<Event>, q := [], Contents().At(s);
      AdvancesNil(stp, t, qty, q);
      while remaining > 0
        invariant Valid() && Repr() == old(Repr()) && ordersById.Keys <= old(ordersById.Keys)
        invariant opp.repr == old(opp.repr) && events == old(events) + log
        invariant Contents() == old(Contents()).With(s, Contents().At(s))
        invariant Advances(stp, t, qty, q, remaining, Contents().At(s), false, log)
        decreases |Contents().At(s)| + remaining
      {
        opp.Touch();
        var lvl := opp.best;
        if lvl == null || !Crosses(t, lvl.price) {
          break;
        }
        var dead;
        ghost var step, was, q' := [], remaining, Contents().At(s);
        remaining, dead, step := MatchLevel(t, lvl, remaining);
        AdvancesTrans(stp, t, qty, q, was, q', log, remaining, Contents().At(s), dead, step);
        log := log + step;
        if dead {
          return 0;
        }
      }
      SplitIndex(s);
      MatchStops(t, remaining, opp);
    }

    method RestOrder(t: Taker, qty: Qty)
      requires Valid() && t.id !in ordersById
      modifies `ordersById, Side(t.side).repr
      ensures Valid() && fresh(Repr() - old(Repr()))
      ensures Contents() == Rest(old(Contents()), t, qty)
    {
      hide BookSide.Valid;
      var own := Side(t.side);
      ghost var other := Side(t.side.Opposite());
      SplitIndex(t.side);
      var order := Attach(own, t.id, t.participant, t.price, qty);
      UnionWith(old(other.index), old(own.index), t.id, order);
      OneSideValid(t.side);
    }

    /** The in-place branch of modify: fewer units, same place. */
    method Reduce(order: Order, qty: Qty, ghost i: nat, ghost j: nat)
      requires Valid() && StandsAt(order, i, j) && qty <= order.remaining
      modifies Side(order.side).repr
      ensures Valid() && Repr() == old(Repr())
      ensures Has(old(Contents().At(order.side)), old(order.id))
      ensures Contents() == old(Contents().With(order.side, Resize(Contents().At(order.side), order.id, qty)))
    {
      hide BookSide.Valid;
      ghost var s, other := order.side, Side(order.side.Opposite());
      var own := Side(order.side);
      SplitIndex(s);
      own.IdAt(i, j);
      own.Covers();
      own.ReduceOrder(order, order.remaining - qty, i, j);
      OneSideValid(s);
    }

    // ---- order entry ----

    method ValidateNew(id: OrderId, qty: Qty) returns (ok: bool)
      requires Valid()
      modifies `events
      ensures Valid() && Repr() == old(Repr()) && Contents() == old(Contents())
      ensures ok <==> qty != 0 && Contents().Locate(id) == None
      ensures ok ==> events == old(events) && id !in ordersById
      ensures !ok ==> events == old(events) + [Rejected(id, if qty == 0 then ZeroQty else DuplicateOrderId)]
    {
      hide BookSide.Valid;
      if qty == 0 {
        events := events + [Rejected(id, ZeroQty)];
        return false;
      }
      if id in ordersById {
        ghost var i, j := Locate(id);
        events := events + [Rejected(id, DuplicateOrderId)];
        return false;
      }
      Unknown(id);
      return true;
    }

    method AddLimit(id: OrderId, participant: ParticipantId, side: Types.Side, price: Price, qty: Qty, tif: TimeInForce)
      returns (ok: bool)
      requires Valid()
      modifies Repr()
      ensures Valid() && fresh(Repr() - old(Repr()))
      ensures var o := SubmitLimit(stp, old(Contents()), Taker(id, participant, side, price, false), qty, tif);
        ok == o.ok && Contents() == o.book && events == old(events) + o.events
    {
      hide BookSide.Valid, Match;
      ok := ValidateNew(id, qty);
      if !ok {
        return;
      }
      events := events + [Accepted(id, side, price, qty)];
      var t := Taker(id, participant, side, price, false);
      var remaining := MatchIncoming(t, qty);
      if remaining == 0 {
        return true;
      }
      if tif == IOC {
        events := events + [Cancelled(id, IocRemainder)];
        return true;
      }
      RestOrder(t, remaining);
    }

    method AddMarket(id: OrderId, participant: ParticipantId, side: Types.Side, qty: Qty) returns (ok: bool)
      requires Valid()
      modifies Repr()
      ensures Valid() && fresh(Repr() - old(Repr()))
      ensures var o := SubmitMarket(stp, old(Contents()), Taker(id, participant, side, 0, true), qty);
        ok == o.ok && Contents() == o.book && events == old(events) + o.events
    {
      hide BookSide.Valid, Match;
      ok := ValidateNew(id, qty);
      if !ok {
        return;
      }
      events := events + [Accepted(id, side, 0, qty)];
      var remaining := MatchIncoming(Taker(id, participant, side, 0, true), qty);
      if remaining > 0 {
        events := events + [Cancelled(id, MarketRemainder)];
      }
    }

    method CancelById(id: OrderId) returns (ok: bool)
      requires Valid()
      modifies Repr()
      ensures Valid() && fresh(Repr() - old(Repr()))
      ensures var o := CancelOrder(old(Contents()), id);
        ok == o.ok && Contents() == o.book && events == old(events) + o.events
    {
      hide BookSide.Valid, Match, Has, IndexOf, Lookup, Remove, Resize, Insert;
      if id !in ordersById {
        Unknown(id);
        events := events + [Rejected(id, UnknownOrderId)];
        return false;
      }
      ghost var i, j := Locate(id);
      RemoveResting(ordersById[id], i, j);
      events := events + [Cancelled(id, User)];
      return true;
    }

    method ModifyById(id: OrderId, newPrice: Price, newQty: Qty) returns (ok: bool)
      requires Valid()
      modifies Repr()
      ensures Valid() && fresh(Repr() - old(Repr()))
      ensures var o := ModifyOrder(stp, old(Contents()), id, newPrice, newQty);
        ok == o.ok && Contents() == o.book && events == old(events) + o.events
    {
      hide BookSide.Valid, Match, Has, IndexOf, Lookup, Remove, Resize, Insert;
      if id !in ordersById {
        Unknown(id);
        events := events + [Rejected(id, UnknownOrderId)];
        return false;
      }
      var order := ordersById[id];
      ghost var i, j := Locate(id);
      if newQty == 0 {
        RemoveResting(order, i, j);
        events := events + [Cancelled(id, User)];
        return true;
      }
      if newPrice == order.price && newQty <= order.remaining {
        Reduce(order, newQty, i, j);
        return true;
      }
      var t := Taker(id, order.participant, order.side, newPrice, false);
      RemoveResting(order, i, j);
      var remaining := MatchIncoming(t, newQty);
      if remaining > 0 {
        RestOrder(t, remaining);
      }
      return true;
    }

    /** A feed message, dispatched. */
    method Apply(m: Message) returns (ok: bool)
      requires Valid()
      modifies Repr()
      ensures Valid() && fresh(Repr() - old(Repr()))
      ensures var o := Step(stp, old(Contents()), m);
        ok == o.ok && Contents() == o.book && events == old(events) + o.events
    {
      hide BookSide.Valid, Match;
      match m
      case AddLimit(id, participant, side, price, qty, tif) =>
        ok := AddLimit(id, participant, side, price, qty, tif);
      case AddMarket(id, participant, side, qty) =>
        ok := AddMarket(id, participant, side, qty);
      case Cancel(id) =>
        ok := CancelById(id);
      case Modify(id, price, qty) =>
        ok := ModifyById(id, price, qty);
    }

    // ---- queries ----

    /** Price and total at the touch of a side, read off the best level. */
    method BestOf(s: Types.Side) returns (r: Option<(Price, Qty)>)
      requires Valid()
      ensures r == Best(Contents().At(s))
      ensures r == if Side(s).levels == [] then None else Some((Side(s).levels[0].price, Remaining(Side(s).levels[0].queue)))
    {
      var side := Side(s);
      side.Touch();
      if side.best == null {
        return None;
      }
      side.FrontValue(side.best, side.best.front);
      side.RowOf(0);
      RemainingIs(side.levels[0].queue, side.ladder[0].queue);
      DepthOfLevel(s, side.ladder, 0);
      return Some((side.best.price, side.best.totalQty));
    }

    method DepthAt(s: Types.Side, price: Price) returns (qty: Qty)
      requires Valid()
      ensures qty == Depth(Contents().At(s), price)
    {
      var side := Side(s);
      if price !in side.levelsByPrice {
        DepthOfNoLevel(side.ladder, s, price);
        return 0;
      }
      ghost var i := side.RowFor(price);
      side.RowOf(i);
      DepthOfLevel(s, side.ladder, i);
      return side.levelsByPrice[price].totalQty;
    }

    method OpenQtyOf(id: OrderId) returns (qty: Qty)
      requires Valid()
      ensures qty == OpenQty(Contents(), id)
    {
      hide BookSide.Valid;
      if id !in ordersById {
        Unknown(id);
        return 0;
      }
      ghost var i, j := Locate(id);
      return ordersById[id].remaining;
    }

    method OpenOrderCount() returns (n: nat)
      requires Valid()
      ensures n == OpenOrders(Contents())
    {
      bids.Count();
      asks.Count();
      assert ordersById.Keys == bids.index.Keys + asks.index.Keys;
      return |ordersById|;
    }
  }
}
