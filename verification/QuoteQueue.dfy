/** What becomes of a real order that joined the back of the queue at its price, in a whole book
    worked by the matching engine's own messages, when nobody cancels. */
module QuoteQueue {
  import opened Types
  import opened PriceTimeBook
  import opened QueueLemmas
  import opened BookInvariants

  /** What happens at the quote's price: an aggressor arrives, market or limited to that price, or a
      newcomer joins. */
  datatype Flow =
    | Trades(id: OrderId, participant: ParticipantId, market: bool, qty: Qty)
    | Joins(id: OrderId, participant: ParticipantId, qty: Qty)

  function MessageOf(side: Side, price: Price, f: Flow): Message {
    match f
    case Trades(id, participant, market, qty) =>
      if market then AddMarket(id, participant, side.Opposite(), qty)
      else AddLimit(id, participant, side.Opposite(), price, qty, IOC)
    case Joins(id, participant, qty) => AddLimit(id, participant, side, price, qty, GTC)
  }

  function Messages(side: Side, price: Price, flow: seq<Flow>): seq<Message>
    decreases |flow|
  {
    if flow == [] then []
    else Messages(side, price, flow[..|flow| - 1]) + [MessageOf(side, price, flow[|flow| - 1])]
  }

  /** Every message carries an id that is not live when it arrives. */
  ghost predicate FreshIds(b: Book, ms: seq<Message>)
    decreases |ms|
  {
    ms != [] ==>
      FreshIds(b, ms[..|ms| - 1]) && Run(Allow, b, ms[..|ms| - 1]).0.Locate(ms[|ms| - 1].id) == None
  }

  function Volume(flow: seq<Flow>): Qty
    decreases |flow|
  {
    if flow == [] then 0
    else Volume(flow[..|flow| - 1]) + VolumeOf(flow[|flow| - 1])
  }

  function VolumeOf(f: Flow): Qty {
    if f.Trades? then f.qty else 0
  }

  /** Units filled of an order of `size` behind `ahead` units once `volume` has traded. */
  function FifoFill(size: Qty, ahead: Qty, volume: Qty): (fill: Qty)
    ensures fill <= size
  {
    Min(size, if volume > ahead then volume - ahead else 0)
  }

  /** What of `ahead` units is left once `volume` has traded. */
  function StillAhead(ahead: Qty, volume: Qty): Qty {
    if volume > ahead then 0 else ahead - volume
  }

  /** The fills one by one: each aggressor's share, if it has one. */
  function FifoFills(size: Qty, ahead: Qty, flow: seq<Flow>): seq<Qty>
    decreases |flow|
  {
    if flow == [] then []
    else
      var front := flow[..|flow| - 1];
      FifoFills(size, ahead, front)
      + Unless0(FifoFill(size, ahead, Volume(flow)) - FifoFill(size, ahead, Volume(front)))
  }

  function Unless0(n: int): seq<Qty> {
    if n > 0 then [n] else []
  }

  /** The quantities of the trades in which `me` was the maker. */
  function FillsOf(es: seq<Event>, me: OrderId): seq<Qty> {
    if es == [] then []
    else FillOf(es[0], me) + FillsOf(es[1..], me)
  }

  /** The part of one event in that. */
  function FillOf(e: Event, me: OrderId): seq<Qty> {
    if e.Traded? && e.maker == me then [e.qty] else []
  }

  lemma {:induction false} FillsOfConcat(a: seq<Event>, b: seq<Event>, me: OrderId)
    ensures FillsOf(a + b, me) == FillsOf(a, me) + FillsOf(b, me)
  {
    if a == [] {
      assert a + b == b;
    } else {
      FillsOfConcat(a[1..], b, me);
      FillsOfHead(a, me);
      FillsOfHeads(a, b, me);
      hide FillsOf, FillOf;
      Regroup(FillOf(a[0], me), FillsOf(a[1..], me), FillsOf(b, me));
    }
  }

  lemma {:induction false} Regroup<T>(x: seq<T>, y: seq<T>, z: seq<T>)
    ensures x + (y + z) == x + y + z
  {
  }

  lemma {:induction false} FillsOfHeads(a: seq<Event>, b: seq<Event>, me: OrderId)
    requires a != []
    ensures FillsOf(a + b, me) == FillOf(a[0], me) + FillsOf(a[1..] + b, me)
  {
    assert (a + b)[1..] == a[1..] + b;
    FillsOfHead(a + b, me);
    hide FillsOf, FillOf;
  }

  lemma {:induction false} FillsOfHead(es: seq<Event>, me: OrderId)
    requires es != []
    ensures FillsOf(es, me) == FillOf(es[0], me) + FillsOf(es[1..], me)
  {
  }

  // ---- the queue at the price ----

  ghost predicate OnePrice(q: Queue, price: Price) {
    forall i :: 0 <= i < |q| ==> q[i].price == price
  }

  /** Our order `me` has `left` units ahead of it and `open` units left; or it is filled and gone. */
  ghost predicate Stands(q: Queue, price: Price, me: OrderId, left: Qty, open: Qty) {
    OnePrice(q, price) &&
    if open == 0 then !Has(q, me)
    else exists k :: 0 <= k < |q| && StandsAt(q, k, me, left, open)
  }

  ghost predicate StandsAt(q: Queue, k: nat, me: OrderId, left: Qty, open: Qty)
    requires k < |q|
  {
    q[k].id == me && q[k].qty == open && Total(q[..k]) == left && !Has(q[..k], me) && !Has(q[k + 1..], me)
  }

  lemma {:induction false} HasTail(q: Queue, me: OrderId)
    requires q != []
    ensures Has(q, me) <==> q[0].id == me || Has(q[1..], me)
  {
    if Has(q, me) && q[0].id != me {
      var i :| 0 <= i < |q| && q[i].id == me;
      assert q[1..][i - 1].id == me;
    }
  }

  /** A sweep at one price never brings an order in, nor fills one that is not there. */
  lemma {:induction false} SweepGone(t: Taker, v: Qty, q: Queue, me: OrderId)
    requires !Has(q, me)
    ensures var r := Match(Allow, t, v, q);
      !Has(r.queue, me) && FillsOf(r.events, me) == []
    decreases |q|
  {
    if v == 0 || q == [] || !Crosses(t, q[0].price) {
      MatchNone(Allow, t, v, q);
    } else {
      MatchHead(Allow, t, v, q);
      HasTail(q, me);
      var fill := Min(v, q[0].qty);
      var e := Traded(t.id, q[0].id, q[0].price, fill, t.side);
      if fill == q[0].qty {
        SweepGone(t, v - fill, q[1..], me);
        OneEvent(e, Match(Allow, t, v - fill, q[1..]).events, me);
      } else {
        var q' := [q[0].(qty := q[0].qty - fill)] + q[1..];
        MatchNone(Allow, t, 0, q');
        HasTail(q', me);
        OneEvent(e, [], me);
      }
    }
  }

  lemma {:induction false} OneEvent(e: Event, es: seq<Event>, me: OrderId)
    ensures FillsOf([e] + es, me) == FillOf(e, me) + FillsOf(es, me)
  {
    assert ([e] + es)[1..] == es;
  }

  lemma {:induction false} SweepOnePrice(t: Taker, v: Qty, q: Queue, price: Price)
    requires OnePrice(q, price) && Crosses(t, price)
    ensures var r := Match(Allow, t, v, q);
      OnePrice(r.queue, price) && (r.rem > 0 ==> r.queue == [])
    decreases |q|
  {
    if v == 0 || q == [] {
      MatchNone(Allow, t, v, q);
    } else {
      MatchHead(Allow, t, v, q);
      var fill := Min(v, q[0].qty);
      if fill == q[0].qty {
        SweepOnePrice(t, v - fill, q[1..], price);
      } else {
        MatchNone(Allow, t, 0, [q[0].(qty := q[0].qty - fill)] + q[1..]);
      }
    }
  }

  lemma {:induction false} Behind(q: Queue, k: nat, me: OrderId, left: Qty, open: Qty)
    requires k < |q| && StandsAt(q, k, me, left, open) && k > 0
    ensures q[0].id != me && q[0].qty <= left && StandsAt(q[1..], k - 1, me, left - q[0].qty, open)
  {
    var rest := q[1..];
    assert q[..k][0] == q[0] && q[..k][1..] == rest[..k - 1];
    assert rest[k..] == q[k + 1..];
    HasTail(q[..k], me);
  }

  lemma {:induction false} Before(o: Resting, q: Queue, k: nat, me: OrderId, left: Qty, open: Qty)
    requires k < |q| && StandsAt(q, k, me, left, open) && o.id != me
    ensures StandsAt([o] + q, k + 1, me, left + o.qty, open)
  {
    var q' := [o] + q;
    assert q'[..k + 1] == [o] + q[..k] && q'[..k + 1][1..] == q[..k];
    assert q'[k + 2..] == q[k + 1..];
    HasTail(q'[..k + 1], me);
  }

  /** A sweep of `v` units takes what is ahead first and then our order, in one fill. */
  lemma {:induction false} SweepReaches(t: Taker, v: Qty, q: Queue, k: nat, price: Price, me: OrderId, left: Qty, open: Qty)
    requires OnePrice(q, price) && Crosses(t, price) && open > 0 && k < |q| && StandsAt(q, k, me, left, open)
    ensures var r := Match(Allow, t, v, q);
      && Stands(r.queue, price, me, StillAhead(left, v), open - FifoFill(open, left, v))
      && FillsOf(r.events, me) == Unless0(FifoFill(open, left, v))
    decreases |q|, 1
  {
    SweepOnePrice(t, v, q, price);
    if v == 0 {
      MatchNone(Allow, t, v, q);
    } else {
      MatchHead(Allow, t, v, q);
      if k > 0 {
        ReachesLater(t, v, q, k, price, me, left, open);
      } else {
        ReachesNow(t, v, q, price, me, open);
      }
    }
  }

  lemma {:induction false} ReachesLater(t: Taker, v: Qty, q: Queue, k: nat, price: Price, me: OrderId,
          left: Qty, open: Qty)
    requires OnePrice(q, price) && Crosses(t, price) && open > 0 && 0 < k < |q| && StandsAt(q, k, me, left, open) && v > 0
    ensures var r := Match(Allow, t, v, q);
      && Stands(r.queue, price, me, StillAhead(left, v), open - FifoFill(open, left, v))
      && FillsOf(r.events, me) == Unless0(FifoFill(open, left, v))
    decreases |q|, 0
  {
    hide *;
    Behind(q, k, me, left, open);
    TailAtPrice(q, price, t);
    if v >= q[0].qty {
      PassAhead(t, v, q[0].qty, q[1..], k - 1, price, me, left, open);
      PassHead(t, v, q, me);
    } else {
      CutAhead(v, q, q[0].(qty := q[0].qty - v), k, price, me, left, open);
      CutHead(t, v, q, me);
    }
  }

  lemma {:induction false} TailAtPrice(q: Queue, price: Price, t: Taker)
    requires OnePrice(q, price) && Crosses(t, price) && q != []
    ensures OnePrice(q[1..], price) && Crosses(t, q[0].price)
  {
  }

  /** The head is not our order and goes whole: none of its trade is ours, and the sweep goes on. */
  lemma {:induction false} PassHead(t: Taker, v: Qty, q: Queue, me: OrderId)
    requires v > 0 && q != [] && Crosses(t, q[0].price) && q[0].id != me && v >= q[0].qty
    ensures var r, r' := Match(Allow, t, v, q), Match(Allow, t, v - q[0].qty, q[1..]);
      r.queue == r'.queue && FillsOf(r.events, me) == FillsOf(r'.events, me)
  {
    MatchHead(Allow, t, v, q);
    hide Match, FillsOf;
    NotMine(Traded(t.id, q[0].id, q[0].price, q[0].qty, t.side), Match(Allow, t, v - q[0].qty, q[1..]).events, me);
  }

  /** ... or in part, and that is the end of the sweep. */
  lemma {:induction false} CutHead(t: Taker, v: Qty, q: Queue, me: OrderId)
    requires v > 0 && q != [] && Crosses(t, q[0].price) && q[0].id != me && v < q[0].qty
    ensures var r := Match(Allow, t, v, q);
      r.queue == [q[0].(qty := q[0].qty - v)] + q[1..] && FillsOf(r.events, me) == []
  {
    MatchHead(Allow, t, v, q);
    MatchNone(Allow, t, 0, [q[0].(qty := q[0].qty - v)] + q[1..]);
    assert FillsOf([], me) == [];
    hide Match, FillsOf;
    NotMine(Traded(t.id, q[0].id, q[0].price, v, t.side), [], me);
  }

  /** The same share, counted from behind the `n` units that went first. */
  lemma {:induction false} PassAhead(t: Taker, v: Qty, n: Qty, rest: Queue, k: nat, price: Price, me: OrderId,
          left: Qty, open: Qty)
    requires n <= v && n <= left && OnePrice(rest, price) && Crosses(t, price) && open > 0
    requires k < |rest| && StandsAt(rest, k, me, left - n, open)
    ensures var r := Match(Allow, t, v - n, rest);
      && Stands(r.queue, price, me, StillAhead(left, v), open - FifoFill(open, left, v))
      && FillsOf(r.events, me) == Unless0(FifoFill(open, left, v))
    decreases |rest|, 2
  {
    AheadFirst(open, left, v, n);
    hide *;
    SweepReaches(t, v - n, rest, k, price, me, left - n, open);
  }

  lemma {:induction false} NotMine(e: Event, es: seq<Event>, me: OrderId)
    requires e.Traded? && e.maker != me
    ensures FillsOf([e] + es, me) == FillsOf(es, me)
  {
    OneEvent(e, es, me);
    hide FillsOf;
  }

  lemma {:induction false} AheadFirst(open: Qty, left: Qty, v: Qty, n: Qty)
    requires n <= v && n <= left
    ensures StillAhead(left - n, v - n) == StillAhead(left, v) && FifoFill(open, left - n, v - n) == FifoFill(open, left, v)
  {
  }

  /** A sweep that ends inside the first order ahead. */
  lemma {:induction false} CutAhead(v: Qty, q: Queue, o: Resting, k: nat, price: Price, me: OrderId, left: Qty,
          open: Qty)
    requires OnePrice(q, price) && open > 0 && 0 < k < |q| && v < q[0].qty && o == q[0].(qty := q[0].qty - v)
    requires q[0].id != me && q[0].qty <= left && StandsAt(q[1..], k - 1, me, left - q[0].qty, open)
    ensures Stands([o] + q[1..], price, me, StillAhead(left, v), open - FifoFill(open, left, v))
    ensures Unless0(FifoFill(open, left, v)) == []
  {
    Before(o, q[1..], k - 1, me, left - q[0].qty, open);
    hide StandsAt;
  }

  lemma {:induction false} ReachesNow(t: Taker, v: Qty, q: Queue, price: Price, me: OrderId, open: Qty)
    requires OnePrice(q, price) && Crosses(t, price) && open > 0 && q != [] && v > 0
    requires StandsAt(q, 0, me, 0, open)
    ensures var r := Match(Allow, t, v, q);
      && Stands(r.queue, price, me, 0, open - Min(open, v))
      && FillsOf(r.events, me) == [Min(open, v)]
  {
    MatchHead(Allow, t, v, q);
    var fill, rest := Min(v, open), q[1..];
    var e := Traded(t.id, me, q[0].price, fill, t.side);
    if fill == open {
      SweepGone(t, v - fill, rest, me);
      SweepOnePrice(t, v - fill, rest, price);
      OneEvent(e, Match(Allow, t, v - fill, rest).events, me);
    } else {
      var q' := [q[0].(qty := open - fill)] + rest;
      MatchNone(Allow, t, 0, q');
      assert q'[..0] == [] && q'[1..] == rest;
      assert StandsAt(q', 0, me, 0, open - fill);
      OneEvent(e, [], me);
    }
  }

  /** Filled and gone, or still to come: a sweep leaves our order where its share says. */
  lemma {:induction false} SweepStands(t: Taker, v: Qty, q: Queue, price: Price, me: OrderId, left: Qty, open: Qty)
    requires Stands(q, price, me, left, open) && Crosses(t, price)
    ensures var r := Match(Allow, t, v, q);
      && Stands(r.queue, price, me, StillAhead(left, v), open - FifoFill(open, left, v))
      && FillsOf(r.events, me) == Unless0(FifoFill(open, left, v))
  {
    if open == 0 {
      SweepGone(t, v, q, me);
      SweepOnePrice(t, v, q, price);
      hide Match;
    } else {
      var k :| 0 <= k < |q| && StandsAt(q, k, me, left, open);
      hide Match, StandsAt, FillsOf, Unless0, FifoFill, StillAhead;
      SweepReaches(t, v, q, k, price, me, left, open);
    }
  }

  lemma {:induction false} JoinBehind(q: Queue, price: Price, o: Resting, me: OrderId, left: Qty, open: Qty)
    requires Stands(q, price, me, left, open) && o.id != me && o.price == price
    ensures Stands(q + [o], price, me, left, open)
  {
    var q' := q + [o];
    if open == 0 {
      forall i | 0 <= i < |q'| ensures q'[i].id != me {}
    } else {
      var k :| 0 <= k < |q| && StandsAt(q, k, me, left, open);
      assert q'[..k] == q[..k] && q'[k + 1..] == q[k + 1..] + [o];
      var behind, behind' := q[k + 1..], q'[k + 1..];
      forall i | 0 <= i < |behind'| ensures behind'[i].id != me {
        assert i < |behind| ==> behind'[i] == behind[i];
      }
      assert StandsAt(q', k, me, left, open);
    }
  }

  // ---- the book around it ----

  /** On side `side` the book has `q`, all at `price`, and behind it only worse prices, without `me`. */
  ghost predicate Around(b: Book, side: Side, price: Price, q: Queue, tail: Queue, me: OrderId) {
    && Good(b) && b.At(side) == q + tail && !Has(tail, me) && !Has(b.At(side.Opposite()), me)
    && (forall i :: 0 <= i < |tail| ==> Better(side, price, tail[i].price))
    && (forall j :: 0 <= j < |b.At(side.Opposite())| ==> Better(side, b.At(side.Opposite())[j].price, price))
  }

  /** A sweep of two queues is a sweep of the first and, with what is left, of the second. */
  lemma {:induction false} SweepBoth(t: Taker, v: Qty, q: Queue, tail: Queue, price: Price)
    requires OnePrice(q, price) && Crosses(t, price)
    ensures var r := Match(Allow, t, v, q);
      var r' := Match(Allow, t, r.rem, tail);
      Match(Allow, t, v, q + tail) == Matched(r'.rem, r.queue + r'.queue, r.events + r'.events)
    decreases |q|
  {
    var all := q + tail;
    if q == [] {
      assert all == tail;
      MatchNone(Allow, t, v, q);
      var r' := Match(Allow, t, v, tail);
      assert [] + r'.queue == r'.queue && [] + r'.events == r'.events;
    } else if v == 0 {
      MatchNone(Allow, t, 0, q);
      MatchNone(Allow, t, 0, all);
      MatchNone(Allow, t, 0, tail);
    } else {
      SweepBothHead(t, v, q, tail, price);
    }
  }

  lemma {:induction false} SweepBothHead(t: Taker, v: Qty, q: Queue, tail: Queue, price: Price)
    requires OnePrice(q, price) && Crosses(t, price) && q != [] && v > 0
    ensures var r := Match(Allow, t, v, q);
      var r' := Match(Allow, t, r.rem, tail);
      Match(Allow, t, v, q + tail) == Matched(r'.rem, r.queue + r'.queue, r.events + r'.events)
    decreases |q|, 0
  {
    hide Match;
    var all, rest := q + tail, q[1..];
    assert all[0] == q[0] && all[1..] == rest + tail;
    MatchHead(Allow, t, v, q);
    MatchHead(Allow, t, v, all);
    var fill := Min(v, q[0].qty);
    var e := [Traded(t.id, q[0].id, q[0].price, fill, t.side)];
    if fill == q[0].qty {
      SweepBoth(t, v - fill, rest, tail, price);
      var r := Match(Allow, t, v - fill, rest);
      var r' := Match(Allow, t, r.rem, tail);
      assert e + (r.events + r'.events) == e + r.events + r'.events;
    } else {
      var o := q[0].(qty := q[0].qty - fill);
      MatchNone(Allow, t, 0, [o] + rest);
      MatchNone(Allow, t, 0, [o] + (rest + tail));
      MatchNone(Allow, t, 0, tail);
      assert [o] + (rest + tail) == [o] + rest + tail;
    }
  }

  lemma {:induction false} AtPrice(side: Side, price: Price, t: Taker)
    requires t.side == side.Opposite() && (t.market || t.price == price)
    ensures Crosses(t, price)
  {
  }

  /** What an aggressor leaves of a worse tail is worse still, and has no new order in it. */
  lemma {:induction false} TailSwept(side: Side, price: Price, t: Taker, v: Qty, tail: Queue, me: OrderId)
    requires forall i :: 0 <= i < |tail| ==> Better(side, price, tail[i].price)
    requires !Has(tail, me)
    ensures var r := Match(Allow, t, v, tail);
      && (forall i :: 0 <= i < |r.queue| ==> Better(side, price, r.queue[i].price))
      && !Has(r.queue, me) && FillsOf(r.events, me) == []
  {
    SweepGone(t, v, tail, me);
    var k, cut := SweepShape(Allow, t, v, tail);
    var q' := Match(Allow, t, v, tail).queue;
    forall i | 0 <= i < |q'| ensures Better(side, price, q'[i].price) {
      assert q'[i].price == tail[k + i].price;
    }
  }

  /** What an aggressor does: our price first, then what is worse. */
  lemma {:induction false} TradeStep(b: Book, side: Side, price: Price, q: Queue, tail: Queue, me: OrderId, f: Flow)
    returns (tail': Queue)
    requires Around(b, side, price, q, tail, me) && OnePrice(q, price)
    requires f.Trades? && f.qty > 0 && b.Locate(f.id) == None
    ensures var t := Taker(f.id, f.participant, side.Opposite(), if f.market then 0 else price, f.market);
      var r, o := Match(Allow, t, f.qty, q), Step(Allow, b, MessageOf(side, price, f));
      && Crosses(t, price)
      && Around(o.book, side, price, r.queue, tail', me)
      && FillsOf(o.events, me) == FillsOf(r.events, me)
  {
    var t := Taker(f.id, f.participant, side.Opposite(), if f.market then 0 else price, f.market);
    AtPrice(side, price, t);
    SweepBoth(t, f.qty, q, tail, price);
    var r := Match(Allow, t, f.qty, q);
    var r' := Match(Allow, t, r.rem, tail);
    TailSwept(side, price, t, r.rem, tail, me);
    tail' := r'.queue;
    StepGood(Allow, b, MessageOf(side, price, f));
    TradeEvents(b, side, price, q + tail, me, f, t);
    FillsOfConcat(r.events, r'.events, me);
    hide Match, Good, Has, FillsOf, Book.Locate, Step;
    AroundAfter(b, side, price, q, tail, me, Step(Allow, b, MessageOf(side, price, f)).book, r.queue, tail');
  }

  lemma {:induction false} AroundAfter(b: Book, side: Side, price: Price, q: Queue, tail: Queue, me: OrderId, b': Book,
          q': Queue, tail': Queue)
    requires Around(b, side, price, q, tail, me) && Good(b') && b' == b.With(side, q' + tail')
    requires !Has(tail', me) && forall i :: 0 <= i < |tail'| ==> Better(side, price, tail'[i].price)
    ensures Around(b', side, price, q', tail', me)
  {
    hide Good, Has;
    assert b'.At(side) == q' + tail' && b'.At(side.Opposite()) == b.At(side.Opposite());
  }

  /** The accept before the sweep and the cancel behind it are no fills. */
  lemma {:induction false} NoFills(head: Event, es: seq<Event>, last: Event, me: OrderId)
    requires !head.Traded? && !last.Traded?
    ensures FillsOf([head] + es, me) == FillsOf(es, me) == FillsOf([head] + es + [last], me)
  {
    OneEvent(head, es, me);
    FillsOfConcat([head] + es, [last], me);
    assert [last] + [] == [last];
    OneEvent(last, [], me);
  }

  lemma {:induction false} TradeEvents(b: Book, side: Side, price: Price, q: Queue, me: OrderId, f: Flow, t: Taker)
    requires f.Trades? && f.qty > 0 && b.Locate(f.id) == None && b.At(side) == q
    requires t == Taker(f.id, f.participant, side.Opposite(), if f.market then 0 else price, f.market)
    ensures var r, o := Match(Allow, t, f.qty, q), Step(Allow, b, MessageOf(side, price, f));
      && o.book == b.With(side, r.queue)
      && FillsOf(o.events, me) == FillsOf(r.events, me)
  {
    var r := Match(Allow, t, f.qty, q);
    var head, tail := Accepted(t.id, t.side, t.price, f.qty), if f.market then MarketRemainder else IocRemainder;
    NoFills(head, r.events, Cancelled(t.id, tail), me);
    hide Match, FillsOf, FillOf, Book.Locate;
    assert b.At(t.side.Opposite()) == q;
  }

  /** A newcomer goes between our price and what is worse, and trades with nobody. */
  lemma {:induction false} JoinStep(b: Book, side: Side, price: Price, q: Queue, tail: Queue, me: OrderId, f: Flow)
    requires Around(b, side, price, q, tail, me) && OnePrice(q, price)
    requires f.Joins? && f.qty > 0 && b.Locate(f.id) == None
    ensures var o := Step(Allow, b, MessageOf(side, price, f));
      && Around(o.book, side, price, q + [Resting(f.id, f.participant, price, f.qty)], tail, me)
      && FillsOf(o.events, me) == []
  {
    var t, o := Taker(f.id, f.participant, side, price, false), Resting(f.id, f.participant, price, f.qty);
    MatchNone(Allow, t, f.qty, b.At(side.Opposite()));
    InsertSplit(side, q, tail, o);
    StepGood(Allow, b, MessageOf(side, price, f));
    JoinEvents(b, side, price, f, me);
    hide Match, Good, Has, FillsOf, Insert, Book.Locate, Step;
    AroundAfter(b, side, price, q, tail, me, Step(Allow, b, MessageOf(side, price, f)).book, q + [o], tail);
  }

  lemma {:induction false} JoinEvents(b: Book, side: Side, price: Price, f: Flow, me: OrderId)
    requires f.Joins? && f.qty > 0 && b.Locate(f.id) == None
    requires Match(Allow, Taker(f.id, f.participant, side, price, false), f.qty, b.At(side.Opposite()))
      == Matched(f.qty, b.At(side.Opposite()), [])
    ensures var o := Step(Allow, b, MessageOf(side, price, f));
      && o.book == b.With(side, Insert(side, b.At(side), Resting(f.id, f.participant, price, f.qty)))
      && FillsOf(o.events, me) == []
  {
    var e := Accepted(f.id, side, price, f.qty);
    assert [e][1..] == [] && [e] + [] == [e];
    hide Match, Insert, Book.Locate;
  }

  lemma {:induction false} NothingStep(b: Book, side: Side, price: Price, f: Flow, me: OrderId)
    requires f.qty == 0
    ensures var o := Step(Allow, b, MessageOf(side, price, f));
      o.book == b && FillsOf(o.events, me) == []
  {
    var e := Rejected(f.id, ZeroQty);
    assert [e][1..] == [];
    hide Match, Insert, Book.Locate;
  }

  // ---- the real order ----

  /** The book after some of the flow: our order has had its share of the volume. */
  ghost predicate Shared(b: Book, side: Side, price: Price, me: Resting, l: Qty, v: Qty) {
    exists q, tail :: Around(b, side, price, q, tail, me.id)
                      && Stands(q, price, me.id, StillAhead(l, v), me.qty - FifoFill(me.qty, l, v))
  }

  lemma {:induction false} SharesAdd(size: Qty, l: Qty, v: Qty, n: Qty)
    ensures var left, open := StillAhead(l, v), size - FifoFill(size, l, v);
      && FifoFill(open, left, n) == FifoFill(size, l, v + n) - FifoFill(size, l, v)
      && StillAhead(left, n) == StillAhead(l, v + n)
  {
  }

  lemma {:induction false} FlowStep(b: Book, side: Side, price: Price, me: Resting, l: Qty, v: Qty, f: Flow)
    requires Shared(b, side, price, me, l, v) && f.id != me.id && b.Locate(f.id) == None
    ensures var o, w := Step(Allow, b, MessageOf(side, price, f)), v + VolumeOf(f);
      && Shared(o.book, side, price, me, l, w)
      && FillsOf(o.events, me.id) == Unless0(FifoFill(me.qty, l, w) - FifoFill(me.qty, l, v))
  {
    var left, open := StillAhead(l, v), me.qty - FifoFill(me.qty, l, v);
    var q, tail :| Around(b, side, price, q, tail, me.id) && Stands(q, price, me.id, left, open);
    FlowStepFrom(b, side, price, me, l, v, f, q, tail);
  }

  lemma {:induction false} FlowStepFrom(b: Book, side: Side, price: Price, me: Resting, l: Qty, v: Qty,
          f: Flow, q: Queue, tail: Queue)
    requires Around(b, side, price, q, tail, me.id) && f.id != me.id && b.Locate(f.id) == None
    requires Stands(q, price, me.id, StillAhead(l, v), me.qty - FifoFill(me.qty, l, v))
    ensures var o, w := Step(Allow, b, MessageOf(side, price, f)), v + VolumeOf(f);
      && Shared(o.book, side, price, me, l, w)
      && FillsOf(o.events, me.id) == Unless0(FifoFill(me.qty, l, w) - FifoFill(me.qty, l, v))
  {
    hide *;
    var o, w := Step(Allow, b, MessageOf(side, price, f)), v + VolumeOf(f);
    var left, open := StillAhead(l, v), me.qty - FifoFill(me.qty, l, v);
    SharesAdd(me.qty, l, v, VolumeOf(f));
    var q', tail' := OneFlow(b, side, price, me.id, q, tail, left, open, f);
    SharedIs(o.book, side, price, me, l, w, q', tail');
  }

  lemma {:induction false} SharedIs(b: Book, side: Side, price: Price, me: Resting, l: Qty, v: Qty, q: Queue, tail: Queue)
    requires Around(b, side, price, q, tail, me.id)
    requires Stands(q, price, me.id, StillAhead(l, v), me.qty - FifoFill(me.qty, l, v))
    ensures Shared(b, side, price, me, l, v)
  {
  }

  lemma {:induction false} OneFlow(b: Book, side: Side, price: Price, me: OrderId, q: Queue, tail: Queue,
          left: Qty, open: Qty, f: Flow)
    returns (q': Queue, tail': Queue)
    requires Around(b, side, price, q, tail, me) && Stands(q, price, me, left, open)
    requires f.id != me && b.Locate(f.id) == None
    ensures var o, n := Step(Allow, b, MessageOf(side, price, f)), VolumeOf(f);
      && Around(o.book, side, price, q', tail', me)
      && Stands(q', price, me, StillAhead(left, n), open - FifoFill(open, left, n))
      && FillsOf(o.events, me) == Unless0(FifoFill(open, left, n))
  {
    hide Around, Stands, Step, Book.Locate;
    q', tail' := q, tail;
    if f.qty == 0 {
      NothingStep(b, side, price, f, me);
    } else if f.Joins? {
      JoinFlow(b, side, price, me, q, tail, left, open, f);
      q' := q + [Resting(f.id, f.participant, price, f.qty)];
    } else {
      q', tail' := TradeFlow(b, side, price, me, q, tail, left, open, f);
    }
  }

  lemma {:induction false} JoinFlow(b: Book, side: Side, price: Price, me: OrderId, q: Queue, tail: Queue,
          left: Qty, open: Qty, f: Flow)
    requires Around(b, side, price, q, tail, me) && Stands(q, price, me, left, open)
    requires f.Joins? && f.qty > 0 && f.id != me && b.Locate(f.id) == None
    ensures var o, q' := Step(Allow, b, MessageOf(side, price, f)), q + [Resting(f.id, f.participant, price, f.qty)];
      && Around(o.book, side, price, q', tail, me) && Stands(q', price, me, left, open)
      && FillsOf(o.events, me) == []
  {
    JoinStep(b, side, price, q, tail, me, f);
    hide Step, Around;
    JoinBehind(q, price, Resting(f.id, f.participant, price, f.qty), me, left, open);
  }

  lemma {:induction false} TradeFlow(b: Book, side: Side, price: Price, me: OrderId, q: Queue, tail: Queue,
          left: Qty, open: Qty, f: Flow)
    returns (q': Queue, tail': Queue)
    requires Around(b, side, price, q, tail, me) && Stands(q, price, me, left, open)
    requires f.Trades? && f.qty > 0 && b.Locate(f.id) == None
    ensures var o := Step(Allow, b, MessageOf(side, price, f));
      && Around(o.book, side, price, q', tail', me)
      && Stands(q', price, me, StillAhead(left, f.qty), open - FifoFill(open, left, f.qty))
      && FillsOf(o.events, me) == Unless0(FifoFill(open, left, f.qty))
  {
    assert OnePrice(q, price);
    hide *;
    tail' := TradeStep(b, side, price, q, tail, me, f);
    var t := Taker(f.id, f.participant, side.Opposite(), if f.market then 0 else price, f.market);
    q' := Match(Allow, t, f.qty, q).queue;
    SweepStands(t, f.qty, q, price, me, left, open);
  }

  lemma {:induction false} FlowRuns(b: Book, side: Side, price: Price, me: Resting, l: Qty, flow: seq<Flow>)
    requires Shared(b, side, price, me, l, 0)
    requires FreshIds(b, Messages(side, price, flow)) && forall i :: 0 <= i < |flow| ==> flow[i].id != me.id
    ensures var run := Run(Allow, b, Messages(side, price, flow));
      Shared(run.0, side, price, me, l, Volume(flow)) && FillsOf(run.1, me.id) == FifoFills(me.qty, l, flow)
    decreases |flow|
  {
    if flow != [] {
      var front := flow[..|flow| - 1];
      hide Shared, Run, Step, FillsOf, FifoFills, FifoFill, Volume, Messages, FreshIds;
      assert forall i :: 0 <= i < |front| ==> front[i] == flow[i];
      FlowUnfolds(b, side, price, me, l, flow);
      FlowRuns(b, side, price, me, l, front);
      FlowRunsOn(b, side, price, me, l, flow);
    } else {
      hide Shared;
    }
  }

  lemma {:induction false} FlowRunsOn(b: Book, side: Side, price: Price, me: Resting, l: Qty, flow: seq<Flow>)
    requires flow != [] && FreshIds(b, Messages(side, price, flow)) && flow[|flow| - 1].id != me.id
    requires var front := flow[..|flow| - 1];
      var run := Run(Allow, b, Messages(side, price, front));
      Shared(run.0, side, price, me, l, Volume(front)) && FillsOf(run.1, me.id) == FifoFills(me.qty, l, front)
    ensures var run := Run(Allow, b, Messages(side, price, flow));
      Shared(run.0, side, price, me, l, Volume(flow)) && FillsOf(run.1, me.id) == FifoFills(me.qty, l, flow)
  {
    hide *;
    var front, f := flow[..|flow| - 1], flow[|flow| - 1];
    FlowUnfolds(b, side, price, me, l, flow);
    var (b', log) := Run(Allow, b, Messages(side, price, front));
    FlowStep(b', side, price, me, l, Volume(front), f);
    FillsOfConcat(log, Step(Allow, b', MessageOf(side, price, f)).events, me.id);
  }

  lemma {:induction false} FlowUnfolds(b: Book, side: Side, price: Price, me: Resting, l: Qty, flow: seq<Flow>)
    requires flow != [] && FreshIds(b, Messages(side, price, flow))
    ensures var front, f := flow[..|flow| - 1], flow[|flow| - 1];
      var run := Run(Allow, b, Messages(side, price, front));
      var o := Step(Allow, run.0, MessageOf(side, price, f));
      && FreshIds(b, Messages(side, price, front)) && run.0.Locate(f.id) == None
      && Run(Allow, b, Messages(side, price, flow)) == (o.book, run.1 + o.events)
      && Volume(flow) == Volume(front) + VolumeOf(f)
      && FifoFills(me.qty, l, flow) == FifoFills(me.qty, l, front)
                                    + Unless0(FifoFill(me.qty, l, Volume(flow)) - FifoFill(me.qty, l, Volume(front)))
  {
    hide *;
    MessagesEnd(side, price, flow);
    RunUnfolds(b, Messages(side, price, flow));
    FillsUnfold(me.qty, l, flow);
  }

  lemma {:induction false} RunUnfolds(b: Book, ms: seq<Message>)
    requires ms != [] && FreshIds(b, ms)
    ensures var front, m := ms[..|ms| - 1], ms[|ms| - 1];
      var run := Run(Allow, b, front);
      var o := Step(Allow, run.0, m);
      && FreshIds(b, front) && run.0.Locate(m.id) == None && Run(Allow, b, ms) == (o.book, run.1 + o.events)
  {
    hide Step, Book.Locate;
  }

  lemma {:induction false} FillsUnfold(size: Qty, ahead: Qty, flow: seq<Flow>)
    requires flow != []
    ensures var front, f := flow[..|flow| - 1], flow[|flow| - 1];
      && Volume(flow) == Volume(front) + VolumeOf(f)
      && FifoFills(size, ahead, flow)
         == FifoFills(size, ahead, front)
            + Unless0(FifoFill(size, ahead, Volume(flow)) - FifoFill(size, ahead, Volume(front)))
  {
    hide FifoFill, Unless0, VolumeOf;
  }

  lemma {:induction false} MessagesEnd(side: Side, price: Price, flow: seq<Flow>)
    requires flow != []
    ensures var ms := Messages(side, price, flow);
      && ms != [] && ms[..|ms| - 1] == Messages(side, price, flow[..|flow| - 1])
      && ms[|ms| - 1] == MessageOf(side, price, flow[|flow| - 1]) && ms[|ms| - 1].id == flow[|flow| - 1].id
  {
  }

  /** A real order in a whole book, behind `ahead` at its price and before anything worse, the other
      side as it may be: after any messages from aggressors and newcomers at its price, whatever else
      the market orders reach, it has been filled by what traded beyond the units that were ahead of
      it, one fill per aggressor that got so far, and the rest is still open. */
  lemma {:induction false} RealFills(b: Book, side: Side, ahead: Queue, me: Resting, tail: Queue, flow: seq<Flow>)
    requires Good(b) && b.At(side) == ahead + [me] + tail && OnePrice(ahead, me.price)
    requires forall i :: 0 <= i < |tail| ==> Better(side, me.price, tail[i].price)
    requires FreshIds(b, Messages(side, me.price, flow)) && forall i :: 0 <= i < |flow| ==> flow[i].id != me.id
    ensures var run := Run(Allow, b, Messages(side, me.price, flow));
      && OpenQty(run.0, me.id) == me.qty - FifoFill(me.qty, Total(ahead), Volume(flow))
      && FillsOf(run.1, me.id) == FifoFills(me.qty, Total(ahead), flow)
  {
    StartsShared(b, side, ahead, me, tail);
    FlowRuns(b, side, me.price, me, Total(ahead), flow);
    hide Run, Shared, FreshIds, FifoFill, FillsOf, FifoFills;
    SharedOpen(Run(Allow, b, Messages(side, me.price, flow)).0, side, me.price, me, Total(ahead), Volume(flow));
  }

  lemma {:induction false} StartsShared(b: Book, side: Side, ahead: Queue, me: Resting, tail: Queue)
    requires Good(b) && b.At(side) == ahead + [me] + tail && OnePrice(ahead, me.price)
    requires forall i :: 0 <= i < |tail| ==> Better(side, me.price, tail[i].price)
    ensures Shared(b, side, me.price, me, Total(ahead), 0)
  {
    var q, all := ahead + [me], b.At(side);
    DistinctSplit(ahead, me, tail);
    assert all[|ahead|] == me;
    assert q[..|ahead|] == ahead && q[|ahead| + 1..] == [];
    assert StandsAt(q, |ahead|, me.id, Total(ahead), me.qty);
    var theirs := b.At(side.Opposite());
    forall j | 0 <= j < |theirs| ensures Better(side, theirs[j].price, me.price) {
      if side == Bid {
        assert b.bids[|ahead|].price < b.asks[j].price;
      } else {
        assert b.bids[j].price < b.asks[|ahead|].price;
      }
    }
    HasIds(b.bids, me.id);
    HasIds(b.asks, me.id);
    assert Has(all, me.id);
    assert Around(b, side, me.price, q, tail, me.id);
    assert FifoFill(me.qty, Total(ahead), 0) == 0;
  }

  /** What is open of our order is what the engine answers. */
  lemma {:induction false} SharedOpen(b: Book, side: Side, price: Price, me: Resting, l: Qty, v: Qty)
    requires Shared(b, side, price, me, l, v)
    ensures OpenQty(b, me.id) == me.qty - FifoFill(me.qty, l, v)
  {
    var left, open := StillAhead(l, v), me.qty - FifoFill(me.qty, l, v);
    hide FifoFill, Good;
    var q, tail :| Around(b, side, price, q, tail, me.id) && Stands(q, price, me.id, left, open);
    OpenAround(b, side, q, tail, price, me.id, left, open);
  }

  lemma {:induction false} OpenAround(b: Book, side: Side, q: Queue, tail: Queue, price: Price, me: OrderId, left: Qty, open: Qty)
    requires Around(b, side, price, q, tail, me) && Stands(q, price, me, left, open)
    ensures OpenQty(b, me) == open
  {
    hide Good, Better, Total;
    var all := q + tail;
    if open == 0 {
      forall i | 0 <= i < |all| ensures all[i].id != me {}
    } else {
      var k :| 0 <= k < |q| && StandsAt(q, k, me, left, open);
      assert all[..k] == q[..k];
      assert all == all[..k] + [all[k]] + all[k + 1..];
      IndexOfSplit(all[..k], all[k], all[k + 1..]);
    }
    assert b.At(side) == all;
  }
}
