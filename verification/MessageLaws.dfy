/** What each message means, in the words of its own fields: what a sweep takes, what is reported of it
    and why, what comes to rest and where, and what the queries answer. */
module MessageLaws {
  import opened Types
  import opened PriceTimeBook
  import opened QueueLemmas
  import opened BookInvariants
  import opened SweepTotals

  // ---- the sweep, in closed form ----

  /** The limit allows a trade at `price`. */
  predicate Reaches(t: Taker, price: Price) {
    t.market || (if t.side == Bid then price <= t.price else price >= t.price)
  }

  /** The resting order is of the taker's own participant, and the policy minds. */
  predicate Own(stp: StpPolicy, t: Taker, o: Resting) {
    o.participant == t.participant && (stp == CancelResting || stp == CancelIncoming)
  }

  /** The order goes whole: pulled if it is the taker's own, traded at its own price otherwise. */
  ghost predicate Whole(stp: StpPolicy, t: Taker, o: Resting, e: Event) {
    && Reaches(t, o.price)
    && if Own(stp, t, o) then stp == CancelResting && e == Cancelled(o.id, SelfTradePrevention)
       else e == Traded(t.id, o.id, o.price, o.qty, t.side)
  }

  /** What becomes of the order behind those that went whole, with `left` units to fill. */
  ghost predicate Ends(stp: StpPolicy, t: Taker, left: Qty, q: Queue, k: nat, r: Matched)
    requires k <= |q| && k <= |r.events|
  {
    if left == 0 || k == |q| || !Reaches(t, q[k].price) then
      r.rem == left && r.queue == q[k..] && |r.events| == k
    else if Own(stp, t, q[k]) then
      stp == CancelIncoming && r.rem == 0 && r.queue == q[k..] && r.events == r.events[..k] + [Cancelled(t.id, SelfTradePrevention)]
    else
      && left < q[k].qty && r.rem == 0 && r.queue == [q[k].(qty := q[k].qty - left)] + q[k + 1..]
      && r.events == r.events[..k] + [Traded(t.id, q[k].id, q[k].price, left, t.side)]
  }

  /** The first `k` orders went whole, each met with units left, and then the sweep ended. */
  ghost predicate SweptTo(stp: StpPolicy, t: Taker, rem: Qty, q: Queue, k: nat, r: Matched) {
    && k <= |q| && k <= |r.events|
    && (forall i :: 0 <= i < k ==> Whole(stp, t, q[i], r.events[i]))
    && (k > 0 ==> Filled(r.events[..k - 1]) < rem) && Filled(r.events[..k]) <= rem
    && Ends(stp, t, rem - Filled(r.events[..k]), q, k, r)
  }

  lemma {:induction false} FilledSnoc(log: seq<Event>, e: Event)
    ensures Filled(log + [e]) == Filled(log) + (if e.Traded? then e.qty else 0)
  {
    if log == [] {
      assert [] + [e] == [e] && [e][1..] == [];
    } else {
      assert (log + [e])[1..] == log[1..] + [e];
      FilledSnoc(log[1..], e);
    }
  }

  /** What a whole order adds to the fill. */
  function TradedOf(e: Event): Qty {
    if e.Traded? then e.qty else 0
  }

  /** The head goes whole, and then the rest is swept. */
  lemma {:induction false} SweptMore(stp: StpPolicy, t: Taker, rem: Qty, q: Queue, e: Event, k: nat, r: Matched)
    requires q != [] && rem > 0 && TradedOf(e) <= rem && Whole(stp, t, q[0], e)
    ensures SweptTo(stp, t, rem - TradedOf(e), q[1..], k, r) <==> SweptTo(stp, t, rem, q, k + 1, Matched(r.rem, r.queue, [e] + r.events))
  {
    hide Whole, Ends, Filled;
    if k <= |r.events| && k < |q| {
      FilledMore(e, r.events, k);
      EndsMore(stp, t, rem - TradedOf(e) - Filled(r.events[..k]), q, e, k, r);
      WholesMore(stp, t, q, e, k, r);
    }
  }

  lemma {:induction false} FilledMore(e: Event, log: seq<Event>, k: nat)
    requires k <= |log|
    ensures Filled(([e] + log)[..k + 1]) == TradedOf(e) + Filled(log[..k])
    ensures if k > 0 then Filled(([e] + log)[..k]) == TradedOf(e) + Filled(log[..k - 1]) else Filled(([e] + log)[..k]) == 0
  {
    assert ([e] + log)[..k + 1] == [e] + log[..k];
    FilledAfter(e, log[..k]);
    if k > 0 {
      assert ([e] + log)[..k] == [e] + log[..k - 1];
      FilledAfter(e, log[..k - 1]);
    }
  }

  lemma {:induction false} FilledNone()
    ensures Filled([]) == 0
  {
  }

  lemma {:induction false} WholesMore(stp: StpPolicy, t: Taker, q: Queue, e: Event, k: nat, r: Matched)
    requires q != [] && Whole(stp, t, q[0], e) && k < |q| && k <= |r.events|
    ensures (forall i :: 0 <= i < k ==> Whole(stp, t, q[1..][i], r.events[i]))
      <==> forall i :: 0 <= i < k + 1 ==> Whole(stp, t, q[i], ([e] + r.events)[i])
  {
    hide Whole;
    var all := [e] + r.events;
    forall i | 0 <= i < k ensures q[1..][i] == q[i + 1] && all[i + 1] == r.events[i] {}
    if forall i :: 0 <= i < k ==> Whole(stp, t, q[1..][i], r.events[i]) {
      forall i | 0 <= i < k + 1 ensures Whole(stp, t, q[i], all[i]) {
        if i > 0 {
          assert Whole(stp, t, q[1..][i - 1], r.events[i - 1]);
        }
      }
    }
    if forall i :: 0 <= i < k + 1 ==> Whole(stp, t, q[i], all[i]) {
      forall i | 0 <= i < k ensures Whole(stp, t, q[1..][i], r.events[i]) {
        assert Whole(stp, t, q[i + 1], all[i + 1]);
      }
    }
  }

  lemma {:induction false} EndsMore(stp: StpPolicy, t: Taker, left: int, q: Queue, e: Event, k: nat, r: Matched)
    requires q != [] && k < |q| && k <= |r.events|
    ensures left >= 0 ==>
      (Ends(stp, t, left, q[1..], k, r) <==> Ends(stp, t, left, q, k + 1, Matched(r.rem, r.queue, [e] + r.events)))
  {
    hide Own, Reaches;
    var rest := q[1..];
    assert rest[k..] == q[k + 1..];
    LastMore(e, r.events, k, Cancelled(t.id, SelfTradePrevention));
    if k < |rest| && left >= 0 {
      assert rest[k] == q[k + 1] && rest[k + 1..] == q[k + 2..];
      LastMore(e, r.events, k, Traded(t.id, q[k + 1].id, q[k + 1].price, left, t.side));
    }
  }

  lemma {:induction false} LastMore(e: Event, log: seq<Event>, k: nat, x: Event)
    requires k <= |log|
    ensures log == log[..k] + [x] <==> [e] + log == ([e] + log)[..k + 1] + [x]
  {
    var all := [e] + log;
    assert all[..k + 1] == [e] + log[..k];
    if all == all[..k + 1] + [x] {
      assert log == all[1..] && log == log[..k] + [x];
    }
    if log == log[..k] + [x] {
      assert all == ([e] + log[..k]) + [x];
    }
  }

  /** A sweep that takes no order whole. */
  ghost predicate EndsAtOnce(stp: StpPolicy, t: Taker, rem: Qty, q: Queue) {
    || rem == 0 || q == [] || !Reaches(t, q[0].price)
    || (if Own(stp, t, q[0]) then stp == CancelIncoming else rem < q[0].qty)
  }

  lemma {:induction false} SweptAtOnce(stp: StpPolicy, t: Taker, rem: Qty, q: Queue)
    requires EndsAtOnce(stp, t, rem, q)
    ensures SweptTo(stp, t, rem, q, 0, Match(stp, t, rem, q))
  {
    FilledNone();
    assert Match(stp, t, rem, q).events[..0] == [];
    SameWords(t, stp, q);
    if rem == 0 || q == [] || !Crosses(t, q[0].price) {
      MatchNone(stp, t, rem, q);
      hide Match, Filled;
    } else {
      MatchHead(stp, t, rem, q);
      hide Match, Filled;
      if rem < q[0].qty {
        MatchNone(stp, t, 0, [q[0].(qty := q[0].qty - rem)] + q[1..]);
      }
    }
  }

  /** The head goes whole, as one event, and the sweep goes on. */
  lemma {:induction false} HeadWhole(stp: StpPolicy, t: Taker, rem: Qty, q: Queue) returns (e: Event)
    requires !EndsAtOnce(stp, t, rem, q)
    ensures rem > 0 && q != [] && TradedOf(e) <= rem && Whole(stp, t, q[0], e)
    ensures var r := Match(stp, t, rem - TradedOf(e), q[1..]);
      Match(stp, t, rem, q) == Matched(r.rem, r.queue, [e] + r.events)
  {
    SameWords(t, stp, q);
    MatchHead(stp, t, rem, q);
    hide Match;
    e := if Own(stp, t, q[0]) then Cancelled(q[0].id, SelfTradePrevention) else Traded(t.id, q[0].id, q[0].price, q[0].qty, t.side);
  }

  lemma {:induction false} SameWords(t: Taker, stp: StpPolicy, q: Queue)
    ensures forall i :: 0 <= i < |q| ==> (Reaches(t, q[i].price) <==> Crosses(t, q[i].price)) && (Own(stp, t, q[i]) <==> SelfTrade(stp, t, q[i]))
  {
  }

  /** Every sweep goes so. */
  lemma {:induction false} SweepGoes(stp: StpPolicy, t: Taker, rem: Qty, q: Queue) returns (k: nat)
    ensures SweptTo(stp, t, rem, q, k, Match(stp, t, rem, q))
    decreases |q|
  {
    hide *;
    if EndsAtOnce(stp, t, rem, q) {
      SweptAtOnce(stp, t, rem, q);
      k := 0;
    } else {
      var e := HeadWhole(stp, t, rem, q);
      k := SweepGoes(stp, t, rem - TradedOf(e), q[1..]);
      SweptMore(stp, t, rem, q, e, k, Match(stp, t, rem - TradedOf(e), q[1..]));
      k := k + 1;
    }
  }

  lemma {:induction false} OnceOnly(stp: StpPolicy, t: Taker, rem: Qty, q: Queue, r: Matched, r': Matched)
    requires SweptTo(stp, t, rem, q, 0, r)
    ensures EndsAtOnce(stp, t, rem, q) && (SweptTo(stp, t, rem, q, 0, r') ==> r == r')
  {
    FilledNone();
    assert r.events[..0] == [] && r'.events[..0] == [];
    hide Filled, Reaches, Own;
  }

  lemma {:induction false} FirstWhole(stp: StpPolicy, t: Taker, rem: Qty, q: Queue, k: nat, r: Matched)
    requires SweptTo(stp, t, rem, q, k, r) && k > 0
    ensures q != [] && r.events != [] && rem > 0 && Whole(stp, t, q[0], r.events[0]) && TradedOf(r.events[0]) <= rem
    ensures !EndsAtOnce(stp, t, rem, q)
  {
    FirstOf(r.events, k);
    hide Filled, Reaches;
  }

  lemma {:induction false} WholeOnce(stp: StpPolicy, t: Taker, o: Resting, e: Event, e': Event)
    requires Whole(stp, t, o, e) && Whole(stp, t, o, e')
    ensures e == e'
  {
  }

  /** And nothing else does. */
  lemma {:induction false} SweepOnly(stp: StpPolicy, t: Taker, rem: Qty, q: Queue, k: nat, r: Matched)
    requires SweptTo(stp, t, rem, q, k, r)
    ensures r == Match(stp, t, rem, q)
    decreases k
  {
    hide *;
    if k == 0 {
      OnceOnly(stp, t, rem, q, r, Match(stp, t, rem, q));
      SweptAtOnce(stp, t, rem, q);
    } else {
      FirstWhole(stp, t, rem, q, k, r);
      var e := HeadWhole(stp, t, rem, q);
      WholeOnce(stp, t, q[0], e, r.events[0]);
      var r' := Matched(r.rem, r.queue, r.events[1..]);
      assert [e] + r.events[1..] == r.events;
      SweptMore(stp, t, rem, q, e, k - 1, r');
      SweepOnly(stp, t, rem - TradedOf(e), q[1..], k - 1, r');
    }
  }

  lemma {:induction false} FirstOf(log: seq<Event>, k: nat)
    requires 0 < k <= |log|
    ensures TradedOf(log[0]) <= Filled(log[..k])
  {
    FilledAfter(log[0], log[1..k]);
    assert [log[0]] + log[1..k] == log[..k];
  }

  /** The closed form is the sweep: an outcome has it exactly if it is the one the engines produce. */
  lemma {:induction false} SweepIff(stp: StpPolicy, t: Taker, rem: Qty, q: Queue, r: Matched)
    ensures (exists k :: SweptTo(stp, t, rem, q, k, r)) <==> r == Match(stp, t, rem, q)
  {
    hide *;
    var k := SweepGoes(stp, t, rem, q);
    if i :| SweptTo(stp, t, rem, q, i, r) {
      SweepOnly(stp, t, rem, q, i, r);
    }
  }

  // ---- who is live ----

  ghost predicate Live(b: Book, id: OrderId) {
    exists s, i :: 0 <= i < |b.At(s)| && b.At(s)[i].id == id
  }

  lemma {:induction false} LiveIs(b: Book, id: OrderId)
    ensures Live(b, id) <==> b.Locate(id).Some?
    ensures b.Locate(id).Some? ==> Has(b.At(b.Locate(id).value), id)
  {
    if Has(b.bids, id) {
      var i :| 0 <= i < |b.bids| && b.bids[i].id == id;
      assert b.At(Bid)[i].id == id;
    }
    if Has(b.asks, id) {
      var i :| 0 <= i < |b.asks| && b.asks[i].id == id;
      assert b.At(Ask)[i].id == id;
    }
    if Live(b, id) {
      var s, i :| 0 <= i < |b.At(s)| && b.At(s)[i].id == id;
      assert Has(b.At(s), id);
      assert s == Bid || s == Ask;
    }
  }

  /** In a good book an order is where its id is found. */
  lemma {:induction false} StandsAt(b: Book, s: Side, i: nat)
    requires Good(b) && i < |b.At(s)|
    ensures var q, id := b.At(s), b.At(s)[i].id;
      && b.Locate(id) == Some(s) && Has(q, id) && IndexOf(q, id) == i && Lookup(q, id) == q[i]
      && Remove(q, id) == q[..i] + q[i + 1..] && !Has(Remove(q, id), id)
  {
    var q, id := b.At(s), b.At(s)[i].id;
    assert Has(q, id);
    HasIds(b.bids, id);
    HasIds(b.asks, id);
    assert s == Bid || s == Ask;
    var j, q' := IndexOf(q, id), Remove(q, id);
    assert j == i;
    forall k | 0 <= k < |q'| ensures q'[k].id != id {
      assert q'[k] == q[if k < i then k else k + 1];
    }
  }

  // ---- what a message enters into the sweep ----

  /** The taker and the units with which the message meets the other side, if it does. */
  ghost predicate Enters(b: Book, m: Message, t: Taker, qty: Qty) {
    match m
    case AddLimit(id, participant, side, price, n, _) =>
      !Live(b, id) && t == Taker(id, participant, side, price, false) && qty == n > 0
    case AddMarket(id, participant, side, n) =>
      !Live(b, id) && t == Taker(id, participant, side, 0, true) && qty == n > 0
    case Cancel(_) => false
    case Modify(id, price, n) =>
      exists s, i :: 0 <= i < |b.At(s)| && b.At(s)[i].id == id && qty == n > 0
        && (price != b.At(s)[i].price || n > b.At(s)[i].qty) && t == Taker(id, b.At(s)[i].participant, s, price, false)
  }

  /** `q'` is `q` with `o` put in last at its price: behind all that is no worse, ahead of all that is. */
  ghost predicate JoinsLast(s: Side, q: Queue, o: Resting, q': Queue) {
    exists k :: 0 <= k <= |q| && q' == q[..k] + [o] + q[k..]
      && (forall i :: 0 <= i < k ==> !Better(s, o.price, q[i].price))
      && (forall i :: k <= i < |q| ==> Better(s, o.price, q[i].price))
  }

  lemma {:induction false} InsertJoinsLast(s: Side, q: Queue, o: Resting)
    requires Sorted(s, q)
    ensures JoinsLast(s, q, o, Insert(s, q, o))
  {
    var k := InsertPlace(s, q, o);
    hide Insert;
    forall i | k <= i < |q| ensures Better(s, o.price, q[i].price) {
      assert i > k ==> !Better(s, q[i].price, q[k].price);
    }
  }

  // ---- add ----

  /** A refused add changes nothing and says why, the empty quantity first. */
  lemma {:induction false} AddRefused(stp: StpPolicy, b: Book, m: Message)
    requires (m.AddLimit? || m.AddMarket?) && (m.qty == 0 || Live(b, m.id))
    ensures Step(stp, b, m) == Outcome(b, [Rejected(m.id, if m.qty == 0 then ZeroQty else DuplicateOrderId)], false)
  {
    LiveIs(b, m.id);
    hide Sweep, Book.Locate;
  }

  /** A limit order: accepted with its own fields, swept, and of what is left over an IOC is cancelled
      and a GTC joins last at its price, with the participant that sent it. */
  lemma {:induction false} LimitEntered(stp: StpPolicy, b: Book, m: Message) returns (k: nat, r: Matched)
    requires Good(b) && m.AddLimit? && m.qty > 0 && !Live(b, m.id)
    ensures var o, t := Step(stp, b, m), Taker(m.id, m.participant, m.side, m.price, false);
      && SweptTo(stp, t, m.qty, b.At(m.side.Opposite()), k, r)
      && o.ok && o.book.At(m.side.Opposite()) == r.queue
      && o.events == [Accepted(m.id, m.side, m.price, m.qty)] + r.events
                     + (if r.rem > 0 && m.tif.IOC? then [Cancelled(m.id, IocRemainder)] else [])
      && if r.rem > 0 && m.tif.GTC? then
           JoinsLast(m.side, b.At(m.side), Resting(m.id, m.participant, m.price, r.rem), o.book.At(m.side))
         else o.book.At(m.side) == b.At(m.side)
  {
    var t := Taker(m.id, m.participant, m.side, m.price, false);
    r := Match(stp, t, m.qty, b.At(m.side.Opposite()));
    k := SweepGoes(stp, t, m.qty, b.At(m.side.Opposite()));
    LiveIs(b, m.id);
    InsertJoinsLast(m.side, b.At(m.side), Resting(m.id, m.participant, m.price, r.rem));
    var log := [Accepted(m.id, m.side, m.price, m.qty)] + r.events;
    assert log + [] == log;
    hide Match, Insert, SweptTo, JoinsLast, Good, Book.Locate;
  }

  /** A market order: swept at any price, what is left over is cancelled, and nothing rests. */
  lemma {:induction false} MarketEntered(stp: StpPolicy, b: Book, m: Message) returns (k: nat, r: Matched)
    requires m.AddMarket? && m.qty > 0 && !Live(b, m.id)
    ensures var o, t := Step(stp, b, m), Taker(m.id, m.participant, m.side, 0, true);
      && SweptTo(stp, t, m.qty, b.At(m.side.Opposite()), k, r)
      && o.ok && o.book.At(m.side.Opposite()) == r.queue && o.book.At(m.side) == b.At(m.side)
      && o.events == [Accepted(m.id, m.side, 0, m.qty)] + r.events + (if r.rem > 0 then [Cancelled(m.id, MarketRemainder)] else [])
  {
    var t := Taker(m.id, m.participant, m.side, 0, true);
    r := Match(stp, t, m.qty, b.At(m.side.Opposite()));
    k := SweepGoes(stp, t, m.qty, b.At(m.side.Opposite()));
    LiveIs(b, m.id);
    var log := [Accepted(m.id, m.side, 0, m.qty)] + r.events;
    assert log + [] == log;
    hide Match, SweptTo, Book.Locate;
  }

  // ---- cancel and modify ----

  lemma {:induction false} UnknownRefused(stp: StpPolicy, b: Book, m: Message)
    requires (m.Cancel? || m.Modify?) && !Live(b, m.id)
    ensures Step(stp, b, m) == Outcome(b, [Rejected(m.id, UnknownOrderId)], false)
  {
    LiveIs(b, m.id);
    hide Book.Locate;
  }

  /** A cancel, or a modify to nothing, takes exactly that order out, as its user asked. */
  lemma {:induction false} TakenOut(stp: StpPolicy, b: Book, m: Message, s: Side, i: nat)
    requires Good(b) && i < |b.At(s)| && b.At(s)[i].id == m.id && (m.Cancel? || (m.Modify? && m.qty == 0))
    ensures Step(stp, b, m) == Outcome(b.With(s, b.At(s)[..i] + b.At(s)[i + 1..]), [Cancelled(m.id, User)], true)
  {
    StandsAt(b, s, i);
    hide Good, Has, Remove, IndexOf, Book.Locate;
  }

  /** A modify to no more units at the same price changes that quantity and nothing else: every order
      keeps its place, and nothing is reported. */
  lemma {:induction false} ModifiedInPlace(stp: StpPolicy, b: Book, m: Message, s: Side, i: nat)
    requires Good(b) && m.Modify? && i < |b.At(s)| && b.At(s)[i].id == m.id
    requires 0 < m.qty <= b.At(s)[i].qty && m.price == b.At(s)[i].price
    ensures Step(stp, b, m) == Outcome(b.With(s, b.At(s)[i := b.At(s)[i].(qty := m.qty)]), [], true)
  {
    StandsAt(b, s, i);
    hide Good, Has, Remove, IndexOf, Book.Locate;
  }

  /** Any other modify takes the order out and enters it anew: the other side is swept at the new price
      for the new quantity, and what is left joins last there, on the same side and of the same
      participant. Nothing is reported but the sweep. */
  lemma {:induction false} ModifiedAnew(stp: StpPolicy, b: Book, m: Message, s: Side, i: nat) returns (k: nat, r: Matched)
    requires Good(b) && m.Modify? && m.qty > 0 && i < |b.At(s)| && b.At(s)[i].id == m.id
    requires m.price != b.At(s)[i].price || m.qty > b.At(s)[i].qty
    ensures var o, was, t := Step(stp, b, m), b.At(s)[i], Taker(m.id, b.At(s)[i].participant, s, m.price, false);
      var rest := b.At(s)[..i] + b.At(s)[i + 1..];
      && SweptTo(stp, t, m.qty, b.At(s.Opposite()), k, r)
      && o.ok && o.events == r.events && o.book.At(s.Opposite()) == r.queue
      && if r.rem > 0 then JoinsLast(s, rest, Resting(m.id, was.participant, m.price, r.rem), o.book.At(s))
         else o.book.At(s) == rest
  {
    hide *;
    var t, rest := Taker(m.id, b.At(s)[i].participant, s, m.price, false), b.At(s)[..i] + b.At(s)[i + 1..];
    r := Match(stp, t, m.qty, b.At(s.Opposite()));
    k := SweepGoes(stp, t, m.qty, b.At(s.Opposite()));
    RestSorted(b, s, i);
    InsertJoinsLast(s, rest, Resting(m.id, b.At(s)[i].participant, m.price, r.rem));
    ReplacedIs(stp, b, m, s, i);
  }

  lemma {:induction false} RestSorted(b: Book, s: Side, i: nat)
    requires Good(b) && i < |b.At(s)|
    ensures Sorted(s, b.At(s)[..i] + b.At(s)[i + 1..])
  {
    GoodSide(b, s);
    GoodPositive(b, s);
    hide Good, Sorted, Positive;
    CutGood(s, b.At(s), i);
  }

  lemma {:induction false} GoodPositive(b: Book, s: Side)
    requires Good(b)
    ensures Positive(b.At(s))
  {
  }

  lemma {:induction false} ReplacedIs(stp: StpPolicy, b: Book, m: Message, s: Side, i: nat)
    requires Good(b) && m.Modify? && m.qty > 0 && i < |b.At(s)| && b.At(s)[i].id == m.id
    requires m.price != b.At(s)[i].price || m.qty > b.At(s)[i].qty
    ensures var o, t := Step(stp, b, m), Taker(m.id, b.At(s)[i].participant, s, m.price, false);
      var r, rest := Match(stp, t, m.qty, b.At(s.Opposite())), b.At(s)[..i] + b.At(s)[i + 1..];
      && o.ok && o.events == r.events && o.book.At(s.Opposite()) == r.queue
      && o.book.At(s) == if r.rem > 0 then Insert(s, rest, Resting(m.id, t.participant, m.price, r.rem)) else rest
  {
    StandsAt(b, s, i);
    hide Good, Match, Insert, Has, Remove, IndexOf, Book.Locate;
  }

  /** With self-trades allowed the new order fills what its price reaches, as a fresh one would. */
  lemma {:induction false} ModifiedFills(b: Book, m: Message, s: Side, i: nat)
    requires Good(b) && m.Modify? && m.qty > 0 && i < |b.At(s)| && b.At(s)[i].id == m.id
    requires m.price != b.At(s)[i].price || m.qty > b.At(s)[i].qty
    ensures Filled(Step(Allow, b, m).events)
         == Min(m.qty, Reachable(Taker(m.id, b.At(s)[i].participant, s, m.price, false), b.At(s.Opposite())))
  {
    var t := Taker(m.id, b.At(s)[i].participant, s, m.price, false);
    var k, r := ModifiedAnew(Allow, b, m, s, i);
    SweepOnly(Allow, t, m.qty, b.At(s.Opposite()), k, r);
    GoodSide(b, s.Opposite());
    hide *;
    FilledAllow(t, m.qty, b.At(s.Opposite()));
    SameSide(s);
  }

  /** A bid of five at 99, moved to 101, where five are asked: it trades there and the book is empty. */
  lemma {:induction false} RepricedTrades(stp: StpPolicy)
    ensures Step(stp, Book([Resting(1, 0, 99, 5)], [Resting(2, 1, 101, 5)]), Modify(1, 101, 5))
         == Outcome(EmptyBook, [Traded(1, 2, 101, 5, Bid)], true)
  {
    var bid, ask, t := Resting(1, 0, 99, 5), Resting(2, 1, 101, 5), Taker(1, 0, Bid, 101, false);
    MatchHead(stp, t, 5, [ask]);
    MatchNone(stp, t, 0, []);
    assert [ask][1..] == [] && [bid][0].id == 1 && [bid][..0] + [bid][1..] == [];
    hide Match;
    assert [Traded(1, 2, 101, 5, Bid)] + [] == [Traded(1, 2, 101, 5, Bid)];
  }

  lemma {:induction false} GoodSide(b: Book, s: Side)
    requires Good(b)
    ensures Sorted(s, b.At(s)) && Distinct(b.At(s))
  {
  }

  lemma {:induction false} SameSide(s: Side)
    ensures s.Opposite().Opposite() == s
  {
  }

  /** Whatever is modified and still rests does so on its side, at the new price, for its participant. */
  lemma {:induction false} ModifiedStands(stp: StpPolicy, b: Book, m: Message, s: Side, i: nat, x: Side, j: nat)
    requires Good(b) && m.Modify? && m.qty > 0 && i < |b.At(s)| && b.At(s)[i].id == m.id
    requires var b' := Step(stp, b, m).book; j < |b'.At(x)| && b'.At(x)[j].id == m.id
    ensures var o := Step(stp, b, m).book.At(x)[j];
      x == s && o.price == m.price && o.participant == b.At(s)[i].participant && o.qty <= m.qty
  {
    var b' := Step(stp, b, m).book;
    StandsAt(b, s, i);
    if m.price == b.At(s)[i].price && m.qty <= b.At(s)[i].qty {
      ModifiedInPlace(stp, b, m, s, i);
      hide Step, IndexOf, Remove;
      if x == s {
        if j != i {
          DistinctAt(b, s, i, j);
        }
      } else {
        assert x == s.Opposite();
        OtherSide(b, s, i, j);
      }
    } else {
      var k, r := ModifiedAnew(stp, b, m, s, i);
      var t, rest := Taker(m.id, b.At(s)[i].participant, s, m.price, false), b.At(s)[..i] + b.At(s)[i + 1..];
      hide Step, IndexOf, Remove;
      SweptLeaves(stp, t, m.qty, b.At(s.Opposite()), k, r);
      if x == s {
        assert rest == Remove(b.At(s), m.id);
        if r.rem > 0 {
          JoinedIs(s, rest, Resting(m.id, t.participant, m.price, r.rem), b'.At(s), j);
        }
      } else {
        assert x == s.Opposite();
        var n :| 0 <= n < |b.At(x)| && b.At(x)[n].id == r.queue[j].id;
        OtherSide(b, s, i, n);
      }
    }
  }

  lemma {:induction false} DistinctAt(b: Book, s: Side, i: nat, j: nat)
    requires Good(b) && i < |b.At(s)| && j < |b.At(s)| && i != j
    ensures b.At(s)[i].id != b.At(s)[j].id
  {
  }

  lemma {:induction false} OtherSide(b: Book, s: Side, i: nat, j: nat)
    requires Good(b) && i < |b.At(s)| && j < |b.At(s.Opposite())|
    ensures b.At(s)[i].id != b.At(s.Opposite())[j].id
  {
    assert b.At(s)[i].id in Ids(b.At(s)) && b.At(s.Opposite())[j].id in Ids(b.At(s.Opposite()));
  }

  lemma {:induction false} JoinedIs(s: Side, q: Queue, o: Resting, q': Queue, j: nat)
    requires JoinsLast(s, q, o, q') && !Has(q, o.id) && j < |q'| && q'[j].id == o.id
    ensures q'[j] == o
  {
    var k :| 0 <= k <= |q| && q' == q[..k] + [o] + q[k..];
    forall n | 0 <= n < |q'| ensures q'[n] == if n < k then q[n] else if n == k then o else q[n - 1] {}
  }

  /** A sweep leaves orders that stood before, each whole but perhaps the first. */
  lemma {:induction false} SweptLeaves(stp: StpPolicy, t: Taker, rem: Qty, q: Queue, k: nat, r: Matched)
    requires SweptTo(stp, t, rem, q, k, r)
    ensures r.rem <= rem
    ensures forall j :: 0 <= j < |r.queue| ==>
      k + j < |q| && r.queue[j].qty <= q[k + j].qty && r.queue[j] == q[k + j].(qty := r.queue[j].qty)
  {
    hide Whole, Filled;
  }

  // ---- why something is cancelled ----

  /** `id` is cancelled in the sweep: pulled on the way as the taker's own, or the taker itself as it
      meets its own with units left. */
  ghost predicate Prevented(stp: StpPolicy, t: Taker, rem: Qty, q: Queue, k: nat, r: Matched, id: OrderId) {
    && k <= |q| && k <= |r.events|
    && ((stp == CancelResting && exists i :: 0 <= i < k && Own(stp, t, q[i]) && q[i].id == id)
        || (stp == CancelIncoming && id == t.id && k < |q| && Filled(r.events[..k]) < rem && Reaches(t, q[k].price) && Own(stp, t, q[k])))
  }

  lemma {:induction false} SweptEvents(stp: StpPolicy, t: Taker, rem: Qty, q: Queue, k: nat, r: Matched)
    requires SweptTo(stp, t, rem, q, k, r)
    ensures forall e :: e in r.events ==> e.Traded? || (e.Cancelled? && e.reason == SelfTradePrevention)
    ensures forall id :: Cancelled(id, SelfTradePrevention) in r.events <==> Prevented(stp, t, rem, q, k, r, id)
  {
    hide Filled;
    forall id ensures Cancelled(id, SelfTradePrevention) in r.events <==> Prevented(stp, t, rem, q, k, r, id) {
      var e := Cancelled(id, SelfTradePrevention);
      if e in r.events {
        var j :| 0 <= j < |r.events| && r.events[j] == e;
        if j < k {
          assert Whole(stp, t, q[j], r.events[j]);
        }
      }
      if stp == CancelResting && exists i :: 0 <= i < k && Own(stp, t, q[i]) && q[i].id == id {
        var i :| 0 <= i < k && Own(stp, t, q[i]) && q[i].id == id;
        assert Whole(stp, t, q[i], r.events[i]);
        assert r.events[i] == e;
      }
    }
    forall e | e in r.events ensures e.Traded? || (e.Cancelled? && e.reason == SelfTradePrevention) {
      var j :| 0 <= j < |r.events| && r.events[j] == e;
      if j < k {
        assert Whole(stp, t, q[j], r.events[j]);
      }
    }
  }

  /** The message that would be reported as a cancellation of `id` for the reason `why`. */
  ghost predicate Warrants(stp: StpPolicy, b: Book, m: Message, id: OrderId, why: CancelReason) {
    match why
    case User => id == m.id && Live(b, id) && (m.Cancel? || (m.Modify? && m.qty == 0))
    case IocRemainder => id == m.id && m.AddLimit? && m.tif.IOC? && LeavesUnits(stp, b, m)
    case MarketRemainder => id == m.id && m.AddMarket? && LeavesUnits(stp, b, m)
    case SelfTradePrevention =>
      exists t, qty, k, r :: Enters(b, m, t, qty) && SweptTo(stp, t, qty, b.At(t.side.Opposite()), k, r)
        && Prevented(stp, t, qty, b.At(t.side.Opposite()), k, r, id)
  }

  /** The taker is not killed, and the sweep ends with units in hand. */
  ghost predicate LeavesUnits(stp: StpPolicy, b: Book, m: Message) {
    exists t, qty, k, r :: Enters(b, m, t, qty) && SweptTo(stp, t, qty, b.At(t.side.Opposite()), k, r) && r.rem > 0
  }

  lemma {:induction false} EntersOnce(b: Book, m: Message, t: Taker, qty: Qty, t': Taker, qty': Qty)
    requires Good(b) && Enters(b, m, t, qty) && Enters(b, m, t', qty')
    ensures t == t' && qty == qty'
  {
    if m.Modify? {
      var s, i :| 0 <= i < |b.At(s)| && b.At(s)[i].id == m.id && t == Taker(m.id, b.At(s)[i].participant, s, m.price, false);
      var s', i' :| 0 <= i' < |b.At(s')| && b.At(s')[i'].id == m.id && t' == Taker(m.id, b.At(s')[i'].participant, s', m.price, false);
      hide Good;
      SamePlace(b, m.id, s, i, s', i');
    }
  }

  lemma {:induction false} SamePlace(b: Book, id: OrderId, s: Side, i: nat, s': Side, i': nat)
    requires Good(b) && i < |b.At(s)| && b.At(s)[i].id == id && i' < |b.At(s')| && b.At(s')[i'].id == id
    ensures s == s' && i == i'
  {
    if s != s' {
      assert s' == s.Opposite();
      OtherSide(b, s, i, i');
    } else if i != i' {
      DistinctAt(b, s, i, i');
    }
  }

  /** The one sweep of a message says what it leaves and whom it cancels. */
  lemma {:induction false} EntryWarrants(stp: StpPolicy, b: Book, m: Message, t: Taker, qty: Qty, k: nat, r: Matched)
    requires Good(b) && Enters(b, m, t, qty) && SweptTo(stp, t, qty, b.At(t.side.Opposite()), k, r)
    ensures LeavesUnits(stp, b, m) <==> r.rem > 0
    ensures forall id :: Warrants(stp, b, m, id, SelfTradePrevention) <==> Cancelled(id, SelfTradePrevention) in r.events
  {
    hide Good, SweptTo, Enters, Prevented;
    var q := b.At(t.side.Opposite());
    SweepOnly(stp, t, qty, q, k, r);
    SweptLengths(stp, t, qty, q, k, r);
    SweptEvents(stp, t, qty, q, k, r);
    if LeavesUnits(stp, b, m) {
      var t', qty', k', r' :| Enters(b, m, t', qty') && SweptTo(stp, t', qty', b.At(t'.side.Opposite()), k', r') && r'.rem > 0;
      EntersOnce(b, m, t, qty, t', qty');
      SweepOnly(stp, t, qty, q, k', r');
    }
    forall id ensures Warrants(stp, b, m, id, SelfTradePrevention) <==> Cancelled(id, SelfTradePrevention) in r.events {
      if Warrants(stp, b, m, id, SelfTradePrevention) {
        var t', qty', k', r' :| Enters(b, m, t', qty') && SweptTo(stp, t', qty', b.At(t'.side.Opposite()), k', r')
          && Prevented(stp, t', qty', b.At(t'.side.Opposite()), k', r', id);
        EntersOnce(b, m, t, qty, t', qty');
        SweepOnly(stp, t, qty, q, k', r');
        SweptEvents(stp, t, qty, q, k', r');
      }
    }
  }

  lemma {:induction false} SweptLengths(stp: StpPolicy, t: Taker, rem: Qty, q: Queue, k: nat, r: Matched)
    requires SweptTo(stp, t, rem, q, k, r)
    ensures k <= |q| && k <= |r.events|
  {
  }

  /** A message that enters no sweep. */
  lemma {:induction false} NoEntryWarrants(stp: StpPolicy, b: Book, m: Message)
    requires forall t, qty :: !Enters(b, m, t, qty)
    ensures forall id, why :: Warrants(stp, b, m, id, why) ==> why == User
  {
    hide Enters, SweptTo;
  }

  /** Each cancellation is reported for its one reason, and whatever warrants one is reported: a user's
      cancel or modify to nothing, the remainder of an IOC or of a market order, and self-trades
      prevented. */
  lemma {:induction false} CancelledIff(stp: StpPolicy, b: Book, m: Message, id: OrderId, why: CancelReason)
    requires Good(b)
    ensures Cancelled(id, why) in Step(stp, b, m).events <==> Warrants(stp, b, m, id, why)
  {
    hide *;
    match m {
      case AddLimit(_, _, _, _, _, _) =>
        if m.qty == 0 || Live(b, m.id) {
          AddRefused(stp, b, m);
          RefusedEnters(b, m);
          NoEntryWarrants(stp, b, m);
          RefusedCancels(stp, b, m, id, why);
        } else {
          var k, r := LimitEntered(stp, b, m);
          LimitCancels(stp, b, m, k, r, id, why);
        }
      case AddMarket(_, _, _, _) =>
        if m.qty == 0 || Live(b, m.id) {
          AddRefused(stp, b, m);
          RefusedEnters(b, m);
          NoEntryWarrants(stp, b, m);
          RefusedCancels(stp, b, m, id, why);
        } else {
          var k, r := MarketEntered(stp, b, m);
          MarketCancels(stp, b, m, k, r, id, why);
        }
      case Cancel(_) => OldCancels(stp, b, m, id, why);
      case Modify(_, _, _) => OldCancels(stp, b, m, id, why);
    }
  }

  lemma {:induction false} RefusedEnters(b: Book, m: Message)
    requires (m.AddLimit? || m.AddMarket?) && (m.qty == 0 || Live(b, m.id))
    ensures forall t, qty :: !Enters(b, m, t, qty)
  {
    hide Live;
  }

  lemma {:induction false} RefusedCancels(stp: StpPolicy, b: Book, m: Message, id: OrderId, why: CancelReason)
    requires (m.AddLimit? || m.AddMarket?) && Step(stp, b, m).events == [Rejected(m.id, if m.qty == 0 then ZeroQty else DuplicateOrderId)]
    requires Warrants(stp, b, m, id, why) ==> why == User
    ensures Cancelled(id, why) !in Step(stp, b, m).events && !Warrants(stp, b, m, id, why)
  {
    hide Step, Live;
  }

  lemma {:induction false} LimitCancels(stp: StpPolicy, b: Book, m: Message, k: nat, r: Matched, id: OrderId, why: CancelReason)
    requires Good(b) && m.AddLimit? && m.qty > 0 && !Live(b, m.id)
    requires SweptTo(stp, Taker(m.id, m.participant, m.side, m.price, false), m.qty, b.At(m.side.Opposite()), k, r)
    requires Step(stp, b, m).events == [Accepted(m.id, m.side, m.price, m.qty)] + r.events
                                       + (if r.rem > 0 && m.tif.IOC? then [Cancelled(m.id, IocRemainder)] else [])
    ensures Cancelled(id, why) in Step(stp, b, m).events <==> Warrants(stp, b, m, id, why)
  {
    var t := Taker(m.id, m.participant, m.side, m.price, false);
    EntryWarrants(stp, b, m, t, m.qty, k, r);
    SweptLengths(stp, t, m.qty, b.At(m.side.Opposite()), k, r);
    SweptEvents(stp, t, m.qty, b.At(m.side.Opposite()), k, r);
    hide Step, Live, SweptTo, LeavesUnits, Prevented, Good, Enters;
  }

  lemma {:induction false} MarketCancels(stp: StpPolicy, b: Book, m: Message, k: nat, r: Matched, id: OrderId, why: CancelReason)
    requires Good(b) && m.AddMarket? && m.qty > 0 && !Live(b, m.id)
    requires SweptTo(stp, Taker(m.id, m.participant, m.side, 0, true), m.qty, b.At(m.side.Opposite()), k, r)
    requires Step(stp, b, m).events == [Accepted(m.id, m.side, 0, m.qty)] + r.events
                                       + (if r.rem > 0 then [Cancelled(m.id, MarketRemainder)] else [])
    ensures Cancelled(id, why) in Step(stp, b, m).events <==> Warrants(stp, b, m, id, why)
  {
    var t := Taker(m.id, m.participant, m.side, 0, true);
    EntryWarrants(stp, b, m, t, m.qty, k, r);
    SweptLengths(stp, t, m.qty, b.At(m.side.Opposite()), k, r);
    SweptEvents(stp, t, m.qty, b.At(m.side.Opposite()), k, r);
    hide Step, Live, SweptTo, LeavesUnits, Prevented, Good, Enters;
  }

  lemma {:induction false} OldCancels(stp: StpPolicy, b: Book, m: Message, id: OrderId, why: CancelReason)
    requires Good(b) && (m.Cancel? || m.Modify?)
    ensures Cancelled(id, why) in Step(stp, b, m).events <==> Warrants(stp, b, m, id, why)
  {
    hide Step, Good, SweptTo, Prevented;
    if !Live(b, m.id) {
      UnknownRefused(stp, b, m);
    } else {
      var s, i :| 0 <= i < |b.At(s)| && b.At(s)[i].id == m.id;
      hide Live;
      if m.Cancel? || m.qty == 0 {
        TakenOut(stp, b, m, s, i);
      } else if m.price == b.At(s)[i].price && m.qty <= b.At(s)[i].qty {
        ModifiedInPlace(stp, b, m, s, i);
        InPlaceEnters(b, m, s, i);
      } else {
        var k, r := ModifiedAnew(stp, b, m, s, i);
        var t := Taker(m.id, b.At(s)[i].participant, s, m.price, false);
        EntryWarrants(stp, b, m, t, m.qty, k, r);
        SweptLengths(stp, t, m.qty, b.At(s.Opposite()), k, r);
        SweptEvents(stp, t, m.qty, b.At(s.Opposite()), k, r);
      }
    }
  }

  lemma {:induction false} InPlaceEnters(b: Book, m: Message, s: Side, i: nat)
    requires Good(b) && m.Modify? && i < |b.At(s)| && b.At(s)[i].id == m.id && m.price == b.At(s)[i].price && m.qty <= b.At(s)[i].qty
    ensures forall t, qty :: !Enters(b, m, t, qty)
  {
    forall t, qty | Enters(b, m, t, qty) ensures false {
      var x, j :| 0 <= j < |b.At(x)| && b.At(x)[j].id == m.id && (m.price != b.At(x)[j].price || m.qty > b.At(x)[j].qty);
      SamePlace(b, m.id, s, i, x, j);
    }
  }

  // ---- trades ----

  /** `e` is a trade of the taker with `o`, at its price and within the limit, for no more than it had,
      and not of the same participant under a policy that minds. */
  ghost predicate Fairly(stp: StpPolicy, t: Taker, o: Resting, e: Event)
    requires e.Traded?
  {
    && e.taker == t.id && e.takerSide == t.side && e.maker == o.id && e.price == o.price && e.qty <= o.qty
    && Reaches(t, o.price) && !Own(stp, t, o)
  }

  /** The message's taker traded so with an order that stood on the other side. */
  ghost predicate Rightful(stp: StpPolicy, b: Book, m: Message, e: Event) {
    && e.Traded?
    && exists t, qty, i :: Enters(b, m, t, qty) && 0 <= i < |b.At(t.side.Opposite())| && Fairly(stp, t, b.At(t.side.Opposite())[i], e)
  }

  lemma {:induction false} SweptTrades(stp: StpPolicy, b: Book, m: Message, t: Taker, qty: Qty, k: nat, r: Matched)
    requires Enters(b, m, t, qty) && SweptTo(stp, t, qty, b.At(t.side.Opposite()), k, r)
    ensures forall e :: e in r.events && e.Traded? ==> Rightful(stp, b, m, e)
  {
    hide *;
    var q := b.At(t.side.Opposite());
    forall e | e in r.events && e.Traded? ensures Rightful(stp, b, m, e) {
      var i := TradedWith(stp, t, qty, q, k, r, e);
      RightfulIs(stp, b, m, t, qty, i, e);
    }
  }

  lemma {:induction false} RightfulIs(stp: StpPolicy, b: Book, m: Message, t: Taker, qty: Qty, i: nat, e: Event)
    requires Enters(b, m, t, qty) && i < |b.At(t.side.Opposite())| && e.Traded? && Fairly(stp, t, b.At(t.side.Opposite())[i], e)
    ensures Rightful(stp, b, m, e)
  {
  }

  lemma {:induction false} TradedWith(stp: StpPolicy, t: Taker, rem: Qty, q: Queue, k: nat, r: Matched, e: Event) returns (i: nat)
    requires SweptTo(stp, t, rem, q, k, r) && e in r.events && e.Traded?
    ensures i < |q| && Fairly(stp, t, q[i], e)
  {
    hide Filled, Reaches, Own;
    var j :| 0 <= j < |r.events| && r.events[j] == e;
    i := if j < k then j else k;
    if j < k {
      assert Whole(stp, t, q[j], r.events[j]);
    }
  }

  lemma {:induction false} TradesRightful(stp: StpPolicy, b: Book, m: Message)
    requires Good(b)
    ensures forall e :: e in Step(stp, b, m).events && e.Traded? ==> Rightful(stp, b, m, e)
  {
    hide Step, Good, SweptTo, Rightful, Live;
    if m.AddLimit? || m.AddMarket? {
      if m.qty == 0 || Live(b, m.id) {
        AddRefused(stp, b, m);
      } else if m.AddLimit? {
        var k, r := LimitEntered(stp, b, m);
        SweptTrades(stp, b, m, Taker(m.id, m.participant, m.side, m.price, false), m.qty, k, r);
      } else {
        var k, r := MarketEntered(stp, b, m);
        SweptTrades(stp, b, m, Taker(m.id, m.participant, m.side, 0, true), m.qty, k, r);
      }
    } else if !Live(b, m.id) {
      UnknownRefused(stp, b, m);
    } else {
      OldTrades(stp, b, m);
    }
  }

  lemma {:induction false} OldTrades(stp: StpPolicy, b: Book, m: Message)
    requires Good(b) && (m.Cancel? || m.Modify?) && Live(b, m.id)
    ensures forall e :: e in Step(stp, b, m).events && e.Traded? ==> Rightful(stp, b, m, e)
  {
    hide Step, Good, SweptTo, Rightful;
    var s, i :| 0 <= i < |b.At(s)| && b.At(s)[i].id == m.id;
    if m.Cancel? || m.qty == 0 {
      TakenOut(stp, b, m, s, i);
    } else if m.price == b.At(s)[i].price && m.qty <= b.At(s)[i].qty {
      ModifiedInPlace(stp, b, m, s, i);
    } else {
      var k, r := ModifiedAnew(stp, b, m, s, i);
      SweptTrades(stp, b, m, Taker(m.id, b.At(s)[i].participant, s, m.price, false), m.qty, k, r);
    }
  }

  // ---- every run ----

  ghost predicate SaidBy(stp: StpPolicy, b: Book, ms: seq<Message>, j: nat, e: Event) {
    j < |ms| && e in Step(stp, Run(stp, b, ms[..j]).0, ms[j]).events
  }

  lemma {:induction false} SaidFront(stp: StpPolicy, b: Book, ms: seq<Message>, j: nat, e: Event)
    requires ms != [] && j < |ms| - 1
    ensures SaidBy(stp, b, ms[..|ms| - 1], j, e) <==> SaidBy(stp, b, ms, j, e)
  {
    hide Run, Step;
    assert ms[..|ms| - 1][..j] == ms[..j];
  }

  /** An event of a run is one of the events of one of its messages. */
  lemma {:induction false} RunSays(stp: StpPolicy, b: Book, ms: seq<Message>, e: Event)
    ensures e in Run(stp, b, ms).1 <==> exists j :: SaidBy(stp, b, ms, j, e)
    decreases |ms|
  {
    hide *;
    if ms == [] {
      NothingSaid(stp, b, e);
    } else {
      var n := |ms| - 1;
      RunSays(stp, b, ms[..n], e);
      RunSplits(stp, b, ms);
      SaidLast(stp, b, ms, e);
      if j: nat :| SaidBy(stp, b, ms[..n], j, e) {
        SaidWithin(stp, b, ms[..n], j, e);
        SaidFront(stp, b, ms, j, e);
        assert SaidBy(stp, b, ms, j, e);
      }
      if j: nat :| SaidBy(stp, b, ms, j, e) {
        SaidWithin(stp, b, ms, j, e);
        if j < n {
          SaidFront(stp, b, ms, j, e);
          assert SaidBy(stp, b, ms[..n], j, e);
        }
      }
    }
  }

  lemma {:induction false} NothingSaid(stp: StpPolicy, b: Book, e: Event)
    ensures e !in Run(stp, b, []).1 && forall j :: !SaidBy(stp, b, [], j, e)
  {
  }

  lemma {:induction false} SaidLast(stp: StpPolicy, b: Book, ms: seq<Message>, e: Event)
    requires ms != []
    ensures var n := |ms| - 1;
      SaidBy(stp, b, ms, n, e) <==> e in Step(stp, Run(stp, b, ms[..n]).0, ms[n]).events
  {
    hide Run, Step;
  }

  lemma {:induction false} SaidWithin(stp: StpPolicy, b: Book, ms: seq<Message>, j: nat, e: Event)
    requires SaidBy(stp, b, ms, j, e)
    ensures j < |ms|
  {
  }

  lemma {:induction false} RunSplits(stp: StpPolicy, b: Book, ms: seq<Message>)
    requires ms != []
    ensures var n := |ms| - 1;
      Run(stp, b, ms).1 == Run(stp, b, ms[..n]).1 + Step(stp, Run(stp, b, ms[..n]).0, ms[n]).events
  {
    hide Step;
  }

  /** Over every run a cancellation is in the log exactly if some message of the stream warranted it. */
  lemma {:induction false} RunCancelledIff(stp: StpPolicy, ms: seq<Message>, id: OrderId, why: CancelReason)
    ensures Cancelled(id, why) in Run(stp, EmptyBook, ms).1
      <==> exists j :: 0 <= j < |ms| && Warrants(stp, Run(stp, EmptyBook, ms[..j]).0, ms[j], id, why)
  {
    hide Step, Warrants, Good, Run;
    EmptyGood();
    RunSays(stp, EmptyBook, ms, Cancelled(id, why));
    forall j: nat | j < |ms|
      ensures SaidBy(stp, EmptyBook, ms, j, Cancelled(id, why)) <==> Warrants(stp, Run(stp, EmptyBook, ms[..j]).0, ms[j], id, why)
    {
      RunGood(stp, EmptyBook, ms[..j]);
      CancelledIff(stp, Run(stp, EmptyBook, ms[..j]).0, ms[j], id, why);
    }
  }

  /** And every trade of it is a rightful one of some message. */
  lemma {:induction false} RunTradesRightful(stp: StpPolicy, ms: seq<Message>, e: Event)
    requires e in Run(stp, EmptyBook, ms).1 && e.Traded?
    ensures exists j :: 0 <= j < |ms| && Rightful(stp, Run(stp, EmptyBook, ms[..j]).0, ms[j], e)
  {
    hide Step, Rightful, Good, Run;
    EmptyGood();
    RunSays(stp, EmptyBook, ms, e);
    var j: nat :| SaidBy(stp, EmptyBook, ms, j, e);
    RunGood(stp, EmptyBook, ms[..j]);
    TradesRightful(stp, Run(stp, EmptyBook, ms[..j]).0, ms[j]);
  }

  // ---- queries ----

  /** The orders of `q` at `price`, in their order. */
  function AtPrice(q: Queue, price: Price): Queue {
    if q == [] then [] else (if q[0].price == price then [q[0]] else []) + AtPrice(q[1..], price)
  }

  lemma {:induction false} DepthIsTotal(q: Queue, price: Price)
    ensures Depth(q, price) == Total(AtPrice(q, price))
    ensures forall o :: o in AtPrice(q, price) <==> o in q && o.price == price
  {
    if q != [] {
      DepthIsTotal(q[1..], price);
      assert q == [q[0]] + q[1..];
      if q[0].price == price {
        assert AtPrice(q, price)[1..] == AtPrice(q[1..], price);
      } else {
        assert AtPrice(q, price) == AtPrice(q[1..], price);
      }
    }
  }

  /** The touch is nothing only of an empty side; otherwise it is a price that is listed, none listed is
      better, and it comes with the total quantity of just the orders there. */
  lemma {:induction false} TouchIff(s: Side, q: Queue, p: Price, n: Qty)
    requires Sorted(s, q)
    ensures Best(q) == None <==> q == []
    ensures Best(q) == Some((p, n)) <==>
      && (exists i :: 0 <= i < |q| && q[i].price == p)
      && (forall i :: 0 <= i < |q| ==> !Better(s, q[i].price, p))
      && n == Total(AtPrice(q, p))
  {
    DepthIsTotal(q, p);
    hide Total, AtPrice, Depth;
    if q != [] {
      forall i | 0 <= i < |q| ensures !Better(s, q[i].price, q[0].price) {}
    }
  }

  /** The answer to a query by id is the quantity of the order of that id, wherever it stands. */
  lemma {:induction false} OpenQtyIff(b: Book, id: OrderId, n: Qty)
    requires Good(b)
    ensures OpenQty(b, id) == n <==>
      if Live(b, id) then exists s, i :: 0 <= i < |b.At(s)| && b.At(s)[i].id == id && b.At(s)[i].qty == n else n == 0
  {
    LiveIs(b, id);
    if Live(b, id) {
      var s, i :| 0 <= i < |b.At(s)| && b.At(s)[i].id == id;
      StandsAt(b, s, i);
      hide Good;
      forall x, j | 0 <= j < |b.At(x)| && b.At(x)[j].id == id ensures x == s && j == i {
        SamePlace(b, id, s, i, x, j);
      }
    }
  }

  /** The number of open orders is the number of live ids. */
  lemma {:induction false} OpenOrdersAre(b: Book)
    requires Good(b)
    ensures OpenOrders(b) == |Ids(b.bids) + Ids(b.asks)|
    ensures forall id :: id in Ids(b.bids) + Ids(b.asks) <==> Live(b, id)
  {
    CountIds(b.bids);
    CountIds(b.asks);
    forall id ensures id in Ids(b.bids) + Ids(b.asks) <==> Live(b, id) {
      LiveIs(b, id);
      LocateIds(b, id);
    }
    hide Ids, Live, Book.Locate;
  }

  lemma {:induction false} CountIds(q: Queue)
    requires Distinct(q)
    ensures |Ids(q)| == |q|
  {
    if q != [] {
      var rest := q[1..];
      assert forall i, j :: 0 <= i < j < |rest| ==> rest[i].id != rest[j].id;
      CountIds(rest);
      assert Ids(q) == Ids(rest) + {q[0].id} by {
        assert forall i :: 0 <= i < |rest| ==> rest[i] == q[i + 1];
      }
      assert q[0].id !in Ids(rest);
    }
  }
}
