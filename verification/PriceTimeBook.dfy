/** The meaning of the matching engine: a book is two priority queues, each listed best price
    first and oldest first within a price, and every operation is a function of that list. */
module PriceTimeBook {
  import opened Types

  datatype Resting = Resting(id: OrderId, participant: ParticipantId, price: Price, qty: Qty)

  type Queue = seq<Resting>

  datatype Book = Book(bids: Queue, asks: Queue) {
    function At(s: Side): Queue {
      if s.Bid? then bids else asks
    }

    function With(s: Side, q: Queue): Book {
      if s.Bid? then Book(q, asks) else Book(bids, q)
    }

    /** The side on which `id` rests, if it is live. */
    function Locate(id: OrderId): Option<Side> {
      if Has(bids, id) then Some(Bid) else if Has(asks, id) then Some(Ask) else None
    }
  }

  const EmptyBook := Book([], [])

  /** An incoming order: market orders ignore `price`. */
  datatype Taker = Taker(id: OrderId, participant: ParticipantId, side: Side, price: Price, market: bool)

  predicate Crosses(t: Taker, makerPrice: Price) {
    t.market || !Better(t.side, makerPrice, t.price)
  }

  // ---- queue operations ----

  function Ids(q: Queue): set<OrderId> {
    set i | 0 <= i < |q| :: q[i].id
  }

  ghost predicate Distinct(q: Queue) {
    forall i, j :: 0 <= i < j < |q| ==> q[i].id != q[j].id
  }

  function Total(q: Queue): Qty {
    if q == [] then 0 else q[0].qty + Total(q[1..])
  }

  predicate Has(q: Queue, id: OrderId) {
    exists i :: 0 <= i < |q| && q[i].id == id
  }

  function IndexOf(q: Queue, id: OrderId): (i: nat)
    requires Has(q, id)
    ensures i < |q| && q[i].id == id
    ensures forall k :: 0 <= k < i ==> q[k].id != id
  {
    if q[0].id == id then 0 else
      assert Has(q[1..], id) by {
        var k :| 0 <= k < |q| && q[k].id == id;
        assert q[1..][k - 1].id == id;
      }
      1 + IndexOf(q[1..], id)
  }

  function Lookup(q: Queue, id: OrderId): Resting
    requires Has(q, id)
  {
    q[IndexOf(q, id)]
  }

  function Remove(q: Queue, id: OrderId): Queue
    requires Has(q, id)
  {
    var i := IndexOf(q, id);
    q[..i] + q[i + 1..]
  }

  /** The quantity change that keeps the order where it stands. */
  function Resize(q: Queue, id: OrderId, qty: Qty): Queue
    requires Has(q, id)
  {
    var i := IndexOf(q, id);
    q[i := q[i].(qty := qty)]
  }

  /** Joins behind everything whose price is at least as good. */
  function Insert(s: Side, q: Queue, o: Resting): Queue {
    if q == [] || Better(s, o.price, q[0].price) then [o] + q
    else [q[0]] + Insert(s, q[1..], o)
  }

  // ---- matching ----

  datatype Matched = Matched(rem: Qty, queue: Queue, events: seq<Event>)

  function Prepend(e: Event, r: Matched): Matched {
    r.(events := [e] + r.events)
  }

  /** A sweep whose first events were `log`. */
  function After(log: seq<Event>, r: Matched): Matched {
    r.(events := log + r.events)
  }

  predicate SelfTrade(stp: StpPolicy, t: Taker, maker: Resting) {
    maker.participant == t.participant && stp != Allow
  }

  lemma {:induction false} AfterAfter(a: seq<Event>, b: seq<Event>, r: Matched)
    ensures After(a, After(b, r)) == After(a + b, r)
  {
    assert a + (b + r.events) == a + b + r.events;
  }

  /** Sweep the opposite queue `q` with `rem` units left of taker `t`. */
  function Match(stp: StpPolicy, t: Taker, rem: Qty, q: Queue): Matched
    decreases |q|
  {
    if rem == 0 || q == [] || !Crosses(t, q[0].price) then
      Matched(rem, q, [])
    else if SelfTrade(stp, t, q[0]) then
      if stp == CancelIncoming then
        Matched(0, q, [Cancelled(t.id, SelfTradePrevention)])
      else
        Prepend(Cancelled(q[0].id, SelfTradePrevention), Match(stp, t, rem, q[1..]))
    else
      var fill := Min(rem, q[0].qty);
      var e := Traded(t.id, q[0].id, q[0].price, fill, t.side);
      if fill == q[0].qty then
        Prepend(e, Match(stp, t, rem - fill, q[1..]))
      else
        Matched(0, [q[0].(qty := q[0].qty - fill)] + q[1..], [e])
  }

  /** Part of a sweep of `q` with `rem` units: `log` was emitted, `left` units and `q'` remain, or
      the taker is dead. */
  ghost predicate Advances(stp: StpPolicy, t: Taker, rem: Qty, q: Queue, left: Qty, q': Queue, dead: bool, log: seq<Event>) {
    Match(stp, t, rem, q) == if dead then Matched(0, q', log) else After(log, Match(stp, t, left, q'))
  }

  lemma {:induction false} AdvancesTrans(stp: StpPolicy, t: Taker, a: Qty, q: Queue, b: Qty, q': Queue, log: seq<Event>,
                      c: Qty, q'': Queue, dead: bool, log': seq<Event>)
    requires Advances(stp, t, a, q, b, q', false, log) && Advances(stp, t, b, q', c, q'', dead, log')
    ensures Advances(stp, t, a, q, c, q'', dead, log + log')
  {
    AfterAfter(log, log', Match(stp, t, c, q''));
  }

  /** A part that ends the sweep is the sweep. */
  lemma {:induction false} AdvancesEnd(stp: StpPolicy, t: Taker, a: Qty, q: Queue, b: Qty, q': Queue, dead: bool, log: seq<Event>)
    requires Advances(stp, t, a, q, b, q', dead, log)
    requires dead || b == 0 || q' == [] || !Crosses(t, q'[0].price)
    ensures Match(stp, t, a, q) == Matched(if dead then 0 else b, q', log)
  {
  }

  lemma {:induction false} AdvancesNil(stp: StpPolicy, t: Taker, a: Qty, q: Queue)
    ensures Advances(stp, t, a, q, a, q, false, [])
  {
    var r := Match(stp, t, a, q);
    assert [] + r.events == r.events;
  }

  lemma {:induction false} MatchNone(stp: StpPolicy, t: Taker, rem: Qty, q: Queue)
    requires rem == 0 || q == [] || !Crosses(t, q[0].price)
    ensures Match(stp, t, rem, q) == Matched(rem, q, [])
  {
  }

  /** A sweep, seen as what the taker does to the head and then a sweep of what that leaves. */
  lemma {:induction false} MatchHead(stp: StpPolicy, t: Taker, rem: Qty, q: Queue)
    requires rem > 0 && q != [] && Crosses(t, q[0].price)
    ensures var r, fill := Match(stp, t, rem, q), Min(rem, q[0].qty);
      if SelfTrade(stp, t, q[0]) && stp == CancelIncoming then
        r == Matched(0, q, [Cancelled(t.id, SelfTradePrevention)])
      else if SelfTrade(stp, t, q[0]) then
        r == After([Cancelled(q[0].id, SelfTradePrevention)], Match(stp, t, rem, q[1..]))
      else
        var q' := if fill == q[0].qty then q[1..] else [q[0].(qty := q[0].qty - fill)] + q[1..];
        r == After([Traded(t.id, q[0].id, q[0].price, fill, t.side)], Match(stp, t, rem - fill, q'))
  {
  }

  /** The queue after its head is filled for as much of `rem` as it has. */
  function FilledFront(rem: Qty, q: Queue): Queue
    requires q != []
  {
    if rem < q[0].qty then [q[0].(qty := q[0].qty - rem)] + q[1..] else q[1..]
  }

  /** What one order at the head of `q` makes of the taker and of `q`. */
  datatype Turn = Turn(left: Qty, queue: Queue, dead: bool, log: seq<Event>)

  function FrontTurn(stp: StpPolicy, t: Taker, rem: Qty, q: Queue): Turn
    requires q != []
  {
    if SelfTrade(stp, t, q[0]) then
      if stp == CancelIncoming then Turn(0, q, true, [Cancelled(t.id, SelfTradePrevention)])
      else Turn(rem, q[1..], false, [Cancelled(q[0].id, SelfTradePrevention)])
    else
      var fill := Min(rem, q[0].qty);
      Turn(rem - fill, FilledFront(rem, q), false, [Traded(t.id, q[0].id, q[0].price, fill, t.side)])
  }

  /** One turn of the matching loop is a part of the sweep, and brings its end nearer. */
  lemma {:induction false} FrontAdvances(stp: StpPolicy, t: Taker, rem: Qty, q: Queue)
    requires rem > 0 && q != [] && Crosses(t, q[0].price)
    ensures var u := FrontTurn(stp, t, rem, q);
      && Advances(stp, t, rem, q, u.left, u.queue, u.dead, u.log)
      && (u.dead || |u.queue| + u.left < |q| + rem)
  {
    MatchHead(stp, t, rem, q);
    hide Match;
  }

  // ---- operations ----

  datatype Outcome = Outcome(book: Book, events: seq<Event>, ok: bool)

  function Reject(b: Book, id: OrderId, why: RejectReason): Outcome {
    Outcome(b, [Rejected(id, why)], false)
  }

  /** Match `t` for `qty`; returns the book without the remainder. */
  function Sweep(stp: StpPolicy, b: Book, t: Taker, qty: Qty): (Qty, Book, seq<Event>) {
    var r := Match(stp, t, qty, b.At(t.side.Opposite()));
    (r.rem, b.With(t.side.Opposite(), r.queue), r.events)
  }

  function Rest(b: Book, t: Taker, qty: Qty): Book {
    b.With(t.side, Insert(t.side, b.At(t.side), Resting(t.id, t.participant, t.price, qty)))
  }

  function SubmitLimit(stp: StpPolicy, b: Book, t: Taker, qty: Qty, tif: TimeInForce): Outcome {
    if qty == 0 then Reject(b, t.id, ZeroQty)
    else if b.Locate(t.id).Some? then Reject(b, t.id, DuplicateOrderId)
    else
      var (rem, b1, ev) := Sweep(stp, b, t, qty);
      var log := [Accepted(t.id, t.side, t.price, qty)] + ev;
      if rem == 0 then Outcome(b1, log, true)
      else if tif.IOC? then Outcome(b1, log + [Cancelled(t.id, IocRemainder)], true)
      else Outcome(Rest(b1, t, rem), log, true)
  }

  function SubmitMarket(stp: StpPolicy, b: Book, t: Taker, qty: Qty): Outcome {
    if qty == 0 then Reject(b, t.id, ZeroQty)
    else if b.Locate(t.id).Some? then Reject(b, t.id, DuplicateOrderId)
    else
      var (rem, b1, ev) := Sweep(stp, b, t, qty);
      var log := [Accepted(t.id, t.side, 0, qty)] + ev;
      if rem == 0 then Outcome(b1, log, true)
      else Outcome(b1, log + [Cancelled(t.id, MarketRemainder)], true)
  }

  function CancelOrder(b: Book, id: OrderId): Outcome {
    match b.Locate(id)
    case None => Reject(b, id, UnknownOrderId)
    case Some(s) => Outcome(b.With(s, Remove(b.At(s), id)), [Cancelled(id, User)], true)
  }

  /** Whether a modify of `o` keeps its place in the queue. */
  predicate KeepsPriority(o: Resting, price: Price, qty: Qty) {
    price == o.price && qty <= o.qty
  }

  function ModifyOrder(stp: StpPolicy, b: Book, id: OrderId, price: Price, qty: Qty): Outcome {
    match b.Locate(id)
    case None => Reject(b, id, UnknownOrderId)
    case Some(s) =>
      var o := Lookup(b.At(s), id);
      if qty == 0 then CancelOrder(b, id)
      else if KeepsPriority(o, price, qty) then
        Outcome(b.With(s, Resize(b.At(s), id, qty)), [], true)
      else
        var t := Taker(id, o.participant, s, price, false);
        var (rem, b1, ev) := Sweep(stp, b.With(s, Remove(b.At(s), id)), t, qty);
        Outcome(if rem == 0 then b1 else Rest(b1, t, rem), ev, true)
  }

  function Step(stp: StpPolicy, b: Book, m: Message): Outcome {
    match m
    case AddLimit(id, participant, side, price, qty, tif) =>
      SubmitLimit(stp, b, Taker(id, participant, side, price, false), qty, tif)
    case AddMarket(id, participant, side, qty) =>
      SubmitMarket(stp, b, Taker(id, participant, side, 0, true), qty)
    case Cancel(id) => CancelOrder(b, id)
    case Modify(id, price, qty) => ModifyOrder(stp, b, id, price, qty)
  }

  /** The book and the whole event log after a message stream. */
  function Run(stp: StpPolicy, b: Book, ms: seq<Message>): (Book, seq<Event>)
    decreases |ms|
  {
    if ms == [] then (b, [])
    else
      var (b', ev) := Run(stp, b, ms[..|ms| - 1]);
      var o := Step(stp, b', ms[|ms| - 1]);
      (o.book, ev + o.events)
  }

  // ---- queries ----

  function Depth(q: Queue, price: Price): Qty {
    if q == [] then 0
    else (if q[0].price == price then q[0].qty else 0) + Depth(q[1..], price)
  }

  /** Price and total quantity at the touch. */
  function Best(q: Queue): Option<(Price, Qty)> {
    if q == [] then None else Some((q[0].price, Depth(q, q[0].price)))
  }

  function OpenQty(b: Book, id: OrderId): Qty {
    match b.Locate(id)
    case None => 0
    case Some(s) => Lookup(b.At(s), id).qty
  }

  function OpenOrders(b: Book): nat {
    |b.bids| + |b.asks|
  }
}
