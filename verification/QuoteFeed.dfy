/** A virtual quote beside the real order it stands for: the one sees what the exchange prints and
    shows without the order, the other is in the book. Without cancellations they are filled alike, to
    the exact extent stated here. */
module QuoteFeeds {
  import opened Types
  import opened PriceTimeBook
  import opened QueueLemmas
  import Ladders
  import opened BookInvariants
  import opened QuoteSim
  import opened QuoteRuns
  import opened QuoteQueue
  import opened QuoteFifos

  // ---- what the exchange reports ----

  /** When a message's reports come, and whether the level is shown after it: it may be once for many
      messages. */
  datatype Stamp = Stamp(ts: int, mid2: Price, shown: bool)

  function PrintOf(side: Side, e: Event, stamp: Stamp): seq<QuoteEvent> {
    if e.Traded? then [Print(TradePrint(stamp.ts, e.price, e.qty, side.Bid?), stamp.mid2)] else []
  }

  /** One print per trade. */
  function Prints(side: Side, log: seq<Event>, stamp: Stamp): seq<QuoteEvent> {
    if log == [] then [] else PrintOf(side, log[0], stamp) + Prints(side, log[1..], stamp)
  }

  function Shown(stamp: Stamp, qty: Qty): seq<QuoteEvent> {
    if stamp.shown then [QuoteEvent.Level(qty)] else []
  }

  /** What a message makes the exchange report: its trades, and then, if it is shown, the level. */
  function Reported(x: Book, side: Side, price: Price, f: Flow, stamp: Stamp): seq<QuoteEvent> {
    var o := Step(Allow, x, MessageOf(side, price, f));
    Prints(side, o.events, stamp) + Shown(stamp, Depth(o.book.At(side), price))
  }

  /** The reports of a flow; `clock` stamps them and says after which messages the level is shown. */
  function Feed(x: Book, side: Side, price: Price, flow: seq<Flow>, clock: nat -> Stamp): seq<QuoteEvent>
    decreases |flow|
  {
    if flow == [] then []
    else
      var n := |flow| - 1;
      Feed(x, side, price, flow[..n], clock)
      + Reported(Run(Allow, x, Messages(side, price, flow[..n])).0, side, price, flow[n], clock(n))
  }

  /** The quote after the reports of a flow. */
  function QuoteAfter(q: VirtualQuote, x: Book, flow: seq<Flow>, clock: nat -> Stamp): VirtualQuote {
    RunQuote(Prorated, q, Feed(x, q.side, q.price, flow, clock)).quote
  }

  /** Every fill it was given by then. */
  function FillsGiven(q: VirtualQuote, x: Book, flow: seq<Flow>, clock: nat -> Stamp): seq<Fill> {
    RunQuote(Prorated, q, Feed(x, q.side, q.price, flow, clock)).fills
  }

  /** The units the quote is filled on each message of the flow. */
  function QuoteFills(q: VirtualQuote, x: Book, flow: seq<Flow>, clock: nat -> Stamp): seq<Qty>
    decreases |flow|
  {
    if flow == [] then []
    else
      var n := |flow| - 1;
      var x' := Run(Allow, x, Messages(q.side, q.price, flow[..n])).0;
      QuoteFills(q, x, flow[..n], clock)
      + [TotalFilled(RunQuote(Prorated, QuoteAfter(q, x, flow[..n], clock), Reported(x', q.side, q.price, flow[n], clock(n))).fills)]
  }

  /** The units the real order `me` is filled by each message. */
  function OrderFills(b: Book, side: Side, price: Price, me: OrderId, flow: seq<Flow>): seq<Qty>
    decreases |flow|
  {
    if flow == [] then []
    else
      var n := |flow| - 1;
      var b' := Run(Allow, b, Messages(side, price, flow[..n])).0;
      OrderFills(b, side, price, me, flow[..n])
      + [Sum(FillsOf(Step(Allow, b', MessageOf(side, price, flow[n])).events, me))]
  }

  // ---- when the two agree ----

  function Joined(flow: seq<Flow>): Qty
    decreases |flow|
  {
    if flow == [] then 0
    else Joined(flow[..|flow| - 1]) + JoinedOf(flow[|flow| - 1])
  }

  function JoinedOf(f: Flow): Qty {
    if f.Joins? then f.qty else 0
  }

  /** Having volume `v` and `j` units of newcomers behind it, an aggressor of `n` units wants more than
      the level shows. */
  predicate Outruns(l: Qty, v: Qty, j: Qty, n: Qty) {
    v + n > l + j
  }

  /** An aggressor that outruns the level does no harm if the order is filled by then, or is so by what
      the level shows, or if worse prices trade and enough was wanted to fill it. */
  predicate Agrees(l: Qty, size: Qty, tail: Queue, v: Qty, j: Qty, f: Flow) {
    f.Trades? && Outruns(l, v, j, f.qty) ==>
      v >= l + size || j >= size || (f.market && tail != [] && v + f.qty >= l + size)
  }

  predicate AllAgree(l: Qty, size: Qty, tail: Queue, flow: seq<Flow>) {
    forall k :: 0 <= k < |flow| ==> Agrees(l, size, tail, Volume(flow[..k]), Joined(flow[..k]), flow[k])
  }

  // ---- runs of the quote ----

  /** One event and then the others. */
  lemma {:induction false} RunHead(q: VirtualQuote, es: seq<QuoteEvent>)
    requires es != []
    ensures RunQuote(Prorated, q, es).quote == RunQuote(Prorated, OnEvent(Prorated, q, es[0]).quote, es[1..]).quote
    ensures RunQuote(Prorated, q, es).fills
         == OnEvent(Prorated, q, es[0]).fills + RunQuote(Prorated, OnEvent(Prorated, q, es[0]).quote, es[1..]).fills
  {
    var e := es[0];
    assert [e][..0] == [] && RunQuote(Prorated, q, []) == Effect(q, []);
    assert RunQuote(Prorated, q, [e]) == Effect(OnEvent(Prorated, q, e).quote, [] + OnEvent(Prorated, q, e).fills);
    assert [] + OnEvent(Prorated, q, e).fills == OnEvent(Prorated, q, e).fills;
    RunConcat(Prorated, q, [e], es[1..]);
    assert [e] + es[1..] == es;
  }

  /** Prints at one price. */
  ghost predicate PrintsAt(es: seq<QuoteEvent>, price: Price) {
    forall i :: 0 <= i < |es| ==> es[i].Print? && es[i].trade.price == price
  }

  /** What is known of a level after prints of `n` units. */
  function Less(known: Qty, n: Qty): Qty {
    if n >= known then 0 else known - n
  }

  lemma {:induction false} KnownPrints(price: Price, known: Qty, es: seq<QuoteEvent>)
    requires PrintsAt(es, price)
    ensures Known(price, known, es) == Less(known, VolumeAt(price, es))
    decreases |es|
  {
    if es != [] {
      assert forall i :: 0 <= i < |es| - 1 ==> es[..|es| - 1][i] == es[i];
      KnownPrints(price, known, es[..|es| - 1]);
    }
  }

  /** A report of trades at the price and then perhaps of the level is a mix without shrinkage. */
  lemma {:induction false} ReportGrows(side: Side, price: Price, known: Qty, es: seq<QuoteEvent>, stamp: Stamp, n: Qty)
    requires PrintsAt(es, price) && n >= Less(known, VolumeAt(price, es))
    ensures var all := es + Shown(stamp, n);
      && GrowthOnly(side, price, known, all) && VolumeAt(price, all) == VolumeAt(price, es)
      && Known(price, known, all) <= n && (stamp.shown ==> Known(price, known, all) == n)
  {
    var all := es + Shown(stamp, n);
    KnownPrints(price, known, es);
    hide Less;
    if stamp.shown {
      assert all[..|es|] == es && all[|es|] == QuoteEvent.Level(n);
    } else {
      assert all == es;
    }
    hide Known, VolumeAt;
    forall k | 0 <= k < |all| ensures Grows(side, price, Known(price, known, all[..k]), all[k]) {
      if k < |es| {
        assert all[k] == es[k];
      } else {
        assert all[..k] == es;
      }
    }
  }

  /** Such a report serves the quote first come, first served, whatever is known of the level. */
  lemma {:induction false} ReportServes(now: VirtualQuote, side: Side, price: Price, open: Qty, a: Qty, es: seq<QuoteEvent>,
          stamp: Stamp, n: Qty)
    requires Waits(now, side, price, open, a) && PrintsAt(es, price) && n >= Less(now.levelQtySeen, VolumeAt(price, es))
    ensures var r, v := RunQuote(Prorated, now, es + Shown(stamp, n)), VolumeAt(price, es);
      && Served(r.quote, side, price, open, a, v) && NoneEmpty(r.fills)
      && (FifoFill(open, a, v) < open ==> r.quote.levelQtySeen <= n)
  {
    hide *;
    var all := es + Shown(stamp, n);
    ReportGrows(side, price, now.levelQtySeen, es, stamp, n);
    MixServes(Prorated, now, side, price, open, a, all);
    SharesTotal(open, a, PrintedAt(price, all));
    EachPositive(RunQuote(Prorated, now, all).fills);
  }

  ghost predicate PrintsThrough(es: seq<QuoteEvent>, side: Side, price: Price) {
    forall i :: 0 <= i < |es| ==> es[i].Print? && Better(side, price, es[i].trade.price)
  }

  /** A print through the price fills all. */
  lemma {:induction false} ThroughFills(q: VirtualQuote, side: Side, price: Price, open: Qty, a: Qty, es: seq<QuoteEvent>)
    requires Waits(q, side, price, open, a) && PrintsThrough(es, side, price) && es != []
    ensures Done(RunQuote(Prorated, q, es).quote) && NoneEmpty(RunQuote(Prorated, q, es).fills)
  {
    RunHead(q, es);
    EventSound(Prorated, q, es[0]);
    hide RunQuote;
    StaysDone(Prorated, OnEvent(Prorated, q, es[0]).quote, es[1..]);
  }

  // ---- what the exchange does ----

  lemma {:induction false} PrintsOne(side: Side, e: Event, es: seq<Event>, stamp: Stamp)
    ensures Prints(side, [e] + es, stamp) == PrintOf(side, e, stamp) + Prints(side, es, stamp)
    ensures Prints(side, [e], stamp) == PrintOf(side, e, stamp)
  {
    assert ([e] + es)[1..] == es && [e][1..] == [];
    assert Prints(side, [], stamp) == [];
  }

  lemma {:induction false} PrintsConcat(side: Side, a: seq<Event>, b: seq<Event>, stamp: Stamp)
    ensures Prints(side, a + b, stamp) == Prints(side, a, stamp) + Prints(side, b, stamp)
  {
    if a == [] {
      assert a + b == b;
    } else {
      hide *;
      PrintsConcat(side, a[1..], b, stamp);
      assert a == [a[0]] + a[1..] && a + b == [a[0]] + (a[1..] + b);
      PrintsOne(side, a[0], a[1..], stamp);
      PrintsOne(side, a[0], a[1..] + b, stamp);
      Regroup(PrintOf(side, a[0], stamp), Prints(side, a[1..], stamp), Prints(side, b, stamp));
    }
  }

  lemma {:induction false} VolumeConcat(price: Price, a: seq<QuoteEvent>, b: seq<QuoteEvent>)
    ensures VolumeAt(price, a + b) == VolumeAt(price, a) + VolumeAt(price, b)
    decreases |b|
  {
    if b == [] {
      assert a + b == a;
    } else {
      VolumeConcat(price, a, b[..|b| - 1]);
      assert (a + b)[..|a + b| - 1] == a + b[..|b| - 1];
    }
  }

  /** What a sweep of the level `q` for `v` units leaves and prints: it takes them as far as they go,
      all at its price. */
  ghost predicate Swept(side: Side, r: Matched, v: Qty, q: Queue, price: Price, stamp: Stamp) {
    var n := if v < Total(q) then v else Total(q);
    && r.rem == v - n && Total(r.queue) == Total(q) - n && OnePrice(r.queue, price)
    && PrintsAt(Prints(side, r.events, stamp), price) && VolumeAt(price, Prints(side, r.events, stamp)) == n
  }

  lemma {:induction false} LevelSwept(side: Side, t: Taker, v: Qty, q: Queue, price: Price, stamp: Stamp)
    requires OnePrice(q, price) && Crosses(t, price)
    ensures Swept(side, Match(Allow, t, v, q), v, q, price, stamp)
    decreases |q|
  {
    if v == 0 || q == [] {
      MatchNone(Allow, t, v, q);
    } else {
      MatchHead(Allow, t, v, q);
      assert OnePrice(q[1..], price);
      var fill := Min(v, q[0].qty);
      var e := Traded(t.id, q[0].id, q[0].price, fill, t.side);
      if v >= q[0].qty {
        hide Match, Swept, Crosses, SelfTrade;
        LevelSwept(side, t, v - fill, q[1..], price, stamp);
        SweptPass(side, Match(Allow, t, v - fill, q[1..]), e, v, q, price, stamp);
      } else {
        MatchNone(Allow, t, 0, [q[0].(qty := q[0].qty - v)] + q[1..]);
        hide Match, Swept, Crosses, SelfTrade;
        SweptCut(side, e, v, q, price, stamp);
        assert [e] + [] == [e];
      }
    }
  }

  lemma {:induction false} SweptPass(side: Side, r: Matched, e: Event, v: Qty, q: Queue, price: Price, stamp: Stamp)
    requires OnePrice(q, price) && q != [] && v >= q[0].qty && Swept(side, r, v - q[0].qty, q[1..], price, stamp)
    requires e.Traded? && e.price == price && e.qty == q[0].qty
    ensures Swept(side, After([e], r), v, q, price, stamp)
  {
    PrintsOne(side, e, r.events, stamp);
    VolumeConcat(price, PrintOf(side, e, stamp), Prints(side, r.events, stamp));
    hide OnePrice, Prints;
    assert PrintOf(side, e, stamp)[..0] == [] && VolumeAt(price, []) == 0;
  }

  lemma {:induction false} SweptCut(side: Side, e: Event, v: Qty, q: Queue, price: Price, stamp: Stamp)
    requires OnePrice(q, price) && q != [] && v < q[0].qty && e.Traded? && e.price == price && e.qty == v
    ensures Swept(side, Matched(0, [q[0].(qty := q[0].qty - v)] + q[1..], [e]), v, q, price, stamp)
  {
    PrintsOne(side, e, [], stamp);
    hide Prints;
    var p, q' := PrintOf(side, e, stamp), [q[0].(qty := q[0].qty - v)] + q[1..];
    assert p[..0] == [] && VolumeAt(price, []) == 0 && VolumeAt(price, p) == v;
    assert q'[1..] == q[1..] && Total(q') == Total(q) - v;
    forall i | 0 <= i < |q'| ensures q'[i].price == price {
      assert i > 0 ==> q'[i] == q[i];
    }
  }

  lemma {:induction false} SweptWithin(side: Side, r: Matched, v: Qty, q: Queue, price: Price, stamp: Stamp)
    requires Swept(side, r, v, q, price, stamp)
    ensures var es := Prints(side, r.events, stamp);
      && OnePrice(r.queue, price) && PrintsAt(es, price)
      && if v <= Total(q) then r.rem == 0 && Total(r.queue) == Total(q) - v && VolumeAt(price, es) == v
         else r.rem == v - Total(q) && Total(r.queue) == 0 && VolumeAt(price, es) == Total(q)
  {
    hide OnePrice, PrintsAt, Prints, VolumeAt, Total;
  }

  /** Behind the level only a market order trades, and what it trades is printed through the price. */
  lemma {:induction false} TailPrints(side: Side, t: Taker, v: Qty, tail: Queue, price: Price, stamp: Stamp)
    requires t.side == side.Opposite() && (t.market || t.price == price)
    requires forall i :: 0 <= i < |tail| ==> Better(side, price, tail[i].price)
    ensures var es := Prints(side, Match(Allow, t, v, tail).events, stamp);
      PrintsThrough(es, side, price) && (es == [] <==> v == 0 || tail == [] || !t.market)
    decreases |tail|
  {
    if v == 0 || tail == [] || !t.market {
      MatchNone(Allow, t, v, tail);
    } else {
      MatchHead(Allow, t, v, tail);
      var n, rest := tail[0].qty, tail[1..];
      var e := Traded(t.id, tail[0].id, tail[0].price, Min(v, n), t.side);
      hide Match, Prints, PrintOf, PrintsThrough;
      if v >= n {
        TailPrints(side, t, v - n, rest, price, stamp);
        ThroughHead(side, e, Match(Allow, t, v - n, rest).events, price, stamp);
      } else {
        MatchNone(Allow, t, 0, [tail[0].(qty := n - v)] + rest);
        ThroughHead(side, e, [], price, stamp);
      }
    }
  }

  lemma {:induction false} ThroughHead(side: Side, e: Event, es: seq<Event>, price: Price, stamp: Stamp)
    requires e.Traded? && Better(side, price, e.price) && (es == [] || PrintsThrough(Prints(side, es, stamp), side, price))
    ensures Prints(side, [e] + es, stamp) != [] && PrintsThrough(Prints(side, [e] + es, stamp), side, price)
  {
    PrintsOne(side, e, es, stamp);
    NoPrints(side, stamp);
    hide Prints;
  }

  function TakerOf(side: Side, price: Price, f: Flow): Taker
    requires f.Trades?
  {
    Taker(f.id, f.participant, side.Opposite(), if f.market then 0 else price, f.market)
  }

  lemma {:induction false} SweepLogged(x: Book, side: Side, price: Price, f: Flow)
    requires f.Trades? && f.qty > 0 && x.Locate(f.id) == None
    ensures var o, t := Step(Allow, x, MessageOf(side, price, f)), TakerOf(side, price, f);
      var r := Match(Allow, t, f.qty, x.At(side));
      var log := [Accepted(t.id, t.side, t.price, f.qty)] + r.events;
      && o.book == x.With(side, r.queue)
      && (o.events == log || o.events == log + [Cancelled(t.id, if f.market then MarketRemainder else IocRemainder)])
  {
    hide Match, Book.Locate;
    assert side.Opposite().Opposite() == side;
  }

  lemma {:induction false} PrintsFramed(side: Side, head: Event, es: seq<Event>, last: Event, stamp: Stamp)
    requires !head.Traded? && !last.Traded?
    ensures Prints(side, [head] + es, stamp) == Prints(side, es, stamp) == Prints(side, [head] + es + [last], stamp)
  {
    PrintsOne(side, head, es, stamp);
    PrintsConcat(side, [head] + es, [last], stamp);
    PrintsOne(side, last, [], stamp);
    hide Prints;
  }

  /** An aggressor's reports are the prints of its sweep. */
  lemma {:induction false} SweepReported(x: Book, side: Side, price: Price, f: Flow, stamp: Stamp)
    requires f.Trades? && f.qty > 0 && x.Locate(f.id) == None
    ensures var o, r := Step(Allow, x, MessageOf(side, price, f)), Match(Allow, TakerOf(side, price, f), f.qty, x.At(side));
      o.book == x.With(side, r.queue) && Prints(side, o.events, stamp) == Prints(side, r.events, stamp)
  {
    hide *;
    var t := TakerOf(side, price, f);
    SweepLogged(x, side, price, f);
    PrintsFramed(side, Accepted(t.id, t.side, t.price, f.qty), Match(Allow, t, f.qty, x.At(side)).events,
      Cancelled(t.id, if f.market then MarketRemainder else IocRemainder), stamp);
  }

  /** An aggressor takes the level first and then, if it may, what is behind it. */
  lemma {:induction false} TradeReported(x: Book, side: Side, price: Price, q: Queue, tail: Queue, me: OrderId, f: Flow, stamp: Stamp)
    requires Around(x, side, price, q, tail, me) && OnePrice(q, price)
    requires f.Trades? && f.qty > 0 && x.Locate(f.id) == None
    ensures var t := TakerOf(side, price, f);
      var r := Match(Allow, t, f.qty, q);
      var r' := Match(Allow, t, r.rem, tail);
      var o := Step(Allow, x, MessageOf(side, price, f));
      && Crosses(t, price)
      && o.book == x.With(side, r.queue + r'.queue)
      && Prints(side, o.events, stamp) == Prints(side, r.events, stamp) + Prints(side, r'.events, stamp)
  {
    var t := TakerOf(side, price, f);
    AtPrice(side, price, t);
    SweepBoth(t, f.qty, q, tail, price);
    SweepReported(x, side, price, f, stamp);
    var r := Match(Allow, t, f.qty, q);
    PrintsConcat(side, r.events, Match(Allow, t, r.rem, tail).events, stamp);
    hide *;
  }

  /** A newcomer, or a message of no units, prints nothing. */
  lemma {:induction false} QuietReported(x: Book, side: Side, price: Price, q: Queue, tail: Queue, me: OrderId, f: Flow, stamp: Stamp)
    requires Around(x, side, price, q, tail, me) && OnePrice(q, price) && x.Locate(f.id) == None
    requires f.Joins? || f.qty == 0
    ensures var o := Step(Allow, x, MessageOf(side, price, f));
      var q' := if f.qty == 0 then q else q + [Resting(f.id, f.participant, price, f.qty)];
      && Around(o.book, side, price, q', tail, me) && OnePrice(q', price) && Total(q') == Total(q) + JoinedOf(f)
      && Prints(side, o.events, stamp) == []
  {
    hide Step, Around, OnePrice, Prints, Book.Locate;
    if f.qty == 0 {
      NothingStep(x, side, price, f, me);
      NothingReported(x, side, price, f, stamp);
    } else {
      var o := Resting(f.id, f.participant, price, f.qty);
      AroundClear(x, side, price, q, tail, me);
      JoinStep(x, side, price, q, tail, me, f);
      NewcomerReported(x, side, price, f, stamp);
      JoinsLevel(q, price, o);
    }
  }

  lemma {:induction false} JoinsLevel(q: Queue, price: Price, o: Resting)
    requires OnePrice(q, price) && o.price == price
    ensures OnePrice(q + [o], price) && Total(q + [o]) == Total(q) + o.qty
  {
    TotalSplit(q, [o]);
    assert [o][1..] == [];
  }

  lemma {:induction false} AroundClear(x: Book, side: Side, price: Price, q: Queue, tail: Queue, me: OrderId)
    requires Around(x, side, price, q, tail, me)
    ensures forall j :: 0 <= j < |x.At(side.Opposite())| ==> Better(side, x.At(side.Opposite())[j].price, price)
  {
  }

  lemma {:induction false} NothingReported(x: Book, side: Side, price: Price, f: Flow, stamp: Stamp)
    requires f.qty == 0
    ensures Prints(side, Step(Allow, x, MessageOf(side, price, f)).events, stamp) == []
  {
    PrintsOne(side, Rejected(f.id, ZeroQty), [], stamp);
    hide Prints, Match, Insert, Book.Locate;
  }

  lemma {:induction false} NewcomerReported(x: Book, side: Side, price: Price, f: Flow, stamp: Stamp)
    requires f.Joins? && f.qty > 0 && x.Locate(f.id) == None
    requires forall j :: 0 <= j < |x.At(side.Opposite())| ==> Better(side, x.At(side.Opposite())[j].price, price)
    ensures Prints(side, Step(Allow, x, MessageOf(side, price, f)).events, stamp) == []
  {
    var e := Accepted(f.id, side, price, f.qty);
    MatchNone(Allow, Taker(f.id, f.participant, side, price, false), f.qty, x.At(side.Opposite()));
    PrintsOne(side, e, [], stamp);
    assert [e] + [] == [e];
    hide Prints, Match, Insert, Book.Locate;
  }

  /** The depth shown at the price is the total of the level. */
  lemma {:induction false} LevelShown(x: Book, side: Side, price: Price, q: Queue, tail: Queue)
    requires x.At(side) == q + tail && OnePrice(q, price)
    requires forall i :: 0 <= i < |tail| ==> Better(side, price, tail[i].price)
    ensures Depth(x.At(side), price) == Total(q)
  {
    DepthSplit(q, tail, price);
    Ladders.DepthAlone(q, price);
    Ladders.DepthElsewhere(tail, price);
  }

  // ---- one message, seen from both sides ----

  /** After volume `v` and newcomers `j`: the exchange's level is what is left of both, the quote has
      seen no more than that of it, and it has had its share of the volume; or it is filled. */
  ghost predicate Keeps(x: Book, now: VirtualQuote, side: Side, price: Price, me: OrderId, size: Qty, l: Qty,
          lvl: Queue, tail: Queue, v: Qty, j: Qty) {
    if v < l + size then
      && Around(x, side, price, lvl, tail, me) && OnePrice(lvl, price) && Total(lvl) + v == l + j
      && Waits(now, side, price, size - FifoFill(size, l, v), StillAhead(l, v)) && now.levelQtySeen <= Total(lvl)
    else Done(now)
  }

  lemma {:induction false} FilledIs(now: VirtualQuote, es: seq<QuoteEvent>)
    requires Sound(now)
    ensures TotalFilled(RunQuote(Prorated, now, es).fills) + RunQuote(Prorated, now, es).quote.remaining == now.remaining
  {
    RunSound(Prorated, now, es);
  }

  lemma {:induction false} WaitsSound(q: VirtualQuote, side: Side, price: Price, open: Qty, a: Qty)
    requires Waits(q, side, price, open, a)
    ensures Sound(q) && q.remaining == open
  {
  }

  /** Nothing traded: the order's place is what it was. */
  lemma {:induction false} NoneTraded(r: VirtualQuote, side: Side, price: Price, open: Qty, a: Qty)
    requires open > 0 && Served(r, side, price, open, a, 0)
    ensures Waits(r, side, price, open, a) && FifoFill(open, a, 0) < open
  {
    hide Waits, Done;
  }

  lemma {:induction false} QuietStep(x: Book, now: VirtualQuote, side: Side, price: Price, me: OrderId, open: Qty, a: Qty,
          lvl: Queue, tail: Queue, f: Flow, stamp: Stamp) returns (lvl': Queue)
    requires Around(x, side, price, lvl, tail, me) && OnePrice(lvl, price) && x.Locate(f.id) == None
    requires f.Joins? || f.qty == 0
    requires Waits(now, side, price, open, a) && now.levelQtySeen <= Total(lvl)
    ensures var x', r := Step(Allow, x, MessageOf(side, price, f)).book, RunQuote(Prorated, now, Reported(x, side, price, f, stamp));
      && Around(x', side, price, lvl', tail, me) && OnePrice(lvl', price) && Total(lvl') == Total(lvl) + JoinedOf(f)
      && Waits(r.quote, side, price, open, a) && r.quote.levelQtySeen <= Total(lvl') && NoneEmpty(r.fills)
  {
    hide *;
    lvl' := if f.qty == 0 then lvl else lvl + [Resting(f.id, f.participant, price, f.qty)];
    QuietReported(x, side, price, lvl, tail, me, f, stamp);
    var o := Step(Allow, x, MessageOf(side, price, f));
    AroundWorse(o.book, side, price, lvl', tail, me);
    LevelShown(o.book, side, price, lvl', tail);
    NoReport(price, now.levelQtySeen);
    WaitsOpen(now, side, price, open, a);
    ReportServes(now, side, price, open, a, [], stamp, Total(lvl'));
    NoneTraded(RunQuote(Prorated, now, [] + Shown(stamp, Total(lvl'))).quote, side, price, open, a);
    ReportedIs(x, side, price, f, stamp, [], Total(lvl'));
  }

  lemma {:induction false} NoReport(price: Price, known: Qty)
    ensures PrintsAt([], price) && VolumeAt(price, []) == 0 && Less(known, 0) == known
  {
  }

  lemma {:induction false} WaitsOpen(q: VirtualQuote, side: Side, price: Price, open: Qty, a: Qty)
    requires Waits(q, side, price, open, a)
    ensures open > 0
  {
  }

  lemma {:induction false} AroundWorse(x: Book, side: Side, price: Price, q: Queue, tail: Queue, me: OrderId)
    requires Around(x, side, price, q, tail, me)
    ensures Good(x) && x.At(side) == q + tail && forall i :: 0 <= i < |tail| ==> Better(side, price, tail[i].price)
  {
  }

  /** What the exchange reports of an aggressor that the level can serve, and what it leaves. */
  lemma {:induction false} ServedReport(x: Book, side: Side, price: Price, me: OrderId, lvl: Queue, tail: Queue, f: Flow, stamp: Stamp)
    returns (es: seq<QuoteEvent>)
    requires Around(x, side, price, lvl, tail, me) && OnePrice(lvl, price) && x.Locate(f.id) == None
    requires f.Trades? && 0 < f.qty <= Total(lvl)
    ensures var x', lvl' := Step(Allow, x, MessageOf(side, price, f)).book, Match(Allow, TakerOf(side, price, f), f.qty, lvl).queue;
      && Around(x', side, price, lvl', tail, me) && OnePrice(lvl', price) && Total(lvl') == Total(lvl) - f.qty
      && PrintsAt(es, price) && VolumeAt(price, es) == f.qty
      && Reported(x, side, price, f, stamp) == es + Shown(stamp, Total(lvl'))
  {
    hide *;
    var t, o := TakerOf(side, price, f), Step(Allow, x, MessageOf(side, price, f));
    var r := Match(Allow, t, f.qty, lvl);
    TradeReported(x, side, price, lvl, tail, me, f, stamp);
    LevelSwept(side, t, f.qty, lvl, price, stamp);
    SweptWithin(side, r, f.qty, lvl, price, stamp);
    MatchNone(Allow, t, 0, tail);
    AroundWorse(x, side, price, lvl, tail, me);
    StepGood(Allow, x, MessageOf(side, price, f));
    AroundLacks(x, side, price, lvl, tail, me);
    AroundAfter(x, side, price, lvl, tail, me, o.book, r.queue, tail);
    AroundWorse(o.book, side, price, r.queue, tail, me);
    LevelShown(o.book, side, price, r.queue, tail);
    es := Prints(side, r.events, stamp);
    NoPrints(side, stamp);
    assert es + [] == es;
    ReportedIs(x, side, price, f, stamp, es, Total(r.queue));
  }

  /** An aggressor that the level can serve: the quote is filled by what is beyond the units ahead. */
  lemma {:induction false} ServedStep(x: Book, now: VirtualQuote, side: Side, price: Price, me: OrderId, open: Qty, a: Qty,
          lvl: Queue, tail: Queue, f: Flow, stamp: Stamp) returns (lvl': Queue)
    requires Around(x, side, price, lvl, tail, me) && OnePrice(lvl, price) && x.Locate(f.id) == None
    requires f.Trades? && 0 < f.qty <= Total(lvl)
    requires Waits(now, side, price, open, a) && now.levelQtySeen <= Total(lvl)
    ensures var x', n := Step(Allow, x, MessageOf(side, price, f)).book, f.qty;
      var r, fill := RunQuote(Prorated, now, Reported(x, side, price, f, stamp)), FifoFill(open, a, n);
      && Around(x', side, price, lvl', tail, me) && OnePrice(lvl', price) && Total(lvl') == Total(lvl) - n
      && (if fill == open then Done(r.quote)
          else Waits(r.quote, side, price, open - fill, StillAhead(a, n)) && r.quote.levelQtySeen <= Total(lvl'))
      && NoneEmpty(r.fills)
  {
    hide *;
    var es := ServedReport(x, side, price, me, lvl, tail, f, stamp);
    lvl' := Match(Allow, TakerOf(side, price, f), f.qty, lvl).queue;
    LessWithin(now.levelQtySeen, f.qty, Total(lvl));
    ReportServes(now, side, price, open, a, es, stamp, Total(lvl'));
    ServedIs(RunQuote(Prorated, now, es + Shown(stamp, Total(lvl'))).quote, side, price, open, a, f.qty);
  }

  lemma {:induction false} LessWithin(known: Qty, n: Qty, level: Qty)
    requires known <= level && n <= level
    ensures Less(known, n) <= level - n && Less(known, level) == 0
  {
  }

  lemma {:induction false} NoPrints(side: Side, stamp: Stamp)
    ensures Prints(side, [], stamp) == []
  {
  }

  lemma {:induction false} AroundLacks(x: Book, side: Side, price: Price, q: Queue, tail: Queue, me: OrderId)
    requires Around(x, side, price, q, tail, me)
    ensures !Has(tail, me)
  {
  }

  lemma {:induction false} ReportedIs(x: Book, side: Side, price: Price, f: Flow, stamp: Stamp, es: seq<QuoteEvent>, n: Qty)
    requires var o := Step(Allow, x, MessageOf(side, price, f));
      Prints(side, o.events, stamp) == es && Depth(o.book.At(side), price) == n
    ensures Reported(x, side, price, f, stamp) == es + Shown(stamp, n)
  {
    hide Step, Prints, Depth, Shown;
  }

  /** An aggressor that outruns the level: the quote is filled by what the level shows, and in full if
      worse prices trade. */
  lemma {:induction false} OutrunStep(x: Book, now: VirtualQuote, side: Side, price: Price, me: OrderId, open: Qty, a: Qty,
          lvl: Queue, tail: Queue, f: Flow, stamp: Stamp)
    requires Around(x, side, price, lvl, tail, me) && OnePrice(lvl, price) && x.Locate(f.id) == None
    requires f.Trades? && f.qty > Total(lvl)
    requires Waits(now, side, price, open, a) && now.levelQtySeen <= Total(lvl)
    ensures var r, fill := RunQuote(Prorated, now, Reported(x, side, price, f, stamp)).quote, FifoFill(open, a, Total(lvl));
      if fill == open || (f.market && tail != []) then Done(r) else Sound(r) && r.remaining == open - fill
    ensures NoneEmpty(RunQuote(Prorated, now, Reported(x, side, price, f, stamp)).fills)
  {
    hide *;
    var t, o := TakerOf(side, price, f), Step(Allow, x, MessageOf(side, price, f));
    var r, n := Match(Allow, t, f.qty, lvl), Depth(o.book.At(side), price);
    TradeReported(x, side, price, lvl, tail, me, f, stamp);
    LevelSwept(side, t, f.qty, lvl, price, stamp);
    SweptWithin(side, r, f.qty, lvl, price, stamp);
    AroundWorse(x, side, price, lvl, tail, me);
    TakerIs(side, price, f);
    TailPrints(side, t, r.rem, tail, price, stamp);
    var es, es' := Prints(side, r.events, stamp), Prints(side, Match(Allow, t, r.rem, tail).events, stamp);
    LessWithin(now.levelQtySeen, 0, Total(lvl));
    OutrunQuote(now, side, price, open, a, Total(lvl), es, es', stamp, n);
    ReportedIs(x, side, price, f, stamp, es + es', n);
  }

  lemma {:induction false} TakerIs(side: Side, price: Price, f: Flow)
    requires f.Trades?
    ensures var t := TakerOf(side, price, f);
      t.side == side.Opposite() && t.market == f.market && (t.market || t.price == price)
  {
  }

  lemma {:induction false} OutrunQuote(now: VirtualQuote, side: Side, price: Price, open: Qty, a: Qty, level: Qty,
          es: seq<QuoteEvent>, es': seq<QuoteEvent>, stamp: Stamp, n: Qty)
    requires Waits(now, side, price, open, a) && now.levelQtySeen <= level && PrintsAt(es, price) && VolumeAt(price, es) == level
    requires PrintsThrough(es', side, price)
    ensures var r, fill := RunQuote(Prorated, now, es + es' + Shown(stamp, n)), FifoFill(open, a, level);
      && (if fill == open || es' != [] then Done(r.quote) else Sound(r.quote) && r.quote.remaining == open - fill)
      && NoneEmpty(r.fills)
  {
    hide *;
    LessWithin(now.levelQtySeen, 0, level);
    if es' == [] {
      assert es + es' == es;
      ReportServes(now, side, price, open, a, es, stamp, n);
      var r := RunQuote(Prorated, now, es + Shown(stamp, n)).quote;
      ServedIs(r, side, price, open, a, level);
      if FifoFill(open, a, level) < open {
        WaitsSound(r, side, price, open - FifoFill(open, a, level), StillAhead(a, level));
      }
    } else {
      assert es + es' + Shown(stamp, n) == es + (es' + Shown(stamp, n));
      RunConcat(Prorated, now, es, es' + Shown(stamp, n));
      var mid := RunQuote(Prorated, now, es).quote;
      PrintsServe(now, side, price, open, a, es);
      ServedIs(mid, side, price, open, a, level);
      if FifoFill(open, a, level) == open {
        StaysDone(Prorated, mid, es' + Shown(stamp, n));
      } else {
        ThroughEnds(mid, side, price, open - FifoFill(open, a, level), StillAhead(a, level), es', Shown(stamp, n));
      }
      NoFillsGiven();
      NoneEmptyConcat(RunQuote(Prorated, now, es).fills, RunQuote(Prorated, mid, es' + Shown(stamp, n)).fills);
    }
  }

  lemma {:induction false} PrintsServe(now: VirtualQuote, side: Side, price: Price, open: Qty, a: Qty, es: seq<QuoteEvent>)
    requires Waits(now, side, price, open, a) && PrintsAt(es, price)
    ensures var r := RunQuote(Prorated, now, es);
      Served(r.quote, side, price, open, a, VolumeAt(price, es)) && NoneEmpty(r.fills)
  {
    hide *;
    var silent := Stamp(0, 0, false);
    ReportServes(now, side, price, open, a, es, silent, Less(now.levelQtySeen, VolumeAt(price, es)));
    Silent(es, silent, Less(now.levelQtySeen, VolumeAt(price, es)));
  }

  lemma {:induction false} Silent(es: seq<QuoteEvent>, stamp: Stamp, n: Qty)
    requires !stamp.shown
    ensures es + Shown(stamp, n) == es
  {
  }

  /** Prints through the price, and whatever follows them. */
  lemma {:induction false} ThroughEnds(q: VirtualQuote, side: Side, price: Price, open: Qty, a: Qty, es: seq<QuoteEvent>,
          rest: seq<QuoteEvent>)
    requires Waits(q, side, price, open, a) && PrintsThrough(es, side, price) && es != []
    ensures var r := RunQuote(Prorated, q, es + rest); Done(r.quote) && NoneEmpty(r.fills)
  {
    hide *;
    var r := RunQuote(Prorated, q, es);
    RunConcat(Prorated, q, es, rest);
    ThroughFills(q, side, price, open, a, es);
    StaysDone(Prorated, r.quote, rest);
    NoFillsGiven();
    NoneEmptyConcat(r.fills, []);
  }

  /** The quote gets what the order gets exactly if the message agrees, and then both go on in step. */
  ghost predicate InStep(x: Book, now: VirtualQuote, side: Side, price: Price, me: OrderId, size: Qty, l: Qty,
          lvl: Queue, tail: Queue, v: Qty, j: Qty, f: Flow, stamp: Stamp,
          lvl': Queue) {
    var r, w := RunQuote(Prorated, now, Reported(x, side, price, f, stamp)), v + VolumeOf(f);
    && (TotalFilled(r.fills) == FifoFill(size, l, w) - FifoFill(size, l, v) <==> Agrees(l, size, tail, v, j, f))
    && (Agrees(l, size, tail, v, j, f) ==>
          Keeps(Step(Allow, x, MessageOf(side, price, f)).book, r.quote, side, price, me, size, l, lvl', tail, w, j + JoinedOf(f)))
    && NoneEmpty(r.fills)
  }

  lemma {:induction false} OneMessage(x: Book, now: VirtualQuote, side: Side, price: Price, me: OrderId, size: Qty, l: Qty,
          lvl: Queue, tail: Queue, v: Qty, j: Qty, f: Flow, stamp: Stamp)
    returns (lvl': Queue)
    requires size > 0 && Keeps(x, now, side, price, me, size, l, lvl, tail, v, j) && x.Locate(f.id) == None
    ensures InStep(x, now, side, price, me, size, l, lvl, tail, v, j, f, stamp, lvl')
  {
    hide *;
    lvl' := lvl;
    if v >= l + size {
      DoneMessage(x, now, side, price, me, size, l, lvl, tail, v, j, f, stamp);
    } else if f.Joins? || f.qty == 0 {
      lvl' := QuietMessage(x, now, side, price, me, size, l, lvl, tail, v, j, f, stamp);
      QuietInStep(x, now, side, price, me, size, l, lvl, tail, v, j, f, stamp, lvl');
    } else if !Outruns(l, v, j, f.qty) {
      lvl' := ServedMessage(x, now, side, price, me, size, l, lvl, tail, v, j, f, stamp);
      ServedInStep(x, now, side, price, me, size, l, lvl, tail, v, j, f, stamp, lvl');
    } else {
      OutrunMessage(x, now, side, price, me, size, l, lvl, tail, v, j, f, stamp);
      OutrunInStep(x, now, side, price, me, size, l, lvl, tail, v, j, f, stamp);
    }
  }

  lemma {:induction false} InStepIs(x: Book, now: VirtualQuote, side: Side, price: Price, me: OrderId, size: Qty, l: Qty,
          lvl: Queue, tail: Queue, v: Qty, j: Qty, f: Flow, stamp: Stamp,
          lvl': Queue)
    requires InStep(x, now, side, price, me, size, l, lvl, tail, v, j, f, stamp, lvl')
    ensures var r, w := RunQuote(Prorated, now, Reported(x, side, price, f, stamp)), v + VolumeOf(f);
      && (TotalFilled(r.fills) == FifoFill(size, l, w) - FifoFill(size, l, v) <==> Agrees(l, size, tail, v, j, f))
      && (Agrees(l, size, tail, v, j, f) ==>
            Keeps(Step(Allow, x, MessageOf(side, price, f)).book, r.quote, side, price, me, size, l, lvl', tail, w, j + JoinedOf(f)))
      && NoneEmpty(r.fills)
  {
  }

  lemma {:induction false} DoneMessage(x: Book, now: VirtualQuote, side: Side, price: Price, me: OrderId, size: Qty, l: Qty,
          lvl: Queue, tail: Queue, v: Qty, j: Qty, f: Flow, stamp: Stamp)
    requires size > 0 && v >= l + size && Keeps(x, now, side, price, me, size, l, lvl, tail, v, j)
    ensures InStep(x, now, side, price, me, size, l, lvl, tail, v, j, f, stamp, lvl)
  {
    hide *;
    var es, x' := Reported(x, side, price, f, stamp), Step(Allow, x, MessageOf(side, price, f)).book;
    KeepsDone(x, now, side, price, me, size, l, lvl, tail, v, j);
    StaysDone(Prorated, now, es);
    NoFillsGiven();
    DoneShare(size, l, tail, v, j, f);
    KeepsIs(x', RunQuote(Prorated, now, es).quote, side, price, me, size, l, lvl, tail, v + VolumeOf(f), j + JoinedOf(f));
    InStepFrom(x, now, side, price, me, size, l, lvl, tail, v, j, f, stamp, lvl);
  }

  lemma {:induction false} NoFillsGiven()
    ensures TotalFilled([]) == 0 && NoneEmpty([])
  {
  }

  lemma {:induction false} KeepsDone(x: Book, now: VirtualQuote, side: Side, price: Price, me: OrderId, size: Qty, l: Qty,
          lvl: Queue, tail: Queue, v: Qty, j: Qty)
    requires v >= l + size && Keeps(x, now, side, price, me, size, l, lvl, tail, v, j)
    ensures Done(now)
  {
  }

  lemma {:induction false} DoneShare(size: Qty, l: Qty, tail: Queue, v: Qty, j: Qty, f: Flow)
    requires v >= l + size
    ensures FifoFill(size, l, v + VolumeOf(f)) == FifoFill(size, l, v) && Agrees(l, size, tail, v, j, f)
  {
  }

  lemma {:induction false} InStepFrom(x: Book, now: VirtualQuote, side: Side, price: Price, me: OrderId, size: Qty, l: Qty,
          lvl: Queue, tail: Queue, v: Qty, j: Qty, f: Flow, stamp: Stamp,
          lvl': Queue)
    requires var r, w := RunQuote(Prorated, now, Reported(x, side, price, f, stamp)), v + VolumeOf(f);
      && (TotalFilled(r.fills) == FifoFill(size, l, w) - FifoFill(size, l, v) <==> Agrees(l, size, tail, v, j, f))
      && (Agrees(l, size, tail, v, j, f) ==>
            Keeps(Step(Allow, x, MessageOf(side, price, f)).book, r.quote, side, price, me, size, l, lvl', tail, w, j + JoinedOf(f)))
      && NoneEmpty(r.fills)
    ensures InStep(x, now, side, price, me, size, l, lvl, tail, v, j, f, stamp, lvl')
  {
  }

  lemma {:induction false} QuietInStep(x: Book, now: VirtualQuote, side: Side, price: Price, me: OrderId, size: Qty, l: Qty,
          lvl: Queue, tail: Queue, v: Qty, j: Qty, f: Flow, stamp: Stamp,
          lvl': Queue)
    requires v < l + size && (f.Joins? || f.qty == 0)
    requires Keeps(x, now, side, price, me, size, l, lvl, tail, v, j)
    requires var r := RunQuote(Prorated, now, Reported(x, side, price, f, stamp));
      && TotalFilled(r.fills) == 0 && NoneEmpty(r.fills)
      && Keeps(Step(Allow, x, MessageOf(side, price, f)).book, r.quote, side, price, me, size, l, lvl', tail, v, j + JoinedOf(f))
    ensures InStep(x, now, side, price, me, size, l, lvl, tail, v, j, f, stamp, lvl')
  {
    hide RunQuote, Reported, Step, Around, NoneEmpty, FifoFill, OnePrice, Waits;
  }

  lemma {:induction false} ServedInStep(x: Book, now: VirtualQuote, side: Side, price: Price, me: OrderId, size: Qty, l: Qty,
          lvl: Queue, tail: Queue, v: Qty, j: Qty, f: Flow, stamp: Stamp,
          lvl': Queue)
    requires f.Trades? && !Outruns(l, v, j, f.qty)
    requires var r, w := RunQuote(Prorated, now, Reported(x, side, price, f, stamp)), v + f.qty;
      && TotalFilled(r.fills) == FifoFill(size, l, w) - FifoFill(size, l, v) && NoneEmpty(r.fills)
      && Keeps(Step(Allow, x, MessageOf(side, price, f)).book, r.quote, side, price, me, size, l, lvl', tail, w, j)
    ensures InStep(x, now, side, price, me, size, l, lvl, tail, v, j, f, stamp, lvl')
  {
    hide RunQuote, Reported, Step, Keeps, NoneEmpty, FifoFill, Outruns;
  }

  lemma {:induction false} OutrunInStep(x: Book, now: VirtualQuote, side: Side, price: Price, me: OrderId, size: Qty, l: Qty,
          lvl: Queue, tail: Queue, v: Qty, j: Qty, f: Flow, stamp: Stamp)
    requires v < l + size && f.Trades? && Outruns(l, v, j, f.qty)
    requires var r, w, deep := RunQuote(Prorated, now, Reported(x, side, price, f, stamp)), v + f.qty, f.market && tail != [];
      && (TotalFilled(r.fills) == FifoFill(size, l, w) - FifoFill(size, l, v) <==> j >= size || (deep && w >= l + size))
      && (j >= size || deep ==> Done(r.quote)) && NoneEmpty(r.fills)
    ensures InStep(x, now, side, price, me, size, l, lvl, tail, v, j, f, stamp, lvl)
  {
    hide RunQuote, Reported, Step, Around, NoneEmpty, FifoFill, Done, Waits;
  }

  lemma {:induction false} QuietMessage(x: Book, now: VirtualQuote, side: Side, price: Price, me: OrderId, size: Qty, l: Qty,
          lvl: Queue, tail: Queue, v: Qty, j: Qty, f: Flow, stamp: Stamp) returns (lvl': Queue)
    requires v < l + size && Keeps(x, now, side, price, me, size, l, lvl, tail, v, j) && x.Locate(f.id) == None
    requires f.Joins? || f.qty == 0
    ensures var r := RunQuote(Prorated, now, Reported(x, side, price, f, stamp));
      && TotalFilled(r.fills) == 0 && NoneEmpty(r.fills)
      && Keeps(Step(Allow, x, MessageOf(side, price, f)).book, r.quote, side, price, me, size, l, lvl', tail, v, j + JoinedOf(f))
  {
    hide *;
    var open, a, es := size - FifoFill(size, l, v), StillAhead(l, v), Reported(x, side, price, f, stamp);
    KeepsOpen(x, now, side, price, me, size, l, lvl, tail, v, j);
    lvl' := QuietStep(x, now, side, price, me, open, a, lvl, tail, f, stamp);
    WaitsSound(now, side, price, open, a);
    WaitsSound(RunQuote(Prorated, now, es).quote, side, price, open, a);
    FilledIs(now, es);
    KeepsIs(Step(Allow, x, MessageOf(side, price, f)).book, RunQuote(Prorated, now, es).quote, side, price, me, size, l, lvl',
      tail, v, j + JoinedOf(f));
  }

  lemma {:induction false} ServedMessage(x: Book, now: VirtualQuote, side: Side, price: Price, me: OrderId, size: Qty, l: Qty,
          lvl: Queue, tail: Queue, v: Qty, j: Qty, f: Flow, stamp: Stamp) returns (lvl': Queue)
    requires v < l + size && Keeps(x, now, side, price, me, size, l, lvl, tail, v, j) && x.Locate(f.id) == None
    requires f.Trades? && f.qty > 0 && !Outruns(l, v, j, f.qty)
    ensures var r, w := RunQuote(Prorated, now, Reported(x, side, price, f, stamp)), v + f.qty;
      && TotalFilled(r.fills) == FifoFill(size, l, w) - FifoFill(size, l, v) && NoneEmpty(r.fills)
      && Keeps(Step(Allow, x, MessageOf(side, price, f)).book, r.quote, side, price, me, size, l, lvl', tail, w, j)
  {
    hide *;
    var open, a, es := size - FifoFill(size, l, v), StillAhead(l, v), Reported(x, side, price, f, stamp);
    var fill := FifoFill(open, a, f.qty);
    KeepsOpen(x, now, side, price, me, size, l, lvl, tail, v, j);
    InLevel(l, v, j, f.qty, Total(lvl));
    ShareOf(size, l, v, f.qty);
    lvl' := ServedStep(x, now, side, price, me, open, a, lvl, tail, f, stamp);
    var q' := RunQuote(Prorated, now, es).quote;
    WaitsSound(now, side, price, open, a);
    FilledIs(now, es);
    if fill == open {
      DoneIs(q');
    } else {
      WaitsSound(q', side, price, open - fill, StillAhead(a, f.qty));
    }
    KeepsIs(Step(Allow, x, MessageOf(side, price, f)).book, q', side, price, me, size, l, lvl', tail, v + f.qty, j);
  }

  lemma {:induction false} InLevel(l: Qty, v: Qty, j: Qty, n: Qty, level: Qty)
    requires level + v == l + j
    ensures Outruns(l, v, j, n) <==> n > level
  {
  }

  /** The share of `n` units more. */
  lemma {:induction false} ShareOf(size: Qty, l: Qty, v: Qty, n: Qty)
    requires v < l + size && size > 0
    ensures var open, a := size - FifoFill(size, l, v), StillAhead(l, v);
      && FifoFill(open, a, n) == FifoFill(size, l, v + n) - FifoFill(size, l, v)
      && StillAhead(a, n) == StillAhead(l, v + n)
      && (FifoFill(open, a, n) == open <==> v + n >= l + size)
  {
  }

  lemma {:induction false} KeepsOpen(x: Book, now: VirtualQuote, side: Side, price: Price, me: OrderId, size: Qty, l: Qty,
          lvl: Queue, tail: Queue, v: Qty, j: Qty)
    requires v < l + size && Keeps(x, now, side, price, me, size, l, lvl, tail, v, j)
    ensures size > 0 && Around(x, side, price, lvl, tail, me) && OnePrice(lvl, price) && Total(lvl) + v == l + j
    ensures Waits(now, side, price, size - FifoFill(size, l, v), StillAhead(l, v)) && now.levelQtySeen <= Total(lvl)
  {
  }

  lemma {:induction false} KeepsIs(x: Book, now: VirtualQuote, side: Side, price: Price, me: OrderId, size: Qty, l: Qty,
          lvl: Queue, tail: Queue, v: Qty, j: Qty)
    requires v >= l + size ==> Done(now)
    requires v < l + size ==>
               && Around(x, side, price, lvl, tail, me) && OnePrice(lvl, price) && Total(lvl) + v == l + j
               && Waits(now, side, price, size - FifoFill(size, l, v), StillAhead(l, v)) && now.levelQtySeen <= Total(lvl)
    ensures Keeps(x, now, side, price, me, size, l, lvl, tail, v, j)
  {
  }

  lemma {:induction false} DoneIs(q: VirtualQuote)
    requires Done(q)
    ensures q.remaining == 0
  {
  }

  /** What the level shows fills the order up to the newcomers behind it; what was wanted, up to `l`. */
  lemma {:induction false} OutrunShare(size: Qty, l: Qty, v: Qty, j: Qty, n: Qty, level: Qty)
    requires v < l + size && size > 0 && level + v == l + j && Outruns(l, v, j, n)
    ensures var open := size - FifoFill(size, l, v);
      var fill := FifoFill(open, StillAhead(l, v), level);
      && fill == (if j >= size then size else j) - FifoFill(size, l, v) && (fill == open <==> j >= size)
      && FifoFill(size, l, v + n) == (if v + n >= l + size then size else v + n - l)
      && v + n - l > j
  {
    ShareOf(size, l, v, level);
  }

  lemma {:induction false} OutrunMessage(x: Book, now: VirtualQuote, side: Side, price: Price, me: OrderId, size: Qty, l: Qty,
          lvl: Queue, tail: Queue, v: Qty, j: Qty, f: Flow, stamp: Stamp)
    requires v < l + size && Keeps(x, now, side, price, me, size, l, lvl, tail, v, j) && x.Locate(f.id) == None
    requires f.Trades? && Outruns(l, v, j, f.qty)
    ensures var r, w, deep := RunQuote(Prorated, now, Reported(x, side, price, f, stamp)), v + f.qty, f.market && tail != [];
      && TotalFilled(r.fills) == (if j >= size || deep then size else j) - FifoFill(size, l, v)
      && (TotalFilled(r.fills) == FifoFill(size, l, w) - FifoFill(size, l, v) <==> j >= size || (deep && w >= l + size))
      && (j >= size || deep ==> Done(r.quote)) && NoneEmpty(r.fills)
  {
    hide *;
    var open, a, es := size - FifoFill(size, l, v), StillAhead(l, v), Reported(x, side, price, f, stamp);
    KeepsOpen(x, now, side, price, me, size, l, lvl, tail, v, j);
    InLevel(l, v, j, f.qty, Total(lvl));
    OutrunShare(size, l, v, j, f.qty, Total(lvl));
    OutrunStep(x, now, side, price, me, open, a, lvl, tail, f, stamp);
    WaitsSound(now, side, price, open, a);
    FilledIs(now, es);
    if j >= size || (f.market && tail != []) {
      DoneIs(RunQuote(Prorated, now, es).quote);
    }
  }

  // ---- every flow ----

  /** What each message fills of an order of `size` behind `l` units. */
  function OrderShares(size: Qty, l: Qty, flow: seq<Flow>): seq<Qty>
    decreases |flow|
  {
    if flow == [] then []
    else
      var n := |flow| - 1;
      OrderShares(size, l, flow[..n]) + [FifoFill(size, l, Volume(flow[..n]) + VolumeOf(flow[n])) - FifoFill(size, l, Volume(flow[..n]))]
  }

  lemma {:induction false} SnocEqual<T>(a: seq<T>, x: T, b: seq<T>, y: T)
    ensures a + [x] == b + [y] <==> a == b && x == y
  {
    if a + [x] == b + [y] {
      assert |a + [x]| == |b + [y]| && (a + [x])[..|a|] == a && (b + [y])[..|b|] == b;
      assert (a + [x])[|a|] == (b + [y])[|b|];
    }
  }

  lemma {:induction false} AgreeUnfolds(l: Qty, size: Qty, tail: Queue, flow: seq<Flow>)
    requires flow != []
    ensures var n := |flow| - 1;
      AllAgree(l, size, tail, flow)
      <==> AllAgree(l, size, tail, flow[..n]) && Agrees(l, size, tail, Volume(flow[..n]), Joined(flow[..n]), flow[n])
  {
    var n := |flow| - 1;
    var front := flow[..n];
    hide Agrees, Volume, Joined;
    forall k | 0 <= k < n ensures front[..k] == flow[..k] && front[k] == flow[k] {}
    if AllAgree(l, size, tail, front) && Agrees(l, size, tail, Volume(front), Joined(front), flow[n]) {
      forall k | 0 <= k < |flow| ensures Agrees(l, size, tail, Volume(flow[..k]), Joined(flow[..k]), flow[k]) {
        if k < n {
          assert Agrees(l, size, tail, Volume(front[..k]), Joined(front[..k]), front[k]);
        }
      }
    }
    if AllAgree(l, size, tail, flow) {
      forall k | 0 <= k < n ensures Agrees(l, size, tail, Volume(front[..k]), Joined(front[..k]), front[k]) {
        assert Agrees(l, size, tail, Volume(flow[..k]), Joined(flow[..k]), flow[k]);
      }
    }
  }

  lemma {:induction false} FeedUnfolds(q: VirtualQuote, x: Book, flow: seq<Flow>, clock: nat -> Stamp)
    requires flow != []
    ensures var n := |flow| - 1;
      var x' := Run(Allow, x, Messages(q.side, q.price, flow[..n])).0;
      var r := RunQuote(Prorated, QuoteAfter(q, x, flow[..n], clock), Reported(x', q.side, q.price, flow[n], clock(n)));
      QuoteAfter(q, x, flow, clock) == r.quote && FillsGiven(q, x, flow, clock) == FillsGiven(q, x, flow[..n], clock) + r.fills
  {
    var n := |flow| - 1;
    var x' := Run(Allow, x, Messages(q.side, q.price, flow[..n])).0;
    RunConcat(Prorated, q, Feed(x, q.side, q.price, flow[..n], clock), Reported(x', q.side, q.price, flow[n], clock(n)));
    hide RunQuote, Reported, Run, Messages;
  }

  /** The exchange's book after one message more. */
  lemma {:induction false} ExchangeUnfolds(x: Book, side: Side, price: Price, flow: seq<Flow>)
    requires flow != [] && FreshIds(x, Messages(side, price, flow))
    ensures var n := |flow| - 1;
      var x' := Run(Allow, x, Messages(side, price, flow[..n])).0;
      && FreshIds(x, Messages(side, price, flow[..n])) && x'.Locate(flow[n].id) == None
      && Run(Allow, x, Messages(side, price, flow)).0 == Step(Allow, x', MessageOf(side, price, flow[n])).book
  {
    hide *;
    MessagesEnd(side, price, flow);
    RunUnfolds(x, Messages(side, price, flow));
  }

  lemma {:induction false} QuoteFillsUnfold(q: VirtualQuote, x: Book, flow: seq<Flow>, clock: nat -> Stamp)
    requires flow != []
    ensures var n := |flow| - 1;
      var x' := Run(Allow, x, Messages(q.side, q.price, flow[..n])).0;
      var r := RunQuote(Prorated, QuoteAfter(q, x, flow[..n], clock), Reported(x', q.side, q.price, flow[n], clock(n)));
      QuoteFills(q, x, flow, clock) == QuoteFills(q, x, flow[..n], clock) + [TotalFilled(r.fills)]
  {
    hide QuoteAfter, RunQuote, Reported, Run, Messages, TotalFilled;
  }

  lemma {:induction false} SharesUnfold(size: Qty, l: Qty, flow: seq<Flow>)
    requires flow != []
    ensures var n := |flow| - 1;
      var v, w := Volume(flow[..n]), Volume(flow);
      && w == v + VolumeOf(flow[n]) && Joined(flow) == Joined(flow[..n]) + JoinedOf(flow[n])
      && OrderShares(size, l, flow) == OrderShares(size, l, flow[..n]) + [FifoFill(size, l, w) - FifoFill(size, l, v)]
  {
    hide FifoFill, VolumeOf, JoinedOf;
  }

  /** Message by message the quote gets the order's share of the flow exactly if every message agrees. */
  lemma {:induction false} RunsTogether(q: VirtualQuote, x: Book, me: OrderId, size: Qty, l: Qty, lvl: Queue, tail: Queue,
          flow: seq<Flow>, clock: nat -> Stamp) returns (lvl': Queue)
    requires size > 0 && Keeps(x, q, q.side, q.price, me, size, l, lvl, tail, 0, 0)
    requires FreshIds(x, Messages(q.side, q.price, flow))
    ensures QuoteFills(q, x, flow, clock) == OrderShares(size, l, flow) <==> AllAgree(l, size, tail, flow)
    ensures AllAgree(l, size, tail, flow) ==>
      && Keeps(Run(Allow, x, Messages(q.side, q.price, flow)).0, QuoteAfter(q, x, flow, clock), q.side, q.price, me, size, l,
           lvl', tail, Volume(flow), Joined(flow))
      && NoneEmpty(FillsGiven(q, x, flow, clock))
    decreases |flow|
  {
    if flow == [] {
      lvl' := lvl;
      NoEvents(Prorated, q);
      hide Keeps;
    } else {
      hide *;
      ExchangeUnfolds(x, q.side, q.price, flow);
      lvl' := RunsTogether(q, x, me, size, l, lvl, tail, flow[..|flow| - 1], clock);
      lvl' := RunsOn(q, x, me, size, l, lvl', tail, flow, clock);
    }
  }

  lemma {:induction false} RunsOn(q: VirtualQuote, x: Book, me: OrderId, size: Qty, l: Qty, lvl: Queue, tail: Queue,
          flow: seq<Flow>, clock: nat -> Stamp) returns (lvl': Queue)
    requires size > 0 && flow != [] && FreshIds(x, Messages(q.side, q.price, flow))
    requires var front := flow[..|flow| - 1];
      && (QuoteFills(q, x, front, clock) == OrderShares(size, l, front) <==> AllAgree(l, size, tail, front))
      && (AllAgree(l, size, tail, front) ==>
            && Keeps(Run(Allow, x, Messages(q.side, q.price, front)).0, QuoteAfter(q, x, front, clock), q.side, q.price, me, size, l,
                 lvl, tail, Volume(front), Joined(front))
            && NoneEmpty(FillsGiven(q, x, front, clock)))
    ensures QuoteFills(q, x, flow, clock) == OrderShares(size, l, flow) <==> AllAgree(l, size, tail, flow)
    ensures AllAgree(l, size, tail, flow) ==>
      && Keeps(Run(Allow, x, Messages(q.side, q.price, flow)).0, QuoteAfter(q, x, flow, clock), q.side, q.price, me, size, l,
           lvl', tail, Volume(flow), Joined(flow))
      && NoneEmpty(FillsGiven(q, x, flow, clock))
  {
    hide *;
    lvl' := lvl;
    var n := |flow| - 1;
    var front, f := flow[..n], flow[n];
    var x', now := Run(Allow, x, Messages(q.side, q.price, front)).0, QuoteAfter(q, x, front, clock);
    ExchangeUnfolds(x, q.side, q.price, flow);
    FeedUnfolds(q, x, flow, clock);
    AgreeUnfolds(l, size, tail, flow);
    QuoteFillsUnfold(q, x, flow, clock);
    SharesUnfold(size, l, flow);
    SnocEqual(QuoteFills(q, x, front, clock),
      TotalFilled(RunQuote(Prorated, now, Reported(x', q.side, q.price, f, clock(n))).fills),
      OrderShares(size, l, front), FifoFill(size, l, Volume(flow)) - FifoFill(size, l, Volume(front)));
    if AllAgree(l, size, tail, front) {
      lvl' := OneMessage(x', now, q.side, q.price, me, size, l, lvl, tail, Volume(front), Joined(front), f, clock(n));
      InStepIs(x', now, q.side, q.price, me, size, l, lvl, tail, Volume(front), Joined(front), f, clock(n), lvl');
      NoneEmptyConcat(FillsGiven(q, x, front, clock), RunQuote(Prorated, now, Reported(x', q.side, q.price, f, clock(n))).fills);
    }
  }

  // ---- the order ----

  lemma {:induction false} SumUnless0(n: nat)
    ensures Sum(Unless0(n)) == n
  {
    if n > 0 {
      assert [n][..0] == [];
    }
  }

  lemma {:induction false} OrderFillsUnfold(b: Book, side: Side, price: Price, me: OrderId, flow: seq<Flow>)
    requires flow != []
    ensures var n := |flow| - 1;
      var b' := Run(Allow, b, Messages(side, price, flow[..n])).0;
      OrderFills(b, side, price, me, flow)
      == OrderFills(b, side, price, me, flow[..n]) + [Sum(FillsOf(Step(Allow, b', MessageOf(side, price, flow[n])).events, me))]
  {
    hide Run, Step, Messages, MessageOf, FillsOf, Sum;
  }

  lemma {:induction false} FrontIds(flow: seq<Flow>, front: seq<Flow>, me: OrderId)
    requires flow != [] && front == flow[..|flow| - 1] && forall i :: 0 <= i < |flow| ==> flow[i].id != me
    ensures flow[|flow| - 1].id != me && forall i :: 0 <= i < |front| ==> front[i].id != me
  {
  }

  /** Message by message the order gets its share. */
  lemma {:induction false} OrderFillsAre(b: Book, side: Side, price: Price, me: Resting, l: Qty, flow: seq<Flow>)
    requires Shared(b, side, price, me, l, 0) && FreshIds(b, Messages(side, price, flow))
    requires forall i :: 0 <= i < |flow| ==> flow[i].id != me.id
    ensures OrderFills(b, side, price, me.id, flow) == OrderShares(me.qty, l, flow)
    decreases |flow|
  {
    if flow != [] {
      hide *;
      var front := flow[..|flow| - 1];
      ExchangeUnfolds(b, side, price, flow);
      FrontIds(flow, front, me.id);
      OrderFillsAre(b, side, price, me, l, front);
      FlowRuns(b, side, price, me, l, front);
      OrderFillsOn(b, side, price, me, l, flow);
    }
  }

  lemma {:induction false} OrderFillsOn(b: Book, side: Side, price: Price, me: Resting, l: Qty, flow: seq<Flow>)
    requires flow != [] && FreshIds(b, Messages(side, price, flow)) && flow[|flow| - 1].id != me.id
    requires var front := flow[..|flow| - 1];
      && OrderFills(b, side, price, me.id, front) == OrderShares(me.qty, l, front)
      && Shared(Run(Allow, b, Messages(side, price, front)).0, side, price, me, l, Volume(front))
    ensures OrderFills(b, side, price, me.id, flow) == OrderShares(me.qty, l, flow)
  {
    hide *;
    var n := |flow| - 1;
    var f, v := flow[n], Volume(flow[..n]);
    ExchangeUnfolds(b, side, price, flow);
    FlowStep(Run(Allow, b, Messages(side, price, flow[..n])).0, side, price, me, l, v, f);
    ShareGrows(me.qty, l, v, VolumeOf(f));
    SumUnless0(FifoFill(me.qty, l, v + VolumeOf(f)) - FifoFill(me.qty, l, v));
    OrderFillsUnfold(b, side, price, me.id, flow);
    SharesUnfold(me.qty, l, flow);
  }

  lemma {:induction false} ShareGrows(size: Qty, l: Qty, v: Qty, n: Qty)
    ensures FifoFill(size, l, v + n) >= FifoFill(size, l, v)
  {
  }

  /** The exchange's book without the order. */
  lemma {:induction false} WithoutOrder(b: Book, side: Side, ahead: Queue, me: Resting, tail: Queue)
    requires Good(b) && b.At(side) == ahead + [me] + tail && OnePrice(ahead, me.price)
    requires forall i :: 0 <= i < |tail| ==> Better(side, me.price, tail[i].price)
    ensures Around(b.With(side, ahead + tail), side, me.price, ahead, tail, me.id)
  {
    StartsShared(b, side, ahead, me, tail);
    var q, tail' :| Around(b, side, me.price, q, tail', me.id) && Stands(q, me.price, me.id, StillAhead(Total(ahead), 0), me.qty - FifoFill(me.qty, Total(ahead), 0));
    DistinctSplit(ahead, me, tail);
    RemoveSplit(ahead, me, tail);
    RemoveGood(b, side, me.id);
    hide Stands, Good, StillAhead, FifoFill;
    HasIds(ahead + tail, me.id);
    forall i | 0 <= i < |tail| ensures tail[i] == (ahead + tail)[|ahead| + i] {}
  }

  lemma {:induction false} StartsKept(b: Book, q: VirtualQuote, ahead: Queue, me: Resting, tail: Queue)
    requires Good(b) && b.At(q.side) == ahead + [me] + tail && OnePrice(ahead, me.price) && me.qty > 0
    requires forall i :: 0 <= i < |tail| ==> Better(q.side, me.price, tail[i].price)
    requires q == Placed(q.side, me.price, me.qty, Total(ahead), q.placedTs)
    ensures Keeps(b.With(q.side, ahead + tail), q, q.side, q.price, me.id, me.qty, Total(ahead), ahead, tail, 0, 0)
  {
    WithoutOrder(b, q.side, ahead, me, tail);
    hide Around, OnePrice, Good;
  }

  /** The virtual quote, told only what the exchange prints and, after whichever messages, shows without
      it, beside a real order of the same size behind the same units in a whole book: message by message
      they are filled alike exactly if no aggressor outruns the level to harm, and then the same is left
      of both, and no fill is empty. */
  lemma {:induction false} QuoteAgreesIff(q: VirtualQuote, b: Book, ahead: Queue, me: Resting, tail: Queue, flow: seq<Flow>,
          clock: nat -> Stamp)
    requires Good(b) && b.At(q.side) == ahead + [me] + tail && OnePrice(ahead, me.price) && me.qty > 0
    requires forall i :: 0 <= i < |tail| ==> Better(q.side, me.price, tail[i].price)
    requires q == Placed(q.side, me.price, me.qty, Total(ahead), q.placedTs)
    requires FreshIds(b, Messages(q.side, q.price, flow)) && forall i :: 0 <= i < |flow| ==> flow[i].id != me.id
    requires FreshIds(b.With(q.side, ahead + tail), Messages(q.side, q.price, flow))
    ensures var x, agree := b.With(q.side, ahead + tail), AllAgree(Total(ahead), me.qty, tail, flow);
      && (QuoteFills(q, x, flow, clock) == OrderFills(b, q.side, q.price, me.id, flow) <==> agree)
      && (agree ==>
            && QuoteAfter(q, x, flow, clock).remaining == OpenQty(Run(Allow, b, Messages(q.side, q.price, flow)).0, me.id)
            && NoneEmpty(FillsGiven(q, x, flow, clock)))
  {
    var x, l, v := b.With(q.side, ahead + tail), Total(ahead), Volume(flow);
    assert q.price == me.price;
    hide *;
    StartsKept(b, q, ahead, me, tail);
    StartsShared(b, q.side, ahead, me, tail);
    OrderFillsAre(b, q.side, q.price, me, l, flow);
    RealFills(b, q.side, ahead, me, tail, flow);
    var lvl := RunsTogether(q, x, me.id, me.qty, l, ahead, tail, flow, clock);
    if AllAgree(l, me.qty, tail, flow) {
      KeepsRemaining(Run(Allow, x, Messages(q.side, q.price, flow)).0, QuoteAfter(q, x, flow, clock), q.side, q.price, me.id,
        me.qty, l, lvl, tail, v, Joined(flow));
    }
  }

  lemma {:induction false} KeepsRemaining(x: Book, now: VirtualQuote, side: Side, price: Price, me: OrderId, size: Qty, l: Qty,
          lvl: Queue, tail: Queue, v: Qty, j: Qty)
    requires Keeps(x, now, side, price, me, size, l, lvl, tail, v, j)
    ensures now.remaining == size - FifoFill(size, l, v)
  {
    hide Around, OnePrice;
  }

  /** In particular if no aggressor wants more than the level shows. */
  lemma {:induction false} QuoteIsRealOrder(q: VirtualQuote, b: Book, ahead: Queue, me: Resting, tail: Queue, flow: seq<Flow>,
          clock: nat -> Stamp)
    requires Good(b) && b.At(q.side) == ahead + [me] + tail && OnePrice(ahead, me.price) && me.qty > 0
    requires forall i :: 0 <= i < |tail| ==> Better(q.side, me.price, tail[i].price)
    requires q == Placed(q.side, me.price, me.qty, Total(ahead), q.placedTs)
    requires FreshIds(b, Messages(q.side, q.price, flow)) && forall i :: 0 <= i < |flow| ==> flow[i].id != me.id
    requires FreshIds(b.With(q.side, ahead + tail), Messages(q.side, q.price, flow))
    requires forall k :: 0 <= k < |flow| && flow[k].Trades? ==>
               !Outruns(Total(ahead), Volume(flow[..k]), Joined(flow[..k]), flow[k].qty)
    ensures var x := b.With(q.side, ahead + tail);
      && QuoteFills(q, x, flow, clock) == OrderFills(b, q.side, q.price, me.id, flow)
      && QuoteAfter(q, x, flow, clock).remaining == OpenQty(Run(Allow, b, Messages(q.side, q.price, flow)).0, me.id)
      && NoneEmpty(FillsGiven(q, x, flow, clock))
  {
    assert AllAgree(Total(ahead), me.qty, tail, flow) by {
      hide Volume, Joined, Outruns, Total, FreshIds, Good;
    }
    hide *;
    QuoteAgreesIff(q, b, ahead, me, tail, flow, clock);
  }

  /** What goes wrong otherwise: one aggressor that wants more than the level shows fills the order by
      what is beyond the units ahead, but the quote not at all, or in full if worse prices trade. */
  lemma {:induction false} OutrunFills(q: VirtualQuote, b: Book, ahead: Queue, me: Resting, tail: Queue, f: Flow,
          clock: nat -> Stamp)
    requires Good(b) && b.At(q.side) == ahead + [me] + tail && OnePrice(ahead, me.price) && me.qty > 0
    requires forall i :: 0 <= i < |tail| ==> Better(q.side, me.price, tail[i].price)
    requires q == Placed(q.side, me.price, me.qty, Total(ahead), q.placedTs)
    requires f.Trades? && f.qty > Total(ahead) && f.id != me.id && b.Locate(f.id) == None
    requires b.With(q.side, ahead + tail).Locate(f.id) == None
    ensures OrderFills(b, q.side, q.price, me.id, [f]) == [Min(me.qty, f.qty - Total(ahead))]
    ensures QuoteFills(q, b.With(q.side, ahead + tail), [f], clock) == [if f.market && tail != [] then me.qty else 0]
  {
    assert q.price == me.price;
    hide *;
    OutrunOrder(b, q.side, ahead, me, tail, f);
    StartsKept(b, q, ahead, me, tail);
    OutrunQuoted(q, b.With(q.side, ahead + tail), me.id, me.qty, Total(ahead), ahead, tail, f, clock);
  }

  lemma {:induction false} OutrunOrder(b: Book, side: Side, ahead: Queue, me: Resting, tail: Queue, f: Flow)
    requires Good(b) && b.At(side) == ahead + [me] + tail && OnePrice(ahead, me.price)
    requires forall i :: 0 <= i < |tail| ==> Better(side, me.price, tail[i].price)
    requires f.Trades? && f.qty > Total(ahead) && f.id != me.id && b.Locate(f.id) == None
    ensures OrderFills(b, side, me.price, me.id, [f]) == [Min(me.qty, f.qty - Total(ahead))]
  {
    hide *;
    OneMessageFlow(b, side, me.price, f);
    StartsShared(b, side, ahead, me, tail);
    OneShare(me.qty, Total(ahead), f);
    OrderFillsAre(b, side, me.price, me, Total(ahead), [f]);
  }

  lemma {:induction false} OutrunQuoted(q: VirtualQuote, x: Book, me: OrderId, size: Qty, l: Qty, lvl: Queue, tail: Queue, f: Flow,
          clock: nat -> Stamp)
    requires size > 0 && Keeps(x, q, q.side, q.price, me, size, l, lvl, tail, 0, 0)
    requires f.Trades? && f.qty > l && x.Locate(f.id) == None
    ensures QuoteFills(q, x, [f], clock) == [if f.market && tail != [] then size else 0]
  {
    hide *;
    OneShare(size, l, f);
    OutrunStart(q, x, [f], clock);
    OutrunMessage(x, q, q.side, q.price, me, size, l, lvl, tail, 0, 0, f, clock(0));
    QuoteFillsUnfold(q, x, [f], clock);
  }

  lemma {:induction false} OneMessageFlow(b: Book, side: Side, price: Price, f: Flow)
    requires b.Locate(f.id) == None
    ensures FreshIds(b, Messages(side, price, [f]))
  {
    var ms := Messages(side, price, [f]);
    assert [f][..0] == [] && Messages(side, price, []) == [] && ms == [] + [MessageOf(side, price, f)];
    assert ms[..0] == [] && FreshIds(b, []) && Run(Allow, b, []).0 == b;
    hide Book.Locate;
  }

  lemma {:induction false} OneShare(size: Qty, l: Qty, f: Flow)
    requires f.Trades? && f.qty > l
    ensures OrderShares(size, l, [f]) == [Min(size, f.qty - l)]
    ensures Outruns(l, 0, 0, f.qty) && FifoFill(size, l, 0) == 0
  {
    assert [f][..0] == [] && Volume([]) == 0 && OrderShares(size, l, []) == [];
  }

  lemma {:induction false} OutrunStart(q: VirtualQuote, x: Book, flow: seq<Flow>, clock: nat -> Stamp)
    requires |flow| == 1
    ensures flow[..0] == [] && QuoteFills(q, x, flow[..0], clock) == [] && QuoteAfter(q, x, flow[..0], clock) == q
    ensures Run(Allow, x, Messages(q.side, q.price, flow[..0])).0 == x
  {
    NoEvents(Prorated, q);
    assert flow[..0] == [] && Messages(q.side, q.price, []) == [];
  }
}
