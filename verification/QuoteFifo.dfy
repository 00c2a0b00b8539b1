/** A quote under trades at its price and levels that do not shrink, in any order and number: it is
    filled as an order in its place would be, whatever the rule about cancellations. */
module QuoteFifos {
  import opened Types
  import opened PriceTimeBook
  import opened QueueLemmas
  import opened BookInvariants
  import opened QuoteSim
  import opened QuoteRuns
  import opened QuoteQueue

  // ---- what is reported ----

  /** The units an event prints at `price`. */
  function UnitsAt(price: Price, e: QuoteEvent): Qty {
    if e.Print? && e.trade.price == price then e.trade.qty else 0
  }

  /** The units printed at `price`. */
  function VolumeAt(price: Price, es: seq<QuoteEvent>): Qty
    decreases |es|
  {
    if es == [] then 0 else VolumeAt(price, es[..|es| - 1]) + UnitsAt(price, es[|es| - 1])
  }

  /** The same, print by print. */
  function PrintedAt(price: Price, es: seq<QuoteEvent>): seq<Qty>
    decreases |es|
  {
    if es == [] then []
    else
      PrintedAt(price, es[..|es| - 1])
      + if es[|es| - 1].Print? && es[|es| - 1].trade.price == price then [es[|es| - 1].trade.qty] else []
  }

  /** What is known of the level after one more event: what it shows now, or what it showed less what
      was printed, if that much was known. */
  function KnownAfter(price: Price, known: Qty, e: QuoteEvent): Qty {
    if e.Level? then e.qty else if UnitsAt(price, e) >= known then 0 else known - UnitsAt(price, e)
  }

  /** What is known of the level at `price` when it was `shown` at first. */
  function Known(price: Price, shown: Qty, es: seq<QuoteEvent>): Qty
    decreases |es|
  {
    if es == [] then shown else KnownAfter(price, Known(price, shown, es[..|es| - 1]), es[|es| - 1])
  }

  /** A trade at the price or, for others, at a better one; or a level that is shown no smaller than it
      was known to be. */
  predicate Grows(side: Side, price: Price, known: Qty, e: QuoteEvent) {
    match e
    case Print(t, _) => t.price == price || Better(side, t.price, price)
    case Level(qty) => qty >= known
    case Crossed(_, _) => false
    case Withdrawn => false
  }

  /** Any mix of such events. No print is bounded by what is known of the level. */
  predicate GrowthOnly(side: Side, price: Price, shown: Qty, es: seq<QuoteEvent>) {
    forall k :: 0 <= k < |es| ==> Grows(side, price, Known(price, shown, es[..k]), es[k])
  }

  // ---- the fills of an order in line ----

  function Sum(qtys: seq<Qty>): Qty
    decreases |qtys|
  {
    if qtys == [] then 0 else Sum(qtys[..|qtys| - 1]) + qtys[|qtys| - 1]
  }

  /** The fills of an order of `size` behind `ahead` units, one for each trade that reaches it. */
  function SharesOf(size: Qty, ahead: Qty, trades: seq<Qty>): seq<Qty>
    decreases |trades|
  {
    if trades == [] then []
    else
      var front := trades[..|trades| - 1];
      SharesOf(size, ahead, front) + Unless0(FifoFill(size, ahead, Sum(trades)) - FifoFill(size, ahead, Sum(front)))
  }

  function Quantities(fills: seq<Fill>): seq<Qty> {
    seq(|fills|, i requires 0 <= i < |fills| => fills[i].qty)
  }

  // ---- runs of the quote ----

  lemma {:induction false} RunEnd(rule: CancelRule, q: VirtualQuote, es: seq<QuoteEvent>, front: seq<QuoteEvent>, e: QuoteEvent)
    requires es == front + [e]
    ensures var r := RunQuote(rule, q, front);
      var o := OnEvent(rule, r.quote, e);
      RunQuote(rule, q, es) == Effect(o.quote, r.fills + o.fills)
  {
    assert es[..|es| - 1] == front && es[|es| - 1] == e;
    hide OnEvent;
  }

  lemma {:induction false} NoEvents(rule: CancelRule, q: VirtualQuote)
    ensures RunQuote(rule, q, []) == Effect(q, [])
  {
  }

  lemma {:induction false} RunConcat(rule: CancelRule, q: VirtualQuote, a: seq<QuoteEvent>, b: seq<QuoteEvent>)
    ensures var r := RunQuote(rule, q, a);
      var r' := RunQuote(rule, r.quote, b);
      RunQuote(rule, q, a + b) == Effect(r'.quote, r.fills + r'.fills)
    decreases |b|
  {
    hide *;
    var r := RunQuote(rule, q, a);
    if b == [] {
      NoEvents(rule, r.quote);
      assert a + b == a && r.fills + [] == r.fills;
    } else {
      var front, e := b[..|b| - 1], b[|b| - 1];
      var r1 := RunQuote(rule, r.quote, front);
      RunConcat(rule, q, a, front);
      assert a + b == (a + front) + [e];
      RunEnd(rule, q, a + b, a + front, e);
      RunEnd(rule, r.quote, b, front, e);
      Regroup(r.fills, r1.fills, OnEvent(rule, r1.quote, e).fills);
    }
  }

  /** Filled, and so out of the game. */
  ghost predicate Done(q: VirtualQuote) {
    q.remaining == 0 && !q.active && Sound(q)
  }

  lemma {:induction false} StaysDone(rule: CancelRule, q: VirtualQuote, es: seq<QuoteEvent>)
    requires Done(q)
    ensures Done(RunQuote(rule, q, es).quote) && RunQuote(rule, q, es).fills == []
    decreases |es|
  {
    if es != [] {
      var front := RunQuote(rule, q, es[..|es| - 1]);
      StaysDone(rule, q, es[..|es| - 1]);
      EventSound(rule, front.quote, es[|es| - 1]);
    }
  }

  ghost predicate NoneEmpty(fills: seq<Fill>) {
    forall i :: 0 <= i < |fills| ==> fills[i].qty > 0
  }

  lemma {:induction false} NoneEmptyConcat(a: seq<Fill>, b: seq<Fill>)
    requires NoneEmpty(a) && NoneEmpty(b)
    ensures NoneEmpty(a + b) && NoneEmpty([])
  {
  }

  // ---- one event ----

  /** An open quote with `a` whole units ahead. */
  ghost predicate Waits(q: VirtualQuote, side: Side, price: Price, open: Qty, a: Qty) {
    && q.active && q.side == side && q.price == price && q.remaining == open > 0
    && q.queueAhead == a as real && a <= q.levelQtySeen
  }

  /** The quote that waited with `open` units behind `a`, after trades of `n` units. */
  ghost predicate Served(r: VirtualQuote, side: Side, price: Price, open: Qty, a: Qty, n: Qty) {
    var fill := FifoFill(open, a, n);
    if fill == open then Done(r) else Waits(r, side, price, open - fill, StillAhead(a, n))
  }

  /** With a whole number of units ahead a trade at the price fills whole units, however many it is of. */
  lemma {:induction false} TradeServes(rule: CancelRule, q: VirtualQuote, side: Side, price: Price, open: Qty, a: Qty, e: QuoteEvent)
    requires Waits(q, side, price, open, a) && e.Print? && e.trade.price == price
    ensures var o, n := OnEvent(rule, q, e), e.trade.qty;
      && Served(o.quote, side, price, open, a, n)
      && Quantities(o.fills) == Unless0(FifoFill(open, a, n))
      && o.quote.levelQtySeen == KnownAfter(price, q.levelQtySeen, e)
  {
    EventSound(rule, q, e);
    if e.trade.qty > a {
      var consumed := (e.trade.qty - a) as real;
      assert consumed.Floor == e.trade.qty - a;
    }
  }

  lemma {:induction false} EventServes(rule: CancelRule, q: VirtualQuote, side: Side, price: Price, open: Qty, a: Qty, e: QuoteEvent)
    requires Waits(q, side, price, open, a) && Grows(side, price, q.levelQtySeen, e)
    ensures var o, n := OnEvent(rule, q, e), UnitsAt(price, e);
      && Served(o.quote, side, price, open, a, n)
      && Quantities(o.fills) == Unless0(FifoFill(open, a, n))
      && o.quote.levelQtySeen == KnownAfter(price, q.levelQtySeen, e)
  {
    if e.Print? && e.trade.price == price {
      TradeServes(rule, q, side, price, open, a, e);
    } else {
      assert OnEvent(rule, q, e).fills == [];
    }
  }

  // ---- any mix of them ----

  lemma {:induction false} QuantitiesConcat(a: seq<Fill>, b: seq<Fill>)
    ensures Quantities(a + b) == Quantities(a) + Quantities(b) && Quantities([]) == []
  {
  }

  lemma {:induction false} MixUnfolds(side: Side, price: Price, shown: Qty, es: seq<QuoteEvent>)
    requires es != [] && GrowthOnly(side, price, shown, es)
    ensures var front, e := es[..|es| - 1], es[|es| - 1];
      && GrowthOnly(side, price, shown, front) && Grows(side, price, Known(price, shown, front), e)
      && Known(price, shown, es) == KnownAfter(price, Known(price, shown, front), e)
      && VolumeAt(price, es) == VolumeAt(price, front) + UnitsAt(price, e)
  {
    var front := es[..|es| - 1];
    hide Grows, Known, KnownAfter, UnitsAt;
    forall k | 0 <= k < |front| ensures front[..k] == es[..k] && front[k] == es[k] {}
  }

  /** The shares of the prints, and what one more print adds. */
  lemma {:induction false} PrintShares(open: Qty, a: Qty, price: Price, es: seq<QuoteEvent>)
    requires es != []
    ensures var front := es[..|es| - 1];
      SharesOf(open, a, PrintedAt(price, es))
      == SharesOf(open, a, PrintedAt(price, front))
         + Unless0(FifoFill(open, a, VolumeAt(price, es)) - FifoFill(open, a, VolumeAt(price, front)))
  {
    var front, e := es[..|es| - 1], es[|es| - 1];
    VolumeIsSum(price, front);
    VolumeIsSum(price, es);
    hide FifoFill, Sum;
    if e.Print? && e.trade.price == price {
      assert PrintedAt(price, es)[..|PrintedAt(price, es)| - 1] == PrintedAt(price, front);
    } else {
      assert PrintedAt(price, es) == PrintedAt(price, front);
    }
  }

  lemma {:induction false} VolumeIsSum(price: Price, es: seq<QuoteEvent>)
    ensures VolumeAt(price, es) == Sum(PrintedAt(price, es))
    decreases |es|
  {
    if es != [] {
      var front, e := es[..|es| - 1], es[|es| - 1];
      VolumeIsSum(price, front);
      if e.Print? && e.trade.price == price {
        assert PrintedAt(price, es)[..|PrintedAt(price, es)| - 1] == PrintedAt(price, front);
      } else {
        assert PrintedAt(price, es) == PrintedAt(price, front);
      }
    }
  }

  /** From a place in line on, any mix of trades and growth serves the quote first come, first served. */
  lemma {:induction false} MixServes(rule: CancelRule, q: VirtualQuote, side: Side, price: Price, open: Qty, a: Qty, es: seq<QuoteEvent>)
    requires Waits(q, side, price, open, a) && GrowthOnly(side, price, q.levelQtySeen, es)
    ensures var r, n := RunQuote(rule, q, es), VolumeAt(price, es);
      && Served(r.quote, side, price, open, a, n)
      && Quantities(r.fills) == SharesOf(open, a, PrintedAt(price, es))
      && (FifoFill(open, a, n) < open ==> r.quote.levelQtySeen == Known(price, q.levelQtySeen, es))
    decreases |es|
  {
    hide *;
    if es == [] {
      NoneServed(rule, q, side, price, open, a);
    } else {
      var front, e := es[..|es| - 1], es[|es| - 1];
      var r, n, m := RunQuote(rule, q, front), VolumeAt(price, front), UnitsAt(price, e);
      MixUnfolds(side, price, q.levelQtySeen, es);
      MixServes(rule, q, side, price, open, a, front);
      PrintShares(open, a, price, es);
      RunEnd(rule, q, es, front, e);
      ServedIs(r.quote, side, price, open, a, n);
      if FifoFill(open, a, n) == open {
        DoneEvent(rule, r.quote, e);
        ServedDone(OnEvent(rule, r.quote, e).quote, side, price, open, a, n, m);
      } else {
        EventServes(rule, r.quote, side, price, open - FifoFill(open, a, n), StillAhead(a, n), e);
        ServedMore(OnEvent(rule, r.quote, e).quote, side, price, open, a, n, m);
      }
      QuantitiesConcat(r.fills, OnEvent(rule, r.quote, e).fills);
    }
  }

  lemma {:induction false} NoneServed(rule: CancelRule, q: VirtualQuote, side: Side, price: Price, open: Qty, a: Qty)
    requires Waits(q, side, price, open, a)
    ensures RunQuote(rule, q, []) == Effect(q, []) && VolumeAt(price, []) == 0 && Served(q, side, price, open, a, 0)
    ensures Quantities([]) == SharesOf(open, a, PrintedAt(price, [])) && Known(price, q.levelQtySeen, []) == q.levelQtySeen
  {
  }

  lemma {:induction false} ServedIs(r: VirtualQuote, side: Side, price: Price, open: Qty, a: Qty, n: Qty)
    requires Served(r, side, price, open, a, n)
    ensures FifoFill(open, a, n) <= open
    ensures if FifoFill(open, a, n) == open then Done(r) else Waits(r, side, price, open - FifoFill(open, a, n), StillAhead(a, n))
  {
  }

  lemma {:induction false} DoneEvent(rule: CancelRule, q: VirtualQuote, e: QuoteEvent)
    requires Done(q)
    ensures Done(OnEvent(rule, q, e).quote) && OnEvent(rule, q, e).fills == []
  {
    EventSound(rule, q, e);
  }

  lemma {:induction false} ServedDone(r: VirtualQuote, side: Side, price: Price, open: Qty, a: Qty, n: Qty, m: Qty)
    requires Done(r) && FifoFill(open, a, n) == open
    ensures Served(r, side, price, open, a, n + m) && FifoFill(open, a, n + m) == open && Unless0(0) == []
  {
    hide Done;
  }

  lemma {:induction false} ServedMore(r: VirtualQuote, side: Side, price: Price, open: Qty, a: Qty, n: Qty, m: Qty)
    requires FifoFill(open, a, n) < open
    requires Served(r, side, price, open - FifoFill(open, a, n), StillAhead(a, n), m)
    ensures Served(r, side, price, open, a, n + m)
    ensures FifoFill(open - FifoFill(open, a, n), StillAhead(a, n), m) == FifoFill(open, a, n + m) - FifoFill(open, a, n)
  {
    hide Done, Waits;
  }

  // ---- the whole life of a quote ----

  lemma {:induction false} SharesTotal(size: Qty, ahead: Qty, trades: seq<Qty>)
    ensures Sum(SharesOf(size, ahead, trades)) == FifoFill(size, ahead, Sum(trades))
    ensures forall i :: 0 <= i < |SharesOf(size, ahead, trades)| ==> SharesOf(size, ahead, trades)[i] > 0
    decreases |trades|
  {
    if trades != [] {
      var front := trades[..|trades| - 1];
      SharesTotal(size, ahead, front);
      var n := FifoFill(size, ahead, Sum(trades)) - FifoFill(size, ahead, Sum(front));
      assert n >= 0;
      if n > 0 {
        assert (SharesOf(size, ahead, front) + [n])[..|SharesOf(size, ahead, front)|] == SharesOf(size, ahead, front);
      } else {
        assert SharesOf(size, ahead, trades) == SharesOf(size, ahead, front);
      }
    }
  }

  lemma {:induction false} FilledIsSum(fills: seq<Fill>)
    ensures TotalFilled(fills) == Sum(Quantities(fills))
    decreases |fills|
  {
    if fills != [] {
      FilledIsSum(fills[..|fills| - 1]);
      assert Quantities(fills)[..|fills| - 1] == Quantities(fills[..|fills| - 1]);
    }
  }

  /** The fills of a quote placed at the back of a level of `level` units, over any mix of trades at
      its price, of whatever size, and growth of the level, shown whenever it may be: those of an order
      of its size behind `level` units, trade by trade. In all min(size, max(0, V - level)) of the V
      units traded, and the rest is open, with what is left of `level` ahead of it. */
  lemma {:induction false} FifoShare(rule: CancelRule, side: Side, price: Price, size: Qty, level: Qty, ts: int, es: seq<QuoteEvent>)
    requires GrowthOnly(side, price, level, es)
    ensures var r, v := RunQuote(rule, Placed(side, price, size, level, ts), es), VolumeAt(price, es);
      && Quantities(r.fills) == SharesOf(size, level, PrintedAt(price, es)) && NoneEmpty(r.fills)
      && TotalFilled(r.fills) == Min(size, if v > level then v - level else 0)
      && r.quote.remaining == size - TotalFilled(r.fills)
      && (r.quote.remaining > 0 ==> r.quote.active && r.quote.queueAhead == StillAhead(level, v) as real)
  {
    var q := Placed(side, price, size, level, ts);
    var r, v := RunQuote(rule, q, es), VolumeAt(price, es);
    hide RunQuote, GrowthOnly, PrintedAt, SharesOf, Sum, Quantities, VolumeAt, Known;
    RunSound(rule, q, es);
    VolumeIsSum(price, es);
    SharesTotal(size, level, PrintedAt(price, es));
    if size == 0 {
      NothingToFill(rule, q, es);
      NoShares(level, PrintedAt(price, es));
      QuantitiesConcat([], []);
    } else {
      MixServes(rule, q, side, price, size, level, es);
    }
    FilledIsSum(r.fills);
    EachPositive(r.fills);
  }

  lemma {:induction false} EachPositive(fills: seq<Fill>)
    requires forall i :: 0 <= i < |Quantities(fills)| ==> Quantities(fills)[i] > 0
    ensures NoneEmpty(fills)
  {
    forall i | 0 <= i < |fills| ensures fills[i].qty > 0 {
      assert Quantities(fills)[i] == fills[i].qty;
    }
  }

  lemma {:induction false} NothingToFill(rule: CancelRule, q: VirtualQuote, es: seq<QuoteEvent>)
    requires q.remaining == 0
    ensures RunQuote(rule, q, es).fills == [] && RunQuote(rule, q, es).quote.remaining == 0
    decreases |es|
  {
    if es != [] {
      NothingToFill(rule, q, es[..|es| - 1]);
    }
  }

  lemma {:induction false} NoShares(ahead: Qty, trades: seq<Qty>)
    ensures SharesOf(0, ahead, trades) == []
    decreases |trades|
  {
    if trades != [] {
      NoShares(ahead, trades[..|trades| - 1]);
    }
  }

  /** Five hundred ahead of a quote of a hundred: 300 units trade and then 250. The queue ahead is eaten
      first, and the excess of 50 fills the quote. */
  lemma {:induction false} ExcessFills(rule: CancelRule, side: Side, price: Price, ts: int, a: QuoteEvent, b: QuoteEvent)
    requires a.Print? && a.trade.price == price && a.trade.qty == 300
    requires b.Print? && b.trade.price == price && b.trade.qty == 250
    ensures var first, both := RunQuote(rule, Placed(side, price, 100, 500, ts), [a]), RunQuote(rule, Placed(side, price, 100, 500, ts), [a, b]);
      && first.fills == [] && first.quote.queueAhead == 200.0
      && Quantities(both.fills) == [50] && both.quote.remaining == 50 && both.quote.active
      && both.fills == [Fill(b.trade.ts, side, price, 50, b.mid2, b.trade.ts - ts)]
  {
    hide *;
    Numbers();
    TwoPrints(price, 500, a, b);
    TwoShares();
    AtPriceGrows(side, price, 500, [a]);
    AtPriceGrows(side, price, 500, [a, b]);
    FifoShare(rule, side, price, 100, 500, ts, [a]);
    FifoShare(rule, side, price, 100, 500, ts, [a, b]);
    NoQuantities(RunQuote(rule, Placed(side, price, 100, 500, ts), [a]).fills);
    PlacedIs(side, price, 100, 500, ts);
    SecondFill(rule, Placed(side, price, 100, 500, ts), a, b);
  }

  lemma {:induction false} PlacedIs(side: Side, price: Price, size: Qty, level: Qty, ts: int)
    ensures var q := Placed(side, price, size, level, ts);
      Sound(q) && q.side == side && q.price == price && q.placedTs == ts
  {
  }

  /** What the second of two events fills stems from it. */
  lemma {:induction false} SecondFill(rule: CancelRule, q: VirtualQuote, a: QuoteEvent, b: QuoteEvent)
    requires Sound(q) && RunQuote(rule, q, [a]).fills == [] && b.Print? && Quantities(RunQuote(rule, q, [a, b]).fills) == [50]
    ensures RunQuote(rule, q, [a, b]).fills == [Fill(b.trade.ts, q.side, q.price, 50, b.mid2, b.trade.ts - q.placedTs)]
  {
    var r := RunQuote(rule, q, [a]);
    var o := OnEvent(rule, r.quote, b);
    RunSound(rule, q, [a]);
    RunEnd(rule, q, [a, b], [a], b);
    assert r.fills + o.fills == o.fills && Quantities(o.fills)[0] == o.fills[0].qty;
    hide RunQuote, OnEvent;
    FillsIff(rule, r.quote, b);
  }

  lemma {:induction false} Numbers()
    ensures Min(100, 0) == 0 && Min(100, 50) == 50 && StillAhead(500, 300) == 200
  {
  }

  lemma {:induction false} NoQuantities(fills: seq<Fill>)
    requires Quantities(fills) == []
    ensures fills == []
  {
    assert |Quantities(fills)| == |fills|;
  }

  /** Prints at the price need no level to be bounded by. */
  lemma {:induction false} AtPriceGrows(side: Side, price: Price, shown: Qty, es: seq<QuoteEvent>)
    requires forall i :: 0 <= i < |es| ==> es[i].Print? && es[i].trade.price == price
    ensures GrowthOnly(side, price, shown, es)
  {
    hide Known;
  }

  lemma {:induction false} TwoPrints(price: Price, shown: Qty, a: QuoteEvent, b: QuoteEvent)
    requires a.Print? && a.trade.price == price && b.Print? && b.trade.price == price
    ensures PrintedAt(price, [a]) == [a.trade.qty] && PrintedAt(price, [a, b]) == [a.trade.qty, b.trade.qty]
    ensures VolumeAt(price, [a]) == a.trade.qty && VolumeAt(price, [a, b]) == a.trade.qty + b.trade.qty
  {
    assert [a, b][..1] == [a] && [a][..0] == [];
    assert PrintedAt(price, []) == [] && VolumeAt(price, []) == 0;
  }

  lemma {:induction false} TwoShares()
    ensures SharesOf(100, 500, [300]) == [] && SharesOf(100, 500, [300, 250]) == [50]
  {
    assert [300, 250][..1] == [300] && [300][..0] == [];
    assert Sum([]) == 0 && Sum([300]) == 300 && Sum([300, 250]) == 550;
    assert SharesOf(100, 500, []) == [];
  }

  // ---- the real order ----

  /** The quantities of the aggressors. */
  function TradedIn(flow: seq<Flow>): seq<Qty>
    decreases |flow|
  {
    if flow == [] then [] else TradedIn(flow[..|flow| - 1]) + Unless0(VolumeOf(flow[|flow| - 1]))
  }

  lemma {:induction false} FlowShares(size: Qty, ahead: Qty, flow: seq<Flow>)
    ensures FifoFills(size, ahead, flow) == SharesOf(size, ahead, TradedIn(flow)) && Volume(flow) == Sum(TradedIn(flow))
    decreases |flow|
  {
    hide *;
    if flow == [] {
      NothingTraded(size, ahead);
    } else {
      FlowShares(size, ahead, flow[..|flow| - 1]);
      FillsUnfold(size, ahead, flow);
      TradedUnfolds(flow);
      SharesMore(size, ahead, TradedIn(flow[..|flow| - 1]), VolumeOf(flow[|flow| - 1]));
    }
  }

  lemma {:induction false} NothingTraded(size: Qty, ahead: Qty)
    ensures FifoFills(size, ahead, []) == SharesOf(size, ahead, TradedIn([])) && Volume([]) == Sum(TradedIn([]))
  {
  }

  lemma {:induction false} TradedUnfolds(flow: seq<Flow>)
    requires flow != []
    ensures TradedIn(flow) == TradedIn(flow[..|flow| - 1]) + Unless0(VolumeOf(flow[|flow| - 1]))
  {
  }

  lemma {:induction false} SharesMore(size: Qty, ahead: Qty, trades: seq<Qty>, n: Qty)
    ensures var more := trades + Unless0(n);
      && Sum(more) == Sum(trades) + n
      && SharesOf(size, ahead, more)
         == SharesOf(size, ahead, trades) + Unless0(FifoFill(size, ahead, Sum(more)) - FifoFill(size, ahead, Sum(trades)))
  {
    hide FifoFill;
    if n > 0 {
      assert (trades + [n])[..|trades|] == trades;
    } else {
      assert trades + [] == trades;
    }
  }

  /** A quote that is told of the trades at its price, each whole, and of growth of the level however
      it is shown, fares as the real order of its size behind the same units in a whole book: fill for
      fill, and the same is left of both. */
  lemma {:induction false} ToldWholeIsRealOrder(rule: CancelRule, b: Book, side: Side, ahead: Queue, me: Resting, tail: Queue,
          flow: seq<Flow>, ts: int, es: seq<QuoteEvent>)
    requires Good(b) && b.At(side) == ahead + [me] + tail && OnePrice(ahead, me.price)
    requires forall i :: 0 <= i < |tail| ==> Better(side, me.price, tail[i].price)
    requires FreshIds(b, Messages(side, me.price, flow)) && forall i :: 0 <= i < |flow| ==> flow[i].id != me.id
    requires GrowthOnly(side, me.price, Total(ahead), es) && PrintedAt(me.price, es) == TradedIn(flow)
    ensures var r, run := RunQuote(rule, Placed(side, me.price, me.qty, Total(ahead), ts), es), Run(Allow, b, Messages(side, me.price, flow));
      && Quantities(r.fills) == FillsOf(run.1, me.id)
      && r.quote.remaining == OpenQty(run.0, me.id)
  {
    hide *;
    RealFills(b, side, ahead, me, tail, flow);
    FifoShare(rule, side, me.price, me.qty, Total(ahead), ts, es);
    FlowShares(me.qty, Total(ahead), flow);
    VolumeIsSum(me.price, es);
    ShareIs(me.qty, Total(ahead), Volume(flow));
  }

  lemma {:induction false} ShareIs(size: Qty, ahead: Qty, v: Qty)
    ensures FifoFill(size, ahead, v) == Min(size, if v > ahead then v - ahead else 0)
  {
  }
}
