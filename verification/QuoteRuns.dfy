/** Whole lives of a quote: what every run keeps, and how far proration can be from the extremes of
    where cancelled quantity may have stood. */
module QuoteRuns {
  import opened Types
  import opened Shares
  import opened QuoteSim

  datatype QuoteEvent = Print(trade: TradePrint, mid2: Price) | Level(qty: Qty) | Crossed(ts: int, mid2: Price) | Withdrawn

  predicate Through(q: VirtualQuote, t: TradePrint) {
    if q.side.Bid? then t.price < q.price else t.price > q.price
  }

  function OnEvent(rule: CancelRule, q: VirtualQuote, e: QuoteEvent): Effect {
    match e
    case Print(t, mid2) => Consume(q, t, Through(q, t), mid2)
    case Level(qty) => Effect(UpdateLevel(rule, q, qty), [])
    case Crossed(ts, mid2) => Cross(q, ts, mid2)
    case Withdrawn => Effect(q.(active := false), [])
  }

  function RunQuote(rule: CancelRule, q: VirtualQuote, es: seq<QuoteEvent>): Effect
    decreases |es|
  {
    if es == [] then Effect(q, [])
    else
      var r := RunQuote(rule, q, es[..|es| - 1]);
      var e := OnEvent(rule, r.quote, es[|es| - 1]);
      Effect(e.quote, r.fills + e.fills)
  }

  // ---- one event ----

  /** The print went through the price of the quote. */
  predicate Beyond(q: VirtualQuote, price: Price) {
    if q.side == Bid then price < q.price else price > q.price
  }

  /** The fill is of the quote, by a print or a cross, at its time and mid. */
  ghost predicate StemsFrom(q: VirtualQuote, f: Fill, e: QuoteEvent) {
    (e.Print? && Stamped(q, f, e.trade.ts, e.mid2)) || (e.Crossed? && Stamped(q, f, e.ts, e.mid2))
  }

  /** An event fills an open quote if it crosses it, prints through it, or prints more at its price than
      is ahead, and then once: in full, or by the whole units beyond those ahead. */
  lemma {:induction false} FillsIff(rule: CancelRule, q: VirtualQuote, e: QuoteEvent)
    requires Sound(q)
    ensures var fills, whole := OnEvent(rule, q, e).fills, e.Crossed? || (e.Print? && Beyond(q, e.trade.price));
      && |fills| <= 1
      && (fills != [] <==>
            q.active && q.remaining > 0
            && (whole || (e.Print? && e.trade.price == q.price && e.trade.qty as real > q.queueAhead)))
      && (fills != [] ==>
            && StemsFrom(q, fills[0], e)
            && fills[0].qty == if whole then q.remaining else Min(q.remaining, (e.trade.qty as real - q.queueAhead).Floor))
  {
  }

  /** A print at a better price is for others: nothing changes. */
  lemma {:induction false} BetterPrintPasses(rule: CancelRule, q: VirtualQuote, e: QuoteEvent)
    requires e.Print? && Better(q.side, e.trade.price, q.price)
    ensures OnEvent(rule, q, e) == Effect(q, [])
  {
  }

  /** A quote that was withdrawn or filled takes no notice of anything. */
  lemma {:induction false} InactiveStays(rule: CancelRule, q: VirtualQuote, e: QuoteEvent)
    requires !q.active
    ensures OnEvent(rule, q, e) == Effect(q, [])
  {
  }

  // ---- every run ----

  lemma {:induction false} FilledSplit(a: seq<Fill>, b: seq<Fill>)
    ensures TotalFilled(a + b) == TotalFilled(a) + TotalFilled(b)
    decreases |b|
  {
    if b == [] {
      assert a + b == a;
    } else {
      assert (a + b)[..|a + b| - 1] == a + b[..|b| - 1];
      FilledSplit(a, b[..|b| - 1]);
    }
  }

  lemma {:induction false} EventSound(rule: CancelRule, q: VirtualQuote, e: QuoteEvent)
    requires Sound(q)
    ensures Sound(OnEvent(rule, q, e).quote) && Follows(q, OnEvent(rule, q, e))
  {
    match e
    case Print(t, mid2) => ConsumeSound(q, t, Through(q, t), mid2);
    case Level(qty) => UpdateSound(rule, q, qty);
    case Crossed(ts, mid2) => CrossSound(q, ts, mid2);
    case Withdrawn => assert TotalFilled([]) == 0;
  }

  lemma {:induction false} FollowsTrans(q: VirtualQuote, r: Effect, e: Effect)
    requires Follows(q, r) && Follows(r.quote, e)
    ensures Follows(q, Effect(e.quote, r.fills + e.fills))
  {
    FilledSplit(r.fills, e.fills);
  }

  lemma {:induction false} StemsMore(q: VirtualQuote, r: Effect, more: seq<Fill>, front: seq<QuoteEvent>, es: seq<QuoteEvent>)
    requires es != [] && front == es[..|es| - 1] && Follows(q, r) && |more| <= 1 && (more != [] ==> StemsFrom(r.quote, more[0], es[|es| - 1]))
    requires forall i :: 0 <= i < |r.fills| ==> exists k :: 0 <= k < |front| && StemsFrom(q, r.fills[i], front[k])
    ensures var fills := r.fills + more;
      forall i :: 0 <= i < |fills| ==> exists k :: 0 <= k < |es| && StemsFrom(q, fills[i], es[k])
  {
    var fills := r.fills + more;
    assert more != [] ==> StemsFrom(q, more[0], es[|es| - 1]);
    hide Follows, StemsFrom;
    forall i | 0 <= i < |fills| ensures exists k :: 0 <= k < |es| && StemsFrom(q, fills[i], es[k]) {
      if i < |r.fills| {
        var k :| 0 <= k < |front| && StemsFrom(q, r.fills[i], front[k]);
        assert front[k] == es[k];
      } else {
        assert StemsFrom(q, fills[i], es[|es| - 1]);
      }
    }
  }

  /** Over any run: the queue ahead stays within the level and never grows, and what was filled and
      what remains make up what there was, for every rule about cancellations; and every fill stems from
      a print or a cross of the run, with its time and mid and the wait since the quote was placed. */
  lemma {:induction false} RunSound(rule: CancelRule, q: VirtualQuote, es: seq<QuoteEvent>)
    requires Sound(q)
    ensures Sound(RunQuote(rule, q, es).quote) && Follows(q, RunQuote(rule, q, es))
    ensures var fills := RunQuote(rule, q, es).fills;
      forall i :: 0 <= i < |fills| ==> exists k :: 0 <= k < |es| && StemsFrom(q, fills[i], es[k])
    decreases |es|
  {
    if es == [] {
      assert TotalFilled([]) == 0;
    } else {
      var r := RunQuote(rule, q, es[..|es| - 1]);
      RunSound(rule, q, es[..|es| - 1]);
      EventSound(rule, r.quote, es[|es| - 1]);
      FollowsTrans(q, r, OnEvent(rule, r.quote, es[|es| - 1]));
      FillsIff(rule, r.quote, es[|es| - 1]);
      StemsMore(q, r, OnEvent(rule, r.quote, es[|es| - 1]).fills, es[..|es| - 1], es);
      hide Follows, Sound, OnEvent, StemsFrom;
    }
  }

  // ---- proration lies between the extremes ----

  /** `a` is at least as far along as `b`. */
  ghost predicate Leads(a: VirtualQuote, b: VirtualQuote) {
    && a.side == b.side && a.price == b.price && Sound(a) && Sound(b)
    && (a.remaining == 0
        || (a.active == b.active && a.levelQtySeen == b.levelQtySeen
            && a.queueAhead <= b.queueAhead && a.remaining <= b.remaining))
  }

  /** The pairs of rules between which the order is claimed. */
  predicate Closer(ra: CancelRule, rb: CancelRule) {
    (ra == AllAhead && rb == Prorated) || (ra == Prorated && rb == AllBehind)
  }

  lemma {:induction false} ShrinkMonotone(x: real, y: real, was: Qty, now: Qty)
    requires 0.0 <= x <= y <= was as real && now < was
    ensures Shrink(Prorated, x, was, now) <= Shrink(Prorated, y, was, now)
    ensures Shrink(AllBehind, x, was, now) <= Shrink(AllBehind, y, was, now)
  {
    hide Portion, Share, Shrink;
    ExtremesAre(x, was, now);
    ExtremesAre(y, was, now);
    ProratedIs(x, was, now);
    ProratedIs(y, was, now);
    PortionsOrdered(x, y, was as real, now as real);
  }

  lemma {:induction false} FillsOrdered(a: Qty, b: Qty, fa: nat, fb: nat)
    requires a <= b && fa >= fb
    ensures a - Min(a, fa) <= b - Min(b, fb)
  {
  }

  /** What a print at the price leaves of an open quote. */
  lemma {:induction false} PrintLeaves(q: VirtualQuote, t: TradePrint, mid2: Price)
    requires Sound(q) && q.active && q.remaining > 0 && t.price == q.price
    ensures var q', c := Consume(q, t, false, mid2).quote, t.qty as real - RealMin(t.qty as real, q.queueAhead);
      && q'.queueAhead == q.queueAhead - RealMin(t.qty as real, q.queueAhead)
      && q'.levelQtySeen == (if t.qty >= q.levelQtySeen then 0 else q.levelQtySeen - t.qty)
      && c >= 0.0 && c.Floor >= 0 && q'.remaining == q.remaining - Min(q.remaining, c.Floor)
      && q'.active == (q'.remaining > 0)
      && q'.side == q.side && q'.price == q.price
  {
  }

  lemma {:induction false} PrintKeepsLead(a: VirtualQuote, b: VirtualQuote, t: TradePrint, mid2: Price)
    requires Leads(a, b) && a.remaining > 0 && a.active
    ensures Leads(Consume(a, t, Through(a, t), mid2).quote, Consume(b, t, Through(b, t), mid2).quote)
  {
    ConsumeSound(a, t, Through(a, t), mid2);
    ConsumeSound(b, t, Through(b, t), mid2);
    if t.price == a.price {
      PrintLeaves(a, t, mid2);
      PrintLeaves(b, t, mid2);
      hide Consume, Follows, Sound;
      var v := t.qty as real;
      var ca, cb := v - RealMin(v, a.queueAhead), v - RealMin(v, b.queueAhead);
      assert ca >= cb;
      FillsOrdered(a.remaining, b.remaining, ca.Floor, cb.Floor);
    }
  }

  lemma {:induction false} KeepsLead(ra: CancelRule, rb: CancelRule, a: VirtualQuote, b: VirtualQuote, e: QuoteEvent)
    requires Leads(a, b) && Closer(ra, rb)
    ensures Leads(OnEvent(ra, a, e).quote, OnEvent(rb, b, e).quote)
  {
    EventSound(ra, a, e);
    EventSound(rb, b, e);
    hide Shrink, Consume;
    if a.remaining > 0 && a.active {
      match e
      case Print(t, mid2) => PrintKeepsLead(a, b, t, mid2);
      case Level(qty) =>
        if qty < a.levelQtySeen {
          ShrinkBounds(a.queueAhead, a.levelQtySeen, qty);
          ShrinkMonotone(a.queueAhead, b.queueAhead, a.levelQtySeen, qty);
          ShrinkBounds(b.queueAhead, a.levelQtySeen, qty);
        }
      case _ =>
    } else if a.remaining > 0 {
      assert e.Print? ==> Consume(a, e.trade, Through(a, e.trade), e.mid2) == Effect(a, []);
    }
  }

  lemma {:induction false} RunKeepsLead(ra: CancelRule, rb: CancelRule, a: VirtualQuote, b: VirtualQuote, es: seq<QuoteEvent>)
    requires Leads(a, b) && Closer(ra, rb)
    ensures Leads(RunQuote(ra, a, es).quote, RunQuote(rb, b, es).quote)
    decreases |es|
  {
    if es != [] {
      var front := es[..|es| - 1];
      RunKeepsLead(ra, rb, a, b, front);
      KeepsLead(ra, rb, RunQuote(ra, a, front).quote, RunQuote(rb, b, front).quote, es[|es| - 1]);
      hide Leads, OnEvent;
    }
  }

  /** Over any run the prorated quote has been filled no more than if all cancellations were ahead of
      it and no less than if they were behind it as far as they could be; and while it is open its
      queue ahead lies between those of the two extremes. */
  lemma {:induction false} Sandwich(q: VirtualQuote, es: seq<QuoteEvent>)
    requires Sound(q)
    ensures var low, mid, high := RunQuote(AllAhead, q, es), RunQuote(Prorated, q, es), RunQuote(AllBehind, q, es);
      && TotalFilled(high.fills) <= TotalFilled(mid.fills) <= TotalFilled(low.fills)
      && (low.quote.remaining > 0 ==> low.quote.queueAhead <= mid.quote.queueAhead)
      && (mid.quote.remaining > 0 ==> mid.quote.queueAhead <= high.quote.queueAhead)
  {
    RunKeepsLead(AllAhead, Prorated, q, q, es);
    RunKeepsLead(Prorated, AllBehind, q, q, es);
    RunSound(AllAhead, q, es);
    RunSound(Prorated, q, es);
    RunSound(AllBehind, q, es);
    hide RunQuote, Sound;
  }
}
