/** Virtual quotes filled from observed flow: a quote never enters the book, and its place in the
    queue at its price is estimated. Doubles are reals. */
module QuoteSim {
  import opened Types
  import opened Shares

  datatype TradePrint = TradePrint(ts: int, price: Price, qty: Qty, buyerIsMaker: bool)

  datatype Fill = Fill(ts: int, side: Side, price: Price, qty: Qty, midAtFill: Price, queueWait: int)

  datatype VirtualQuote = VirtualQuote(active: bool, side: Side, price: Price, remaining: Qty,
                                       queueAhead: real, levelQtySeen: Qty, placedTs: int)

  const NoQuote := VirtualQuote(false, Bid, 0, 0, 0.0, 0, 0)

  /** A quote after something happened to it, and the fills this made. */
  datatype Effect = Effect(quote: VirtualQuote, fills: seq<Fill>)

  function Placed(side: Side, price: Price, size: Qty, levelQty: Qty, ts: int): VirtualQuote {
    VirtualQuote(true, side, price, size, levelQty as real, levelQty, ts)
  }

  function EmitFill(q: VirtualQuote, qty: Qty, ts: int, mid2: Price): Effect
    requires qty <= q.remaining
  {
    Effect(q.(remaining := q.remaining - qty, active := q.active && q.remaining != qty),
           [Fill(ts, q.side, q.price, qty, mid2, ts - q.placedTs)])
  }

  function RealMin(a: real, b: real): real {
    if a < b then a else b
  }

  /** A trade print that may reach the quote: through its price it fills all, at its price it eats the
      queue ahead first. */
  function Consume(q: VirtualQuote, t: TradePrint, through: bool, mid2: Price): Effect {
    if !q.active || q.remaining == 0 then Effect(q, [])
    else if through then EmitFill(q, q.remaining, t.ts, mid2)
    else if t.price != q.price then Effect(q, [])
    else
      var eaten := if q.queueAhead > 0.0 then RealMin(t.qty as real, q.queueAhead) else 0.0;
      var seen := if t.qty >= q.levelQtySeen then 0 else q.levelQtySeen - t.qty;
      var q1 := q.(levelQtySeen := seen, queueAhead := q.queueAhead - eaten);
      var consumed := t.qty as real - eaten;
      if consumed <= 0.0 then Effect(q1, [])
      else EmitFill(q1, if consumed >= q.remaining as real then q.remaining else consumed.Floor, t.ts, mid2)
  }

  /** Where cancelled quantity is taken to have stood: the code prorates; the others are the extremes. */
  datatype CancelRule = Prorated | AllAhead | AllBehind

  /** The queue ahead after the level shrank from `was` to `now`. */
  function Shrink(rule: CancelRule, ahead: real, was: Qty, now: Qty): real
    requires now < was
  {
    match rule
    case Prorated =>
      var rest := ahead - Times((was - now) as real, Share(ahead, was as real));
      if rest < 0.0 then 0.0 else rest
    case AllAhead => if ahead < (was - now) as real then 0.0 else ahead - (was - now) as real
    case AllBehind => RealMin(ahead, now as real)
  }

  function UpdateLevel(rule: CancelRule, q: VirtualQuote, newQty: Qty): VirtualQuote {
    if !q.active then q
    else if newQty < q.levelQtySeen then
      q.(queueAhead := Shrink(rule, q.queueAhead, q.levelQtySeen, newQty), levelQtySeen := newQty)
    else q.(levelQtySeen := newQty)
  }

  function Cross(q: VirtualQuote, ts: int, mid2: Price): Effect {
    if !q.active || q.remaining == 0 then Effect(q, []) else EmitFill(q, q.remaining, ts, mid2)
  }

  function TotalFilled(fills: seq<Fill>): Qty
    decreases |fills|
  {
    if fills == [] then 0 else TotalFilled(fills[..|fills| - 1]) + fills[|fills| - 1].qty
  }

  // ---- what every event keeps ----

  /** The queue ahead is part of the level. */
  ghost predicate Sound(q: VirtualQuote) {
    0.0 <= q.queueAhead <= q.levelQtySeen as real
  }

  /** What an event may do to a quote: nobody joins ahead of it, what it loses it was filled, at its
      price, and it is not active once filled. */
  ghost predicate Follows(q: VirtualQuote, e: Effect) {
    && e.quote.queueAhead <= q.queueAhead
    && e.quote.remaining + TotalFilled(e.fills) == q.remaining
    && e.quote.price == q.price && e.quote.side == q.side && e.quote.placedTs == q.placedTs
    && (forall i :: 0 <= i < |e.fills| ==> e.fills[i].price == q.price && e.fills[i].side == q.side)
    && (e.quote.active ==> q.active && (q.remaining > 0 ==> e.quote.remaining > 0))
  }

  /** A fill of the quote at time `ts`: it records that time, the mid of that moment and the wait since
      the quote was placed. */
  ghost predicate Stamped(q: VirtualQuote, f: Fill, ts: int, mid2: Price) {
    f.ts == ts && f.side == q.side && f.price == q.price && f.midAtFill == mid2 && f.queueWait == ts - q.placedTs
  }

  lemma {:induction false} ConsumeStamped(q: VirtualQuote, t: TradePrint, through: bool, mid2: Price)
    ensures var fills := Consume(q, t, through, mid2).fills;
      forall i :: 0 <= i < |fills| ==> Stamped(q, fills[i], t.ts, mid2)
  {
  }

  lemma {:induction false} OneFill(f: Fill)
    ensures TotalFilled([f]) == f.qty && TotalFilled([]) == 0
  {
    assert [f][..0] == [];
  }

  lemma {:induction false} EmitFollows(q: VirtualQuote, qty: Qty, ts: int, mid2: Price)
    requires qty <= q.remaining
    ensures Follows(q, EmitFill(q, qty, ts, mid2))
  {
    OneFill(EmitFill(q, qty, ts, mid2).fills[0]);
  }

  lemma {:induction false} ConsumeSound(q: VirtualQuote, t: TradePrint, through: bool, mid2: Price)
    requires Sound(q)
    ensures Sound(Consume(q, t, through, mid2).quote) && Follows(q, Consume(q, t, through, mid2))
  {
    assert TotalFilled([]) == 0;
    if q.active && q.remaining > 0 {
      if through {
        EmitFollows(q, q.remaining, t.ts, mid2);
      } else if t.price == q.price {
        var eaten := if q.queueAhead > 0.0 then RealMin(t.qty as real, q.queueAhead) else 0.0;
        var seen := if t.qty >= q.levelQtySeen then 0 else q.levelQtySeen - t.qty;
        var q1 := q.(levelQtySeen := seen, queueAhead := q.queueAhead - eaten);
        var consumed := t.qty as real - eaten;
        if consumed > 0.0 {
          EmitFollows(q1, if consumed >= q.remaining as real then q.remaining else consumed.Floor, t.ts, mid2);
        }
      }
    }
  }

  lemma {:induction false} CrossSound(q: VirtualQuote, ts: int, mid2: Price)
    requires Sound(q)
    ensures Sound(Cross(q, ts, mid2).quote) && Follows(q, Cross(q, ts, mid2))
  {
    assert TotalFilled([]) == 0;
    if q.active && q.remaining > 0 {
      EmitFollows(q, q.remaining, ts, mid2);
    }
  }

  /** Every rule keeps the queue ahead within what is left of the level, and proration lies between
      the extremes. */
  lemma {:induction false} ShrinkBounds(ahead: real, was: Qty, now: Qty)
    requires 0.0 <= ahead <= was as real && now < was
    ensures 0.0 <= Shrink(AllAhead, ahead, was, now) <= Shrink(Prorated, ahead, was, now) <= Shrink(AllBehind, ahead, was, now)
    ensures Shrink(AllBehind, ahead, was, now) <= now as real && Shrink(AllBehind, ahead, was, now) <= ahead
  {
    hide Portion, Share, Shrink;
    ExtremesAre(ahead, was, now);
    ProratedIs(ahead, was, now);
    PortionBounds(ahead, was as real, now as real);
  }

  lemma {:induction false} ExtremesAre(ahead: real, was: Qty, now: Qty)
    requires now < was
    ensures var gone := was as real - now as real;
      Shrink(AllAhead, ahead, was, now) == if ahead < gone then 0.0 else ahead - gone
    ensures Shrink(AllBehind, ahead, was, now) == if ahead < now as real then ahead else now as real
  {
  }

  /** Proration keeps of the queue ahead the share of the level that is left. */
  lemma {:induction false} ProratedIs(ahead: real, was: Qty, now: Qty)
    requires 0.0 <= ahead <= was as real && now < was
    ensures Shrink(Prorated, ahead, was, now) == Portion(ahead, was as real, now as real)
  {
    hide Portion, Share, Times;
    var w, n := was as real, now as real;
    PortionLeft(ahead, w, n);
    PortionBounds(ahead, w, n);
    assert (was - now) as real == w - n;
  }

  /** The queue ahead is the same share of what is left of the level as it was of the level. */
  lemma {:induction false} ProrationKeepsShare(ahead: real, was: Qty, now: Qty)
    requires 0.0 <= ahead <= was as real && now < was
    ensures var share := Share(ahead, was as real);
      ahead == Times(share, was as real) && Shrink(Prorated, ahead, was, now) == Times(share, now as real)
  {
    ProratedIs(ahead, was, now);
    hide Shrink;
    TimesCommutes(Share(ahead, was as real), now as real);
  }

  lemma {:induction false} UpdateSound(rule: CancelRule, q: VirtualQuote, newQty: Qty)
    requires Sound(q)
    ensures Sound(UpdateLevel(rule, q, newQty)) && Follows(q, Effect(UpdateLevel(rule, q, newQty), []))
  {
    hide Shrink;
    if q.active && newQty < q.levelQtySeen {
      ShrinkBounds(q.queueAhead, q.levelQtySeen, newQty);
      assert rule == Prorated || rule == AllAhead || rule == AllBehind;
    }
  }

  // ---- fills of nothing ----

  /** A print makes a fill of quantity zero exactly when it clears the queue ahead by a fraction of a
      unit, which only a prorated queue can have. */
  lemma {:induction false} ZeroFillIff(q: VirtualQuote, t: TradePrint, through: bool, mid2: Price)
    requires Sound(q)
    ensures (exists i :: 0 <= i < |Consume(q, t, through, mid2).fills| && Consume(q, t, through, mid2).fills[i].qty == 0)
      <==> q.active && q.remaining > 0 && !through && t.price == q.price
           && q.queueAhead < t.qty as real < q.queueAhead + 1.0
  {
    var fills := Consume(q, t, through, mid2).fills;
    assert |fills| <= 1;
    assert (exists i :: 0 <= i < |fills| && fills[i].qty == 0) <==> |fills| == 1 && fills[0].qty == 0;
  }

  /** It does happen: three ahead; one trades and the level grows to five; then one of the five
      cancels; then two trade, and the quote of one is filled with nothing. */
  lemma {:induction false} ZeroFillHappens()
    ensures var trade := (n: nat) => TradePrint(0, 100, n, true);
      var q1 := Consume(Placed(Bid, 100, 1, 3, 0), trade(1), false, 0).quote;
      var q2 := UpdateLevel(Prorated, UpdateLevel(Prorated, q1, 5), 4);
      Consume(q2, trade(2), false, 0).fills == [Fill(0, Bid, 100, 0, 0, 0)]
  {
    var q1 := Consume(Placed(Bid, 100, 1, 3, 0), TradePrint(0, 100, 1, true), false, 0).quote;
    assert q1.queueAhead == 2.0 && q1.levelQtySeen == 2;
    var q2 := UpdateLevel(Prorated, UpdateLevel(Prorated, q1, 5), 4);
    assert q2.queueAhead == 1.6;
  }

  // ---- the simulator ----

  class QuoteSimulator {
    var bid: VirtualQuote
    var ask: VirtualQuote
    var fills: seq<Fill>

    function Get(side: Side): VirtualQuote
      reads this
    {
      if side.Bid? then bid else ask
    }

    ghost predicate Valid()
      reads this
    {
      Sound(bid) && Sound(ask) && (bid.active ==> bid.side == Bid) && (ask.active ==> ask.side == Ask)
    }

    constructor ()
      ensures Valid() && bid == NoQuote && ask == NoQuote && fills == []
    {
      bid, ask, fills := NoQuote, NoQuote, [];
    }

    method Set(side: Side, e: Effect)
      modifies this
      ensures Get(side) == e.quote && Get(side.Opposite()) == old(Get(side.Opposite())) && fills == old(fills) + e.fills
    {
      if side.Bid? {
        bid := e.quote;
      } else {
        ask := e.quote;
      }
      fills := fills + e.fills;
    }

    method Place(side: Side, price: Price, size: Qty, levelQty: Qty, ts: int)
      requires Valid()
      modifies this
      ensures Valid() && fills == old(fills)
      ensures Get(side) == Placed(side, price, size, levelQty, ts) && Get(side.Opposite()) == old(Get(side.Opposite()))
    {
      Set(side, Effect(Placed(side, price, size, levelQty, ts), []));
    }

    method Cancel(side: Side)
      requires Valid()
      modifies this
      ensures Valid() && fills == old(fills)
      ensures Get(side) == old(Get(side)).(active := false) && Get(side.Opposite()) == old(Get(side.Opposite()))
    {
      Set(side, Effect(Get(side).(active := false), []));
    }

    /** A sell aggressor reaches the bid, a buy aggressor the ask; what it fills and what remains make
        up what there was. */
    method OnTrade(t: TradePrint, mid2: Price)
      requires Valid()
      modifies this
      ensures Valid()
      ensures var side := if t.buyerIsMaker then Bid else Ask;
        var q := old(Get(side));
        var e := Consume(q, t, if t.buyerIsMaker then t.price < q.price else t.price > q.price, mid2);
        && Get(side) == e.quote && Get(side.Opposite()) == old(Get(side.Opposite()))
        && fills == old(fills) + e.fills && Follows(q, e)
        && forall i :: 0 <= i < |e.fills| ==> Stamped(q, e.fills[i], t.ts, mid2)
    {
      var side := if t.buyerIsMaker then Bid else Ask;
      var q := Get(side);
      var through := if t.buyerIsMaker then t.price < q.price else t.price > q.price;
      ConsumeSound(q, t, through, mid2);
      ConsumeStamped(q, t, through, mid2);
      hide Consume, Sound, Stamped;
      Set(side, Consume(q, t, through, mid2));
    }

    method OnLevelUpdate(side: Side, newQty: Qty)
      requires Valid()
      modifies this
      ensures Valid() && fills == old(fills)
      ensures Get(side) == UpdateLevel(Prorated, old(Get(side)), newQty) && Get(side.Opposite()) == old(Get(side.Opposite()))
      ensures Get(side).queueAhead <= old(Get(side)).queueAhead
    {
      var q := Get(side);
      UpdateSound(Prorated, q, newQty);
      hide Shrink, Sound;
      Set(side, Effect(UpdateLevel(Prorated, q, newQty), []));
    }

    method OnCross(side: Side, ts: int, mid2: Price)
      requires Valid()
      modifies this
      ensures Valid()
      ensures var q := old(Get(side));
        var e := Cross(q, ts, mid2);
        && Get(side) == e.quote && Get(side.Opposite()) == old(Get(side.Opposite()))
        && fills == old(fills) + e.fills && Follows(q, e)
        && (q.active ==> e.quote.remaining == 0)
        && forall i :: 0 <= i < |e.fills| ==> Stamped(q, e.fills[i], ts, mid2)
    {
      var q := Get(side);
      CrossSound(q, ts, mid2);
      hide Sound;
      Set(side, Cross(q, ts, mid2));
    }
  }
}
