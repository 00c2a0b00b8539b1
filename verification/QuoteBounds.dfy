/** A real order beside the virtual quotes that stand for it, when others cancel: wherever in the queue
    the cancelled orders stood, the order is filled no less than the quote that takes them all to have
    stood behind it, and no more than the one that takes them all to have stood ahead. */
module QuoteBounds {
  import opened Types
  import opened PriceTimeBook
  import opened QueueLemmas
  import opened BookInvariants
  import opened QuoteSim
  import opened QuoteRuns
  import opened QuoteQueue
  import opened QuoteFifos
  import opened QuoteFeeds

  // ---- the flow, and what is reported of it ----

  /** Aggressors and newcomers at the price, and cancellations of any orders. */
  datatype Move = Flows(f: Flow) | Leaves(id: OrderId)

  function MoveMessage(side: Side, price: Price, mv: Move): Message {
    match mv
    case Flows(f) => MessageOf(side, price, f)
    case Leaves(id) => Cancel(id)
  }

  function Sent(side: Side, price: Price, moves: seq<Move>): seq<Message>
    decreases |moves|
  {
    if moves == [] then [] else Sent(side, price, moves[..|moves| - 1]) + [MoveMessage(side, price, moves[|moves| - 1])]
  }

  /** The book after the moves. */
  function Moved(b: Book, side: Side, price: Price, moves: seq<Move>): Book {
    Run(Allow, b, Sent(side, price, moves)).0
  }

  /** What the exchange reports of a move: its trades, and then the level if it is shown. */
  function Told(x: Book, side: Side, price: Price, mv: Move, stamp: Stamp): seq<QuoteEvent> {
    var o := Step(Allow, x, MoveMessage(side, price, mv));
    Prints(side, o.events, stamp) + Shown(stamp, Depth(o.book.At(side), price))
  }

  function ToldAll(x: Book, side: Side, price: Price, moves: seq<Move>, clock: nat -> Stamp): seq<QuoteEvent>
    decreases |moves|
  {
    if moves == [] then []
    else
      var n := |moves| - 1;
      ToldAll(x, side, price, moves[..n], clock) + Told(Moved(x, side, price, moves[..n]), side, price, moves[n], clock(n))
  }

  /** New ids are not live; `me` is not cancelled; and while it is open no aggressor outruns the level
      that the exchange shows without it. */
  ghost predicate Fits(b: Book, x: Book, side: Side, price: Price, me: OrderId, mv: Move) {
    match mv
    case Flows(f) =>
      && f.id != me && b.Locate(f.id) == None && x.Locate(f.id) == None
      && (f.Trades? && OpenQty(b, me) > 0 ==> f.qty <= Depth(x.At(side), price))
    case Leaves(id) => id != me
  }

  ghost predicate AllFit(b: Book, x: Book, side: Side, price: Price, me: OrderId, moves: seq<Move>) {
    forall k :: 0 <= k < |moves| ==>
      Fits(Moved(b, side, price, moves[..k]), Moved(x, side, price, moves[..k]), side, price, me, moves[k])
  }

  lemma {:induction false} MovesUnfold(b: Book, side: Side, price: Price, moves: seq<Move>)
    requires moves != []
    ensures var n := |moves| - 1;
      Moved(b, side, price, moves) == Step(Allow, Moved(b, side, price, moves[..n]), MoveMessage(side, price, moves[n])).book
  {
    var ms, n := Sent(side, price, moves), |moves| - 1;
    assert ms[..|ms| - 1] == Sent(side, price, moves[..n]) && ms[|ms| - 1] == MoveMessage(side, price, moves[n]);
    hide Step, Sent, MoveMessage;
  }

  lemma {:induction false} FitsUnfold(b: Book, x: Book, side: Side, price: Price, me: OrderId, moves: seq<Move>)
    requires moves != [] && AllFit(b, x, side, price, me, moves)
    ensures var n := |moves| - 1;
      && AllFit(b, x, side, price, me, moves[..n])
      && Fits(Moved(b, side, price, moves[..n]), Moved(x, side, price, moves[..n]), side, price, me, moves[n])
  {
    var n := |moves| - 1;
    hide Fits, Moved;
    forall k | 0 <= k < n ensures moves[..n][..k] == moves[..k] && moves[..n][k] == moves[k] {}
  }

  // ---- cancelling ----

  /** The queue without `id`, if it was there. */
  function Drop(q: Queue, id: OrderId): Queue {
    if Has(q, id) then Remove(q, id) else q
  }

  lemma {:induction false} RemovedAt(q: Queue, id: OrderId) returns (i: nat)
    requires Has(q, id)
    ensures i < |q| && Drop(q, id) == q[..i] + q[i + 1..]
  {
    i := IndexOf(q, id);
  }

  lemma {:induction false} CutParts(q: Queue, i: nat)
    requires i < |q|
    ensures forall o :: o in q[..i] + q[i + 1..] ==> o in q
  {
  }

  lemma {:induction false} DropParts(q: Queue, id: OrderId)
    ensures forall i :: 0 <= i < |Drop(q, id)| ==> Drop(q, id)[i] in q
    ensures Total(Drop(q, id)) <= Total(q)
  {
    hide *;
    if Has(q, id) {
      var i := RemovedAt(q, id);
      CutParts(q, i);
      TotalWithout(q, i);
    } else {
      DropNone(q, id);
    }
  }

  lemma {:induction false} DropHas(q: Queue, id: OrderId, me: OrderId)
    requires !Has(q, me)
    ensures !Has(Drop(q, id), me)
  {
    DropParts(q, id);
    hide Drop;
    forall i | 0 <= i < |Drop(q, id)| ensures Drop(q, id)[i].id != me {
      var j :| 0 <= j < |q| && q[j] == Drop(q, id)[i];
    }
  }

  lemma {:induction false} DropOnePrice(q: Queue, id: OrderId, price: Price)
    requires OnePrice(q, price)
    ensures OnePrice(Drop(q, id), price)
  {
    DropParts(q, id);
    hide Drop;
  }

  lemma {:induction false} HasParts(a: Queue, b: Queue, id: OrderId)
    ensures Has(a + b, id) <==> Has(a, id) || Has(b, id)
  {
    if Has(a, id) {
      var i :| 0 <= i < |a| && a[i].id == id;
      assert (a + b)[i].id == id;
    }
    if Has(b, id) {
      var i :| 0 <= i < |b| && b[i].id == id;
      assert (a + b)[|a| + i].id == id;
    }
  }

  lemma {:induction false} DropAt(a: Queue, o: Resting, b: Queue)
    requires Distinct(a + [o] + b)
    ensures Drop(a + [o] + b, o.id) == a + b && !Has(a, o.id) && !Has(b, o.id)
  {
    DistinctSplit(a, o, b);
    RemoveSplit(a, o, b);
    hide Remove, Has, Distinct;
  }

  lemma {:induction false} DropNone(q: Queue, id: OrderId)
    requires !Has(q, id)
    ensures Drop(q, id) == q
  {
  }

  lemma {:induction false} DistinctParts(a: Queue, b: Queue)
    requires Distinct(a + b)
    ensures Distinct(a) && Distinct(b)
  {
    forall i, j | 0 <= i < j < |a| ensures a[i].id != a[j].id {
      assert (a + b)[i] == a[i] && (a + b)[j] == a[j];
    }
    forall i, j | 0 <= i < j < |b| ensures b[i].id != b[j].id {
      assert (a + b)[|a| + i] == b[i] && (a + b)[|a| + j] == b[j];
    }
  }

  /** A queue taken apart at an id. */
  lemma {:induction false} CutAt(q: Queue, id: OrderId) returns (a: Queue, o: Resting, b: Queue)
    requires Has(q, id)
    ensures q == a + [o] + b && o.id == id
  {
    var i :| 0 <= i < |q| && q[i].id == id;
    a, o, b := q[..i], q[i], q[i + 1..];
  }

  /** An id stands in one part of the queue at most. */
  lemma {:induction false} DropConcat(a: Queue, b: Queue, id: OrderId)
    requires Distinct(a + b)
    ensures Drop(a + b, id) == Drop(a, id) + Drop(b, id)
  {
    hide *;
    DistinctParts(a, b);
    HasParts(a, b, id);
    if Has(a, id) {
      var x, o, y := CutAt(a, id);
      assert a + b == x + [o] + (y + b);
      DropAt(x, o, y);
      DropAt(x, o, y + b);
      HasParts(y, b, id);
      DropNone(b, id);
      assert x + (y + b) == x + y + b;
    } else if Has(b, id) {
      var x, o, y := CutAt(b, id);
      assert a + b == (a + x) + [o] + y;
      DropAt(x, o, y);
      DropAt(a + x, o, y);
      DropNone(a, id);
      assert a + x + y == a + (x + y);
    } else {
      DropNone(a, id);
      DropNone(b, id);
      DropNone(a + b, id);
    }
  }

  /** A cancel takes its order out wherever it stands, and trades nothing. */
  lemma {:induction false} CancelDrops(b: Book, id: OrderId, side: Side, stamp: Stamp)
    requires Good(b)
    ensures var o := Step(Allow, b, Cancel(id));
      && Good(o.book) && Prints(side, o.events, stamp) == []
      && o.book.At(side) == Drop(b.At(side), id) && o.book.At(side.Opposite()) == Drop(b.At(side.Opposite()), id)
  {
    StepGood(Allow, b, Cancel(id));
    LocateIds(b, id);
    HasIds(b.bids, id);
    HasIds(b.asks, id);
    PrintsOne(side, Cancelled(id, User), [], stamp);
    PrintsOne(side, Rejected(id, UnknownOrderId), [], stamp);
    hide Remove, Prints, Ids;
  }

  lemma {:induction false} AroundDrops(b: Book, side: Side, price: Price, q: Queue, tail: Queue, me: OrderId, id: OrderId)
    requires Around(b, side, price, q, tail, me)
    ensures Around(Step(Allow, b, Cancel(id)).book, side, price, Drop(q, id), Drop(tail, id), me)
  {
    var b' := Step(Allow, b, Cancel(id)).book;
    var theirs := b.At(side.Opposite());
    CancelDrops(b, id, side, Stamp(0, 0, true));
    DropConcat(q, tail, id);
    DropHas(tail, id, me);
    DropHas(theirs, id, me);
    DropParts(tail, id);
    DropParts(theirs, id);
    hide Drop, Step, Good, Has;
    forall i | 0 <= i < |Drop(tail, id)| ensures Better(side, price, Drop(tail, id)[i].price) {
      assert Drop(tail, id)[i] in tail;
    }
    forall j | 0 <= j < |Drop(theirs, id)| ensures Better(side, Drop(theirs, id)[j].price, price) {
      assert Drop(theirs, id)[j] in theirs;
    }
  }

  // ---- where the order truly stands ----

  /** The quote of one that knows: `open` units behind `a`, in a level of `level`. */
  function Truth(side: Side, price: Price, open: Qty, a: Qty, level: Qty): VirtualQuote {
    VirtualQuote(true, side, price, open, a as real, level, 0)
  }

  /** `high` is no further along than that, whatever it knows of the level. */
  ghost predicate Lags(high: VirtualQuote, side: Side, price: Price, open: Qty, a: Qty) {
    && Sound(high) && high.active && high.side == side && high.price == price
    && high.remaining >= open && high.queueAhead >= a as real
  }

  /** `high` lags behind the order and, if the quotes are `exact` about the level, `low` leads it. */
  ghost predicate Between(exact: bool, low: VirtualQuote, high: VirtualQuote, side: Side, price: Price, open: Qty, a: Qty, level: Qty) {
    (exact ==> Leads(low, Truth(side, price, open, a, level))) && Lags(high, side, price, open, a)
  }

  /** Trades at the price, and then perhaps a level that is shown no smaller than these made it. */
  lemma {:induction false} MixBetween(exact: bool, low: VirtualQuote, high: VirtualQuote, side: Side, price: Price, open: Qty, a: Qty,
          level: Qty, es: seq<QuoteEvent>, stamp: Stamp, n: Qty)
    requires Between(exact, low, high, side, price, open, a, level) && open > 0 && a <= level && (exact ==> stamp.shown)
    requires PrintsAt(es, price) && n >= Less(level, VolumeAt(price, es))
    ensures var all, v := es + Shown(stamp, n), VolumeAt(price, es);
      var low', high', fill := RunQuote(AllAhead, low, all).quote, RunQuote(AllBehind, high, all).quote, FifoFill(open, a, v);
      if fill == open then exact ==> low'.remaining == 0
      else Between(exact, low', high', side, price, open - fill, StillAhead(a, v), n)
  {
    hide *;
    var all, v := es + Shown(stamp, n), VolumeAt(price, es);
    var low', high', fill := RunQuote(AllAhead, low, all).quote, RunQuote(AllBehind, high, all).quote, FifoFill(open, a, v);
    BetweenParts(exact, low, high, side, price, open, a, level);
    if exact {
      MixLeads(low, side, price, open, a, level, es, stamp, n);
    }
    if fill != open {
      LessAhead(a, level, v);
      ReportLags(high, side, price, open, a, es, stamp, n);
      BetweenIs(exact, low', high', side, price, open - fill, StillAhead(a, v), n);
    }
  }

  lemma {:induction false} LessAhead(a: Qty, level: Qty, v: Qty)
    requires a <= level
    ensures StillAhead(a, v) <= Less(level, v)
  {
  }

  lemma {:induction false} BetweenParts(exact: bool, low: VirtualQuote, high: VirtualQuote, side: Side, price: Price, open: Qty, a: Qty, level: Qty)
    requires Between(exact, low, high, side, price, open, a, level)
    ensures exact ==> Leads(low, Truth(side, price, open, a, level))
    ensures Lags(high, side, price, open, a)
  {
  }

  lemma {:induction false} BetweenIs(exact: bool, low: VirtualQuote, high: VirtualQuote, side: Side, price: Price, open: Qty, a: Qty, level: Qty)
    requires exact ==> Leads(low, Truth(side, price, open, a, level))
    requires Lags(high, side, price, open, a)
    ensures Between(exact, low, high, side, price, open, a, level)
  {
  }

  lemma {:induction false} MixLeads(low: VirtualQuote, side: Side, price: Price, open: Qty, a: Qty, level: Qty,
          es: seq<QuoteEvent>, stamp: Stamp, n: Qty)
    requires Leads(low, Truth(side, price, open, a, level)) && open > 0 && a <= level && stamp.shown
    requires PrintsAt(es, price) && n >= Less(level, VolumeAt(price, es))
    ensures var low', v := RunQuote(AllAhead, low, es + Shown(stamp, n)).quote, VolumeAt(price, es);
      var fill := FifoFill(open, a, v);
      if fill == open then low'.remaining == 0 else Leads(low', Truth(side, price, open - fill, StillAhead(a, v), n))
  {
    hide *;
    var all, v, t := es + Shown(stamp, n), VolumeAt(price, es), Truth(side, price, open, a, level);
    var low', t', fill := RunQuote(AllAhead, low, all).quote, RunQuote(Prorated, t, all).quote, FifoFill(open, a, v);
    TruthWaits(side, price, open, a, level);
    RunKeepsLead(AllAhead, Prorated, low, t, all);
    ReportGrows(side, price, level, es, stamp, n);
    MixServes(Prorated, t, side, price, open, a, all);
    ServedIs(t', side, price, open, a, v);
    if fill == open {
      LeadsDone(low', t');
    } else {
      LeadsTruth(low', t', side, price, open - fill, StillAhead(a, v), n);
    }
  }

  lemma {:induction false} TruthWaits(side: Side, price: Price, open: Qty, a: Qty, level: Qty)
    requires open > 0 && a <= level
    ensures var t := Truth(side, price, open, a, level);
      Waits(t, side, price, open, a) && t.levelQtySeen == level && Closer(AllAhead, Prorated)
  {
  }

  lemma {:induction false} LeadsDone(low: VirtualQuote, t: VirtualQuote)
    requires Leads(low, t) && Done(t)
    ensures low.remaining == 0
  {
  }

  lemma {:induction false} LeadsTruth(low: VirtualQuote, t: VirtualQuote, side: Side, price: Price, open: Qty, a: Qty, level: Qty)
    requires Leads(low, t) && Waits(t, side, price, open, a) && t.levelQtySeen == level
    ensures Leads(low, Truth(side, price, open, a, level))
  {
    assert t.(placedTs := 0) == Truth(side, price, open, a, level);
  }

  /** A print leaves a lagging quote behind an order that is not filled by it. */
  lemma {:induction false} PrintLags(high: VirtualQuote, side: Side, price: Price, open: Qty, a: Qty, e: QuoteEvent)
    requires Lags(high, side, price, open, a) && open > 0 && e.Print? && e.trade.price == price
    ensures var fill := FifoFill(open, a, e.trade.qty);
      fill < open ==> Lags(OnEvent(AllBehind, high, e).quote, side, price, open - fill, StillAhead(a, e.trade.qty))
  {
    EventSound(AllBehind, high, e);
    PrintLeaves(high, e.trade, e.mid2);
    hide Consume, Follows;
    var v := e.trade.qty as real;
    var c := v - RealMin(v, high.queueAhead);
    assert c.Floor <= if e.trade.qty > a then e.trade.qty - a else 0;
  }

  lemma {:induction false} PrintsLag(high: VirtualQuote, side: Side, price: Price, open: Qty, a: Qty, es: seq<QuoteEvent>)
    requires Lags(high, side, price, open, a) && open > 0 && PrintsAt(es, price) && FifoFill(open, a, VolumeAt(price, es)) < open
    ensures var v := VolumeAt(price, es);
      Lags(RunQuote(AllBehind, high, es).quote, side, price, open - FifoFill(open, a, v), StillAhead(a, v))
    decreases |es|
  {
    if es != [] {
      hide Lags, OnEvent, FifoFill, StillAhead;
      var front, e := es[..|es| - 1], es[|es| - 1];
      assert forall i :: 0 <= i < |front| ==> front[i] == es[i];
      var n := VolumeAt(price, front);
      SharesAdd(open, a, n, e.trade.qty);
      PrintsLag(high, side, price, open, a, front);
      PrintLags(RunQuote(AllBehind, high, front).quote, side, price, open - FifoFill(open, a, n), StillAhead(a, n), e);
    }
  }

  /** A level shown, whatever became of it, is not below what is truly ahead. */
  lemma {:induction false} ShownLags(high: VirtualQuote, side: Side, price: Price, open: Qty, a: Qty, stamp: Stamp, n: Qty)
    requires Lags(high, side, price, open, a) && n >= a
    ensures Lags(RunQuote(AllBehind, high, Shown(stamp, n)).quote, side, price, open, a)
  {
    UpdateSound(AllBehind, high, n);
    if stamp.shown {
      assert Shown(stamp, n)[..0] == [] && RunQuote(AllBehind, high, []) == Effect(high, []);
      if n < high.levelQtySeen {
        ExtremesAre(high.queueAhead, high.levelQtySeen, n);
      }
    }
    hide Shrink;
  }

  lemma {:induction false} ReportLags(high: VirtualQuote, side: Side, price: Price, open: Qty, a: Qty, es: seq<QuoteEvent>, stamp: Stamp, n: Qty)
    requires Lags(high, side, price, open, a) && open > 0 && PrintsAt(es, price) && n >= StillAhead(a, VolumeAt(price, es))
    requires FifoFill(open, a, VolumeAt(price, es)) < open
    ensures var v := VolumeAt(price, es);
      Lags(RunQuote(AllBehind, high, es + Shown(stamp, n)).quote, side, price, open - FifoFill(open, a, v), StillAhead(a, v))
  {
    hide *;
    var v := VolumeAt(price, es);
    RunConcat(AllBehind, high, es, Shown(stamp, n));
    PrintsLag(high, side, price, open, a, es);
    ShownLags(RunQuote(AllBehind, high, es).quote, side, price, open - FifoFill(open, a, v), StillAhead(a, v), stamp, n);
  }

  /** A cancel, of an order ahead or not, and then perhaps the level that it left. */
  lemma {:induction false} CancelBetween(exact: bool, low: VirtualQuote, high: VirtualQuote, side: Side, price: Price, open: Qty, a: Qty,
          level: Qty, a': Qty, level': Qty, stamp: Stamp)
    requires Between(exact, low, high, side, price, open, a, level) && open > 0 && a <= level && (exact ==> stamp.shown)
    requires level' <= level && a' <= a && a' <= level' && a - a' <= level - level'
    ensures var es := Shown(stamp, level');
      Between(exact, RunQuote(AllAhead, low, es).quote, RunQuote(AllBehind, high, es).quote, side, price, open, a', level')
  {
    hide *;
    var es := Shown(stamp, level');
    BetweenParts(exact, low, high, side, price, open, a, level);
    LagsMore(high, side, price, open, a, a');
    ShownLags(high, side, price, open, a', stamp, level');
    if exact {
      ShownLevel(AllAhead, low, stamp, level');
      CancelLeads(low, side, price, open, a, level, a', level');
    }
    BetweenIs(exact, RunQuote(AllAhead, low, es).quote, RunQuote(AllBehind, high, es).quote, side, price, open, a', level');
  }

  lemma {:induction false} LagsMore(high: VirtualQuote, side: Side, price: Price, open: Qty, a: Qty, a': Qty)
    requires Lags(high, side, price, open, a) && a' <= a
    ensures Lags(high, side, price, open, a')
  {
  }

  lemma {:induction false} ShownLevel(rule: CancelRule, q: VirtualQuote, stamp: Stamp, n: Qty)
    requires stamp.shown
    ensures RunQuote(rule, q, Shown(stamp, n)).quote == UpdateLevel(rule, q, n)
  {
    assert Shown(stamp, n)[..0] == [] && RunQuote(rule, q, []) == Effect(q, []);
    hide UpdateLevel;
  }

  lemma {:induction false} CancelLeads(low: VirtualQuote, side: Side, price: Price, open: Qty, a: Qty, level: Qty, a': Qty, level': Qty)
    requires Leads(low, Truth(side, price, open, a, level)) && open > 0 && a <= level
    requires level' <= level && a' <= a && a' <= level' && a - a' <= level - level'
    ensures Leads(UpdateLevel(AllAhead, low, level'), Truth(side, price, open, a', level'))
  {
    UpdateSound(AllAhead, low, level');
    if level' < level {
      ExtremesAre(low.queueAhead, level, level');
    }
    hide Shrink;
  }

  // ---- the two books ----

  /** The order `mine` stands behind `front` in book `b`; book `x`, which is without it, has the same
      `front`. What is behind may differ. */
  ghost predicate Aligned(b: Book, x: Book, side: Side, mine: Resting, front: Queue, back: Queue, back': Queue,
          tail: Queue, tail': Queue) {
    && mine.qty > 0
    && Around(b, side, mine.price, front + [mine] + back, tail, mine.id) && OnePrice(front + [mine] + back, mine.price)
    && Around(x, side, mine.price, front + back', tail', mine.id) && OnePrice(front + back', mine.price)
  }

  /** The order is filled and does not come back. */
  ghost predicate Gone(b: Book, side: Side, price: Price, me: OrderId) {
    exists q, tail :: Around(b, side, price, q, tail, me) && OnePrice(q, price) && !Has(q, me)
  }

  lemma {:induction false} GoneIs(b: Book, side: Side, price: Price, me: OrderId, q: Queue, tail: Queue)
    requires Around(b, side, price, q, tail, me) && OnePrice(q, price) && !Has(q, me)
    ensures Gone(b, side, price, me)
  {
  }

  lemma {:induction false} StaysGone(b: Book, x: Book, side: Side, price: Price, me: OrderId, mv: Move)
    requires Gone(b, side, price, me) && Fits(b, x, side, price, me, mv)
    ensures Gone(Step(Allow, b, MoveMessage(side, price, mv)).book, side, price, me)
  {
    var q, tail :| Around(b, side, price, q, tail, me) && OnePrice(q, price) && !Has(q, me);
    var b' := Step(Allow, b, MoveMessage(side, price, mv)).book;
    hide Around, OnePrice, Has, Step, Book.Locate, OpenQty, Depth, FifoFill, Gone, Drop;
    match mv {
      case Flows(f) =>
        var q', tail' := OneFlow(b, side, price, me, q, tail, 0, 0, f);
        GoneIs(b', side, price, me, q', tail');
      case Leaves(id) =>
        AroundDrops(b, side, price, q, tail, me, id);
        DropHas(q, id, me);
        DropOnePrice(q, id, price);
        GoneIs(b', side, price, me, Drop(q, id), Drop(tail, id));
    }
  }

  // ---- one move ----

  /** What comes out of a sweep that reaches `mine` with `v` units. */
  lemma {:induction false} MineSwept(t: Taker, v: Qty, mine: Resting, back: Queue)
    requires Crosses(t, mine.price) && mine.qty > 0 && !Has(back, mine.id)
    ensures var r := Match(Allow, t, v, [mine] + back);
      if v < mine.qty then r.queue == [mine.(qty := mine.qty - v)] + back else !Has(r.queue, mine.id)
  {
    var q := [mine] + back;
    assert q[1..] == back && mine.(qty := mine.qty - 0) == mine;
    if v == 0 {
      MatchNone(Allow, t, v, q);
    } else {
      MatchHead(Allow, t, v, q);
      if v < mine.qty {
        MatchNone(Allow, t, 0, [mine.(qty := mine.qty - v)] + back);
      } else {
        SweepGone(t, v - mine.qty, back, mine.id);
      }
      hide Match;
    }
  }

  /** The sweep of the front: what is left of it, and of the sweep. */
  lemma {:induction false} FrontSwept(side: Side, t: Taker, v: Qty, front: Queue, price: Price)
    requires OnePrice(front, price) && Crosses(t, price)
    ensures var r := Match(Allow, t, v, front);
      Total(r.queue) == StillAhead(Total(front), v) && r.rem == v - (if v < Total(front) then v else Total(front))
  {
    LevelSwept(side, t, v, front, price, Stamp(0, 0, true));
    hide Match, OnePrice, PrintsAt, Total;
  }

  lemma {:induction false} OnePriceParts(a: Queue, b: Queue, price: Price)
    ensures OnePrice(a + b, price) <==> OnePrice(a, price) && OnePrice(b, price)
  {
    if OnePrice(a + b, price) {
      forall i | 0 <= i < |a| ensures a[i].price == price { assert (a + b)[i] == a[i]; }
      forall i | 0 <= i < |b| ensures b[i].price == price { assert (a + b)[|a| + i] == b[i]; }
    }
  }

  lemma {:induction false} MineApart(b: Book, side: Side, mine: Resting, front: Queue, back: Queue, tail: Queue)
    requires Around(b, side, mine.price, front + [mine] + back, tail, mine.id)
    ensures !Has(front, mine.id) && !Has(back, mine.id) && Distinct(front + [mine] + back)
  {
    DistinctParts(front + [mine] + back, tail);
    DistinctSplit(front, mine, back);
  }

  /** An aggressor in the book with the order: the front first, then the order. */
  lemma {:induction false} MineTraded(b: Book, side: Side, mine: Resting, front: Queue, back: Queue, tail: Queue, f: Flow)
    returns (tail2: Queue)
    requires mine.qty > 0 && Around(b, side, mine.price, front + [mine] + back, tail, mine.id)
    requires OnePrice(front + [mine] + back, mine.price) && f.Trades? && f.qty > 0 && b.Locate(f.id) == None
    ensures var front2 := Match(Allow, TakerOf(side, mine.price, f), f.qty, front).queue;
      var b', fill := Step(Allow, b, MessageOf(side, mine.price, f)).book, FifoFill(mine.qty, Total(front), f.qty);
      if fill == mine.qty then Gone(b', side, mine.price, mine.id)
      else
        var q2 := front2 + [mine.(qty := mine.qty - fill)] + back;
        Around(b', side, mine.price, q2, tail2, mine.id) && OnePrice(q2, mine.price)
  {
    hide *;
    var t, price, q := TakerOf(side, mine.price, f), mine.price, front + [mine] + back;
    var b', fill := Step(Allow, b, MessageOf(side, price, f)).book, FifoFill(mine.qty, Total(front), f.qty);
    assert q == front + ([mine] + back);
    OnePriceParts(front, [mine] + back, price);
    MineApart(b, side, mine, front, back, tail);
    tail2 := TradeStep(b, side, price, q, tail, mine.id, f);
    TakerOfIs(side, price, f);
    SweepBoth(t, f.qty, front, [mine] + back, price);
    FrontSwept(side, t, f.qty, front, price);
    SweepOnePrice(t, f.qty, q, price);
    var r := Match(Allow, t, f.qty, front);
    var r2 := Match(Allow, t, r.rem, [mine] + back);
    MineSwept(t, r.rem, mine, back);
    MineShare(mine.qty, Total(front), f.qty, r.rem);
    if fill == mine.qty {
      SweepGone(t, f.qty, front, mine.id);
      HasParts(r.queue, r2.queue, mine.id);
      GoneIs(b', side, price, mine.id, r.queue + r2.queue, tail2);
    } else {
      assert r.queue + ([mine.(qty := mine.qty - fill)] + back) == r.queue + [mine.(qty := mine.qty - fill)] + back;
    }
  }

  lemma {:induction false} TakerOfIs(side: Side, price: Price, f: Flow)
    requires f.Trades?
    ensures TakerOf(side, price, f) == Taker(f.id, f.participant, side.Opposite(), if f.market then 0 else price, f.market)
  {
  }

  lemma {:induction false} MineShare(open: Qty, ahead: Qty, n: Qty, rem: Qty)
    requires open > 0 && rem == n - if n < ahead then n else ahead
    ensures FifoFill(open, ahead, n) == if rem < open then rem else open
  {
  }

  /** Where the order and the two quotes stand: the order truly between them; or it is filled, and so is
      the quote that is furthest along. */
  ghost predicate Tracks(exact: bool, b: Book, x: Book, low: VirtualQuote, high: VirtualQuote, side: Side, price: Price, me: OrderId, open: Qty) {
    if open == 0 then Gone(b, side, price, me) && (exact ==> low.remaining == 0)
    else exists mine: Resting, front, back, back', tail, tail' ::
      mine.id == me && mine.qty == open && mine.price == price
      && Aligned(b, x, side, mine, front, back, back', tail, tail')
      && Between(exact, low, high, side, price, open, Total(front), Total(front + back'))
  }

  lemma {:induction false} TracksGone(exact: bool, b: Book, x: Book, low: VirtualQuote, high: VirtualQuote, side: Side, price: Price, me: OrderId)
    requires Gone(b, side, price, me) && (exact ==> low.remaining == 0)
    ensures Tracks(exact, b, x, low, high, side, price, me, 0)
  {
  }

  lemma {:induction false} TracksOpen(exact: bool, b: Book, x: Book, low: VirtualQuote, high: VirtualQuote, side: Side, mine: Resting, front: Queue,
          back: Queue, back': Queue, tail: Queue, tail': Queue)
    requires Aligned(b, x, side, mine, front, back, back', tail, tail')
    requires Between(exact, low, high, side, mine.price, mine.qty, Total(front), Total(front + back'))
    ensures Tracks(exact, b, x, low, high, side, mine.price, mine.id, mine.qty)
  {
    hide Between;
  }

  /** What the two quotes are once they were told of a move. */
  ghost predicate Goes(exact: bool, b: Book, x: Book, low: VirtualQuote, high: VirtualQuote, side: Side, price: Price, me: OrderId,
          mv: Move, stamp: Stamp, open: Qty) {
    var m, es := MoveMessage(side, price, mv), Told(x, side, price, mv, stamp);
    Tracks(exact, Step(Allow, b, m).book, Step(Allow, x, m).book, RunQuote(AllAhead, low, es).quote, RunQuote(AllBehind, high, es).quote,
      side, price, me, open)
  }

  lemma {:induction false} AlignedParts(b: Book, x: Book, side: Side, mine: Resting, front: Queue, back: Queue, back': Queue,
          tail: Queue, tail': Queue)
    requires Aligned(b, x, side, mine, front, back, back', tail, tail')
    ensures mine.qty > 0
    ensures Around(b, side, mine.price, front + [mine] + back, tail, mine.id) && OnePrice(front + [mine] + back, mine.price)
    ensures Around(x, side, mine.price, front + back', tail', mine.id) && OnePrice(front + back', mine.price)
    ensures Total(front + back') == Total(front) + Total(back') && OnePrice(front, mine.price) && OnePrice(back', mine.price)
    ensures Depth(x.At(side), mine.price) == Total(front + back')
  {
    TotalSplit(front, back');
    OnePriceParts(front, back', mine.price);
    AroundWorse(x, side, mine.price, front + back', tail', mine.id);
    LevelShown(x, side, mine.price, front + back', tail');
  }

  lemma {:induction false} AlignedIs(b: Book, x: Book, side: Side, mine: Resting, front: Queue, back: Queue, back': Queue,
          tail: Queue, tail': Queue)
    requires mine.qty > 0
    requires Around(b, side, mine.price, front + [mine] + back, tail, mine.id) && OnePrice(front + [mine] + back, mine.price)
    requires Around(x, side, mine.price, front + back', tail', mine.id) && OnePrice(front + back', mine.price)
    ensures Aligned(b, x, side, mine, front, back, back', tail, tail')
  {
  }

  /** An aggressor within the level. */
  lemma {:induction false} TradeTracks(exact: bool, b: Book, x: Book, low: VirtualQuote, high: VirtualQuote, side: Side, mine: Resting, front: Queue,
          back: Queue, back': Queue, tail: Queue, tail': Queue, f: Flow, stamp: Stamp)
    requires Aligned(b, x, side, mine, front, back, back', tail, tail') && (exact ==> stamp.shown)
    requires Between(exact, low, high, side, mine.price, mine.qty, Total(front), Total(front + back'))
    requires f.Trades? && 0 < f.qty <= Total(front + back') && b.Locate(f.id) == None && x.Locate(f.id) == None
    ensures Goes(exact, b, x, low, high, side, mine.price, mine.id, Flows(f), stamp, mine.qty - FifoFill(mine.qty, Total(front), f.qty))
  {
    hide *;
    var price, lvl, n := mine.price, front + back', f.qty;
    var t, m, fill := TakerOf(side, price, f), MessageOf(side, price, f), FifoFill(mine.qty, Total(front), f.qty);
    AlignedParts(b, x, side, mine, front, back, back', tail, tail');
    var tail2 := MineTraded(b, side, mine, front, back, tail, f);
    var es := ServedReport(x, side, price, mine.id, lvl, tail', f, stamp);
    TakerOfCrosses(side, price, f);
    SweepBoth(t, n, front, back', price);
    FrontSwept(side, t, n, front, price);
    var front2, back2 := Match(Allow, t, n, front).queue, Match(Allow, t, Match(Allow, t, n, front).rem, back').queue;
    var all := es + Shown(stamp, Total(front2 + back2));
    LessWithin(Total(lvl), n, Total(lvl));
    MixBetween(exact, low, high, side, price, mine.qty, Total(front), Total(lvl), es, stamp, Total(front2 + back2));
    ToldFlow(x, side, price, f, stamp);
    if fill == mine.qty {
      TracksGone(exact, Step(Allow, b, m).book, Step(Allow, x, m).book, RunQuote(AllAhead, low, all).quote,
        RunQuote(AllBehind, high, all).quote, side, price, mine.id);
    } else {
      var mine2 := mine.(qty := mine.qty - fill);
      FillWithin(mine.qty, Total(front), n);
      AlignedIs(Step(Allow, b, m).book, Step(Allow, x, m).book, side, mine2, front2, back, back2, tail2, tail');
      TracksOpen(exact, Step(Allow, b, m).book, Step(Allow, x, m).book, RunQuote(AllAhead, low, all).quote,
        RunQuote(AllBehind, high, all).quote, side, mine2, front2, back, back2, tail2, tail');
    }
    GoesIs(exact, b, x, low, high, side, price, mine.id, Flows(f), stamp, mine.qty - fill);
  }

  lemma {:induction false} FillWithin(open: Qty, ahead: Qty, n: Qty)
    ensures FifoFill(open, ahead, n) <= open
  {
  }

  lemma {:induction false} TakerOfCrosses(side: Side, price: Price, f: Flow)
    requires f.Trades?
    ensures Crosses(TakerOf(side, price, f), price)
  {
    AtPrice(side, price, TakerOf(side, price, f));
  }

  lemma {:induction false} ToldFlow(x: Book, side: Side, price: Price, f: Flow, stamp: Stamp)
    ensures Told(x, side, price, Flows(f), stamp) == Reported(x, side, price, f, stamp)
    ensures MoveMessage(side, price, Flows(f)) == MessageOf(side, price, f)
  {
    hide Step, Prints, Depth, Shown;
  }

  lemma {:induction false} GoesIs(exact: bool, b: Book, x: Book, low: VirtualQuote, high: VirtualQuote, side: Side, price: Price, me: OrderId,
          mv: Move, stamp: Stamp, open: Qty)
    requires var m, es := MoveMessage(side, price, mv), Told(x, side, price, mv, stamp);
      Tracks(exact, Step(Allow, b, m).book, Step(Allow, x, m).book, RunQuote(AllAhead, low, es).quote, RunQuote(AllBehind, high, es).quote,
        side, price, me, open)
    ensures Goes(exact, b, x, low, high, side, price, me, mv, stamp, open)
  {
  }

  /** A newcomer, or a message of no units: it stands behind in both books. */
  lemma {:induction false} QuietTracks(exact: bool, b: Book, x: Book, low: VirtualQuote, high: VirtualQuote, side: Side, mine: Resting, front: Queue,
          back: Queue, back': Queue, tail: Queue, tail': Queue, f: Flow, stamp: Stamp)
    requires Aligned(b, x, side, mine, front, back, back', tail, tail') && (exact ==> stamp.shown)
    requires Between(exact, low, high, side, mine.price, mine.qty, Total(front), Total(front + back'))
    requires (f.Joins? || f.qty == 0) && b.Locate(f.id) == None && x.Locate(f.id) == None
    ensures Goes(exact, b, x, low, high, side, mine.price, mine.id, Flows(f), stamp, mine.qty)
  {
    hide *;
    var price, lvl, m := mine.price, front + back', MessageOf(side, mine.price, f);
    var o := if f.qty == 0 then [] else [Resting(f.id, f.participant, price, f.qty)];
    AlignedParts(b, x, side, mine, front, back, back', tail, tail');
    QuietReported(b, side, price, front + [mine] + back, tail, mine.id, f, stamp);
    QuietReported(x, side, price, lvl, tail', mine.id, f, stamp);
    assert front + [mine] + back + [Resting(f.id, f.participant, price, f.qty)] == front + [mine] + (back + [Resting(f.id, f.participant, price, f.qty)]);
    assert lvl + [Resting(f.id, f.participant, price, f.qty)] == front + (back' + [Resting(f.id, f.participant, price, f.qty)]);
    assert back + [] == back && back' + [] == back';
    var n, x', b' := Total(front + (back' + o)), Step(Allow, x, m).book, Step(Allow, b, m).book;
    AlignedIs(b', x', side, mine, front, back + o, back' + o, tail, tail');
    AlignedParts(b', x', side, mine, front, back + o, back' + o, tail, tail');
    NoReport(price, Total(lvl));
    NoneFilled(mine.qty, Total(front));
    MixBetween(exact, low, high, side, price, mine.qty, Total(front), Total(lvl), [], stamp, n);
    ReportedIs(x, side, price, f, stamp, [], n);
    ToldFlow(x, side, price, f, stamp);
    var es := Told(x, side, price, Flows(f), stamp);
    TracksOpen(exact, b', x', RunQuote(AllAhead, low, es).quote, RunQuote(AllBehind, high, es).quote, side, mine, front, back + o, back' + o,
      tail, tail');
    GoesIs(exact, b, x, low, high, side, price, mine.id, Flows(f), stamp, mine.qty);
  }

  lemma {:induction false} NoneFilled(open: Qty, ahead: Qty)
    ensures FifoFill(open, ahead, 0) == 0 && StillAhead(ahead, 0) == ahead
  {
  }

  /** A cancel: in front, behind or elsewhere, or of nothing. */
  lemma {:induction false} LeaveTracks(exact: bool, b: Book, x: Book, low: VirtualQuote, high: VirtualQuote, side: Side, mine: Resting, front: Queue,
          back: Queue, back': Queue, tail: Queue, tail': Queue, id: OrderId, stamp: Stamp)
    requires Aligned(b, x, side, mine, front, back, back', tail, tail') && (exact ==> stamp.shown) && id != mine.id
    requires Between(exact, low, high, side, mine.price, mine.qty, Total(front), Total(front + back'))
    ensures Goes(exact, b, x, low, high, side, mine.price, mine.id, Leaves(id), stamp, mine.qty)
  {
    hide *;
    var price, lvl := mine.price, front + back';
    var b', x' := Step(Allow, b, Cancel(id)).book, Step(Allow, x, Cancel(id)).book;
    var front2, back2, back2' := Drop(front, id), Drop(back, id), Drop(back', id);
    AlignedParts(b, x, side, mine, front, back, back', tail, tail');
    MineApart(b, side, mine, front, back, tail);
    AroundDistinct(x, side, price, lvl, tail', mine.id);
    DropMine(front, mine, back, id);
    DropConcat(front, back', id);
    AroundDrops(b, side, price, front + [mine] + back, tail, mine.id, id);
    AroundDrops(x, side, price, lvl, tail', mine.id, id);
    DropOnePrice(front + [mine] + back, id, price);
    DropOnePrice(lvl, id, price);
    AlignedIs(b', x', side, mine, front2, back2, back2', Drop(tail, id), Drop(tail', id));
    AlignedParts(b', x', side, mine, front2, back2, back2', Drop(tail, id), Drop(tail', id));
    DropParts(front, id);
    DropParts(back', id);
    CancelBetween(exact, low, high, side, price, mine.qty, Total(front), Total(lvl), Total(front2), Total(front2 + back2'), stamp);
    ToldLeave(x, side, price, id, stamp, Total(front2 + back2'));
    var es := Told(x, side, price, Leaves(id), stamp);
    TracksOpen(exact, b', x', RunQuote(AllAhead, low, es).quote, RunQuote(AllBehind, high, es).quote, side, mine, front2, back2, back2',
      Drop(tail, id), Drop(tail', id));
    GoesIs(exact, b, x, low, high, side, price, mine.id, Leaves(id), stamp, mine.qty);
  }

  lemma {:induction false} AroundDistinct(x: Book, side: Side, price: Price, q: Queue, tail: Queue, me: OrderId)
    requires Around(x, side, price, q, tail, me)
    ensures Distinct(q) && Good(x)
  {
    DistinctParts(q, tail);
  }

  lemma {:induction false} DropMine(front: Queue, mine: Resting, back: Queue, id: OrderId)
    requires Distinct(front + [mine] + back) && id != mine.id
    ensures Drop(front + [mine] + back, id) == Drop(front, id) + [mine] + Drop(back, id)
  {
    DistinctParts(front + [mine], back);
    DropConcat(front + [mine], back, id);
    DropConcat(front, [mine], id);
    assert !Has([mine], id);
    hide Has, Remove, Distinct;
  }

  lemma {:induction false} ToldLeave(x: Book, side: Side, price: Price, id: OrderId, stamp: Stamp, n: Qty)
    requires Good(x) && Depth(Step(Allow, x, Cancel(id)).book.At(side), price) == n
    ensures Told(x, side, price, Leaves(id), stamp) == Shown(stamp, n) && MoveMessage(side, price, Leaves(id)) == Cancel(id)
  {
    CancelDrops(x, id, side, stamp);
    hide Step, Prints, Depth, Good, Drop, Shown;
    assert [] + Shown(stamp, n) == Shown(stamp, n);
  }

  /** What is open is what the engine answers. */
  lemma {:induction false} TracksOpenQty(exact: bool, b: Book, x: Book, low: VirtualQuote, high: VirtualQuote, side: Side, price: Price, me: OrderId, open: Qty)
    requires Tracks(exact, b, x, low, high, side, price, me, open)
    ensures OpenQty(b, me) == open
    ensures (exact ==> low.remaining <= open) && (open > 0 ==> open <= high.remaining)
  {
    hide *;
    if open == 0 {
      TracksFilled(exact, b, x, low, high, side, price, me);
      GoneOpen(b, side, price, me);
    } else {
      var mine, front, back, back', tail, tail' := TracksParts(exact, b, x, low, high, side, price, me, open);
      AlignedParts(b, x, side, mine, front, back, back', tail, tail');
      MineStands(b, side, mine, front, back, tail);
      OpenAround(b, side, front + [mine] + back, tail, price, me, Total(front), open);
      BetweenRemaining(exact, low, high, side, price, open, Total(front), Total(front + back'));
    }
  }

  lemma {:induction false} GoneOpen(b: Book, side: Side, price: Price, me: OrderId)
    requires Gone(b, side, price, me)
    ensures OpenQty(b, me) == 0
  {
    hide Around, OnePrice, OpenQty, Has;
    var q, tail :| Around(b, side, price, q, tail, me) && OnePrice(q, price) && !Has(q, me);
    OpenAround(b, side, q, tail, price, me, 0, 0);
  }

  lemma {:induction false} MineStands(b: Book, side: Side, mine: Resting, front: Queue, back: Queue, tail: Queue)
    requires mine.qty > 0 && Around(b, side, mine.price, front + [mine] + back, tail, mine.id)
    requires OnePrice(front + [mine] + back, mine.price)
    ensures Stands(front + [mine] + back, mine.price, mine.id, Total(front), mine.qty)
  {
    MineApart(b, side, mine, front, back, tail);
    hide Around, OnePrice, Has, Distinct, Total;
    var q, k := front + [mine] + back, |front|;
    assert q[k] == mine && q[..k] == front && q[k + 1..] == back;
    assert StandsAt(q, k, mine.id, Total(front), mine.qty);
  }

  lemma {:induction false} BetweenRemaining(exact: bool, low: VirtualQuote, high: VirtualQuote, side: Side, price: Price, open: Qty, a: Qty, level: Qty)
    requires Between(exact, low, high, side, price, open, a, level) && open > 0
    ensures (exact ==> low.remaining <= open) && open <= high.remaining
  {
  }

  /** One move more. */
  lemma {:induction false} MoveTracks(exact: bool, b: Book, x: Book, low: VirtualQuote, high: VirtualQuote, side: Side, price: Price, me: OrderId,
          open: Qty, mv: Move, stamp: Stamp) returns (open': Qty)
    requires Tracks(exact, b, x, low, high, side, price, me, open) && Fits(b, x, side, price, me, mv) && (exact ==> stamp.shown)
    ensures Goes(exact, b, x, low, high, side, price, me, mv, stamp, open')
  {
    hide *;
    TracksOpenQty(exact, b, x, low, high, side, price, me, open);
    open' := open;
    if open == 0 {
      var m, es := MoveMessage(side, price, mv), Told(x, side, price, mv, stamp);
      TracksFilled(exact, b, x, low, high, side, price, me);
      StaysGone(b, x, side, price, me, mv);
      if exact {
        NothingToFill(AllAhead, low, es);
      }
      TracksGone(exact, Step(Allow, b, m).book, Step(Allow, x, m).book, RunQuote(AllAhead, low, es).quote,
        RunQuote(AllBehind, high, es).quote, side, price, me);
      GoesIs(exact, b, x, low, high, side, price, me, mv, stamp, 0);
    } else {
      var mine, front, back, back', tail, tail' := TracksParts(exact, b, x, low, high, side, price, me, open);
      AlignedParts(b, x, side, mine, front, back, back', tail, tail');
      match mv {
        case Flows(f) =>
          FlowFits(b, x, side, price, me, f);
          if f.Trades? && f.qty > 0 {
            TradeTracks(exact, b, x, low, high, side, mine, front, back, back', tail, tail', f, stamp);
            FillWithin(mine.qty, Total(front), f.qty);
            open' := open - FifoFill(mine.qty, Total(front), f.qty);
          } else {
            QuietTracks(exact, b, x, low, high, side, mine, front, back, back', tail, tail', f, stamp);
          }
        case Leaves(id) =>
          LeaveFits(b, x, side, price, me, id);
          LeaveTracks(exact, b, x, low, high, side, mine, front, back, back', tail, tail', id, stamp);
      }
    }
  }

  lemma {:induction false} TracksFilled(exact: bool, b: Book, x: Book, low: VirtualQuote, high: VirtualQuote, side: Side, price: Price, me: OrderId)
    requires Tracks(exact, b, x, low, high, side, price, me, 0)
    ensures Gone(b, side, price, me) && (exact ==> low.remaining == 0)
  {
  }

  lemma {:induction false} TracksParts(exact: bool, b: Book, x: Book, low: VirtualQuote, high: VirtualQuote, side: Side, price: Price,
          me: OrderId, open: Qty)
    returns (mine: Resting, front: Queue, back: Queue, back': Queue, tail: Queue, tail': Queue)
    requires Tracks(exact, b, x, low, high, side, price, me, open) && open > 0
    ensures mine.id == me && mine.qty == open && mine.price == price
    ensures Aligned(b, x, side, mine, front, back, back', tail, tail')
    ensures Between(exact, low, high, side, price, open, Total(front), Total(front + back'))
  {
    hide Aligned, Between, Total;
    mine, front, back, back', tail, tail' :|
      mine.id == me && mine.qty == open && mine.price == price
      && Aligned(b, x, side, mine, front, back, back', tail, tail')
      && Between(exact, low, high, side, price, open, Total(front), Total(front + back'));
  }

  lemma {:induction false} FlowFits(b: Book, x: Book, side: Side, price: Price, me: OrderId, f: Flow)
    requires Fits(b, x, side, price, me, Flows(f)) && OpenQty(b, me) > 0
    ensures b.Locate(f.id) == None && x.Locate(f.id) == None && (f.Trades? ==> f.qty <= Depth(x.At(side), price))
  {
  }

  lemma {:induction false} LeaveFits(b: Book, x: Book, side: Side, price: Price, me: OrderId, id: OrderId)
    requires Fits(b, x, side, price, me, Leaves(id))
    ensures id != me
  {
  }

  // ---- every run ----

  lemma {:induction false} MovesTrack(exact: bool, b: Book, x: Book, q: VirtualQuote, side: Side, price: Price, me: OrderId, open: Qty,
          moves: seq<Move>, clock: nat -> Stamp) returns (open': Qty)
    requires Tracks(exact, b, x, q, q, side, price, me, open) && AllFit(b, x, side, price, me, moves)
    requires exact ==> forall n :: clock(n).shown
    ensures var es := ToldAll(x, side, price, moves, clock);
      Tracks(exact, Moved(b, side, price, moves), Moved(x, side, price, moves), RunQuote(AllAhead, q, es).quote,
        RunQuote(AllBehind, q, es).quote, side, price, me, open')
    decreases |moves|
  {
    hide *;
    if moves == [] {
      NoMoves(b, side, price);
      NoMoves(x, side, price);
      NothingTold(x, side, price, clock);
      NoEvents(AllAhead, q);
      NoEvents(AllBehind, q);
      open' := open;
    } else {
      var n := |moves| - 1;
      var front, es := moves[..n], ToldAll(x, side, price, moves[..n], clock);
      var b1, x1 := Moved(b, side, price, front), Moved(x, side, price, front);
      FitsUnfold(b, x, side, price, me, moves);
      open' := MovesTrack(exact, b, x, q, side, price, me, open, front, clock);
      var low, high := RunQuote(AllAhead, q, es).quote, RunQuote(AllBehind, q, es).quote;
      open' := MoveTracks(exact, b1, x1, low, high, side, price, me, open', moves[n], clock(n));
      GoesParts(exact, b1, x1, low, high, side, price, me, moves[n], clock(n), open');
      MovesUnfold(b, side, price, moves);
      MovesUnfold(x, side, price, moves);
      ToldUnfold(x, side, price, moves, clock);
      RunConcat(AllAhead, q, es, Told(x1, side, price, moves[n], clock(n)));
      RunConcat(AllBehind, q, es, Told(x1, side, price, moves[n], clock(n)));
    }
  }

  lemma {:induction false} NoMoves(b: Book, side: Side, price: Price)
    ensures Moved(b, side, price, []) == b
  {
  }

  lemma {:induction false} NothingTold(x: Book, side: Side, price: Price, clock: nat -> Stamp)
    ensures ToldAll(x, side, price, [], clock) == []
  {
  }

  lemma {:induction false} ToldUnfold(x: Book, side: Side, price: Price, moves: seq<Move>, clock: nat -> Stamp)
    requires moves != []
    ensures var n := |moves| - 1;
      ToldAll(x, side, price, moves, clock)
      == ToldAll(x, side, price, moves[..n], clock) + Told(Moved(x, side, price, moves[..n]), side, price, moves[n], clock(n))
  {
    hide Told, Moved;
  }

  lemma {:induction false} GoesParts(exact: bool, b: Book, x: Book, low: VirtualQuote, high: VirtualQuote, side: Side, price: Price, me: OrderId,
          mv: Move, stamp: Stamp, open: Qty)
    requires Goes(exact, b, x, low, high, side, price, me, mv, stamp, open)
    ensures var m, es := MoveMessage(side, price, mv), Told(x, side, price, mv, stamp);
      Tracks(exact, Step(Allow, b, m).book, Step(Allow, x, m).book, RunQuote(AllAhead, low, es).quote, RunQuote(AllBehind, high, es).quote,
        side, price, me, open)
  {
  }

  lemma {:induction false} StartsTracked(exact: bool, b: Book, q: VirtualQuote, ahead: Queue, me: Resting, tail: Queue)
    requires Good(b) && b.At(q.side) == ahead + [me] + tail && OnePrice(ahead, me.price)
    requires forall i :: 0 <= i < |tail| ==> Better(q.side, me.price, tail[i].price)
    requires q == Placed(q.side, me.price, me.qty, Total(ahead), q.placedTs)
    ensures Tracks(exact, b, b.With(q.side, ahead + tail), q, q, q.side, q.price, me.id, me.qty)
  {
    hide *;
    var x := b.With(q.side, ahead + tail);
    WithoutOrder(b, q.side, ahead, me, tail);
    BackOfLevel(b, q.side, ahead, me, tail);
    assert ahead + [me] + [] == ahead + [me] && ahead + [] == ahead;
    AlignedIs(b, x, q.side, me, ahead, [], [], tail, tail);
    PlacedBetween(exact, q, me.price, me.qty, Total(ahead));
    TracksOpen(exact, b, x, q, q, q.side, me, ahead, [], [], tail, tail);
  }

  lemma {:induction false} BackOfLevel(b: Book, side: Side, ahead: Queue, me: Resting, tail: Queue)
    requires Good(b) && b.At(side) == ahead + [me] + tail && OnePrice(ahead, me.price)
    requires forall i :: 0 <= i < |tail| ==> Better(side, me.price, tail[i].price)
    ensures Around(b, side, me.price, ahead + [me], tail, me.id) && OnePrice(ahead + [me], me.price) && me.qty > 0
  {
    StartsShared(b, side, ahead, me, tail);
    DistinctSplit(ahead, me, tail);
    assert b.At(side)[|ahead|] == me;
    hide Good, Distinct;
    assert b.At(side) == (ahead + [me]) + tail;
  }

  lemma {:induction false} PlacedBetween(exact: bool, q: VirtualQuote, price: Price, size: Qty, level: Qty)
    requires q == Placed(q.side, price, size, level, q.placedTs)
    ensures q.price == price && Between(exact, q, q, q.side, price, size, level, level)
  {
  }

  /** A real order at the back of its level in a whole book, under any flow of aggressors, newcomers at
      its price and cancellations of orders ahead of it, behind it or elsewhere: the exchange's book
      without it reports every trade and, after whichever messages, the level, and no aggressor wants
      more than that while the order is open. Then at any time the order has been filled no less than the
      quote that takes all that was cancelled to have stood behind; and if the level is shown after every
      message, no more than the one that takes it to have stood ahead. The prorated quote lies between
      the same two. */
  lemma {:induction false} RealOrderBetween(q: VirtualQuote, b: Book, ahead: Queue, me: Resting, tail: Queue, moves: seq<Move>,
          clock: nat -> Stamp)
    requires Good(b) && b.At(q.side) == ahead + [me] + tail && OnePrice(ahead, me.price)
    requires forall i :: 0 <= i < |tail| ==> Better(q.side, me.price, tail[i].price)
    requires q == Placed(q.side, me.price, me.qty, Total(ahead), q.placedTs)
    requires AllFit(b, b.With(q.side, ahead + tail), q.side, q.price, me.id, moves)
    ensures var es := ToldAll(b.With(q.side, ahead + tail), q.side, q.price, moves, clock);
      var low, mid, high := RunQuote(AllAhead, q, es), RunQuote(Prorated, q, es), RunQuote(AllBehind, q, es);
      var filled := me.qty - OpenQty(Moved(b, q.side, q.price, moves), me.id);
      && TotalFilled(high.fills) <= filled
      && ((forall n :: clock(n).shown) ==> filled <= TotalFilled(low.fills))
      && TotalFilled(high.fills) <= TotalFilled(mid.fills) <= TotalFilled(low.fills)
  {
    hide *;
    var x, exact := b.With(q.side, ahead + tail), forall n :: clock(n).shown;
    var es, b' := ToldAll(x, q.side, q.price, moves, clock), Moved(b, q.side, q.price, moves);
    StartsTracked(exact, b, q, ahead, me, tail);
    var open := MovesTrack(exact, b, x, q, q.side, q.price, me.id, me.qty, moves, clock);
    TracksOpenQty(exact, b', Moved(x, q.side, q.price, moves), RunQuote(AllAhead, q, es).quote, RunQuote(AllBehind, q, es).quote, q.side,
      q.price, me.id, open);
    PlacedSound(q, me.price, me.qty, Total(ahead));
    FilledBy(AllAhead, q, es);
    FilledBy(AllBehind, q, es);
    Sandwich(q, es);
  }

  lemma {:induction false} PlacedSound(q: VirtualQuote, price: Price, size: Qty, level: Qty)
    requires q == Placed(q.side, price, size, level, q.placedTs)
    ensures Sound(q) && q.remaining == size
  {
  }

  lemma {:induction false} FilledBy(rule: CancelRule, q: VirtualQuote, es: seq<QuoteEvent>)
    requires Sound(q)
    ensures TotalFilled(RunQuote(rule, q, es).fills) == q.remaining - RunQuote(rule, q, es).quote.remaining
  {
    RunSound(rule, q, es);
  }

  // ---- a level that is not shown after every message ----

  const Five := Resting(1, 1, 10, 5)
  const Mine := Resting(2, 2, 10, 1)
  const Newcomer := Resting(3, 1, 10, 5)
  const HidingMoves := [Leaves(1), Flows(Flow.Joins(3, 1, 5)), Flows(Flow.Trades(4, 1, false, 5))]

  lemma {:induction false} FiveLeaves(rest: Queue, stamp: Stamp)
    requires !stamp.shown
    ensures Step(Allow, Book([Five] + rest, []), MoveMessage(Bid, 10, Leaves(1))).book == Book(rest, [])
    ensures Told(Book([Five] + rest, []), Bid, 10, Leaves(1), stamp) == []
  {
    var q := [Five] + rest;
    assert q[0].id == 1 && q[1..] == rest && q[..0] + q[1..] == rest;
    PrintsOne(Bid, Cancelled(1, User), [], stamp);
    hide Prints, Depth;
  }

  lemma {:induction false} NewcomerJoins(q: Queue, stamp: Stamp)
    requires q == [] || q == [Mine]
    ensures Step(Allow, Book(q, []), MoveMessage(Bid, 10, HidingMoves[1])).book == Book(q + [Newcomer], [])
    ensures q == [] && stamp.shown ==> Told(Book(q, []), Bid, 10, HidingMoves[1], stamp) == [QuoteEvent.Level(5)]
    ensures Book(q, []).Locate(3) == None
  {
    hide *;
    var x, f := Book(q, []), Flow.Joins(3, 1, 5);
    var o := Step(Allow, x, MessageOf(Bid, 10, f));
    NewcomerIs(q);
    JoinEvents(x, Bid, 10, f, 2);
    NewcomerReported(x, Bid, 10, f, stamp);
    ReportedIs(x, Bid, 10, f, stamp, [], Depth(o.book.At(Bid), 10));
    ToldFlow(x, Bid, 10, f, stamp);
    if stamp.shown {
      FiveShown(stamp);
    }
  }

  lemma {:induction false} FiveShown(stamp: Stamp)
    requires stamp.shown
    ensures [] + Shown(stamp, 5) == [QuoteEvent.Level(5)]
  {
  }

  lemma {:induction false} NewcomerIs(q: Queue)
    requires q == [] || q == [Mine]
    ensures var x, f := Book(q, []), Flow.Joins(3, 1, 5);
      && HidingMoves[1] == Flows(f) && f.Joins? && f.qty == 5 && x.Locate(f.id) == None && x.At(Bid.Opposite()) == []
      && Match(Allow, Taker(f.id, f.participant, Bid, 10, false), f.qty, []) == Matched(f.qty, [], [])
      && x.With(Bid, Insert(Bid, x.At(Bid), Resting(f.id, f.participant, 10, f.qty))) == Book(q + [Newcomer], [])
      && (q == [] ==> Depth(Book(q + [Newcomer], []).At(Bid), 10) == 5)
  {
    MatchNone(Allow, Taker(3, 1, Bid, 10, false), 5, []);
    hide Match;
    assert Insert(Bid, [], Newcomer) == [] + [Newcomer] && Insert(Bid, [Mine], Newcomer) == [Mine] + [Newcomer];
    hide Insert;
    assert [Newcomer][1..] == [];
  }

  lemma {:induction false} SellerFills()
    ensures OpenQty(Step(Allow, Book([Mine, Newcomer], []), MoveMessage(Bid, 10, HidingMoves[2])).book, 2) == 0
    ensures Book([Mine, Newcomer], []).Locate(4) == None
  {
    var t, left := Taker(4, 1, Ask, 10, false), Newcomer.(qty := 1);
    MatchHead(Allow, t, 5, [Mine, Newcomer]);
    MatchHead(Allow, t, 4, [Newcomer]);
    MatchNone(Allow, t, 0, [left]);
    assert [Mine, Newcomer][1..] == [Newcomer] && [Newcomer][1..] == [];
    hide Match;
  }

  lemma {:induction false} SellerPrinted(stamp: Stamp)
    requires !stamp.shown
    ensures Told(Book([Newcomer], []), Bid, 10, HidingMoves[2], stamp) == [Print(TradePrint(stamp.ts, 10, 5, true), stamp.mid2)]
    ensures Book([Newcomer], []).Locate(4) == None && Depth(Book([Newcomer], []).At(Bid), 10) == 5
  {
    hide *;
    var x, f, e := Book([Newcomer], []), Flow.Trades(4, 1, false, 5), Traded(4, 3, 10, 5, Ask);
    var o := Step(Allow, x, MessageOf(Bid, 10, f));
    NewcomerSold();
    SweepReported(x, Bid, 10, f, stamp);
    SoldPrinted(e, stamp);
    ReportedIs(x, Bid, 10, f, stamp, [Print(TradePrint(stamp.ts, 10, 5, true), stamp.mid2)], Depth(o.book.At(Bid), 10));
    Silent([Print(TradePrint(stamp.ts, 10, 5, true), stamp.mid2)], stamp, Depth(o.book.At(Bid), 10));
    ToldFlow(x, Bid, 10, f, stamp);
  }

  lemma {:induction false} NewcomerSold()
    ensures var x, f := Book([Newcomer], []), Flow.Trades(4, 1, false, 5);
      && HidingMoves[2] == Flows(f) && f.Trades? && f.qty > 0 && x.Locate(f.id) == None && Depth(x.At(Bid), 10) == 5
      && Match(Allow, TakerOf(Bid, 10, f), f.qty, x.At(Bid)).events == [Traded(4, 3, 10, 5, Ask)]
  {
    var t := Taker(4, 1, Ask, 10, false);
    MatchHead(Allow, t, 5, [Newcomer]);
    MatchNone(Allow, t, 0, []);
    hide Match;
    assert [Newcomer][1..] == [] && [Traded(4, 3, 10, 5, Ask)] + [] == [Traded(4, 3, 10, 5, Ask)];
  }

  lemma {:induction false} SoldPrinted(e: Event, stamp: Stamp)
    requires e == Traded(4, 3, 10, 5, Ask)
    ensures Prints(Bid, [e], stamp) == [Print(TradePrint(stamp.ts, 10, 5, true), stamp.mid2)]
  {
    PrintsOne(Bid, e, [], stamp);
    hide Prints;
  }

  lemma {:induction false} ThreeMoves(b: Book, side: Side, price: Price, moves: seq<Move>)
    requires |moves| == 3
    ensures var b1 := Step(Allow, b, MoveMessage(side, price, moves[0])).book;
      var b2 := Step(Allow, b1, MoveMessage(side, price, moves[1])).book;
      && Moved(b, side, price, moves[..0]) == b && Moved(b, side, price, moves[..1]) == b1
      && Moved(b, side, price, moves[..2]) == b2
      && Moved(b, side, price, moves) == Step(Allow, b2, MoveMessage(side, price, moves[2])).book
  {
    hide *;
    assert moves[..0] == [] && moves[..1][..0] == [] && moves[..2][..1] == moves[..1] && moves[..3] == moves;
    NoMoves(b, side, price);
    MovesUnfold(b, side, price, moves[..1]);
    MovesUnfold(b, side, price, moves[..2]);
    MovesUnfold(b, side, price, moves);
  }

  lemma {:induction false} ThreeTold(x: Book, side: Side, price: Price, moves: seq<Move>, clock: nat -> Stamp)
    requires |moves| == 3
    ensures ToldAll(x, side, price, moves, clock)
         == Told(Moved(x, side, price, moves[..0]), side, price, moves[0], clock(0))
            + Told(Moved(x, side, price, moves[..1]), side, price, moves[1], clock(1))
            + Told(Moved(x, side, price, moves[..2]), side, price, moves[2], clock(2))
  {
    hide *;
    assert moves[..0] == [] && moves[..1][..0] == [] && moves[..2][..1] == moves[..1] && moves[..3] == moves;
    NothingTold(x, side, price, clock);
    ToldUnfold(x, side, price, moves[..1], clock);
    ToldUnfold(x, side, price, moves[..2], clock);
    ToldUnfold(x, side, price, moves, clock);
    var first := Told(Moved(x, side, price, moves[..0]), side, price, moves[0], clock(0));
    assert [] + first == first;
  }

  /** What the quote is told grows the level, and five units trade. */
  lemma {:induction false} HidingTold(es: seq<QuoteEvent>)
    requires es == [QuoteEvent.Level(5), Print(TradePrint(0, 10, 5, true), 0)]
    ensures GrowthOnly(Bid, 10, 5, es) && VolumeAt(10, es) == 5
  {
    assert es[..0] == [] && es[..1] == [es[0]] && es[..2] == es && es[..1][..0] == [];
    assert Known(10, 5, []) == 5 && VolumeAt(10, []) == 0 && VolumeAt(10, es[..1]) == 0;
  }

  lemma {:induction false} HidingFits(b: Book, x: Book, b1: Book, x1: Book, b2: Book, x2: Book)
    requires Moved(b, Bid, 10, HidingMoves[..0]) == b && Moved(x, Bid, 10, HidingMoves[..0]) == x
    requires Moved(b, Bid, 10, HidingMoves[..1]) == b1 && Moved(x, Bid, 10, HidingMoves[..1]) == x1
    requires Moved(b, Bid, 10, HidingMoves[..2]) == b2 && Moved(x, Bid, 10, HidingMoves[..2]) == x2
    requires b1.Locate(3) == None && x1.Locate(3) == None && b2.Locate(4) == None && x2.Locate(4) == None
    requires Depth(x2.At(Bid), 10) == 5
    ensures AllFit(b, x, Bid, 10, 2, HidingMoves)
  {
    hide Moved, Book.Locate, Depth, OpenQty;
    forall k | 0 <= k < 3
      ensures Fits(Moved(b, Bid, 10, HidingMoves[..k]), Moved(x, Bid, 10, HidingMoves[..k]), Bid, 10, 2, HidingMoves[k])
    {
      assert k == 0 || k == 1 || k == 2;
    }
  }

  /** Five units ahead are cancelled, five join behind, and only then is the level shown, no smaller than
      before; then five trade. The order is filled and every quote still waits: the growth hid the
      cancel. */
  lemma {:induction false} GrowthHidesCancel(rule: CancelRule, clock: nat -> Stamp)
    requires forall n :: clock(n) == Stamp(0, 0, n == 1)
    ensures var b, x := Book([Five, Mine], []), Book([Five], []);
      && AllFit(b, x, Bid, 10, 2, HidingMoves)
      && OpenQty(Moved(b, Bid, 10, HidingMoves), 2) == 0
      && TotalFilled(RunQuote(rule, Placed(Bid, 10, 1, 5, 0), ToldAll(x, Bid, 10, HidingMoves, clock)).fills) == 0
  {
    hide *;
    var b, x, es := Book([Five, Mine], []), Book([Five], []), [QuoteEvent.Level(5), Print(TradePrint(0, 10, 5, true), 0)];
    HidingStamps(clock);
    HidingBooks();
    FiveLeaves([Mine], clock(0));
    FiveLeaves([], clock(0));
    NewcomerJoins([Mine], clock(1));
    NewcomerJoins([], clock(1));
    SellerFills();
    SellerPrinted(clock(2));
    ThreeMoves(b, Bid, 10, HidingMoves);
    ThreeMoves(x, Bid, 10, HidingMoves);
    ThreeTold(x, Bid, 10, HidingMoves, clock);
    HidingFits(b, x, Book([Mine], []), Book([], []), Book([Mine, Newcomer], []), Book([Newcomer], []));
    HidingTold(es);
    FifoShare(rule, Bid, 10, 1, 5, 0, es);
  }

  lemma {:induction false} HidingStamps(clock: nat -> Stamp)
    requires forall n :: clock(n) == Stamp(0, 0, n == 1)
    ensures clock(0) == Stamp(0, 0, false) && clock(1) == Stamp(0, 0, true) && clock(2) == Stamp(0, 0, false)
  {
  }

  lemma {:induction false} HidingBooks()
    ensures |HidingMoves| == 3 && HidingMoves[0] == Leaves(1)
    ensures [Five, Mine] == [Five] + [Mine] && [Five] == [Five] + [] && [Mine] + [Newcomer] == [Mine, Newcomer]
    ensures [] + [Newcomer] == [Newcomer] && Min(1, 0) == 0
    ensures var e, p := QuoteEvent.Level(5), Print(TradePrint(0, 10, 5, true), 0); [] + [e] + [p] == [e, p]
  {
  }
}
