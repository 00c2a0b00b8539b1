/** Price-time priority over whole runs.  Every order carries the number of the message that last
    queued it; an in-place reduction keeps that stamp, a cancel/replace renews it. */
module Priority {
  import opened Types
  import opened PriceTimeBook
  import opened QueueLemmas
  import opened BookInvariants

  type Stamps = map<OrderId, nat>

  /** `x` goes before `y`: a better price, or the same price and queued earlier. */
  ghost predicate Precedes(s: Side, st: Stamps, x: Resting, y: Resting) {
    && x.id in st && y.id in st
    && (Better(s, x.price, y.price) || (x.price == y.price && st[x.id] < st[y.id]))
  }

  ghost predicate InOrder(s: Side, st: Stamps, q: Queue) {
    && (forall i :: 0 <= i < |q| ==> q[i].id in st)
    && (forall i, j :: 0 <= i < j < |q| ==> Precedes(s, st, q[i], q[j]))
  }

  /** Whether the message sends its order to the back of a queue. */
  predicate Requeues(b: Book, m: Message) {
    match m
    case AddLimit(id, _, _, _, _, _) => b.Locate(id) == None
    case AddMarket(_, _, _, _) => false
    case Cancel(_) => false
    case Modify(id, price, qty) =>
      b.Locate(id).Some? && var o := Lookup(b.At(b.Locate(id).value), id); !(price == o.price && qty <= o.qty)
  }

  /** The stamps after a run; message number `n` stamps `n`. */
  function RunStamps(stp: StpPolicy, b: Book, st: Stamps, ms: seq<Message>): Stamps
    decreases |ms|
  {
    if ms == [] then st
    else
      var n := |ms| - 1;
      var before := RunStamps(stp, b, st, ms[..n]);
      if Requeues(Run(stp, b, ms[..n]).0, ms[n]) then before[ms[n].id := n] else before
  }

  ghost predicate Ordered(b: Book, st: Stamps, clock: nat) {
    && InOrder(Bid, st, b.bids) && InOrder(Ask, st, b.asks)
    && (forall id :: id in st ==> st[id] < clock)
  }

  // ---- each operation ----

  lemma {:induction false} SubqueueInOrder(s: Side, st: Stamps, q: Queue, q': Queue, at: seq<nat>)
    requires InOrder(s, st, q) && |at| == |q'|
    requires forall i :: 0 <= i < |at| ==> at[i] < |q| && q'[i].id == q[at[i]].id && q'[i].price == q[at[i]].price
    requires forall i, j :: 0 <= i < j < |at| ==> at[i] < at[j]
    ensures InOrder(s, st, q')
  {
    forall i, j | 0 <= i < j < |q'| ensures Precedes(s, st, q'[i], q'[j]) {
      assert Precedes(s, st, q[at[i]], q[at[j]]);
    }
  }

  lemma {:induction false} ConsumedInOrder(s: Side, st: Stamps, q: Queue, k: nat, cut: Qty, q': Queue)
    requires GoodQueue(s, q) && InOrder(s, st, q) && Consumed(q, k, cut, q')
    ensures InOrder(s, st, q')
  {
    ConsumedGood(s, q, k, cut, q');
    SubqueueInOrder(s, st, q, q', seq(|q'|, i requires 0 <= i < |q'| => k + i));
  }

  lemma {:induction false} RemoveInOrder(s: Side, st: Stamps, q: Queue, id: OrderId)
    requires InOrder(s, st, q) && Has(q, id)
    ensures InOrder(s, st, Remove(q, id))
  {
    var k := IndexOf(q, id);
    SubqueueInOrder(s, st, q, Remove(q, id), seq(|q| - 1, i requires 0 <= i < |q| - 1 => if i < k then i else i + 1));
  }

  lemma {:induction false} ResizeInOrder(s: Side, st: Stamps, q: Queue, id: OrderId, qty: Qty)
    requires InOrder(s, st, q) && Has(q, id)
    ensures InOrder(s, st, Resize(q, id, qty))
  {
    SubqueueInOrder(s, st, q, Resize(q, id, qty), seq(|q|, i requires 0 <= i < |q| => i));
  }

  /** A renewed stamp of an id that is not queued disturbs nobody. */
  lemma {:induction false} RestampInOrder(s: Side, st: Stamps, q: Queue, id: OrderId, n: nat)
    requires InOrder(s, st, q) && !Has(q, id)
    ensures InOrder(s, st[id := n], q)
  {
    forall i | 0 <= i < |q| ensures q[i].id != id {}
    forall i, j | 0 <= i < j < |q| ensures Precedes(s, st[id := n], q[i], q[j]) {
      assert Precedes(s, st, q[i], q[j]);
    }
  }

  /** Joining with the newest stamp is joining in order. */
  lemma {:induction false} InsertInOrder(s: Side, st: Stamps, q: Queue, o: Resting)
    requires Sorted(s, q) && InOrder(s, st, q) && o.id in st
    requires forall i :: 0 <= i < |q| ==> st[q[i].id] < st[o.id]
    ensures InOrder(s, st, Insert(s, q, o))
  {
    var k := InsertPlace(s, q, o);
    var r := Insert(s, q, o);
    forall i | 0 <= i < |r| ensures r[i] == if i < k then q[i] else if i == k then o else q[i - 1] {}
    forall i, j | 0 <= i < j < |r| ensures Precedes(s, st, r[i], r[j]) {
      if i == k {
        assert j - 1 > k ==> !Better(s, q[j - 1].price, q[k].price);
      } else if j != k {
        assert Precedes(s, st, q[if i < k then i else i - 1], q[if j < k then j else j - 1]);
      }
    }
  }

  lemma {:induction false} SweepInOrder(stp: StpPolicy, b: Book, t: Taker, qty: Qty, st: Stamps)
    requires Good(b) && InOrder(Bid, st, b.bids) && InOrder(Ask, st, b.asks)
    ensures var b1 := Sweep(stp, b, t, qty).1; InOrder(Bid, st, b1.bids) && InOrder(Ask, st, b1.asks)
  {
    var s := t.side.Opposite();
    var k, cut := SweepShape(stp, t, qty, b.At(s));
    ConsumedInOrder(s, st, b.At(s), k, cut, Match(stp, t, qty, b.At(s)).queue);
  }

  /** A taker with a fresh stamp sweeps, and its remainder queues behind everyone at its price. */
  lemma {:induction false} SubmitInOrder(stp: StpPolicy, b: Book, t: Taker, qty: Qty, st: Stamps, n: nat)
    requires Good(b) && Ordered(b, st, n) && t.id !in Ids(b.bids) && t.id !in Ids(b.asks) && !t.market
    ensures var (rem, b1, _) := Sweep(stp, b, t, qty);
      Ordered(b1, st[t.id := n], n + 1) && Ordered(Rest(b1, t, rem), st[t.id := n], n + 1)
  {
    hide Match, Insert;
    var st' := st[t.id := n];
    HasIds(b.bids, t.id);
    HasIds(b.asks, t.id);
    RestampInOrder(Bid, st, b.bids, t.id, n);
    RestampInOrder(Ask, st, b.asks, t.id, n);
    SweepInOrder(stp, b, t, qty, st');
    SweepGood(stp, b, t, qty);
    var (rem, b1, _) := Sweep(stp, b, t, qty);
    var own := b1.At(t.side);
    assert Ids(b1.At(t.side)) <= Ids(b.At(t.side));
    forall i | 0 <= i < |own| ensures st'[own[i].id] < st'[t.id] {
      assert own[i].id in Ids(own);
    }
    InsertInOrder(t.side, st', own, Resting(t.id, t.participant, t.price, rem));
  }

  // ---- every message, every run ----

  lemma {:induction false} StepOrdered(stp: StpPolicy, b: Book, m: Message, st: Stamps, n: nat)
    requires Good(b) && Ordered(b, st, n)
    ensures Ordered(Step(stp, b, m).book, if Requeues(b, m) then st[m.id := n] else st, n + 1)
  {
    hide Match, Insert, Good;
    LocateIds(b, m.id);
    match m
    case AddLimit(id, participant, side, price, qty, tif) =>
      if b.Locate(id) == None {
        SubmitInOrder(stp, b, Taker(id, participant, side, price, false), qty, st, n);
        if qty == 0 {
          HasIds(b.bids, id);
          HasIds(b.asks, id);
          RestampInOrder(Bid, st, b.bids, id, n);
          RestampInOrder(Ask, st, b.asks, id, n);
        }
      }
    case AddMarket(id, participant, side, qty) =>
      SweepInOrder(stp, b, Taker(id, participant, side, 0, true), qty, st);
    case Cancel(id) =>
      if b.Locate(id).Some? {
        RemoveInOrder(b.Locate(id).value, st, b.At(b.Locate(id).value), id);
      }
    case Modify(id, price, qty) =>
      if b.Locate(id).Some? {
        ModifyOrdered(stp, b, id, price, qty, st, n);
      }
  }

  lemma {:induction false} ModifyOrdered(stp: StpPolicy, b: Book, id: OrderId, price: Price, qty: Qty, st: Stamps, n: nat)
    requires Good(b) && Ordered(b, st, n) && b.Locate(id).Some?
    ensures Ordered(ModifyOrder(stp, b, id, price, qty).book, if Requeues(b, Modify(id, price, qty)) then st[id := n] else st, n + 1)
  {
    hide Match, Insert;
    var s := b.Locate(id).value;
    var o, b0 := Lookup(b.At(s), id), b.With(s, Remove(b.At(s), id));
    RemoveInOrder(s, st, b.At(s), id);
    RemoveGood(b, s, id);
    if qty > 0 && KeepsPriority(o, price, qty) {
      ResizeInOrder(s, st, b.At(s), id, qty);
    } else {
      HasIds(b0.bids, id);
      HasIds(b0.asks, id);
      RestampInOrder(Bid, st, b0.bids, id, n);
      RestampInOrder(Ask, st, b0.asks, id, n);
      SubmitInOrder(stp, b0, Taker(id, o.participant, s, price, false), qty, st, n);
    }
  }

  /** In every reachable book each side stands in strict price-time order. */
  lemma {:induction false} RunOrdered(stp: StpPolicy, ms: seq<Message>)
    ensures Ordered(Run(stp, EmptyBook, ms).0, RunStamps(stp, EmptyBook, map[], ms), |ms|)
    decreases |ms|
  {
    if ms != [] {
      var n := |ms| - 1;
      RunOrdered(stp, ms[..n]);
      EmptyGood();
      RunGood(stp, EmptyBook, ms[..n]);
      StepOrdered(stp, Run(stp, EmptyBook, ms[..n]).0, ms[n], RunStamps(stp, EmptyBook, map[], ms[..n]), n);
    }
  }

  // ---- trades ----

  /** A queue as someone follows it who knows it once and then only reads events. */
  function Heed(q: Queue, e: Event): Queue {
    match e
    case Traded(_, maker, _, qty, _) =>
      if !Has(q, maker) then q
      else if Lookup(q, maker).qty <= qty then Remove(q, maker)
      else Resize(q, maker, Lookup(q, maker).qty - qty)
    case Cancelled(id, _) => if Has(q, id) then Remove(q, id) else q
    case Accepted(_, _, _, _) => q
    case Rejected(_, _) => q
  }

  function Replay(q: Queue, es: seq<Event>): Queue
    decreases |es|
  {
    if es == [] then q else Replay(Heed(q, es[0]), es[1..])
  }

  /** The event is a trade with the first order of `q`, at its price and within its quantity. */
  ghost predicate HitsFirst(t: Taker, q: Queue, e: Event) {
    && q != [] && e.Traded? && e.taker == t.id && e.takerSide == t.side
    && e.maker == q[0].id && e.price == q[0].price && 0 < e.qty <= q[0].qty && Crosses(t, e.price)
  }

  lemma {:induction false} ReplayCons(q: Queue, e: Event, es: seq<Event>, k: nat)
    requires k <= |es|
    ensures Replay(q, [e] + es) == Replay(Heed(q, e), es)
    ensures Replay(q, ([e] + es)[..k + 1]) == Replay(Heed(q, e), es[..k])
  {
    assert ([e] + es)[1..] == es;
    assert ([e] + es)[..k + 1][1..] == es[..k];
  }

  /** What the head of a sweep does to a follower of the queue. */
  lemma {:induction false} HeedHead(q: Queue, e: Event, fill: Qty)
    requires q != [] && q[0].qty > 0
    requires e == Cancelled(q[0].id, SelfTradePrevention) || (e.Traded? && e.maker == q[0].id && e.qty == fill && fill <= q[0].qty)
    ensures Heed(q, e) == if e.Cancelled? || fill == q[0].qty then q[1..] else [q[0].(qty := q[0].qty - fill)] + q[1..]
  {
    assert Has(q, q[0].id) && IndexOf(q, q[0].id) == 0;
    assert Remove(q, q[0].id) == q[1..];
    assert Resize(q, q[0].id, q[0].qty - (if e.Traded? then fill else 0))
           == [q[0].(qty := q[0].qty - (if e.Traded? then fill else 0))] + q[1..];
  }

  lemma {:induction false} TailInOrder(s: Side, st: Stamps, q: Queue)
    requires InOrder(s, st, q) && Distinct(q) && Positive(q) && q != []
    ensures InOrder(s, st, q[1..]) && Distinct(q[1..]) && Positive(q[1..])
    ensures forall id :: Has(q[1..], id) ==> Has(q, id)
  {
    SubqueueInOrder(s, st, q, q[1..], seq(|q| - 1, i requires 0 <= i < |q| - 1 => i + 1));
    forall id | Has(q[1..], id) ensures Has(q, id) {
      var i :| 0 <= i < |q[1..]| && q[1..][i].id == id;
      assert q[i + 1].id == id;
    }
  }

  /** Whoever follows `es` from `q` arrives at `after`, and stands before entry `k` at a queue in order
      whose first order that entry hits, if it is a trade. */
  ghost predicate Follows(t: Taker, st: Stamps, q: Queue, es: seq<Event>, after: Queue, k: nat)
    requires k <= |es|
  {
    && Replay(q, es) == after
    && InOrder(t.side.Opposite(), st, Replay(q, es[..k]))
    && (k < |es| && es[k].Traded? ==> HitsFirst(t, Replay(q, es[..k]), es[k]))
  }

  lemma {:induction false} FollowsNone(t: Taker, st: Stamps, q: Queue)
    requires InOrder(t.side.Opposite(), st, q)
    ensures Follows(t, st, q, [], q, 0)
  {
  }

  lemma {:induction false} FollowsCons(t: Taker, st: Stamps, q: Queue, e: Event, es: seq<Event>, after: Queue, k: nat)
    requires k <= |es| && Follows(t, st, Heed(q, e), es, after, k)
    ensures Follows(t, st, q, [e] + es, after, k + 1)
  {
    hide Heed, HitsFirst, InOrder;
    ReplayCons(q, e, es, k);
  }

  lemma {:induction false} FollowsFirst(t: Taker, st: Stamps, q: Queue, e: Event, es: seq<Event>, after: Queue)
    requires InOrder(t.side.Opposite(), st, q) && (e.Traded? ==> HitsFirst(t, q, e))
    requires Follows(t, st, Heed(q, e), es, after, 0)
    ensures Follows(t, st, q, [e] + es, after, 0)
  {
    hide Heed, HitsFirst, InOrder;
    ReplayCons(q, e, es, 0);
    assert ([e] + es)[..0] == [];
  }

  /** Following the events of a sweep leads to the queue the sweep leaves, and at each trade the
      maker is the first order of the queue as it then stands, which is still in order. */
  lemma {:induction false} SweepHitsFirst(stp: StpPolicy, t: Taker, rem: Qty, q: Queue, st: Stamps, k: nat)
    requires InOrder(t.side.Opposite(), st, q) && Distinct(q) && Positive(q) && !Has(q, t.id)
    requires k <= |Match(stp, t, rem, q).events|
    ensures var r := Match(stp, t, rem, q); Follows(t, st, q, r.events, r.queue, k)
    decreases |q|
  {
    hide Match, Heed, InOrder, HitsFirst, Follows;
    if rem == 0 || q == [] || !Crosses(t, q[0].price) {
      MatchNone(stp, t, rem, q);
      FollowsNone(t, st, q);
    } else {
      MatchHead(stp, t, rem, q);
      var fill := Min(rem, q[0].qty);
      if SelfTrade(stp, t, q[0]) && stp == CancelIncoming {
        KilledFollows(t, st, q, k);
      } else {
        var e := if SelfTrade(stp, t, q[0]) then Cancelled(q[0].id, SelfTradePrevention)
                 else Traded(t.id, q[0].id, q[0].price, fill, t.side);
        HeedHead(q, e, fill);
        FirstIsHit(t, q, e, rem);
        var left := if e.Cancelled? then rem else rem - fill;
        HeedInOrder(t.side.Opposite(), st, q, e, fill);
        if e.Cancelled? || fill == q[0].qty {
          SweepHitsFirst(stp, t, left, q[1..], st, if k == 0 then 0 else k - 1);
        } else {
          MatchNone(stp, t, 0, Heed(q, e));
          FollowsNone(t, st, Heed(q, e));
        }
        var r' := Match(stp, t, left, Heed(q, e));
        if k == 0 {
          FollowsFirst(t, st, q, e, r'.events, r'.queue);
        } else {
          FollowsCons(t, st, q, e, r'.events, r'.queue, k - 1);
        }
      }
    }
  }

  lemma {:induction false} HeedInOrder(s: Side, st: Stamps, q: Queue, e: Event, fill: Qty)
    requires InOrder(s, st, q) && Distinct(q) && Positive(q) && q != [] && fill <= q[0].qty
    requires Heed(q, e) == if e.Cancelled? || fill == q[0].qty then q[1..] else [q[0].(qty := q[0].qty - fill)] + q[1..]
    ensures InOrder(s, st, Heed(q, e))
    ensures InOrder(s, st, q[1..]) && Distinct(q[1..]) && Positive(q[1..])
    ensures forall id :: Has(q[1..], id) ==> Has(q, id)
  {
    hide Heed;
    TailInOrder(s, st, q);
    hide InOrder, Has;
    if !(e.Cancelled? || fill == q[0].qty) {
      SubqueueInOrder(s, st, q, Heed(q, e), seq(|q|, i requires 0 <= i < |q| => i));
    }
  }

  lemma {:induction false} FirstIsHit(t: Taker, q: Queue, e: Event, rem: Qty)
    requires rem > 0 && q != [] && q[0].qty > 0 && Crosses(t, q[0].price)
    requires e.Traded? ==> e == Traded(t.id, q[0].id, q[0].price, Min(rem, q[0].qty), t.side)
    ensures e.Traded? ==> HitsFirst(t, q, e)
  {
  }

  lemma {:induction false} KilledFollows(t: Taker, st: Stamps, q: Queue, k: nat)
    requires !Has(q, t.id) && k <= 1 && InOrder(t.side.Opposite(), st, q)
    ensures Follows(t, st, q, [Cancelled(t.id, SelfTradePrevention)], q, k)
  {
    var es := [Cancelled(t.id, SelfTradePrevention)];
    assert es[1..] == [] && Replay(q, es) == Replay(q, []);
    assert es[..k] == if k == 0 then [] else es;
    hide InOrder, Heed;
  }

  /** At entry `k` of `log`, seen from book `b`: a trade with the order then first on the other side,
      which stands in order of price and of the stamps `st`. */
  ghost predicate FairTrade(b: Book, st: Stamps, log: seq<Event>, k: nat)
    requires k < |log| && log[k].Traded?
  {
    var e := log[k];
    var now := Replay(b.At(e.takerSide.Opposite()), log[..k]);
    && now != [] && e.maker == now[0].id && e.price == now[0].price && 0 < e.qty <= now[0].qty
    && (forall i :: 0 < i < |now| ==> Precedes(e.takerSide.Opposite(), st, now[0], now[i]))
  }

  /** A trade of the log is one of the sweep's. */
  lemma {:induction false} TradeWithin(head: seq<Event>, es: seq<Event>, tail: seq<Event>, k: nat)
    requires (forall e :: e in head ==> e.Accepted?) && (forall e :: e in tail ==> e.Cancelled?)
    requires k < |head + es + tail| && (head + es + tail)[k].Traded?
    ensures |head| <= k < |head| + |es| && (head + es + tail)[k] == es[k - |head|]
    ensures (head + es + tail)[..k] == head + es[..k - |head|]
  {
    var log := head + es + tail;
    assert forall i :: 0 <= i < |head| ==> log[i] == head[i] && head[i] in head;
    assert forall i :: 0 <= i < |tail| ==> log[|head| + |es| + i] == tail[i] && tail[i] in tail;
  }

  /** The trades of a sweep are fair, also behind an acceptance and before a closing cancel. */
  lemma {:induction false} SweepFair(stp: StpPolicy, b: Book, t: Taker, qty: Qty, st: Stamps, head: seq<Event>,
          tail: seq<Event>, k: nat)
    requires Good(b) && InOrder(t.side.Opposite(), st, b.At(t.side.Opposite())) && t.id !in Ids(b.At(t.side.Opposite()))
    requires |head| <= 1 && (forall e :: e in head ==> e.Accepted?) && (forall e :: e in tail ==> e.Cancelled?)
    requires var log := head + Sweep(stp, b, t, qty).2 + tail; k < |log| && log[k].Traded?
    ensures FairTrade(b, st, head + Sweep(stp, b, t, qty).2 + tail, k)
    ensures (head + Sweep(stp, b, t, qty).2 + tail)[k].takerSide == t.side
  {
    hide Match, Heed, Good;
    var s := t.side.Opposite();
    var q, es := b.At(s), Sweep(stp, b, t, qty).2;
    var log := head + es + tail;
    assert GoodQueue(s, q) by { GoodSides(b); }
    HasIds(q, t.id);
    TradeWithin(head, es, tail, k);
    SweepHitsFirst(stp, t, qty, q, st, k - |head|);
    hide Has, Ids;
    if head != [] {
      assert head == [head[0]];
      ReplayCons(q, head[0], es[..k - 1], k - 1);
      assert es[..k - 1][..k - 1] == es[..k - 1];
      HeedAccepted(q, head[0]);
      assert Replay(q, log[..k]) == Replay(q, es[..k - 1]);
    } else {
      assert log[..k] == es[..k];
    }
  }

  lemma {:induction false} GoodSides(b: Book)
    requires Good(b)
    ensures forall s :: GoodQueue(s, b.At(s))
  {
  }

  lemma {:induction false} HeedAccepted(q: Queue, e: Event)
    requires e.Accepted?
    ensures Heed(q, e) == q
  {
  }

  lemma {:induction false} StepFair(stp: StpPolicy, b: Book, m: Message, st: Stamps, n: nat, k: nat)
    requires Good(b) && Ordered(b, st, n)
    requires k < |Step(stp, b, m).events| && Step(stp, b, m).events[k].Traded?
    ensures FairTrade(b, st, Step(stp, b, m).events, k)
  {
    hide Match, FairTrade, Good, Insert;
    LocateIds(b, m.id);
    var log := Step(stp, b, m).events;
    match m
    case AddLimit(id, participant, side, price, qty, tif) =>
      var t := Taker(id, participant, side, price, false);
      var (rem, _, es) := Sweep(stp, b, t, qty);
      var head, tail := [Accepted(id, side, price, qty)], if rem > 0 && tif.IOC? then [Cancelled(id, IocRemainder)] else [];
      assert log == head + es + tail;
      SweepFair(stp, b, t, qty, st, head, tail, k);
    case AddMarket(id, participant, side, qty) =>
      var t := Taker(id, participant, side, 0, true);
      var (rem, _, es) := Sweep(stp, b, t, qty);
      var head, tail := [Accepted(id, side, 0, qty)], if rem > 0 then [Cancelled(id, MarketRemainder)] else [];
      assert log == head + es + tail;
      SweepFair(stp, b, t, qty, st, head, tail, k);
    case Cancel(id) =>
    case Modify(id, price, qty) =>
      var s := b.Locate(id).value;
      var t, b0 := Taker(id, Lookup(b.At(s), id).participant, s, price, false), b.With(s, Remove(b.At(s), id));
      RemoveGood(b, s, id);
      assert log == [] + Sweep(stp, b0, t, qty).2 + [];
      SweepFair(stp, b0, t, qty, st, [], [], k);
      SameTrade(b, b0, st, log, k, s);
  }

  lemma {:induction false} SameTrade(b: Book, b0: Book, st: Stamps, log: seq<Event>, k: nat, s: Side)
    requires k < |log| && log[k].Traded? && log[k].takerSide == s && b.At(s.Opposite()) == b0.At(s.Opposite())
    requires FairTrade(b0, st, log, k)
    ensures FairTrade(b, st, log, k)
  {
  }

  /** Every trade of every run, for every policy: the maker is at that instant the best-priced and,
      at its price, earliest-queued order of the other side, and the trade is at its price. */
  lemma {:induction false} RunFair(stp: StpPolicy, ms: seq<Message>, b: Book, m: Message, k: nat)
    requires b == Run(stp, EmptyBook, ms).0
    requires k < |Step(stp, b, m).events| && Step(stp, b, m).events[k].Traded?
    ensures FairTrade(b, RunStamps(stp, EmptyBook, map[], ms), Step(stp, b, m).events, k)
  {
    EmptyGood();
    RunGood(stp, EmptyBook, ms);
    RunOrdered(stp, ms);
    StepFair(stp, b, m, RunStamps(stp, EmptyBook, map[], ms), |ms|, k);
  }
}
