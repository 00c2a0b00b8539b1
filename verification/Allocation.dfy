/** When the engine's pools and maps grow: never, while the book stays within the sizes the
    constructor reserved for. */
module Allocations {
  import opened Types
  import opened PriceTimeBook
  import opened QueueLemmas
  import opened BookInvariants
  import FlatHashMaps
  import Pools

  /** Slots in the two pools, and in the id map and the two price maps. */
  datatype Caps = Caps(orderPool: nat, levelPool: nat, orderIds: nat, bidPrices: nat, askPrices: nat) {
    function PricesOf(s: Side): nat {
      if s.Bid? then bidPrices else askPrices
    }

    function WithPrices(s: Side, n: nat): Caps {
      if s.Bid? then this.(bidPrices := n) else this.(askPrices := n)
    }
  }

  const SlabObjects := 4096

  /** The listed prices of a side: one level each. */
  ghost function Prices(q: Queue): set<Price> {
    set i | 0 <= i < |q| :: q[i].price
  }

  ghost function LevelCount(b: Book): nat {
    |Prices(b.bids)| + |Prices(b.asks)|
  }

  datatype Place = Place(book: Book, taker: Taker, qty: Qty)

  /** Where the message comes to rest an order, if it does: after everything it removes. */
  function Rests(stp: StpPolicy, b: Book, m: Message): Option<Place> {
    match m
    case AddLimit(id, participant, side, price, qty, tif) =>
      var t := Taker(id, participant, side, price, false);
      if qty == 0 || b.Locate(id).Some? then None
      else
        var (rem, b1, _) := Sweep(stp, b, t, qty);
        if rem == 0 || tif.IOC? then None else Some(Place(b1, t, rem))
    case Modify(id, price, qty) =>
      (match b.Locate(id)
       case None => None
       case Some(s) =>
         var o := Lookup(b.At(s), id);
         if qty == 0 || (price == o.price && qty <= o.qty) then None
         else
           var t := Taker(id, o.participant, s, price, false);
           var (rem, b1, _) := Sweep(stp, b.With(s, Remove(b.At(s), id)), t, qty);
           if rem == 0 then None else Some(Place(b1, t, rem)))
    case _ => None
  }

  /** The sizes after one more order at `price` of side `s` is stored: the order and its id, and a
      level if the price is new. */
  ghost function Grown(c: Caps, b: Book, s: Side, price: Price): Caps {
    var c1 := c.(orderPool := Pools.PoolGrow(c.orderPool, OpenOrders(b), SlabObjects),
                 orderIds := FlatHashMaps.MapGrow(c.orderIds, OpenOrders(b)));
    if price in Prices(b.At(s)) then c1 else LevelGrown(c1, LevelCount(b), s, |Prices(b.At(s))|)
  }

  /** The sizes after one more level, when `levels` exist and `listed` of them on side `s`. */
  function LevelGrown(c: Caps, levels: nat, s: Side, listed: nat): Caps {
    c.(levelPool := Pools.PoolGrow(c.levelPool, levels, SlabObjects))
      .WithPrices(s, FlatHashMaps.MapGrow(c.PricesOf(s), listed))
  }

  ghost function CapsAfter(stp: StpPolicy, b: Book, m: Message, c: Caps): Caps {
    match Rests(stp, b, m)
    case None => c
    case Some(p) => Grown(c, p.book, p.taker.side, p.taker.price)
  }

  ghost function CapsRun(stp: StpPolicy, b: Book, ms: seq<Message>, c: Caps): Caps
    decreases |ms|
  {
    if ms == [] then c
    else
      var front := ms[..|ms| - 1];
      CapsAfter(stp, Run(stp, b, front).0, ms[|ms| - 1], CapsRun(stp, b, front, c))
  }

  /** What the constructor reserves for `expected` open orders. */
  ghost predicate Reserved(c: Caps, expected: nat) {
    && c.orderPool >= expected && c.orderIds >= 2 * expected
    && c.levelPool >= SlabObjects && c.bidPrices >= 1024 && c.askPrices >= 1024
  }

  ghost predicate Within(b: Book, expected: nat) {
    OpenOrders(b) <= expected && |Prices(b.bids)| <= 512 && |Prices(b.asks)| <= 512
  }

  /** If the message rests an order, that is the last thing it does to the book. */
  lemma {:induction false} RestsLast(stp: StpPolicy, b: Book, m: Message)
    ensures Rests(stp, b, m).Some? ==>
      var p := Rests(stp, b, m).value;
      Step(stp, b, m).book == Rest(p.book, p.taker, p.qty)
  {
    hide Sweep, Insert, Remove, Lookup;
  }

  lemma {:induction false} InsertPrices(s: Side, q: Queue, o: Resting)
    ensures Prices(Insert(s, q, o)) == Prices(q) + {o.price}
    ensures |Insert(s, q, o)| == |q| + 1
  {
    var k := InsertPlace(s, q, o);
    var q' := Insert(s, q, o);
    assert q'[k] == o;
    forall i | 0 <= i < |q| ensures q[i].price in Prices(q') {
      assert q'[if i < k then i else i + 1] == q[i];
    }
    forall i | 0 <= i < |q'| ensures q'[i].price in Prices(q) + {o.price} {
      assert q'[i] == if i < k then q[i] else if i == k then o else q[i - 1];
    }
  }

  lemma {:induction false} StepAllocatesNothing(stp: StpPolicy, b: Book, m: Message, c: Caps, expected: nat)
    requires Reserved(c, expected) && Within(Step(stp, b, m).book, expected)
    ensures CapsAfter(stp, b, m, c) == c
  {
    RestsLast(stp, b, m);
    if Rests(stp, b, m).Some? {
      var p := Rests(stp, b, m).value;
      var s, t := p.taker.side, p.taker;
      InsertPrices(s, p.book.At(s), Resting(t.id, t.participant, t.price, p.qty));
      hide Rests, Step, Insert, Prices;
    }
  }

  /** No slab is added and no map rehashes in any run whose books stay within the reserved sizes. */
  lemma {:induction false} RunAllocatesNothing(stp: StpPolicy, b: Book, ms: seq<Message>, c: Caps, expected: nat)
    requires Reserved(c, expected)
    requires forall n :: 0 < n <= |ms| ==> Within(Run(stp, b, ms[..n]).0, expected)
    ensures CapsRun(stp, b, ms, c) == c
    decreases |ms|
  {
    if ms != [] {
      hide Within, CapsAfter, Reserved, Step;
      var front := ms[..|ms| - 1];
      forall n | 0 < n <= |front| ensures Within(Run(stp, b, front[..n]).0, expected) {
        assert front[..n] == ms[..n];
      }
      RunAllocatesNothing(stp, b, front, c, expected);
      assert ms[..|ms|] == ms;
      StepAllocatesNothing(stp, Run(stp, b, front).0, ms[|ms| - 1], c, expected);
    }
  }

  /** The bound on levels is sharp: a side's map of the default size grows with the 513th level. */
  lemma {:induction false} LevelBoundSharp(stp: StpPolicy, b: Book, m: Message, c: Caps)
    requires Rests(stp, b, m).Some? && Rests(stp, b, m).value.taker.side == Bid && c.bidPrices == 1024
    ensures var before, after := Prices(Rests(stp, b, m).value.book.bids), Prices(Step(stp, b, m).book.bids);
      CapsAfter(stp, b, m, c).bidPrices > c.bidPrices <==> |after| > 512 && after != before
  {
    RestsLast(stp, b, m);
    var p := Rests(stp, b, m).value;
    InsertPrices(Bid, p.book.bids, Resting(p.taker.id, p.taker.participant, p.taker.price, p.qty));
    hide Rests, Step, Insert, Prices;
  }
}
