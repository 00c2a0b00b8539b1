/** The engine's storage: the two pools, the id map and the two price maps, as one object that every
    message of a stream takes from and gives back to. Its sizes move as `Allocations` accounts. */
module EngineMemories {
  import opened Types
  import opened PriceTimeBook
  import opened QueueLemmas
  import opened Ladders
  import opened BookInvariants
  import opened Allocations
  import opened Holdings
  import opened Cyclic
  import opened FlatHashMaps
  import opened Pools

  // ---- components ----

  /** The pool of `slots` slots whose live ones are `live`. */
  ghost predicate PoolIs(pool: Pool, live: set<nat>, slots: nat)
    reads pool
  {
    pool.Valid() && pool.slabObjects == SlabObjects && pool.Live() == live && pool.capacity == slots
  }

  method NewPool(n: nat) returns (pool: Pool, ghost slots: nat)
    ensures fresh(pool) && PoolIs(pool, {}, slots)
    ensures n <= slots < n + SlabObjects && exists k: nat :: slots == Slabs(k, SlabObjects)
  {
    pool := new Pool(SlabObjects);
    pool.Reserve(n);
    slots := pool.capacity;
  }

  method Take(pool: Pool, ghost live: set<nat>, ghost slots: nat) returns (slot: nat)
    requires PoolIs(pool, live, slots)
    modifies pool
    ensures slot !in live && PoolIs(pool, live + {slot}, PoolGrow(slots, |live|, SlabObjects))
  {
    hide Pool.Valid, Pool.Live;
    pool.LiveCounts();
    slot := pool.Alloc(None);
  }

  method GiveBack(pool: Pool, ghost live: set<nat>, ghost slots: nat, slot: nat)
    requires PoolIs(pool, live, slots) && slot in live
    modifies pool
    ensures PoolIs(pool, live - {slot}, slots)
  {
    hide Pool.Valid, Pool.Live;
    pool.Dealloc(slot);
  }

  ghost function Cells<K(0)>(m: FlatHashMap<K, nat>): set<object>
    reads m
  {
    {m, m.slots, m.used}
  }

  /** The map `contents`, in `slots` slots. */
  ghost predicate MapIs<K(0)>(m: FlatHashMap<K, nat>, contents: map<K, nat>, slots: nat)
    reads Cells(m)
  {
    m.Valid() && m.Contents() == contents && m.used.Length == slots
  }

  method NewMap<K(==, 0)>(mix: K -> nat, n: nat) returns (m: FlatHashMap<K, nat>, ghost slots: nat)
    ensures fresh(Cells(m)) && MapIs(m, map[], slots)
    ensures PowerOfTwo(slots) && n <= slots && (slots == 16 || slots < 2 * n)
  {
    m := new FlatHashMap(mix, n);
    slots := m.used.Length;
  }

  method Put<K(==, 0)>(m: FlatHashMap<K, nat>, ghost contents: map<K, nat>, ghost slots: nat, key: K, slot: nat)
    requires MapIs(m, contents, slots) && key !in contents
    modifies Cells(m)
    ensures MapIs(m, contents[key := slot], MapGrow(slots, |contents|))
    ensures (fresh(m.slots) && fresh(m.used)) || (m.slots == old(m.slots) && m.used == old(m.used))
  {
    hide FlatHashMap.Valid, FlatHashMap.Contents;
    m.SizeCounts();
    var _ := m.Insert(key, slot);
  }

  method Drop<K(==, 0)>(m: FlatHashMap<K, nat>, ghost contents: map<K, nat>, ghost slots: nat, key: K) returns (slot: nat)
    requires MapIs(m, contents, slots) && key in contents
    modifies Cells(m)
    ensures slot == contents[key] && MapIs(m, contents - {key}, slots)
    ensures Cells(m) == old(Cells(m))
  {
    hide FlatHashMap.Valid, FlatHashMap.Contents;
    var found := m.Find(key);
    slot := found.value;
    var _ := m.Erase(key);
  }

  method Get<K(==, 0)>(m: FlatHashMap<K, nat>, ghost contents: map<K, nat>, ghost slots: nat, key: K) returns (found: bool)
    requires MapIs(m, contents, slots)
    ensures found == (key in contents) && MapIs(m, contents, slots)
  {
    var slot := m.Find(key);
    found := slot.Some?;
  }

  ghost predicate MapsApart(ids: FlatHashMap<OrderId, nat>, bids: FlatHashMap<Price, nat>, asks: FlatHashMap<Price, nat>)
    reads ids, bids, asks
  {
    && (ids as object) !in {bids, asks} && bids != asks
    && ids.used !in {bids.used, asks.used} && bids.used != asks.used
    && (ids.slots as object) !in {bids.slots, asks.slots} && bids.slots != asks.slots
  }

  /** The three maps, as long as the engine's constructor makes them. */
  method NewMaps(n: nat, mixId: OrderId -> nat, mixPrice: Price -> nat)
    returns (ids: FlatHashMap<OrderId, nat>, bids: FlatHashMap<Price, nat>, asks: FlatHashMap<Price, nat>,
             ghost idSlots: nat, ghost bidSlots: nat, ghost askSlots: nat)
    ensures fresh(Cells(ids) + Cells(bids) + Cells(asks)) && MapsApart(ids, bids, asks)
    ensures MapIs(ids, map[], idSlots) && MapIs(bids, map[], bidSlots) && MapIs(asks, map[], askSlots)
    ensures PowerOfTwo(idSlots) && n <= idSlots && (idSlots == 16 || idSlots < 2 * n)
    ensures bidSlots == 1024 && askSlots == 1024
  {
    hide MapIs, PowerOfTwo;
    ids, idSlots := NewMap(mixId, n);
    bids, bidSlots := NewMap(mixPrice, 1024);
    asks, askSlots := NewMap(mixPrice, 1024);
    Only1024(bidSlots);
    Only1024(askSlots);
  }

  lemma {:induction false} Only1024(n: nat)
    requires PowerOfTwo(n) && 1024 <= n < 2048
    ensures n == 1024
  {
    assert PowerOfTwo(64) && PowerOfTwo(1024) by {
      assert PowerOfTwo(2) && PowerOfTwo(4) && PowerOfTwo(8) && PowerOfTwo(16) && PowerOfTwo(32) && PowerOfTwo(64);
      assert PowerOfTwo(128) && PowerOfTwo(256) && PowerOfTwo(512);
    }
    var times := PowersDivide(1024, n);
    hide PowerOfTwo;
  }

  lemma {:induction false} OneSlab(slots: nat)
    requires 4096 <= slots < 8192 && exists k: nat :: slots == Slabs(k, SlabObjects)
    ensures slots == 4096
  {
    var k: nat :| slots == Slabs(k, SlabObjects);
    assert k == 1;
  }

  /** The sizes after one more order is stored, as the pools and maps see it. */
  ghost function GrownFor(c: Caps, h: Holding, s: Side, price: Price): Caps {
    var c1 := c.(orderPool := PoolGrow(c.orderPool, |h.orderSlots|, SlabObjects),
                 orderIds := MapGrow(c.orderIds, |h.ids|));
    if price in h.PricesOf(s) then c1 else LevelGrown(c1, |h.levelSlots|, s, |h.PricesOf(s)|)
  }

  lemma {:induction false} GrownIs(c: Caps, h: Holding, b: Book, s: Side, price: Price)
    requires HoldsBook(h, b) && Good(b)
    ensures GrownFor(c, h, s, price) == Grown(c, b, s, price)
  {
    HoldsCounts(h, b);
    assert h.PricesOf(s).Keys == Prices(b.At(s));
    hide Good, Tied, Ids, Prices, LevelCount, LevelGrown, PoolGrow, MapGrow, OpenOrders;
    assert price in h.PricesOf(s) <==> price in h.PricesOf(s).Keys;
  }

  function LevelKept(h: Holding, s: Side, price: Price, lvl: nat): Holding {
    if price in h.PricesOf(s) then h else LevelStored(h, s, price, lvl)
  }

  ghost function LevelGrownFor(c: Caps, h: Holding, s: Side, price: Price): Caps {
    if price in h.PricesOf(s) then c else LevelGrown(c, |h.levelSlots|, s, |h.PricesOf(s)|)
  }

  /** Slot, level and id, taken one after the other. */
  lemma {:induction false} KeepIs(h: Holding, c: Caps, s: Side, id: OrderId, price: Price, slot: nat, lvl: nat)
    ensures var h1 := h.(orderSlots := h.orderSlots + {slot});
      var c1 := c.(orderPool := PoolGrow(c.orderPool, |h.orderSlots|, SlabObjects));
      var h2, c2 := LevelKept(h1, s, price, lvl), LevelGrownFor(c1, h1, s, price);
      && h1.PricesOf(s) == h.PricesOf(s) && h1.levelSlots == h.levelSlots && h2.ids == h.ids
      && h2.(ids := h2.ids[id := slot]) == Stored(h, s, id, price, slot, lvl)
      && c2.(orderIds := MapGrow(c2.orderIds, |h2.ids|)) == GrownFor(c, h, s, price)
  {
    hide PoolGrow, MapGrow;
  }

  /** Book and sizes after an order is swept and, if it `rests`, its remainder stored. */
  ghost function Submitted(stp: StpPolicy, b: Book, t: Taker, qty: Qty, rests: bool, c: Caps): (Book, Caps) {
    var (rem, b1, _) := Sweep(stp, b, t, qty);
    if rem == 0 || !rests then (b1, c) else (Rest(b1, t, rem), Grown(c, b1, t.side, t.price))
  }

  lemma {:induction false} SubmittedIs(stp: StpPolicy, b: Book, t: Taker, qty: Qty, rests: bool, c: Caps, rem: Qty, b1: Book)
    requires rem == Sweep(stp, b, t, qty).0 && b1 == Sweep(stp, b, t, qty).1
    ensures
      && Submitted(stp, b, t, qty, rests, c).0 == (if rem == 0 || !rests then b1 else Rest(b1, t, rem))
      && Submitted(stp, b, t, qty, rests, c).1 == (if rem == 0 || !rests then c else Grown(c, b1, t.side, t.price))
  {
    hide Sweep, Rest, Grown;
  }

  lemma {:induction false} LimitSubmits(stp: StpPolicy, b: Book, t: Taker, qty: Qty, tif: TimeInForce, c: Caps)
    requires qty > 0 && b.Locate(t.id) == None && !t.market
    ensures var m := AddLimit(t.id, t.participant, t.side, t.price, qty, tif);
      (Step(stp, b, m).book, CapsAfter(stp, b, m, c)) == Submitted(stp, b, t, qty, tif.GTC?, c)
  {
    hide Sweep, Rest, Grown;
  }

  lemma {:induction false} MarketSubmits(stp: StpPolicy, b: Book, t: Taker, qty: Qty, c: Caps)
    requires qty > 0 && b.Locate(t.id) == None && t.market && t.price == 0
    ensures var m := AddMarket(t.id, t.participant, t.side, qty);
      (Step(stp, b, m).book, CapsAfter(stp, b, m, c)) == Submitted(stp, b, t, qty, false, c)
  {
    hide Sweep, Rest, Grown;
  }

  lemma {:induction false} ReplaceSubmits(stp: StpPolicy, b: Book, s: Side, id: OrderId, price: Price, qty: Qty, c: Caps)
    requires qty > 0 && b.Locate(id) == Some(s) && !KeepsPriority(Lookup(b.At(s), id), price, qty)
    ensures var t := Taker(id, Lookup(b.At(s), id).participant, s, price, false);
      (Step(stp, b, Modify(id, price, qty)).book, CapsAfter(stp, b, Modify(id, price, qty), c))
      == Submitted(stp, b.With(s, Remove(b.At(s), id)), t, qty, true, c)
  {
    hide Sweep, Rest, Grown, Lookup, Remove, Has;
  }

  /** The messages that store nothing. */
  lemma {:induction false} StoresNothing(stp: StpPolicy, b: Book, m: Message, c: Caps)
    requires match m
      case AddLimit(id, _, _, _, qty, _) => qty == 0 || b.Locate(id).Some?
      case AddMarket(id, _, _, qty) => qty == 0 || b.Locate(id).Some?
      case Cancel(id) => true
      case Modify(id, price, qty) =>
        b.Locate(id).Some? ==> qty == 0 || KeepsPriority(Lookup(b.At(b.Locate(id).value), id), price, qty)
    ensures CapsAfter(stp, b, m, c) == c
    ensures Step(stp, b, m).book ==
            match b.Locate(m.id)
            case None => b
            case Some(s) =>
              var q := b.At(s);
              if m.AddLimit? || m.AddMarket? then b
              else if m.Cancel? || m.qty == 0 then b.With(s, Remove(q, m.id))
              else b.With(s, Resize(q, m.id, m.qty))
  {
    hide Sweep, Rest, Grown, Lookup, Remove, Resize, Has;
  }

  lemma {:induction false} SweepIds(stp: StpPolicy, b: Book, t: Taker, qty: Qty)
    requires Good(b) && t.id !in Ids(b.bids) && t.id !in Ids(b.asks)
    ensures var b' := Sweep(stp, b, t, qty).1;
      Good(b') && t.id !in Ids(b'.bids) && t.id !in Ids(b'.asks)
  {
    SweepGood(stp, b, t, qty);
    hide Good, Ids, Sweep;
    var b' := Sweep(stp, b, t, qty).1;
    assert Ids(b'.At(Bid)) <= Ids(b.At(Bid)) && Ids(b'.At(Ask)) <= Ids(b.At(Ask));
  }

  lemma {:induction false} FrontQty(b: Book, s: Side)
    requires Good(b) && b.At(s) != []
    ensures b.At(s)[0].qty > 0
  {
  }

  /** A partial fill of the head leaves the storage as it is. */
  lemma {:induction false} FrontCut(h: Holding, b: Book, s: Side, n: Qty)
    requires HoldsBook(h, b) && Good(b) && b.At(s) != [] && n > 0
    ensures var b' := b.With(s, [b.At(s)[0].(qty := n)] + b.At(s)[1..]);
      Good(b') && HoldsBook(h, b')
  {
    var q := b.At(s);
    RemoveHead(q);
    ResizeGood(b, s, q[0].id, n);
    ResizedHolds(h, b, s, q[0].id, n);
    hide Good, HoldsBook, Has, Resize;
  }

  class EngineMemory {
    const orderPool: Pool
    const levelPool: Pool
    const orderIds: FlatHashMap<OrderId, nat>
    const bidPrices: FlatHashMap<Price, nat>
    const askPrices: FlatHashMap<Price, nat>
    ghost var held: Holding
    ghost var sizes: Caps
    ghost var repr: set<object>

    function PriceMap(s: Side): FlatHashMap<Price, nat> {
      if s.Bid? then bidPrices else askPrices
    }

    /** The components share nothing. */
    ghost predicate Apart()
      reads this, repr
    {
      && {orderPool, levelPool, orderIds, bidPrices, askPrices} <= repr && this !in repr
      && Cells(orderIds) <= repr && Cells(bidPrices) <= repr && Cells(askPrices) <= repr
      && orderPool != levelPool && MapsApart(orderIds, bidPrices, askPrices)
    }

    /** `held` is what the components store and `sizes` how long they are. */
    ghost predicate Sound()
      reads this, repr
    {
      && Apart()
      && PoolIs(orderPool, held.orderSlots, sizes.orderPool) && PoolIs(levelPool, held.levelSlots, sizes.levelPool)
      && MapIs(orderIds, held.ids, sizes.orderIds)
      && MapIs(bidPrices, held.bidPrices, sizes.bidPrices) && MapIs(askPrices, held.askPrices, sizes.askPrices)
    }

    constructor (expectedOrders: nat, mixId: OrderId -> nat, mixPrice: Price -> nat)
      ensures Sound() && fresh(repr)
      ensures held == Nothing && Reserved(sizes, expectedOrders)
      ensures expectedOrders <= sizes.orderPool < expectedOrders + 4096 && sizes.levelPool == 4096
      ensures 2 * expectedOrders <= sizes.orderIds && (sizes.orderIds == 16 || sizes.orderIds < 4 * expectedOrders)
      ensures sizes.bidPrices == 1024 && sizes.askPrices == 1024
    {
      hide PoolIs, MapIs, MapsApart, PowerOfTwo, Slabs;
      var orders, orderSlots := NewPool(expectedOrders);
      var levels, levelSlots := NewPool(4096);
      OneSlab(levelSlots);
      var ids, bids, asks, idSlots, bidSlots, askSlots := NewMaps(expectedOrders * 2, mixId, mixPrice);
      orderPool, levelPool, orderIds, bidPrices, askPrices := orders, levels, ids, bids, asks;
      held, sizes := Nothing, Caps(orderSlots, levelSlots, idSlots, bidSlots, askSlots);
      repr := {orders, levels} + Cells(ids) + Cells(bids) + Cells(asks);
    }

    // ---- taking and giving back ----

    method AllocOrder() returns (slot: nat)
      requires Sound()
      modifies this, repr
      ensures Sound() && repr == old(repr) && slot !in old(held).orderSlots
      ensures held == old(held).(orderSlots := old(held).orderSlots + {slot})
      ensures sizes == old(sizes).(orderPool := PoolGrow(old(sizes).orderPool, |old(held).orderSlots|, SlabObjects))
    {
      hide PoolIs, MapIs, PoolGrow;
      slot := Take(orderPool, held.orderSlots, sizes.orderPool);
      sizes := sizes.(orderPool := PoolGrow(sizes.orderPool, |held.orderSlots|, SlabObjects));
      held := held.(orderSlots := held.orderSlots + {slot});
    }

    method AllocLevel() returns (slot: nat)
      requires Sound()
      modifies this, repr
      ensures Sound() && repr == old(repr) && slot !in old(held).levelSlots
      ensures held == old(held).(levelSlots := old(held).levelSlots + {slot})
      ensures sizes == old(sizes).(levelPool := PoolGrow(old(sizes).levelPool, |old(held).levelSlots|, SlabObjects))
    {
      hide PoolIs, MapIs, PoolGrow;
      slot := Take(levelPool, held.levelSlots, sizes.levelPool);
      sizes := sizes.(levelPool := PoolGrow(sizes.levelPool, |held.levelSlots|, SlabObjects));
      held := held.(levelSlots := held.levelSlots + {slot});
    }

    method FreeOrder(slot: nat)
      requires Sound() && slot in held.orderSlots
      modifies this, repr
      ensures Sound() && repr == old(repr) && sizes == old(sizes)
      ensures held == old(held).(orderSlots := old(held).orderSlots - {slot})
    {
      hide PoolIs, MapIs;
      GiveBack(orderPool, held.orderSlots, sizes.orderPool, slot);
      held := held.(orderSlots := held.orderSlots - {slot});
    }

    method FreeLevel(slot: nat)
      requires Sound() && slot in held.levelSlots
      modifies this, repr
      ensures Sound() && repr == old(repr) && sizes == old(sizes)
      ensures held == old(held).(levelSlots := old(held).levelSlots - {slot})
    {
      hide PoolIs, MapIs;
      GiveBack(levelPool, held.levelSlots, sizes.levelPool, slot);
      held := held.(levelSlots := held.levelSlots - {slot});
    }

    method PutId(id: OrderId, slot: nat)
      requires Sound() && id !in held.ids
      modifies this, repr
      ensures Sound() && fresh(repr - old(repr))
      ensures held == old(held).(ids := old(held).ids[id := slot])
      ensures sizes == old(sizes).(orderIds := MapGrow(old(sizes).orderIds, |old(held).ids|))
    {
      hide PoolIs, MapIs, MapGrow;
      Put(orderIds, held.ids, sizes.orderIds, id, slot);
      repr, sizes := repr + Cells(orderIds), sizes.(orderIds := MapGrow(sizes.orderIds, |held.ids|));
      held := held.(ids := held.ids[id := slot]);
    }

    method DropId(id: OrderId) returns (slot: nat)
      requires Sound() && id in held.ids
      modifies this, repr
      ensures Sound() && repr == old(repr) && sizes == old(sizes)
      ensures slot == old(held).ids[id] && held == old(held).(ids := old(held).ids - {id})
    {
      hide PoolIs, MapIs;
      slot := Drop(orderIds, held.ids, sizes.orderIds, id);
      held := held.(ids := held.ids - {id});
    }

    method PutBid(price: Price, slot: nat)
      requires Sound() && price !in held.bidPrices
      modifies this, repr
      ensures Sound() && fresh(repr - old(repr))
      ensures held == old(held).(bidPrices := old(held).bidPrices[price := slot])
      ensures sizes == old(sizes).(bidPrices := MapGrow(old(sizes).bidPrices, |old(held).bidPrices|))
    {
      hide PoolIs, MapIs, MapGrow;
      Put(bidPrices, held.bidPrices, sizes.bidPrices, price, slot);
      repr, sizes := repr + Cells(bidPrices), sizes.(bidPrices := MapGrow(sizes.bidPrices, |held.bidPrices|));
      held := held.(bidPrices := held.bidPrices[price := slot]);
    }

    method PutAsk(price: Price, slot: nat)
      requires Sound() && price !in held.askPrices
      modifies this, repr
      ensures Sound() && fresh(repr - old(repr))
      ensures held == old(held).(askPrices := old(held).askPrices[price := slot])
      ensures sizes == old(sizes).(askPrices := MapGrow(old(sizes).askPrices, |old(held).askPrices|))
    {
      hide PoolIs, MapIs, MapGrow;
      Put(askPrices, held.askPrices, sizes.askPrices, price, slot);
      repr, sizes := repr + Cells(askPrices), sizes.(askPrices := MapGrow(sizes.askPrices, |held.askPrices|));
      held := held.(askPrices := held.askPrices[price := slot]);
    }

    method PutPrice(s: Side, price: Price, slot: nat)
      requires Sound() && price !in held.PricesOf(s)
      modifies this, repr
      ensures Sound() && fresh(repr - old(repr))
      ensures held == old(held).WithPrices(s, old(held).PricesOf(s)[price := slot])
      ensures sizes == old(sizes).WithPrices(s, MapGrow(old(sizes).PricesOf(s), |old(held).PricesOf(s)|))
    {
      hide EngineMemory.Sound, MapGrow;
      if s.Bid? {
        PutBid(price, slot);
      } else {
        PutAsk(price, slot);
      }
    }

    method DropPrice(s: Side, price: Price) returns (slot: nat)
      requires Sound() && price in held.PricesOf(s)
      modifies this, repr
      ensures Sound() && repr == old(repr) && sizes == old(sizes)
      ensures slot == old(held).PricesOf(s)[price]
      ensures held == old(held).WithPrices(s, old(held).PricesOf(s) - {price})
    {
      hide PoolIs, MapIs;
      slot := Drop(PriceMap(s), held.PricesOf(s), sizes.PricesOf(s), price);
      held := held.WithPrices(s, held.PricesOf(s) - {price});
    }

    method HasPrice(s: Side, price: Price) returns (found: bool)
      requires Sound()
      ensures Sound() && repr == old(repr) && held == old(held) && sizes == old(sizes)
      ensures found == (price in held.PricesOf(s))
    {
      hide PoolIs, MapIs;
      found := Get(PriceMap(s), held.PricesOf(s), sizes.PricesOf(s), price);
    }

    // ---- the orders of a book ----

    /** A level for `price` if it has none. */
    method KeepLevel(s: Side, price: Price) returns (ghost lvl: nat)
      requires Sound()
      modifies this, repr
      ensures Sound() && fresh(repr - old(repr))
      ensures price !in old(held).PricesOf(s) ==> lvl !in old(held).levelSlots
      ensures held == LevelKept(old(held), s, price, lvl)
      ensures sizes == LevelGrownFor(old(sizes), old(held), s, price)
    {
      hide EngineMemory.Sound, PoolGrow, MapGrow;
      var found := HasPrice(s, price);
      lvl := 0;
      if !found {
        var level := AllocLevel();
        lvl := level;
        PutPrice(s, price, level);
      }
    }

    /** A slot for `id`, and a level for `price` if it has none. */
    method Keep(s: Side, id: OrderId, price: Price) returns (slot: nat, ghost lvl: nat)
      requires Sound() && id !in held.ids
      modifies this, repr
      ensures Sound() && fresh(repr - old(repr))
      ensures slot !in old(held).orderSlots
      ensures price !in old(held).PricesOf(s) ==> lvl !in old(held).levelSlots
      ensures held == Stored(old(held), s, id, price, slot, lvl)
      ensures sizes == GrownFor(old(sizes), old(held), s, price)
    {
      ghost var h, c := held, sizes;
      hide EngineMemory.Sound;
      hide PoolGrow, MapGrow, Stored, GrownFor, LevelKept, LevelGrownFor, Holding.PricesOf;
      slot := AllocOrder();
      lvl := KeepLevel(s, price);
      KeepIs(h, c, s, id, price, slot, lvl);
      PutId(id, slot);
    }

    /** What resting an order takes: a slot, a level if its price is new, and its id. */
    method Store(ghost b: Book, t: Taker, qty: Qty)
      requires Sound() && HoldsBook(held, b) && Good(b)
      requires t.id !in Ids(b.bids) && t.id !in Ids(b.asks)
      modifies this, repr
      ensures Sound() && fresh(repr - old(repr))
      ensures HoldsBook(held, Rest(b, t, qty))
      ensures sizes == Grown(old(sizes), b, t.side, t.price)
    {
      ghost var h := held;
      GrownIs(sizes, h, b, t.side, t.price);
      assert t.id !in h.ids.Keys;
      hide HoldsBook, Good, Ids, Grown, GrownFor, Stored, Rest, Tied;
      hide EngineMemory.Sound;
      var slot, lvl := Keep(t.side, t.id, t.price);
      StoredHolds(h, b, t, qty, slot, lvl);
    }

    /** What removing an order gives back: its id and slot, and its level if the price `empties`. */
    method Release(ghost b: Book, s: Side, o: Resting, empties: bool)
      requires Sound() && HoldsBook(held, b) && Good(b)
      requires Has(b.At(s), o.id) && Lookup(b.At(s), o.id) == o
      requires empties <==> o.price !in Prices(Remove(b.At(s), o.id))
      modifies this, repr
      ensures Sound() && repr == old(repr) && sizes == old(sizes)
      ensures HoldsBook(held, b.With(s, Remove(b.At(s), o.id)))
    {
      ghost var h := held;
      ReleasedHolds(h, b, s, o, empties);
      OrderReleasedTied(h, o.id);
      ghost var h1 := OrderReleased(h, o.id);
      if empties {
        LevelReleasedTied(h1, s, o.price);
      }
      hide HoldsBook, Good, Ids, Prices, Has, Lookup, Remove, Tied, EngineMemory.Sound;
      var slot := DropId(o.id);
      FreeOrder(slot);
      if empties {
        var level := DropPrice(s, o.price);
        FreeLevel(level);
      }
    }

    // ---- messages ----

    /** Gives back the order at the head of side `s`. */
    method ReleaseFront(b: Book, s: Side) returns (b': Book)
      requires Sound() && HoldsBook(held, b) && Good(b) && b.At(s) != []
      modifies this, repr
      ensures Sound() && repr == old(repr) && sizes == old(sizes)
      ensures b' == b.With(s, b.At(s)[1..]) && Good(b') && HoldsBook(held, b')
    {
      var q := b.At(s);
      RemoveHead(q);
      RemoveGood(b, s, q[0].id);
      ListsIs(q[1..], q[0].price);
      hide Good, HoldsBook, Has, Lookup, Remove, Prices, Lists, EngineMemory.Sound;
      Release(b, s, q[0], !Lists(q[1..], q[0].price));
      b' := b.With(s, q[1..]);
    }

    /** A fill of the head: a partial one changes nothing here, a whole one gives it back. */
    method FillFront(b: Book, s: Side, rem: Qty) returns (b': Book)
      requires Sound() && HoldsBook(held, b) && Good(b) && b.At(s) != [] && rem > 0
      modifies this, repr
      ensures Sound() && repr == old(repr) && sizes == old(sizes)
      ensures b' == b.With(s, FilledFront(rem, b.At(s))) && Good(b') && HoldsBook(held, b')
    {
      hide Good, HoldsBook, EngineMemory.Sound;
      var q := b.At(s);
      if rem < q[0].qty {
        FrontCut(held, b, s, q[0].qty - rem);
        b' := b.With(s, FilledFront(rem, q));
      } else {
        b' := ReleaseFront(b, s);
      }
    }

    /** One order of the opposite side meets the taker: it is pulled, kills the taker, or is filled. */
    method MeetFront(stp: StpPolicy, b: Book, t: Taker, rem: Qty, s: Side) returns (turn: Turn)
      requires Sound() && HoldsBook(held, b) && Good(b) && b.At(s) != [] && rem > 0
      modifies this, repr
      ensures Sound() && repr == old(repr) && sizes == old(sizes)
      ensures turn == FrontTurn(stp, t, rem, b.At(s))
      ensures Good(b.With(s, turn.queue)) && HoldsBook(held, b.With(s, turn.queue))
    {
      hide Good, HoldsBook, SelfTrade, FilledFront, EngineMemory.Sound;
      turn := FrontTurn(stp, t, rem, b.At(s));
      if !turn.dead {
        if SelfTrade(stp, t, b.At(s)[0]) {
          var _ := ReleaseFront(b, s);
        } else {
          var _ := FillFront(b, s, rem);
        }
      }
    }

    /** The matching loop: everything it removes is given back, and nothing grows. */
    method SweepBook(stp: StpPolicy, b: Book, t: Taker, qty: Qty) returns (rem: Qty, b': Book)
      requires Sound() && HoldsBook(held, b) && Good(b)
      modifies this, repr
      ensures Sound() && repr == old(repr) && sizes == old(sizes)
      ensures rem == Sweep(stp, b, t, qty).0 && b' == Sweep(stp, b, t, qty).1
      ensures HoldsBook(held, b') && Good(b')
    {
      hide Good, HoldsBook, Match, Crosses, Advances, FrontTurn, EngineMemory.Sound;
      var s := t.side.Opposite();
      rem, b' := qty, b;
      ghost var log: seq<Event> := [];
      AdvancesNil(stp, t, qty, b.At(s));
      while rem > 0 && b'.At(s) != [] && Crosses(t, b'.At(s)[0].price)
        invariant Sound() && repr == old(repr) && sizes == old(sizes)
        invariant Good(b') && HoldsBook(held, b') && b' == b.With(s, b'.At(s))
        invariant Advances(stp, t, qty, b.At(s), rem, b'.At(s), false, log)
        decreases |b'.At(s)| + rem
      {
        ghost var q := b'.At(s);
        FrontQty(b', s);
        FrontAdvances(stp, t, rem, q);
        var turn := MeetFront(stp, b', t, rem, s);
        AdvancesTrans(stp, t, qty, b.At(s), rem, q, log, turn.left, turn.queue, turn.dead, turn.log);
        rem, b', log := turn.left, b'.With(s, turn.queue), log + turn.log;
        if turn.dead {
          AdvancesEnd(stp, t, qty, b.At(s), 0, turn.queue, true, log);
          return 0, b';
        }
      }
      AdvancesEnd(stp, t, qty, b.At(s), rem, b'.At(s), false, log);
    }

    /** Sweeps, and stores what is left if the order `rests`. */
    method Submit(stp: StpPolicy, b: Book, t: Taker, qty: Qty, rests: bool) returns (b': Book)
      requires Sound() && HoldsBook(held, b) && Good(b)
      requires t.id !in Ids(b.bids) && t.id !in Ids(b.asks)
      modifies this, repr
      ensures Sound() && fresh(repr - old(repr)) && HoldsBook(held, b')
      ensures b' == Submitted(stp, b, t, qty, rests, old(sizes)).0
      ensures sizes == Submitted(stp, b, t, qty, rests, old(sizes)).1
    {
      hide Good, HoldsBook, Ids, Sweep, Rest, Grown, Submitted, EngineMemory.Sound;
      ghost var c := sizes;
      var rem, b1 := SweepBook(stp, b, t, qty);
      SweepIds(stp, b, t, qty);
      SubmittedIs(stp, b, t, qty, rests, c, rem, b1);
      b' := b1;
      if rem != 0 && rests {
        Store(b1, t, rem);
        b' := Rest(b1, t, rem);
      }
    }

    /** Removes the order `id` of side `s`. */
    method Withdraw(b: Book, s: Side, id: OrderId) returns (b': Book)
      requires Sound() && HoldsBook(held, b) && Good(b) && Has(b.At(s), id)
      modifies this, repr
      ensures Sound() && repr == old(repr) && sizes == old(sizes)
      ensures b' == b.With(s, Remove(b.At(s), id)) && HoldsBook(held, b')
      ensures Good(b') && id !in Ids(b'.bids) && id !in Ids(b'.asks)
    {
      RemoveGood(b, s, id);
      var o, q := Lookup(b.At(s), id), Remove(b.At(s), id);
      ListsIs(q, o.price);
      hide Good, HoldsBook, Has, Ids, Remove, Prices, Lists, EngineMemory.Sound;
      Release(b, s, o, !Lists(q, o.price));
      b' := b.With(s, q);
    }

    method Resubmit(stp: StpPolicy, b: Book, s: Side, t: Taker, qty: Qty) returns (b': Book)
      requires Sound() && HoldsBook(held, b) && Good(b) && Has(b.At(s), t.id)
      modifies this, repr
      ensures Sound() && fresh(repr - old(repr)) && HoldsBook(held, b')
      ensures (b', sizes) == Submitted(stp, b.With(s, Remove(b.At(s), t.id)), t, qty, true, old(sizes))
    {
      hide *;
      var b1 := Withdraw(b, s, t.id);
      b' := Submit(stp, b1, t, qty, true);
    }

    /** Cancel and submit anew under the old id. */
    method Replace(stp: StpPolicy, b: Book, s: Side, id: OrderId, price: Price, qty: Qty) returns (b': Book)
      requires Sound() && HoldsBook(held, b) && Good(b) && b.Locate(id) == Some(s) && Has(b.At(s), id)
      requires qty > 0 && !KeepsPriority(Lookup(b.At(s), id), price, qty)
      modifies this, repr
      ensures Sound() && fresh(repr - old(repr)) && HoldsBook(held, b')
      ensures b' == Step(stp, b, Modify(id, price, qty)).book
      ensures sizes == CapsAfter(stp, b, Modify(id, price, qty), old(sizes))
    {
      var t := Taker(id, Lookup(b.At(s), id).participant, s, price, false);
      ReplaceSubmits(stp, b, s, id, price, qty, sizes);
      hide *;
      b' := Resubmit(stp, b, s, t, qty);
    }

    method Amend(stp: StpPolicy, b: Book, s: Side, id: OrderId, price: Price, qty: Qty) returns (b': Book)
      requires Sound() && HoldsBook(held, b) && Good(b) && b.Locate(id) == Some(s)
      modifies this, repr
      ensures Sound() && fresh(repr - old(repr)) && HoldsBook(held, b')
      ensures b' == Step(stp, b, Modify(id, price, qty)).book
      ensures sizes == CapsAfter(stp, b, Modify(id, price, qty), old(sizes))
    {
      LocateIds(b, id);
      hide Good, HoldsBook, Has, Ids, Lookup, Remove, Resize, KeepsPriority, Step, CapsAfter, EngineMemory.Sound;
      if qty > 0 && !KeepsPriority(Lookup(b.At(s), id), price, qty) {
        b' := Replace(stp, b, s, id, price, qty);
      } else {
        StoresNothing(stp, b, Modify(id, price, qty), sizes);
        if qty == 0 {
          b' := Withdraw(b, s, id);
        } else {
          ResizedHolds(held, b, s, id, qty);
          b' := b.With(s, Resize(b.At(s), id, qty));
        }
      }
    }

    /** One message: the book afterwards is held, and the sizes moved as accounted. */
    method Handle(stp: StpPolicy, b: Book, m: Message) returns (b': Book)
      requires Sound() && HoldsBook(held, b) && Good(b)
      modifies this, repr
      ensures Sound() && fresh(repr - old(repr)) && HoldsBook(held, b')
      ensures b' == Step(stp, b, m).book
      ensures sizes == CapsAfter(stp, b, m, old(sizes))
    {
      LocateIds(b, m.id);
      var at := b.Locate(m.id);
      hide Good, HoldsBook, Has, Ids, Lookup, Remove, Step, CapsAfter, Submitted, EngineMemory.Sound;
      if (m.AddLimit? || m.AddMarket?) && m.qty > 0 && at == None {
        var t := if m.AddLimit? then Taker(m.id, m.participant, m.side, m.price, false)
                 else Taker(m.id, m.participant, m.side, 0, true);
        if m.AddLimit? {
          LimitSubmits(stp, b, t, m.qty, m.tif, sizes);
        } else {
          MarketSubmits(stp, b, t, m.qty, sizes);
        }
        b' := Submit(stp, b, t, m.qty, m.AddLimit? && m.tif.GTC?);
      } else if m.Modify? && at.Some? {
        b' := Amend(stp, b, at.value, m.id, m.price, m.qty);
      } else {
        StoresNothing(stp, b, m, sizes);
        b' := b;
        if m.Cancel? && at.Some? {
          b' := Withdraw(b, at.value, m.id);
        }
      }
    }

    /** A message stream from the empty book: the storage holds the book it ends in and is as long as
        accounted, which is as long as at the start if the books kept within what was reserved. */
    method Drive(stp: StpPolicy, ms: seq<Message>, ghost expected: nat) returns (b: Book)
      requires Sound() && HoldsBook(held, EmptyBook)
      modifies this, repr
      ensures Sound() && fresh(repr - old(repr))
      ensures b == Run(stp, EmptyBook, ms).0 && HoldsBook(held, b)
      ensures sizes == CapsRun(stp, EmptyBook, ms, old(sizes))
      ensures Reserved(old(sizes), expected)
              && (forall n :: 0 < n <= |ms| ==> Within(Run(stp, EmptyBook, ms[..n]).0, expected))
              ==> sizes == old(sizes)
    {
      hide HoldsBook, Good, CapsAfter, Step, Reserved, Within, EngineMemory.Sound;
      b := EmptyBook;
      var i := 0;
      while i < |ms|
        invariant i <= |ms| && Sound() && fresh(repr - old(repr))
        invariant b == Run(stp, EmptyBook, ms[..i]).0 && HoldsBook(held, b)
        invariant sizes == CapsRun(stp, EmptyBook, ms[..i], old(sizes))
      {
        EmptyGood();
        RunGood(stp, EmptyBook, ms[..i]);
        assert ms[..i + 1][..i] == ms[..i];
        b := Handle(stp, b, ms[i]);
        i := i + 1;
      }
      assert ms[..i] == ms;
      if Reserved(old(sizes), expected) && (forall n :: 0 < n <= |ms| ==> Within(Run(stp, EmptyBook, ms[..n]).0, expected)) {
        RunAllocatesNothing(stp, EmptyBook, ms, old(sizes), expected);
      }
    }
  }

  /** A new engine's storage over a whole stream. */
  method RunStorage(stp: StpPolicy, ms: seq<Message>, expectedOrders: nat, mixId: OrderId -> nat, mixPrice: Price -> nat)
    returns (m: EngineMemory, b: Book, ghost start: Caps)
    ensures Reserved(start, expectedOrders)
    ensures m.Sound() && b == Run(stp, EmptyBook, ms).0 && HoldsBook(m.held, b)
    ensures m.sizes == CapsRun(stp, EmptyBook, ms, start)
    ensures (forall n :: 0 < n <= |ms| ==> Within(Run(stp, EmptyBook, ms[..n]).0, expectedOrders)) ==> m.sizes == start
  {
    hide HoldsBook, Reserved, Within;
    m := new EngineMemory(expectedOrders, mixId, mixPrice);
    start := m.sizes;
    HoldsNothing();
    b := m.Drive(stp, ms, expectedOrders);
  }
}
