/** What the engine's storage holds: which slot of a pool each order id and each price owns. Every
    live slot has exactly one key, so whatever is removed can be given back. */
module Holdings {
  import opened Types
  import opened PriceTimeBook
  import opened QueueLemmas
  import opened BookInvariants
  import opened Allocations

  /** What the storage holds: the slot of every id and the level slot of every price, and the live
      slots of the pools. */
  datatype Holding = Holding(ids: map<OrderId, nat>, bidPrices: map<Price, nat>, askPrices: map<Price, nat>,
                             orderSlots: set<nat>, levelSlots: set<nat>) {
    function PricesOf(s: Side): map<Price, nat> {
      if s.Bid? then bidPrices else askPrices
    }

    function WithPrices(s: Side, prices: map<Price, nat>): Holding {
      if s.Bid? then this.(bidPrices := prices) else this.(askPrices := prices)
    }
  }

  ghost predicate Injective<K(!new)>(m: map<K, nat>) {
    forall k, k' :: k in m && k' in m && m[k] == m[k'] ==> k == k'
  }

  /** Each live slot has exactly one key, and each key a live slot. */
  ghost predicate Tied(h: Holding) {
    && Injective(h.ids) && h.ids.Values == h.orderSlots
    && Injective(h.bidPrices) && Injective(h.askPrices) && h.bidPrices.Values !! h.askPrices.Values
    && h.bidPrices.Values + h.askPrices.Values == h.levelSlots
  }

  /** The storage of exactly the orders and levels of `b`. */
  ghost predicate HoldsBook(h: Holding, b: Book) {
    && Tied(h)
    && h.ids.Keys == Ids(b.bids) + Ids(b.asks)
    && h.bidPrices.Keys == Prices(b.bids) && h.askPrices.Keys == Prices(b.asks)
  }

  const Nothing := Holding(map[], map[], map[], {}, {})

  lemma {:induction false} HoldsNothing()
    ensures HoldsBook(Nothing, EmptyBook)
  {
    assert Nothing.ids.Values == {} && Nothing.bidPrices.Values == {} && Nothing.askPrices.Values == {};
  }

  // ---- counting ----

  lemma {:induction false} InjectiveCount<K(!new)>(m: map<K, nat>)
    requires Injective(m)
    ensures |m.Values| == |m|
    decreases |m|
  {
    if m == map[] {
      assert m.Values == {};
    } else {
      var k :| k in m;
      var rest := m - {k};
      WithoutKey(m, k);
      assert |rest| == |m| - 1 by {
        assert rest.Keys == m.Keys - {k};
        assert |rest| == |rest.Keys| && |m| == |m.Keys|;
      }
      InjectiveCount(rest);
    }
  }

  /** Dropping a key of an injective map drops its value. */
  lemma {:induction false} WithoutKey<K(!new)>(m: map<K, nat>, k: K)
    requires Injective(m) && k in m
    ensures Injective(m - {k}) && (m - {k}).Values == m.Values - {m[k]} && m[k] in m.Values
  {
    var rest := m - {k};
    forall v | v in rest.Values ensures v in m.Values - {m[k]} {
      var k' :| k' in rest && rest[k'] == v;
      assert k' in m && m[k'] == v;
    }
    forall v | v in m.Values - {m[k]} ensures v in rest.Values {
      var k' :| k' in m && m[k'] == v;
      assert k' in rest && rest[k'] == v;
    }
  }

  /** A new key with a new value keeps a map injective. */
  lemma {:induction false} WithKey<K(!new)>(m: map<K, nat>, k: K, v: nat)
    requires Injective(m) && k !in m && v !in m.Values
    ensures Injective(m[k := v]) && m[k := v].Values == m.Values + {v}
  {
    var more := m[k := v];
    assert k in more && more[k] == v;
    forall k' | k' in m ensures more[k'] == m[k'] && m[k'] in m.Values && k' in more {}
    forall x | x in more.Values ensures x in m.Values + {v} {
      var k' :| k' in more && more[k'] == x;
    }
    forall x | x in m.Values ensures x in more.Values {
      var k' :| k' in m && m[k'] == x;
      assert k' in more && more[k'] == x;
    }
  }

  lemma {:induction false} CountApart<T>(a: set<T>, b: set<T>)
    requires a !! b
    ensures |a + b| == |a| + |b|
  {
  }

  lemma {:induction false} CountKeys<K(!new)>(m: map<K, nat>)
    requires Injective(m)
    ensures |m| == |m.Keys| == |m.Values|
  {
    InjectiveCount(m);
    assert |m| == |m.Keys|;
  }

  lemma {:induction false} CountIds(b: Book)
    requires Good(b)
    ensures |Ids(b.bids) + Ids(b.asks)| == OpenOrders(b)
  {
    CountDistinct(b.bids);
    CountDistinct(b.asks);
    IdsApart(b);
    hide Good, Ids;
    CountApart(Ids(b.bids), Ids(b.asks));
  }

  /** What is held is counted by the book. */
  lemma {:induction false} HoldsCounts(h: Holding, b: Book)
    requires HoldsBook(h, b) && Good(b)
    ensures |h.ids| == |h.orderSlots| == OpenOrders(b)
    ensures |h.levelSlots| == LevelCount(b)
    ensures |h.bidPrices| == |Prices(b.bids)| && |h.askPrices| == |Prices(b.asks)|
  {
    hide Good, Prices, Injective, Ids;
    CountIds(b);
    CountKeys(h.ids);
    CountKeys(h.bidPrices);
    CountKeys(h.askPrices);
    CountApart(h.bidPrices.Values, h.askPrices.Values);
  }

  lemma {:induction false} IdsApart(b: Book)
    requires Good(b)
    ensures Ids(b.bids) !! Ids(b.asks)
  {
  }

  // ---- storing and releasing, as values ----

  function OrderStored(h: Holding, id: OrderId, slot: nat): Holding {
    h.(ids := h.ids[id := slot], orderSlots := h.orderSlots + {slot})
  }

  function LevelStored(h: Holding, s: Side, price: Price, lvl: nat): Holding {
    h.(levelSlots := h.levelSlots + {lvl}).WithPrices(s, h.PricesOf(s)[price := lvl])
  }

  function OrderReleased(h: Holding, id: OrderId): Holding
    requires id in h.ids
  {
    h.(ids := h.ids - {id}, orderSlots := h.orderSlots - {h.ids[id]})
  }

  function LevelReleased(h: Holding, s: Side, price: Price): Holding
    requires price in h.PricesOf(s)
  {
    h.(levelSlots := h.levelSlots - {h.PricesOf(s)[price]}).WithPrices(s, h.PricesOf(s) - {price})
  }

  lemma {:induction false} OrderStoredTied(h: Holding, id: OrderId, slot: nat)
    requires Tied(h) && id !in h.ids && slot !in h.orderSlots
    ensures Tied(OrderStored(h, id, slot))
  {
    WithKey(h.ids, id, slot);
  }

  lemma {:induction false} LevelStoredTied(h: Holding, s: Side, price: Price, lvl: nat)
    requires Tied(h) && price !in h.PricesOf(s) && lvl !in h.levelSlots
    ensures Tied(LevelStored(h, s, price, lvl))
  {
    WithKey(h.PricesOf(s), price, lvl);
    hide Injective;
  }

  lemma {:induction false} OrderReleasedTied(h: Holding, id: OrderId)
    requires Tied(h) && id in h.ids
    ensures h.ids[id] in h.orderSlots && Tied(OrderReleased(h, id))
  {
    WithoutKey(h.ids, id);
  }

  lemma {:induction false} LevelReleasedTied(h: Holding, s: Side, price: Price)
    requires Tied(h) && price in h.PricesOf(s)
    ensures h.PricesOf(s)[price] in h.levelSlots && Tied(LevelReleased(h, s, price))
  {
    WithoutKey(h.PricesOf(s), price);
    hide Injective;
  }

  // ---- what the book's operations do to ids and prices ----

  lemma {:induction false} InsertIds(s: Side, q: Queue, o: Resting)
    ensures Ids(Insert(s, q, o)) == Ids(q) + {o.id}
  {
    var k := InsertPlace(s, q, o);
    hide Insert, Better;
    var q' := Insert(s, q, o);
    assert q'[k] == o;
    forall i | 0 <= i < |q| ensures q[i].id in Ids(q') {
      assert q'[if i < k then i else i + 1] == q[i];
    }
    forall i | 0 <= i < |q'| ensures q'[i].id in Ids(q) + {o.id} {
      assert q'[i] == if i < k then q[i] else if i == k then o else q[i - 1];
    }
  }

  lemma {:induction false} RemovePrices(q: Queue, id: OrderId)
    requires Has(q, id)
    ensures Prices(q) == Prices(Remove(q, id)) + {Lookup(q, id).price}
  {
    var i, q' := IndexOf(q, id), Remove(q, id);
    forall j | 0 <= j < |q'| ensures q'[j].price in Prices(q) {
      assert q'[j] == q[if j < i then j else j + 1];
    }
    forall j | 0 <= j < |q| && j != i ensures q[j].price in Prices(q') {
      assert q'[if j < i then j else j - 1] == q[j];
    }
  }

  /** What is held once an order and, if its price is new, a level are stored. */
  function Stored(h: Holding, s: Side, id: OrderId, price: Price, slot: nat, lvl: nat): Holding {
    OrderStored(if price in h.PricesOf(s) then h else LevelStored(h, s, price, lvl), id, slot)
  }

  lemma {:induction false} StoredKeys(h: Holding, s: Side, id: OrderId, price: Price, slot: nat, lvl: nat)
    ensures var h' := Stored(h, s, id, price, slot, lvl);
      && h'.ids.Keys == h.ids.Keys + {id}
      && h'.PricesOf(s).Keys == h.PricesOf(s).Keys + {price}
      && h'.PricesOf(s.Opposite()) == h.PricesOf(s.Opposite())
  {
  }

  lemma {:induction false} StoredTied(h: Holding, s: Side, id: OrderId, price: Price, slot: nat, lvl: nat)
    requires Tied(h) && id !in h.ids && slot !in h.orderSlots
    requires price !in h.PricesOf(s) ==> lvl !in h.levelSlots
    ensures Tied(Stored(h, s, id, price, slot, lvl))
  {
    hide Tied;
    var h1 := if price in h.PricesOf(s) then h else LevelStored(h, s, price, lvl);
    if price !in h.PricesOf(s) {
      LevelStoredTied(h, s, price, lvl);
    }
    assert h1.ids == h.ids && h1.orderSlots == h.orderSlots;
    OrderStoredTied(h1, id, slot);
  }

  lemma {:induction false} RestKeys(b: Book, t: Taker, qty: Qty)
    ensures var b' := Rest(b, t, qty);
      && Ids(b'.bids) + Ids(b'.asks) == Ids(b.bids) + Ids(b.asks) + {t.id}
      && Prices(b'.At(t.side)) == Prices(b.At(t.side)) + {t.price}
      && b'.At(t.side.Opposite()) == b.At(t.side.Opposite())
  {
    var o := Resting(t.id, t.participant, t.price, qty);
    InsertPrices(t.side, b.At(t.side), o);
    InsertIds(t.side, b.At(t.side), o);
    hide Ids, Prices, Insert;
  }

  /** Storing one order more, and its level if the price is new. */
  lemma {:induction false} StoredHolds(h: Holding, b: Book, t: Taker, qty: Qty, slot: nat, lvl: nat)
    requires HoldsBook(h, b) && t.id !in Ids(b.bids) && t.id !in Ids(b.asks)
    requires slot !in h.orderSlots && (t.price !in h.PricesOf(t.side) ==> lvl !in h.levelSlots)
    ensures HoldsBook(Stored(h, t.side, t.id, t.price, slot, lvl), Rest(b, t, qty))
  {
    hide Tied, Ids, Prices, Stored, Rest;
    assert t.id !in h.ids.Keys;
    StoredKeys(h, t.side, t.id, t.price, slot, lvl);
    StoredTied(h, t.side, t.id, t.price, slot, lvl);
    RestKeys(b, t, qty);
    assert h.PricesOf(t.side).Keys == Prices(b.At(t.side));
    assert t.side == Bid || t.side == Ask;
  }

  /** What is held once an order and, if that `empties` its price, the level are given back. */
  function Released(h: Holding, s: Side, id: OrderId, price: Price, empties: bool): Holding
    requires id in h.ids && price in h.PricesOf(s)
  {
    if empties then LevelReleased(OrderReleased(h, id), s, price) else OrderReleased(h, id)
  }

  lemma {:induction false} ReleasedKeys(h: Holding, s: Side, id: OrderId, price: Price, empties: bool)
    requires id in h.ids && price in h.PricesOf(s)
    ensures var h' := Released(h, s, id, price, empties);
      && h'.ids.Keys == h.ids.Keys - {id}
      && h'.PricesOf(s).Keys == h.PricesOf(s).Keys - (if empties then {price} else {})
      && h'.PricesOf(s.Opposite()) == h.PricesOf(s.Opposite())
  {
  }

  lemma {:induction false} ReleasedTied(h: Holding, s: Side, id: OrderId, price: Price, empties: bool)
    requires Tied(h) && id in h.ids && price in h.PricesOf(s)
    ensures Tied(Released(h, s, id, price, empties))
  {
    OrderReleasedTied(h, id);
    if empties {
      LevelReleasedTied(OrderReleased(h, id), s, price);
    }
  }

  /** Releasing an order, and its level if the price is listed no more. */
  lemma {:induction false} ReleasedHolds(h: Holding, b: Book, s: Side, o: Resting, empties: bool)
    requires HoldsBook(h, b) && Good(b) && Has(b.At(s), o.id) && Lookup(b.At(s), o.id) == o
    requires empties <==> o.price !in Prices(Remove(b.At(s), o.id))
    ensures o.id in h.ids && o.price in h.PricesOf(s)
    ensures HoldsBook(Released(h, s, o.id, o.price, empties), b.With(s, Remove(b.At(s), o.id)))
  {
    var q, q' := b.At(s), Remove(b.At(s), o.id);
    HasIds(q, o.id);
    RemovePrices(q, o.id);
    RemovedIds(b, s, o.id);
    hide Good, Has, Prices, Ids, Remove, Lookup, Tied, Released;
    assert o.id in h.ids.Keys && o.price in h.PricesOf(s).Keys;
    ReleasedKeys(h, s, o.id, o.price, empties);
    ReleasedTied(h, s, o.id, o.price, empties);
    assert s == Bid || s == Ask;
  }

  lemma {:induction false} RemovedIds(b: Book, s: Side, id: OrderId)
    requires Good(b) && Has(b.At(s), id)
    ensures var b' := b.With(s, Remove(b.At(s), id));
      Ids(b'.bids) + Ids(b'.asks) == Ids(b.bids) + Ids(b.asks) - {id}
  {
    RemoveGoodQueue(s, b.At(s), id);
    HasIds(b.At(s), id);
    IdsApart(b);
    hide Good, Remove, Ids;
  }

  lemma {:induction false} ResizePrices(q: Queue, id: OrderId, n: Qty)
    requires Has(q, id)
    ensures Prices(Resize(q, id, n)) == Prices(q)
  {
    var r := Resize(q, id, n);
    forall k | 0 <= k < |q| ensures r[k].price == q[k].price {}
    forall x | x in Prices(q) ensures x in Prices(r) {
      var k :| 0 <= k < |q| && q[k].price == x;
      assert r[k].price == x;
    }
  }

  /** A quantity is no matter of the storage. */
  lemma {:induction false} ResizedHolds(h: Holding, b: Book, s: Side, id: OrderId, n: Qty)
    requires HoldsBook(h, b) && Has(b.At(s), id)
    ensures HoldsBook(h, b.With(s, Resize(b.At(s), id, n)))
  {
    ResizeIds(b.At(s), id, n);
    ResizePrices(b.At(s), id, n);
    hide Tied, Ids, Prices, Resize, Has;
  }

  predicate Lists(q: Queue, price: Price) {
    exists i :: 0 <= i < |q| && q[i].price == price
  }

  lemma {:induction false} ListsIs(q: Queue, price: Price)
    ensures Lists(q, price) <==> price in Prices(q)
  {
  }
}
