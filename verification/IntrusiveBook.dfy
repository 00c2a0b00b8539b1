/** One side of the book as the engine stores it: orders are the nodes of their level's doubly
    linked FIFO, levels are the nodes of a best-to-worst doubly linked list, and a map finds a
    level by its price.  Ghost fields list the nodes in order and mirror their values. */
module IntrusiveBook {
  import opened Types
  import opened PriceTimeBook
  import opened QueueLemmas
  import opened Ladders

  class Order {
    var prev: Order?
    var next: Order?
    var level: PriceLevel?
    var id: OrderId
    var remaining: Qty
    var price: Price
    var participant: ParticipantId
    var side: Side

    constructor (id: OrderId, participant: ParticipantId, side: Side, price: Price, qty: Qty)
      ensures Value() == Resting(id, participant, price, qty) && this.side == side
    {
      this.prev, this.next, this.level := null, null, null;
      this.id, this.participant, this.side, this.price, this.remaining := id, participant, side, price, qty;
    }

    ghost function Value(): Resting
      reads this
    {
      Resting(id, participant, price, remaining)
    }
  }

  /** The node at place `k`, or null beyond either end. */
  ghost function Neighbour(nodes: seq<Order>, k: int): Order? {
    if 0 <= k < |nodes| then nodes[k] else null
  }

  class PriceLevel {
    var better: PriceLevel?
    var worse: PriceLevel?
    var front: Order?
    var back: Order?
    var price: Price
    var totalQty: Qty
    var orderCount: nat
    ghost var queue: seq<Order>

    constructor (price: Price)
      ensures better == null && worse == null && queue == [] && this.price == price
      ensures forall s :: Holds(s, Level(price, []))
    {
      this.better, this.worse, this.front, this.back := null, null, null, null;
      this.price, this.totalQty, this.orderCount, this.queue := price, 0, 0, [];
    }

    /** The nodes of `queue` form the doubly linked list of this level. */
    ghost predicate Linked(s: Side)
      reads this, queue
    {
      && orderCount == |queue|
      && front == Neighbour(queue, 0)
      && back == Neighbour(queue, |queue| - 1)
      && (forall j, k :: 0 <= j < k < |queue| ==> queue[j] != queue[k])
      && (forall j :: 0 <= j < |queue| ==> queue[j].level == this && queue[j].side == s)
      && (forall j {:trigger queue[j].prev} :: 0 <= j < |queue| ==> queue[j].prev == Neighbour(queue, j - 1))
      && (forall j {:trigger queue[j].next} :: 0 <= j < |queue| ==> queue[j].next == Neighbour(queue, j + 1))
    }

    /** Price, total and node values are those of `v`. */
    ghost predicate Shows(v: Level)
      reads this, queue
    {
      && price == v.price
      && |queue| == |v.queue|
      && totalQty == Total(v.queue)
      && (forall j :: 0 <= j < |queue| ==> queue[j].Value() == v.queue[j])
    }

    ghost predicate Holds(s: Side, v: Level)
      reads this, queue
    {
      Linked(s) && Shows(v)
    }

    /** How the `j`-th node is linked. */
    lemma {:induction false} LinksAt(s: Side, j: nat)
      requires Linked(s) && j < |queue|
      ensures var o := queue[j];
        && o.prev == Neighbour(queue, j - 1) && o.next == Neighbour(queue, j + 1)
        && (j == 0 ==> front == o) && (j + 1 == |queue| ==> back == o)
        && o.level == this && o.side == s
    {
    }

    twostate lemma Untouched(new s: Side, new v: Level)
      requires old(Holds(s, v)) && unchanged(`queue) && unchanged(`front) && unchanged(`back)
      requires unchanged(`price) && unchanged(`totalQty) && unchanged(`orderCount)
      requires forall o :: o in old(queue) ==> unchanged(o)
      ensures Holds(s, v)
    {
      forall k | 0 <= k < |queue| ensures unchanged(queue[k]) {
        assert queue[k] in old(queue);
      }
    }

    twostate lemma JoinLinked(new s: Side, new order: Order)
      requires old(Linked(s)) && order !in old(queue)
      requires queue == old(queue) + [order] && orderCount == |queue|
      requires front == (if old(queue) == [] then order else old(front)) && back == order
      requires order.level == this && order.side == s && order.prev == old(back) && order.next == null
      requires forall o :: o in old(queue) ==>
        && o.level == this && o.side == s && o.prev == old(o.prev)
        && o.next == if o == old(back) then order else old(o.next)
      ensures Linked(s)
    {
      forall k | 0 <= k < |queue|
        ensures queue[k].prev == Neighbour(queue, k - 1) && queue[k].next == Neighbour(queue, k + 1)
      {
        if k + 1 < |queue| {
          assert queue[k] == old(queue)[k];
        }
      }
    }

    twostate lemma JoinShows(new order: Order, new v: Level)
      requires old(Shows(v))
      requires queue == old(queue) + [order] && price == old(price)
      requires totalQty == old(totalQty) + order.remaining
      requires forall o :: o in old(queue) ==> o.Value() == old(o.Value())
      ensures Shows(v.(queue := v.queue + [order.Value()]))
    {
      TotalSplit(v.queue, [order.Value()]);
    }

    /** Joins the back of the FIFO. */
    method Append(s: Side, order: Order, ghost v: Level)
      requires Holds(s, v) && order !in queue && order.side == s
      modifies `queue, `front, `back, `totalQty, `orderCount, order`prev, order`next, order`level, queue`next
      ensures queue == old(queue) + [order]
      ensures Holds(s, v.(queue := v.queue + [order.Value()]))
    {
      order.level := this;
      order.prev := back;
      order.next := null;
      if back != null {
        back.next := order;
      } else {
        front := order;
      }
      back := order;
      totalQty := totalQty + order.remaining;
      orderCount := orderCount + 1;
      queue := queue + [order];
      JoinLinked(s, order);
      JoinShows(order, v);
    }

    /** The node list without its `j`-th node. */
    twostate predicate Cut(new j: nat)
      reads this
    {
      && j < old(|queue|) && queue == old(queue)[..j] + old(queue)[j + 1..]
      && (forall a, b :: 0 <= a < b < old(|queue|) ==> old(queue)[a] != old(queue)[b])
    }

    twostate lemma BridgePrev(new j: nat, new k: nat)
      requires Cut(j) && k < |queue|
      requires forall m {:trigger old(queue[m].prev)} :: 0 <= m < old(|queue|) ==> old(queue[m].prev) == Neighbour(old(queue), m - 1)
      requires var o := queue[k]; o.prev == (if o == Neighbour(old(queue), j + 1) then Neighbour(old(queue), j - 1) else old(o.prev))
      ensures queue[k].prev == Neighbour(queue, k - 1)
    {
      var m := if k < j then k else k + 1;
      assert queue[k] == old(queue)[m] && old(queue[m].prev) == Neighbour(old(queue), m - 1);
    }

    twostate lemma BridgeNext(new j: nat, new k: nat)
      requires Cut(j) && k < |queue|
      requires forall m {:trigger old(queue[m].next)} :: 0 <= m < old(|queue|) ==> old(queue[m].next) == Neighbour(old(queue), m + 1)
      requires var o := queue[k]; o.next == (if o == Neighbour(old(queue), j - 1) then Neighbour(old(queue), j + 1) else old(o.next))
      ensures queue[k].next == Neighbour(queue, k + 1)
    {
      var m := if k < j then k else k + 1;
      assert queue[k] == old(queue)[m] && old(queue[m].next) == Neighbour(old(queue), m + 1);
    }

    twostate lemma OldLinks(new s: Side)
      requires old(Linked(s))
      ensures forall m {:trigger old(queue[m].prev)} :: 0 <= m < old(|queue|) ==> old(queue[m].prev) == Neighbour(old(queue), m - 1)
      ensures forall m {:trigger old(queue[m].next)} :: 0 <= m < old(|queue|) ==> old(queue[m].next) == Neighbour(old(queue), m + 1)
    {
    }

    twostate lemma CutEnds(new j: nat)
      requires Cut(j)
      ensures Neighbour(queue, 0) == (if j == 0 then Neighbour(old(queue), 1) else Neighbour(old(queue), 0))
      ensures Neighbour(queue, |queue| - 1)
              == (if j + 1 == old(|queue|) then Neighbour(old(queue), j - 1) else Neighbour(old(queue), old(|queue|) - 1))
      ensures forall a, b :: 0 <= a < b < |queue| ==> queue[a] != queue[b]
    {
      forall k | 0 <= k < |queue| ensures queue[k] == old(queue)[if k < j then k else k + 1] {}
    }

    /** Every node that stays has its neighbours in the list that is left. */
    twostate lemma BridgeNodes(new s: Side, new j: nat)
      requires old(Linked(s)) && Cut(j)
      requires forall o :: o in queue ==>
        && o.prev == (if o == Neighbour(old(queue), j + 1) then Neighbour(old(queue), j - 1) else old(o.prev))
        && o.next == (if o == Neighbour(old(queue), j - 1) then Neighbour(old(queue), j + 1) else old(o.next))
      ensures forall k {:trigger queue[k].prev} :: 0 <= k < |queue| ==> queue[k].prev == Neighbour(queue, k - 1)
      ensures forall k {:trigger queue[k].next} :: 0 <= k < |queue| ==> queue[k].next == Neighbour(queue, k + 1)
    {
      OldLinks(s);
      forall k | 0 <= k < |queue|
        ensures queue[k].prev == Neighbour(queue, k - 1) && queue[k].next == Neighbour(queue, k + 1)
      {
        assert queue[k] in queue;
        BridgePrev(j, k);
        BridgeNext(j, k);
      }
    }

    /** Bridging the two neighbours of the `j`-th node leaves a linked list of the others. */
    twostate lemma BridgeLinked(new s: Side, new j: nat)
      requires old(Linked(s)) && j < old(|queue|)
      requires queue == old(queue)[..j] + old(queue)[j + 1..] && orderCount == |queue|
      requires front == if j == 0 then Neighbour(old(queue), 1) else old(front)
      requires back == if j + 1 == old(|queue|) then Neighbour(old(queue), j - 1) else old(back)
      requires forall o :: o in queue ==> o.level == this && o.side == s
      requires forall o :: o in queue ==>
        && o.prev == (if o == Neighbour(old(queue), j + 1) then Neighbour(old(queue), j - 1) else old(o.prev))
        && o.next == (if o == Neighbour(old(queue), j - 1) then Neighbour(old(queue), j + 1) else old(o.next))
      ensures Linked(s)
    {
      CutEnds(j);
      BridgeNodes(s, j);
      hide Neighbour;
      forall k | 0 <= k < |queue| ensures queue[k].level == this && queue[k].side == s {
        assert queue[k] in queue;
      }
    }

    twostate lemma BridgeShows(new v: Level, new j: nat)
      requires old(Shows(v)) && j < old(|queue|)
      requires queue == old(queue)[..j] + old(queue)[j + 1..] && price == old(price)
      requires totalQty == old(totalQty) - old(queue[j].remaining)
      requires forall o :: o in queue ==> o.Value() == old(o.Value())
      ensures Shows(v.(queue := v.queue[..j] + v.queue[j + 1..]))
    {
      TotalWithout(v.queue, j);
      var w := v.queue[..j] + v.queue[j + 1..];
      forall k | 0 <= k < |queue| ensures queue[k].Value() == w[k] {
        assert queue[k] in queue;
        assert queue[k] == old(queue)[if k < j then k else k + 1];
      }
    }

    lemma {:induction false} QtyWithin(v: Level, j: nat)
      requires Shows(v) && j < |queue|
      ensures queue[j].remaining <= totalQty
    {
      TotalWithout(v.queue, j);
      assert queue[j].Value() == v.queue[j];
    }

    /** Leaves the FIFO from wherever it stands. */
    method Unlink(s: Side, order: Order, ghost v: Level, ghost j: nat)
      requires Holds(s, v) && j < |queue| && queue[j] == order
      modifies `queue, `front, `back, `totalQty, `orderCount, queue`next, queue`prev
      ensures queue == old(queue)[..j] + old(queue)[j + 1..]
      ensures Holds(s, v.(queue := v.queue[..j] + v.queue[j + 1..]))
    {
      hide Shows;
      QtyWithin(v, j);
      ghost var rest := queue[..j] + queue[j + 1..];
      if order.prev != null {
        order.prev.next := order.next;
      } else {
        front := order.next;
      }
      if order.next != null {
        order.next.prev := order.prev;
      } else {
        back := order.prev;
      }
      totalQty := totalQty - order.remaining;
      orderCount := orderCount - 1;
      queue := rest;
      BridgeLinked(s, j);
      BridgeShows(v, j);
    }

    /** Takes `delta` units off one order without moving it. */
    method Shrink(s: Side, order: Order, delta: Qty, ghost v: Level, ghost j: nat)
      requires Holds(s, v) && j < |queue| && queue[j] == order && delta <= order.remaining
      modifies `totalQty, order`remaining
      ensures Holds(s, v.(queue := v.queue[j := v.queue[j].(qty := v.queue[j].qty - delta)]))
    {
      ghost var w := v.queue[j].(qty := v.queue[j].qty - delta);
      TotalUpdate(v.queue, j, w);
      order.remaining := order.remaining - delta;
      totalQty := totalQty - delta;
    }
  }

  ghost function LevelAt(levels: seq<PriceLevel>, k: int): PriceLevel? {
    if 0 <= k < |levels| then levels[k] else null
  }

  class BookSide {
    const side: Side
    var best: PriceLevel?
    var levelsByPrice: map<Price, PriceLevel>
    ghost var levels: seq<PriceLevel>
    ghost var ladder: Ladder
    ghost var index: map<OrderId, Order>
    ghost var repr: set<object>

    constructor (side: Side)
      ensures Valid() && fresh(repr) && this.side == side
      ensures ladder == [] && index == map[]
    {
      this.side := side;
      this.best := null;
      this.levelsByPrice := map[];
      this.levels, this.ladder, this.index, this.repr := [], [], map[], {this};
    }

    /** The representation covers every listed node. */
    ghost predicate Closed()
      reads this, repr
    {
      && this in repr
      && (forall i :: 0 <= i < |levels| ==> levels[i] in repr)
      && (forall i, o :: 0 <= i < |levels| && o in levels[i].queue ==> o in repr)
    }

    /** `levels` is the doubly linked list that starts at `best`. */
    ghost predicate Chained()
      reads this, levels
    {
      && best == LevelAt(levels, 0)
      && (forall i, k :: 0 <= i < k < |levels| ==> levels[i] != levels[k])
      && (forall i {:trigger levels[i].better} :: 0 <= i < |levels| ==> levels[i].better == LevelAt(levels, i - 1))
      && (forall i {:trigger levels[i].worse} :: 0 <= i < |levels| ==> levels[i].worse == LevelAt(levels, i + 1))
    }

    /** Row by row, the levels hold what the ladder says. */
    ghost predicate Filed()
      requires Closed()
      reads this, repr
    {
      && |levels| == |ladder|
      && (forall i :: 0 <= i < |levels| ==> levels[i].Holds(side, ladder[i]))
    }

    /** The price map has the listed levels and nothing else. */
    ghost predicate Mapped()
      reads this
    {
      && |levels| == |ladder|
      && (forall i :: 0 <= i < |ladder| ==>
            ladder[i].price in levelsByPrice && levelsByPrice[ladder[i].price] == levels[i])
      && (forall p :: p in levelsByPrice ==> exists i :: 0 <= i < |ladder| && ladder[i].price == p)
    }

    /** `index` names exactly the resting orders, each by its id. */
    ghost predicate Indexed()
      reads this, levels
    {
      && |levels| == |ladder|
      && index.Keys == Ids(Flatten(ladder))
      && (forall i, j :: 0 <= i < |ladder| && 0 <= j < |ladder[i].queue| && j < |levels[i].queue| ==>
            ladder[i].queue[j].id in index && index[ladder[i].queue[j].id] == levels[i].queue[j])
    }

    ghost predicate Valid()
      reads this, repr
    {
      && Closed() && Chained() && Filed() && Mapped() && Indexed()
      && Graded(side, ladder) && Distinct(Flatten(ladder))
    }

    /** The priority queue this side stands for. */
    ghost function Contents(): Queue
      reads this
    {
      Flatten(ladder)
    }

    // ---- what each operation leaves alone ----

    /** An order stands in one row only. */
    twostate lemma RowsDisjoint(new i: nat)
      requires old(Closed() && Filed() && Chained()) && i < old(|levels|)
      ensures forall k, o :: 0 <= k < old(|levels|) && k != i && o in old(levels[k].queue) ==> o !in old(levels[i].queue)
    {
      assert old(levels[i].Holds(side, ladder[i]));
      assert forall o :: o in old(levels[i].queue) ==> old(o.level) == old(levels)[i];
      forall k, o | 0 <= k < old(|levels|) && k != i && o in old(levels[k].queue) ensures o !in old(levels[i].queue) {
        assert old(levels[k].Holds(side, ladder[k]));
        assert old(o.level) == old(levels)[k];
      }
    }

    /** Row `i` changed, the other rows and the list of levels did not. */
    twostate predicate OnlyRow(i: nat)
      reads this, levels
    {
      && levels == old(levels) && best == old(best) && levelsByPrice == old(levelsByPrice) && old(repr) <= repr
      && (forall k :: 0 <= k < |levels| ==> levels[k].better == old(levels[k].better) && levels[k].worse == old(levels[k].worse))
      && (forall k :: 0 <= k < |levels| && k != i ==> unchanged(levels[k]))
    }

    twostate lemma OtherRowsHold(new i: nat)
      requires old(Closed()) && old(Filed()) && OnlyRow(i) && i < |levels|
      requires forall k, o :: 0 <= k < |levels| && k != i && o in old(levels[k].queue) ==> unchanged(o)
      ensures forall k :: 0 <= k < |levels| && k != i ==> levels[k].Holds(side, old(ladder)[k])
    {
      forall k | 0 <= k < |levels| && k != i ensures levels[k].Holds(side, old(ladder)[k]) {
        levels[k].Untouched(side, old(ladder)[k]);
      }
    }

    twostate lemma CutIndexed(new i: nat, new j: nat)
      requires old(Indexed()) && levels == old(levels) && i < |levels| && j < |old(levels[i].queue)| == |old(ladder)[i].queue|
      requires forall k :: 0 <= k < |levels| && k != i ==> levels[k].queue == old(levels[k].queue)
      requires ladder == Replace(old(ladder), i, old(ladder)[i].queue[..j] + old(ladder)[i].queue[j + 1..])
      requires levels[i].queue == old(levels[i].queue)[..j] + old(levels[i].queue)[j + 1..]
      requires index == old(index) - {old(ladder)[i].queue[j].id}
      requires Ids(Contents()) == Ids(old(Contents())) - {old(ladder)[i].queue[j].id} && Distinct(old(Contents()))
      ensures Indexed()
    {
      var l := old(ladder);
      forall k, m | 0 <= k < |ladder| && 0 <= m < |ladder[k].queue| && m < |levels[k].queue|
        ensures ladder[k].queue[m].id in index && index[ladder[k].queue[m].id] == levels[k].queue[m]
      {
        var m' := if k == i && j <= m then m + 1 else m;
        assert ladder[k].queue[m] == l[k].queue[m'] && levels[k].queue[m] == old(levels[k].queue)[m'];
        PlacesDiffer(l, i, j, k, m');
      }
    }

    twostate lemma ChainKept()
      requires old(Chained()) && levels == old(levels) && best == old(best)
      requires forall k :: 0 <= k < |levels| ==> levels[k].better == old(levels[k].better) && levels[k].worse == old(levels[k].worse)
      ensures Chained()
    {
    }

    twostate lemma PricesKept()
      requires old(Mapped()) && levels == old(levels) && levelsByPrice == old(levelsByPrice)
      requires |ladder| == |levels| && forall k :: 0 <= k < |ladder| ==> ladder[k].price == old(ladder)[k].price
      ensures Mapped()
    {
      forall p | p in levelsByPrice ensures exists i :: 0 <= i < |ladder| && ladder[i].price == p {
        var i :| 0 <= i < |ladder| && old(ladder)[i].price == p;
        assert ladder[i].price == p;
      }
    }

    twostate lemma OrdersCovered(new i: nat)
      requires old(Closed()) && OnlyRow(i) && i < |levels| && forall o :: o in levels[i].queue ==> o in repr
      ensures Closed()
    {
      forall k, o | 0 <= k < |levels| && o in levels[k].queue ensures o in repr {
        if k != i {
          assert o in old(levels[k].queue);
        }
      }
    }

    twostate lemma RowPrices(new i: nat)
      requires i < |ladder| == old(|ladder|) && ladder[i].price == old(ladder)[i].price
      requires forall k :: 0 <= k < |ladder| && k != i ==> ladder[k] == old(ladder)[k]
      ensures forall k :: 0 <= k < |ladder| ==> ladder[k].price == old(ladder)[k].price
    {
    }

    /** Everything but the touched row follows from the old state. */
    twostate lemma RowChangedValid(new i: nat)
      requires old(Valid()) && OnlyRow(i) && i < |levels|
      requires |ladder| == |levels| && (forall k :: 0 <= k < |levels| && k != i ==> ladder[k] == old(ladder)[k])
      requires ladder[i].price == old(ladder)[i].price
      requires forall k, o :: 0 <= k < |levels| && k != i && o in old(levels[k].queue) ==> unchanged(o)
      requires forall o :: o in levels[i].queue ==> o in repr
      requires levels[i].Holds(side, ladder[i])
      requires Indexed() && Graded(side, ladder) && Distinct(Flatten(ladder))
      ensures Valid()
    {
      RowPrices(i);
      hide PriceLevel.Holds, Indexed, Distinct, Flatten;
      OtherRowsHold(i);
      ChainKept();
      PricesKept();
      OrdersCovered(i);
    }

    /** Only row `i`, whose level is `lvl`, and its orders were written. */
    twostate predicate Framed(lvl: PriceLevel)
      reads *
    {
      && levels == old(levels) && best == old(best) && levelsByPrice == old(levelsByPrice) && old(repr) <= repr
      && lvl.better == old(lvl.better) && lvl.worse == old(lvl.worse)
      && (forall x :: x in old(repr) && x != this && x != lvl && x !in old(lvl.queue) ==> unchanged(x))
    }

    twostate lemma FramedOrders(lvl: PriceLevel, new i: nat)
      requires old(Closed() && Filed() && Chained()) && Framed(lvl) && i < |levels| && levels[i] == lvl
      ensures forall k, o :: 0 <= k < |levels| && k != i && o in old(levels[k].queue) ==> unchanged(o)
    {
      RowsDisjoint(i);
      hide PriceLevel.Holds;
      forall k, o | 0 <= k < |levels| && k != i && o in old(levels[k].queue) ensures unchanged(o) {
        var x: object := o;
        assert x in old(repr) && x != lvl && x != this;
      }
    }

    twostate lemma FramedLevel(lvl: PriceLevel, new i: nat, new k: nat)
      requires old(Closed() && Chained()) && Framed(lvl) && i < |levels| && levels[i] == lvl && k < |levels| && k != i
      ensures unchanged(levels[k])
    {
      var x: object := levels[k];
      assert x in old(repr) && x != lvl && x != this && x !in old(lvl.queue);
    }

    twostate lemma FramedRows(lvl: PriceLevel, new i: nat)
      requires old(Closed() && Filed() && Chained()) && Framed(lvl) && i < |levels| && levels[i] == lvl
      ensures OnlyRow(i)
      ensures forall k, o :: 0 <= k < |levels| && k != i && o in old(levels[k].queue) ==> unchanged(o)
    {
      FramedOrders(lvl, i);
      forall k | 0 <= k < |levels| && k != i ensures unchanged(levels[k]) {
        FramedLevel(lvl, i, k);
      }
    }

    twostate lemma ExtractValid(lvl: PriceLevel, new i: nat, new j: nat)
      requires old(Valid()) && Framed(lvl)
      requires i < |levels| && levels[i] == lvl && j < |old(lvl.queue)|
      requires |old(ladder)[i].queue| == |old(lvl.queue)|
      requires ladder == Replace(old(ladder), i, old(ladder)[i].queue[..j] + old(ladder)[i].queue[j + 1..])
      requires index == old(index) - {old(ladder)[i].queue[j].id}
      requires lvl.queue == old(lvl.queue)[..j] + old(lvl.queue)[j + 1..]
      requires lvl.Holds(side, ladder[i])
      ensures Valid()
      ensures Has(old(Contents()), old(ladder)[i].queue[j].id)
      ensures Contents() == Remove(old(Contents()), old(ladder)[i].queue[j].id)
    {
      hide PriceLevel.Holds;
      FramedRows(lvl, i);
      CutGraded(side, old(ladder), i, j);
      FlattenCut(old(ladder), i, j);
      CutIndexed(i, j);
      RowChangedValid(i);
    }

    /** Takes an order out of its row; the row may be left empty. */
    method Extract(order: Order, lvl: PriceLevel, ghost i: nat, ghost j: nat)
      requires i < |ladder| && lvl.Holds(side, ladder[i]) && j < |lvl.queue| && lvl.queue[j] == order
      modifies `ladder, `index, lvl`queue, lvl`front, lvl`back, lvl`totalQty, lvl`orderCount, lvl.queue`prev, lvl.queue`next
      ensures Framed(lvl)
      ensures lvl.queue == old(lvl.queue)[..j] + old(lvl.queue)[j + 1..]
      ensures ladder == Replace(old(ladder), i, old(ladder)[i].queue[..j] + old(ladder)[i].queue[j + 1..])
      ensures lvl.Holds(side, ladder[i])
      ensures index == old(index) - {order.id}
    {
      lvl.Unlink(side, order, ladder[i], j);
      ladder := Replace(ladder, i, ladder[i].queue[..j] + ladder[i].queue[j + 1..]);
      index := index - {order.id};
    }


    twostate lemma PushValid(new order: Order, lvl: PriceLevel, new i: nat)
      requires old(Valid()) && Framed(lvl) && order in repr
      requires i < |levels| && levels[i] == lvl && |old(ladder)[i].queue| == |old(lvl.queue)|
      requires var o := order.Value(); o.price == old(ladder)[i].price && !Has(old(Contents()), o.id)
      requires ladder == Replace(old(ladder), i, old(ladder)[i].queue + [order.Value()])
      requires index == old(index)[order.id := order]
      requires lvl.queue == old(lvl.queue) + [order]
      requires lvl.Holds(side, ladder[i])
      ensures Valid()
      ensures Contents() == Insert(side, old(Contents()), order.Value())
    {
      hide PriceLevel.Holds;
      FramedRows(lvl, i);
      PushGraded(side, old(ladder), i, order.Value());
      FlattenPush(side, old(ladder), i, order.Value());
      DistinctInsert(side, old(Contents()), order.Value());
      PushIndexed(order, i);
      RowChangedValid(i);
    }

    twostate lemma PushIndexed(new order: Order, new i: nat)
      requires old(Indexed()) && levels == old(levels) && i < |levels| && |old(levels[i].queue)| == |old(ladder)[i].queue|
      requires forall k :: 0 <= k < |levels| && k != i ==> levels[k].queue == old(levels[k].queue)
      requires ladder == Replace(old(ladder), i, old(ladder)[i].queue + [order.Value()])
      requires levels[i].queue == old(levels[i].queue) + [order]
      requires index == old(index)[order.id := order]
      requires Ids(Contents()) == Ids(old(Contents())) + {order.id} && Distinct(Contents())
      ensures Indexed()
    {
      var l, last := ladder, |ladder[i].queue| - 1;
      forall k, m | 0 <= k < |l| && 0 <= m < |l[k].queue| && m < |levels[k].queue|
        ensures l[k].queue[m].id in index && index[l[k].queue[m].id] == levels[k].queue[m]
      {
        if (k, m) != (i, last) {
          PlacesDiffer(l, i, last, k, m);
        }
      }
    }

    /** Queues a fresh order at the back of row `i`. */
    method PushOrder(lvl: PriceLevel, order: Order, ghost i: nat)
      requires Valid() && i < |levels| && levels[i] == lvl
      requires order !in repr && order.side == side && order.price == ladder[i].price && order.id !in index
      modifies repr, order
      ensures Valid() && repr == old(repr) + {order}
      ensures Contents() == Insert(side, old(Contents()), order.Value())
      ensures order.Value() == old(order.Value())
      ensures index == old(index)[order.id := order]
      ensures old(NoneEmptyBut(ladder, i)) ==> NoneEmpty(ladder)
    {
      hide Valid;
      Covers();
      RowOf(i);
      NotHere(order.id);
      Enqueue(lvl, order, i);
      PushValid(order, lvl, i);
    }

    method Enqueue(lvl: PriceLevel, order: Order, ghost i: nat)
      requires i < |ladder| && lvl.Holds(side, ladder[i]) && order !in lvl.queue && order.side == side
      modifies `ladder, `index, `repr, lvl`queue, lvl`front, lvl`back, lvl`totalQty, lvl`orderCount
      modifies lvl.queue`next, order`prev, order`next, order`level
      ensures repr == old(repr) + {order}
      ensures lvl.queue == old(lvl.queue) + [order]
      ensures ladder == Replace(old(ladder), i, old(ladder)[i].queue + [order.Value()])
      ensures lvl.Holds(side, ladder[i])
      ensures index == old(index)[order.id := order]
    {
      lvl.Append(side, order, ladder[i]);
      ladder := Replace(ladder, i, ladder[i].queue + [order.Value()]);
      index := index[order.id := order];
      repr := repr + {order};
    }

    // ---- the list of levels ----

    /** The node fields that `Holds` looks at. */
    twostate predicate SameRow(l: PriceLevel)
      reads l
    {
      && l.queue == old(l.queue) && l.front == old(l.front) && l.back == old(l.back)
      && l.price == old(l.price) && l.totalQty == old(l.totalQty) && l.orderCount == old(l.orderCount)
    }

    twostate lemma LevelDropped(new i: nat)
      requires old(Chained()) && i < old(|levels|) && levels == old(levels)[..i] + old(levels)[i + 1..]
      requires best == if i == 0 then LevelAt(old(levels), 1) else old(best)
      requires forall l :: l in levels ==>
        && l.better == (if l == LevelAt(old(levels), i + 1) then LevelAt(old(levels), i - 1) else old(l.better))
        && l.worse == (if l == LevelAt(old(levels), i - 1) then LevelAt(old(levels), i + 1) else old(l.worse))
      ensures Chained()
    {
      forall k | 0 <= k < |levels|
        ensures levels[k] == old(levels)[if k < i then k else k + 1]
        ensures levels[k].better == LevelAt(levels, k - 1) && levels[k].worse == LevelAt(levels, k + 1)
      {
        assert levels[k] in levels;
      }
    }

    method Unchain(lvl: PriceLevel, ghost i: nat)
      requires Chained() && i < |levels| && levels[i] == lvl
      modifies `best, `levels, levels`better, levels`worse
      ensures levels == old(levels)[..i] + old(levels)[i + 1..] && Chained()
    {
      ghost var rest := levels[..i] + levels[i + 1..];
      if lvl.better != null {
        lvl.better.worse := lvl.worse;
      } else {
        best := lvl.worse;
      }
      if lvl.worse != null {
        lvl.worse.better := lvl.better;
      }
      levels := rest;
      LevelDropped(i);
    }

    twostate lemma LevelLinked(new lvl: PriceLevel, new i: nat)
      requires old(Chained()) && i <= old(|levels|) && levels == old(levels)[..i] + [lvl] + old(levels)[i..]
      requires lvl !in old(levels)
      requires best == if i == 0 then lvl else old(best)
      requires lvl.better == LevelAt(old(levels), i - 1) && lvl.worse == LevelAt(old(levels), i)
      requires forall l :: l in old(levels) ==>
        && l.better == (if l == LevelAt(old(levels), i) then lvl else old(l.better))
        && l.worse == (if l == LevelAt(old(levels), i - 1) then lvl else old(l.worse))
      ensures Chained()
    {
      forall k | 0 <= k < |levels|
        ensures k != i ==> levels[k] == old(levels)[if k < i then k else k - 1]
        ensures levels[k].better == LevelAt(levels, k - 1) && levels[k].worse == LevelAt(levels, k + 1)
      {
        if k != i {
          assert levels[k] in old(levels);
        }
      }
    }

    /** Links a fresh level in right behind `pos`, or at the head. */
    method ChainBehind(lvl: PriceLevel, pos: PriceLevel?, ghost i: nat)
      requires Chained() && i <= |levels| && pos == LevelAt(levels, i - 1)
      requires lvl !in levels && lvl.better == null && lvl.worse == null
      modifies `best, `levels, levels`better, levels`worse, lvl`better, lvl`worse
      ensures levels == old(levels)[..i] + [lvl] + old(levels)[i..] && Chained()
    {
      ghost var all := levels[..i] + [lvl] + levels[i..];
      if pos == null {
        lvl.worse := best;
        if best != null {
          best.better := lvl;
        }
        best := lvl;
      } else {
        lvl.better := pos;
        lvl.worse := pos.worse;
        if pos.worse != null {
          pos.worse.better := lvl;
        }
        pos.worse := lvl;
      }
      levels := all;
      LevelLinked(lvl, i);
    }

    /** Levels kept their rows and every order is as it was. */
    twostate predicate RowsKept()
      reads *
    {
      && old(repr) <= repr && index == old(index)
      && (forall l :: l in old(levels) ==> SameRow(l))
      && (forall l, o :: l in old(levels) && o in old(l.queue) ==> unchanged(o))
    }

    twostate lemma KeptHolds(new i: nat)
      requires old(Closed() && Filed()) && RowsKept() && i < old(|levels|)
      ensures old(levels)[i].Holds(side, old(ladder)[i])
    {
      var l := old(levels)[i];
      assert l in old(levels) && SameRow(l);
      l.Untouched(side, old(ladder)[i]);
    }

    /** Row `i` is gone; the others moved up. */
    twostate predicate RowDropped(i: nat)
      reads this
    {
      && i < old(|levels|) == old(|ladder|)
      && levels == old(levels)[..i] + old(levels)[i + 1..] && ladder == Without(old(ladder), i)
    }

    function Skip(i: nat, k: nat): nat {
      if k < i then k else k + 1
    }

    twostate lemma DroppedFiled(new i: nat)
      requires old(Closed() && Filed()) && RowsKept() && RowDropped(i)
      ensures Closed() && Filed()
    {
      forall k | 0 <= k < |levels| ensures levels[k].Holds(side, ladder[k]) {
        KeptHolds(Skip(i, k));
        assert levels[k] == old(levels)[Skip(i, k)] && ladder[k] == old(ladder)[Skip(i, k)];
      }
      forall k, o | 0 <= k < |levels| && o in levels[k].queue ensures o in repr {
        var l := old(levels)[Skip(i, k)];
        assert l in old(levels) && SameRow(l) && o in old(l.queue);
      }
    }

    lemma {:induction false} OtherPrice(s: Side, l: Ladder, i: nat, k: nat)
      requires Graded(s, l) && i < |l| && k < |l| && i != k
      ensures l[i].price != l[k].price
    {
    }

    twostate lemma DroppedMapped(new i: nat)
      requires old(Mapped()) && Graded(side, old(ladder)) && RowDropped(i)
      requires levelsByPrice == old(levelsByPrice) - {old(ladder)[i].price}
      ensures Mapped()
    {
      hide Graded;
      forall k | 0 <= k < |ladder|
        ensures ladder[k].price in levelsByPrice && levelsByPrice[ladder[k].price] == levels[k]
      {
        assert ladder[k] == old(ladder)[Skip(i, k)] && levels[k] == old(levels)[Skip(i, k)];
        OtherPrice(side, old(ladder), i, Skip(i, k));
      }
      forall p | p in levelsByPrice ensures exists k :: 0 <= k < |ladder| && ladder[k].price == p {
        var m :| 0 <= m < old(|ladder|) && old(ladder)[m].price == p;
        assert ladder[if m < i then m else m - 1].price == p;
      }
    }

    twostate lemma DroppedIndexed(new i: nat)
      requires old(Indexed()) && RowDropped(i) && index == old(index) && Contents() == old(Contents())
      requires forall l :: l in old(levels) ==> l.queue == old(l.queue)
      ensures Indexed()
    {
      forall k, m | 0 <= k < |ladder| && 0 <= m < |ladder[k].queue| && m < |levels[k].queue|
        ensures ladder[k].queue[m].id in index && index[ladder[k].queue[m].id] == levels[k].queue[m]
      {
        assert ladder[k] == old(ladder)[Skip(i, k)] && levels[k] == old(levels)[Skip(i, k)];
      }
    }

    twostate lemma LevelDroppedValid(new i: nat)
      requires old(Valid()) && RowsKept() && Chained() && RowDropped(i)
      requires old(ladder)[i].queue == [] && levelsByPrice == old(levelsByPrice) - {old(ladder)[i].price}
      ensures Valid() && Contents() == old(Contents())
    {
      hide PriceLevel.Holds;
      FlattenWithout(old(ladder), i);
      WithoutGraded(side, old(ladder), i);
      DroppedFiled(i);
      DroppedMapped(i);
      DroppedIndexed(i);
    }

    /** Unlinks an empty level and forgets its price. */
    method DropRow(lvl: PriceLevel, ghost i: nat)
      requires Chained() && i < |levels| == |ladder| && levels[i] == lvl
      modifies `best, `levels, `ladder, `levelsByPrice, levels`better, levels`worse
      ensures Chained() && RowsKept() && RowDropped(i)
      ensures levelsByPrice == old(levelsByPrice) - {lvl.price}
    {
      Unchain(lvl, i);
      levelsByPrice := levelsByPrice - {lvl.price};
      ladder := Without(ladder, i);
    }

    method RemoveLevel(lvl: PriceLevel, ghost i: nat)
      requires Valid() && i < |levels| && levels[i] == lvl && lvl.queue == []
      modifies repr
      ensures repr == old(repr) && index == old(index)
      ensures Valid() && Contents() == old(Contents())
      ensures old(NoneEmptyBut(ladder, i)) ==> NoneEmpty(ladder)
    {
      assert lvl.Holds(side, ladder[i]);
      DropRow(lvl, i);
      LevelDroppedValid(i);
    }

    // ---- a new level ----

    /** A fresh empty row `i`. */
    twostate predicate RowAdded(i: nat, new lvl: PriceLevel)
      reads this
    {
      && i <= old(|levels|) == old(|ladder|)
      && levels == old(levels)[..i] + [lvl] + old(levels)[i..]
      && |ladder| == |levels| && ladder == WithRow(old(ladder), i, ladder[i].price)
    }

    /** The other rows are the old ones. */
    twostate lemma AddedRow(new i: nat, new lvl: PriceLevel, new k: nat)
      requires RowAdded(i, lvl) && k < |levels| && k != i
      ensures var m := if k < i then k else k - 1;
        m < old(|levels|) && levels[k] == old(levels)[m] && ladder[k] == old(ladder)[m]
    {
    }

    twostate lemma AddedFiled(new i: nat, new lvl: PriceLevel)
      requires old(Closed() && Filed()) && RowsKept() && RowAdded(i, lvl)
      requires lvl in repr && lvl.queue == [] && lvl.Holds(side, ladder[i])
      ensures Closed() && Filed()
    {
      hide PriceLevel.Holds;
      forall k | 0 <= k < |levels| ensures levels[k].Holds(side, ladder[k]) {
        if k != i {
          AddedRow(i, lvl, k);
          KeptHolds(if k < i then k else k - 1);
        }
      }
      forall k, o | 0 <= k < |levels| && o in levels[k].queue ensures o in repr {
        AddedRow(i, lvl, k);
        assert levels[k] in old(levels) && SameRow(levels[k]) && o in old(levels)[if k < i then k else k - 1].queue;
      }
    }

    twostate lemma AddedMapped(new i: nat, new lvl: PriceLevel)
      requires old(Mapped()) && RowAdded(i, lvl)
      requires ladder[i].price !in old(levelsByPrice)
      requires levelsByPrice == old(levelsByPrice)[ladder[i].price := lvl]
      ensures Mapped()
    {
      forall k | 0 <= k < |ladder|
        ensures ladder[k].price in levelsByPrice && levelsByPrice[ladder[k].price] == levels[k]
      {
        if k != i {
          var m := if k < i then k else k - 1;
          assert ladder[k] == old(ladder)[m] && levels[k] == old(levels)[m];
        }
      }
      forall p | p in levelsByPrice ensures exists k :: 0 <= k < |ladder| && ladder[k].price == p {
        if p in old(levelsByPrice) {
          var m :| 0 <= m < old(|ladder|) && old(ladder)[m].price == p;
          assert ladder[if m < i then m else m + 1].price == p;
        }
      }
    }

    twostate lemma AddedIndexed(new i: nat, new lvl: PriceLevel)
      requires old(Indexed()) && RowAdded(i, lvl) && index == old(index) && Contents() == old(Contents())
      requires lvl.queue == [] && forall l :: l in old(levels) ==> l.queue == old(l.queue)
      ensures Indexed()
    {
      forall k, m | 0 <= k < |ladder| && 0 <= m < |ladder[k].queue| && m < |levels[k].queue|
        ensures ladder[k].queue[m].id in index && index[ladder[k].queue[m].id] == levels[k].queue[m]
      {
        var n := if k < i then k else k - 1;
        assert ladder[k] == old(ladder)[n] && levels[k] == old(levels)[n];
      }
    }

    twostate lemma LevelAddedValid(new i: nat, new lvl: PriceLevel)
      requires old(Valid()) && RowsKept() && Chained() && RowAdded(i, lvl)
      requires lvl in repr && lvl.queue == [] && lvl.Holds(side, ladder[i])
      requires Slot(side, old(ladder), i, ladder[i].price)
      requires ladder[i].price !in old(levelsByPrice)
      requires levelsByPrice == old(levelsByPrice)[ladder[i].price := lvl]
      ensures Valid() && Contents() == old(Contents())
    {
      hide PriceLevel.Holds;
      FlattenWithRow(side, old(ladder), i, ladder[i].price);
      AddedFiled(i, lvl);
      AddedMapped(i, lvl);
      AddedIndexed(i, lvl);
    }

    ghost predicate Priced()
      reads this, levels
    {
      |levels| == |ladder| && forall k :: 0 <= k < |levels| ==> levels[k].price == ladder[k].price
    }

    lemma {:induction false} FiledPriced()
      requires Closed() && Filed()
      ensures Priced()
    {
      forall k | 0 <= k < |levels| ensures levels[k].price == ladder[k].price {
        assert levels[k].Holds(side, ladder[k]);
      }
    }

    /** Where a new price goes: behind the last level that is better than it. */
    method FindSpot(price: Price) returns (pos: PriceLevel?, ghost i: nat)
      requires Chained() && Priced() && Graded(side, ladder)
      requires forall k :: 0 <= k < |ladder| ==> ladder[k].price != price
      ensures Slot(side, ladder, i, price) && pos == LevelAt(levels, i - 1)
    {
      if best == null || Better(side, price, best.price) {
        return null, 0;
      }
      pos, i := best, 1;
      while pos.worse != null && Better(side, pos.worse.price, price)
        invariant 1 <= i <= |levels| && pos == levels[i - 1]
        invariant Better(side, ladder[i - 1].price, price)
        decreases |levels| - i
      {
        pos, i := pos.worse, i + 1;
      }
    }

    /** Links `lvl` in as row `i` and enters its price. */
    method AddRow(lvl: PriceLevel, pos: PriceLevel?, ghost i: nat)
      requires Chained() && i <= |levels| == |ladder| && pos == LevelAt(levels, i - 1)
      requires lvl !in levels && lvl.better == null && lvl.worse == null
      modifies `best, `levels, `ladder, `levelsByPrice, `repr, levels`better, levels`worse, lvl`better, lvl`worse
      ensures Chained() && RowsKept() && RowAdded(i, lvl) && ladder[i] == Level(lvl.price, [])
      ensures levelsByPrice == old(levelsByPrice)[lvl.price := lvl] && repr == old(repr) + {lvl}
    {
      ChainBehind(lvl, pos, i);
      levelsByPrice := levelsByPrice[lvl.price := lvl];
      ladder := WithRow(ladder, i, lvl.price);
      repr := repr + {lvl};
    }

    /** Brings an unlisted, empty level into the book. */
    method InsertLevel(lvl: PriceLevel) returns (ghost i: nat)
      requires Valid() && lvl.price !in levelsByPrice
      requires lvl !in repr && lvl.queue == [] && lvl.better == null && lvl.worse == null
      requires lvl.Holds(side, Level(lvl.price, []))
      modifies `best, `levels, `ladder, `levelsByPrice, `repr, levels`better, levels`worse, lvl`better, lvl`worse
      ensures Valid() && Contents() == old(Contents()) && repr == old(repr) + {lvl}
      ensures i < |levels| && levels[i] == lvl && i < |ladder| && ladder[i].price == lvl.price
      ensures old(NoneEmpty(ladder)) ==> NoneEmptyBut(ladder, i)
    {
      hide Indexed, Graded, Distinct, Flatten, NoneEmpty, NoneEmptyBut;
      FiledPriced();
      var pos;
      pos, i := FindSpot(lvl.price);
      AddRow(lvl, pos, i);
      lvl.Untouched(side, Level(lvl.price, []));
      LevelAddedValid(i, lvl);
      WithRowEmpty(old(ladder), i, lvl.price);
    }

    // ---- what the engine calls ----

    /** `order` is next to trade, and `lvl` is its level. */
    ghost predicate IsFront(lvl: PriceLevel, order: Order)
      reads this, levels
    {
      levels != [] && levels[0] == lvl && lvl.queue != [] && lvl.queue[0] == order
    }

    /** What `best` and its `front` mean for the priority queue. */
    lemma {:induction false} Touch()
      requires Valid() && NoneEmpty(ladder)
      ensures best == null <==> Contents() == []
      ensures best != null ==> best.front != null && IsFront(best, best.front)
    {
      FlattenHead(ladder);
      if levels != [] {
        assert levels[0].Holds(side, ladder[0]);
      }
    }

    lemma {:induction false} FrontValue(lvl: PriceLevel, order: Order)
      requires Valid() && NoneEmpty(ladder) && IsFront(lvl, order)
      ensures Contents() != [] && Contents()[0] == order.Value()
      ensures order.level == lvl && lvl.price == order.price && order.side == side
      ensures order.id in index && index[order.id] == order
      ensures order in repr && lvl in repr && this in repr
    {
      FlattenHead(ladder);
      assert lvl.Holds(side, ladder[0]);
      assert order.Value() == ladder[0].queue[0];
    }

    /** A side whose representation nobody wrote to is what it was. */
    twostate lemma Intact()
      requires old(Valid()) && forall x :: x in old(repr) ==> unchanged(x)
      ensures Valid() && repr == old(repr) && index == old(index) && ladder == old(ladder)
    {
      assert this in old(repr);
    }

    /** How the `i`-th level is linked, mapped and filed. */
    lemma {:induction false} ChainAt(i: nat)
      requires Valid() && i < |levels|
      ensures levels[i].better == LevelAt(levels, i - 1) && levels[i].worse == LevelAt(levels, i + 1)
      ensures best == levels[0] && Graded(side, ladder)
      ensures levels[i].price in levelsByPrice && levelsByPrice[levels[i].price] == levels[i]
      ensures |ladder| == |levels| && levels[i].Holds(side, ladder[i])
    {
      RowOf(i);
      assert ladder[i].price in levelsByPrice;
    }

    lemma {:induction false} Covers()
      requires Valid()
      ensures Closed()
    {
    }

    lemma {:induction false} RowOf(i: nat)
      requires Valid() && i < |levels|
      ensures |ladder| == |levels| && levels[i].Holds(side, ladder[i]) && |ladder[i].queue| == |levels[i].queue|
    {
      assert levels[i].Holds(side, ladder[i]);
    }

    lemma {:induction false} Count()
      requires Valid()
      ensures |index.Keys| == |Contents()|
    {
      CountDistinct(Contents());
    }

    lemma {:induction false} RowFor(price: Price) returns (i: nat)
      requires Valid() && price in levelsByPrice
      ensures i < |levels| && i < |ladder| && ladder[i].price == price && levelsByPrice[price] == levels[i]
    {
      i :| 0 <= i < |ladder| && ladder[i].price == price;
    }

    lemma {:induction false} Row(i: nat, j: nat)
      requires Valid() && i < |levels| && j < |levels[i].queue|
      ensures |ladder| == |levels| && levels[i].Holds(side, ladder[i]) && |ladder[i].queue| == |levels[i].queue|
      ensures ladder[i].queue[j] == levels[i].queue[j].Value()
      ensures levels[i].queue[j].next == Neighbour(levels[i].queue, j + 1)
    {
      assert levels[i].Holds(side, ladder[i]);
    }

    lemma {:induction false} IdAt(i: nat, j: nat)
      requires Valid() && i < |levels| && j < |levels[i].queue|
      ensures levels[i].queue[j].id in index
      ensures levels[i].queue[j] in repr && levels[i] in repr
    {
      assert levels[i].Holds(side, ladder[i]);
      assert levels[i].queue[j].Value() == ladder[i].queue[j];
    }

    /** How the `j`-th order of row `i` is linked, filed and indexed. */
    lemma {:induction false} Node(i: nat, j: nat)
      requires Valid() && i < |levels| && j < |levels[i].queue|
      ensures var lvl, o := levels[i], levels[i].queue[j];
        && (if j == 0 then lvl.front == o && o.prev == null else o.prev == lvl.queue[j - 1] && lvl.queue[j - 1].next == o)
        && (j + 1 == |lvl.queue| ==> lvl.back == o && o.next == null)
        && o.level == lvl && o.side == side && o.price == lvl.price
        && o.id in index && index[o.id] == o
    {
      Row(i, j);
      IdAt(i, j);
      levels[i].LinksAt(side, j);
      assert ladder[i].queue[j].price == ladder[i].price;
      assert index[ladder[i].queue[j].id] == levels[i].queue[j];
      if j > 0 {
        levels[i].LinksAt(side, j - 1);
      }
      hide BookSide.Valid, PriceLevel.Linked;
    }

    lemma {:induction false} NotHere(id: OrderId)
      requires Valid() && id !in index
      ensures !Has(Contents(), id)
    {
      assert forall k :: 0 <= k < |Contents()| ==> Contents()[k].id in Ids(Contents());
    }

    /** Every listed id has a row and a position. */
    lemma {:induction false} Locate(id: OrderId) returns (i: nat, j: nat)
      requires Valid() && id in index
      ensures i < |levels| && j < |levels[i].queue| && j < |ladder[i].queue|
      ensures levels[i].queue[j] == index[id] && ladder[i].queue[j] == index[id].Value()
      ensures index[id].id == id && index[id].side == side && index[id].level == levels[i]
      ensures Has(Contents(), id) && Lookup(Contents(), id) == index[id].Value()
    {
      assert id in Ids(Contents());
      var k :| 0 <= k < |Contents()| && Contents()[k].id == id;
      i, j := PlaceOf(ladder, k);
      assert levels[i].Holds(side, ladder[i]);
      assert levels[i].queue[j].Value() == ladder[i].queue[j];
      FlattenCut(ladder, i, j);
    }

    method GetOrCreateLevel(price: Price) returns (lvl: PriceLevel, ghost i: nat)
      requires Valid() && NoneEmpty(ladder)
      modifies repr
      ensures Valid() && Contents() == old(Contents()) && index == old(index)
      ensures i < |levels| && levels[i] == lvl && ladder[i].price == price
      ensures NoneEmptyBut(ladder, i)
      ensures old(repr) <= repr && fresh(repr - old(repr))
    {
      hide Valid;
      Covers();
      if price in levelsByPrice {
        i := RowFor(price);
        return levelsByPrice[price], i;
      }
      lvl := new PriceLevel(price);
      i := InsertLevel(lvl);
    }

    twostate lemma ShrinkIndexed(new i: nat, new j: nat, new n: Qty)
      requires old(Indexed()) && levels == old(levels) && index == old(index) && i < |levels| && j < |old(ladder)[i].queue|
      requires forall k :: 0 <= k < |levels| ==> levels[k].queue == old(levels[k].queue)
      requires ladder == Replace(old(ladder), i, old(ladder)[i].queue[j := old(ladder)[i].queue[j].(qty := n)])
      requires Ids(Contents()) == Ids(old(Contents()))
      ensures Indexed()
    {
      forall k, m | 0 <= k < |ladder| && 0 <= m < |ladder[k].queue|
        ensures ladder[k].queue[m].id == old(ladder)[k].queue[m].id
      {}
    }

    twostate lemma ShrinkValid(lvl: PriceLevel, new i: nat, new j: nat, new n: Qty)
      requires old(Valid()) && Framed(lvl) && index == old(index)
      requires i < |levels| && levels[i] == lvl && lvl.queue == old(lvl.queue)
      requires j < |lvl.queue| == |old(ladder)[i].queue|
      requires ladder == Replace(old(ladder), i, old(ladder)[i].queue[j := old(ladder)[i].queue[j].(qty := n)])
      requires lvl.Holds(side, ladder[i])
      ensures Valid()
      ensures Has(old(Contents()), old(ladder)[i].queue[j].id)
      ensures Contents() == Resize(old(Contents()), old(ladder)[i].queue[j].id, n)
    {
      hide PriceLevel.Holds;
      FramedRows(lvl, i);
      FlattenResize(old(ladder), i, j, n);
      ResizeGraded(side, old(ladder), i, j, n);
      ShrinkIndexed(i, j, n);
      RowChangedValid(i);
    }

    /** Takes `delta` units off one order where it stands. */
    method Shrink(order: Order, lvl: PriceLevel, delta: Qty, ghost i: nat, ghost j: nat)
      requires i < |ladder| && lvl.Holds(side, ladder[i]) && j < |lvl.queue| && lvl.queue[j] == order
      requires delta <= order.remaining
      modifies `ladder, lvl`totalQty, order`remaining
      ensures Framed(lvl)
      ensures ladder == Replace(old(ladder), i, old(ladder)[i].queue[j := old(ladder)[i].queue[j].(qty := order.remaining)])
      ensures lvl.Holds(side, ladder[i])
      ensures order.remaining == old(order.remaining) - delta
    {
      lvl.Shrink(side, order, delta, ladder[i], j);
      ladder := Replace(ladder, i, ladder[i].queue[j := ladder[i].queue[j].(qty := order.remaining)]);
    }

    method ReduceOrder(order: Order, delta: Qty, ghost i: nat, ghost j: nat)
      requires Valid() && i < |levels| && j < |levels[i].queue| && levels[i].queue[j] == order && order.level == levels[i]
      requires delta <= order.remaining
      modifies `ladder, order.level`totalQty, order`remaining
      ensures Valid() && order.remaining == old(order.remaining) - delta
      ensures Has(old(Contents()), order.id) && Contents() == Resize(old(Contents()), order.id, order.remaining)
      ensures old(NoneEmpty(ladder)) ==> NoneEmpty(ladder)
    {
      hide Valid;
      Row(i, j);
      var lvl := order.level;
      Shrink(order, lvl, delta, i, j);
      ShrinkValid(lvl, i, j, order.remaining);
    }

    /** Takes an order out of its level, which stays even if that empties it. */
    method Pull(order: Order, lvl: PriceLevel, ghost i: nat, ghost j: nat)
      requires Valid() && i < |levels| && levels[i] == lvl && j < |lvl.queue| && lvl.queue[j] == order
      modifies repr
      ensures repr == old(repr) && levels == old(levels)
      ensures Valid() && lvl.orderCount == |lvl.queue| == |ladder[i].queue|
      ensures i == 0 && j == 0 && old(order.next) != null ==>
        lvl.orderCount != 0 && lvl.price == old(lvl.price) && IsFront(lvl, old(order.next))
      ensures old(NoneEmpty(ladder)) ==> NoneEmptyBut(ladder, i)
      ensures lvl.orderCount != 0 ==> NoneEmptyBut(ladder, i) ==> NoneEmpty(ladder)
      ensures Has(old(Contents()), old(order.id)) && Contents() == Remove(old(Contents()), old(order.id))
      ensures index == old(index) - {old(order.id)}
    {
      hide Valid;
      Covers();
      Row(i, j);
      Extract(order, lvl, i, j);
      ExtractValid(lvl, i, j);
    }

    method RemoveOrder(order: Order, ghost i: nat, ghost j: nat)
      requires Valid() && NoneEmpty(ladder)
      requires i < |levels| && j < |levels[i].queue| && levels[i].queue[j] == order && order.level == levels[i]
      modifies repr
      ensures Valid() && NoneEmpty(ladder) && repr == old(repr)
      ensures Has(old(Contents()), old(order.id)) && Contents() == Remove(old(Contents()), old(order.id))
      ensures index == old(index) - {old(order.id)}
      ensures i == 0 && j == 0 && old(order.next) != null ==>
        old(order.level).price == old(order.level.price) && IsFront(old(order.level), old(order.next))
    {
      hide Valid;
      var lvl := order.level;
      Pull(order, lvl, i, j);
      if lvl.orderCount != 0 {
        return;
      }
      RemoveLevel(lvl, i);
    }
  }
}
