/** An auditor that sees nothing but the event stream (and the quantities of accepted amendments)
    keeps a ledger of open quantities.  Every run of the engine is a legal stream for it, and its
    ledger is always the book.  Lifecycle and conservation follow for every run. */
module Ledgers {
  import opened Types
  import opened PriceTimeBook
  import opened QueueLemmas
  import opened BookInvariants

  type Ledger = map<OrderId, Qty>

  /** What the auditor reads: the handler's events, and modifies that set a live order's quantity. */
  datatype Entry = Told(event: Event) | Amended(id: OrderId, qty: Qty)

  function Take(l: Ledger, id: OrderId, qty: Qty): Ledger
    requires id in l && qty <= l[id]
  {
    if qty == l[id] then l - {id} else l[id := l[id] - qty]
  }

  /** Whether the entry may come next: ids open or not open as it implies, no quantity overdrawn. */
  predicate Legal(l: Ledger, e: Entry) {
    match e
    case Amended(id, qty) => id in l && qty > 0
    case Told(Accepted(id, _, _, qty)) => id !in l && qty > 0
    case Told(Traded(taker, maker, _, qty, _)) =>
      taker in l && maker in l && taker != maker && 0 < qty <= l[taker] && qty <= l[maker]
    case Told(Cancelled(id, _)) => id in l
    case Told(Rejected(id, why)) => why.ZeroQty? || (why.DuplicateOrderId? <==> id in l)
  }

  function Post(l: Ledger, e: Entry): Ledger
    requires Legal(l, e)
  {
    match e
    case Amended(id, qty) => l[id := qty]
    case Told(Accepted(id, _, _, qty)) => l[id := qty]
    case Told(Traded(taker, maker, _, qty, _)) => Take(Take(l, taker, qty), maker, qty)
    case Told(Cancelled(id, _)) => l - {id}
    case Told(Rejected(_, _)) => l
  }

  /** Post a whole stream; None as soon as an entry is illegal. */
  function Audit(l: Ledger, log: seq<Entry>): Option<Ledger>
    decreases |log|
  {
    if log == [] then Some(l)
    else if Legal(l, log[0]) then Audit(Post(l, log[0]), log[1..])
    else None
  }

  function Tell(es: seq<Event>): seq<Entry> {
    seq(|es|, i requires 0 <= i < |es| => Told(es[i]))
  }

  /** What a message makes the auditor read. */
  function StepLog(stp: StpPolicy, b: Book, m: Message): seq<Entry> {
    (if m.Modify? && m.qty > 0 && b.Locate(m.id).Some? then [Amended(m.id, m.qty)] else [])
    + Tell(Step(stp, b, m).events)
  }

  function RunLog(stp: StpPolicy, b: Book, ms: seq<Message>): seq<Entry>
    decreases |ms|
  {
    if ms == [] then []
    else RunLog(stp, b, ms[..|ms| - 1]) + StepLog(stp, Run(stp, b, ms[..|ms| - 1]).0, ms[|ms| - 1])
  }

  // ---- the book as a ledger ----

  function OpenOf(q: Queue): Ledger {
    if q == [] then map[] else OpenOf(q[1..])[q[0].id := q[0].qty]
  }

  function OpenIn(b: Book): Ledger {
    OpenOf(b.bids) + OpenOf(b.asks)
  }

  lemma {:induction false} OpenHead(q: Queue)
    requires Distinct(q) && q != []
    ensures Distinct(q[1..]) && Ids(q) == Ids(q[1..]) + {q[0].id} && q[0].id !in Ids(q[1..])
  {
    forall i | 0 <= i < |q[1..]| ensures q[1..][i].id == q[i + 1].id {}
    forall id | id in Ids(q) ensures id in Ids(q[1..]) + {q[0].id} {
      var i :| 0 <= i < |q| && q[i].id == id;
      assert i > 0 ==> q[1..][i - 1].id == id;
    }
    assert q[0].id in Ids(q);
    forall id | id in Ids(q[1..]) ensures id in Ids(q) {
      var i :| 0 <= i < |q[1..]| && q[1..][i].id == id;
      assert q[i + 1].id == id;
    }
  }

  lemma {:induction false} OpenAt(q: Queue, i: nat)
    requires Distinct(q) && i < |q|
    ensures q[i].id in OpenOf(q) && OpenOf(q)[q[i].id] == q[i].qty
  {
    OpenHead(q);
    if i > 0 {
      OpenAt(q[1..], i - 1);
    }
  }

  lemma {:induction false} OpenKeys(q: Queue)
    requires Distinct(q)
    ensures OpenOf(q).Keys == Ids(q)
  {
    if q != [] {
      OpenHead(q);
      OpenKeys(q[1..]);
    }
  }

  /** A ledger is the one of `q` when it has its ids and their quantities. */
  lemma {:induction false} OpenIs(q: Queue, l: Ledger)
    requires Distinct(q) && l.Keys == Ids(q) && forall i :: 0 <= i < |q| ==> q[i].id in l && l[q[i].id] == q[i].qty
    ensures OpenOf(q) == l
  {
    OpenKeys(q);
    forall id | id in l ensures OpenOf(q)[id] == l[id] {
      var i :| 0 <= i < |q| && q[i].id == id;
      OpenAt(q, i);
    }
  }

  lemma {:induction false} OpenInsert(s: Side, q: Queue, o: Resting)
    requires Distinct(q) && !Has(q, o.id)
    ensures OpenOf(Insert(s, q, o)) == OpenOf(q)[o.id := o.qty]
  {
    DistinctInsert(s, q, o);
    OpenKeys(q);
    HasIds(q, o.id);
    var k := InsertPlace(s, q, o);
    var r := Insert(s, q, o);
    forall i | 0 <= i < |r| ensures r[i].id in OpenOf(q)[o.id := o.qty] && OpenOf(q)[o.id := o.qty][r[i].id] == r[i].qty {
      if i != k {
        var j := if i < k then i else i - 1;
        assert r[i] == q[j];
        OpenAt(q, j);
      }
    }
    OpenIs(r, OpenOf(q)[o.id := o.qty]);
  }

  lemma {:induction false} OpenRemove(q: Queue, id: OrderId)
    requires Distinct(q) && Has(q, id)
    ensures OpenOf(Remove(q, id)) == OpenOf(q) - {id}
  {
    var i, r := IndexOf(q, id), Remove(q, id);
    assert q == q[..i] + [q[i]] + q[i + 1..];
    DistinctSplit(q[..i], q[i], q[i + 1..]);
    OpenKeys(q);
    forall j | 0 <= j < |r| ensures r[j].id in OpenOf(q) - {id} && OpenOf(q)[r[j].id] == r[j].qty {
      var k := if j < i then j else j + 1;
      assert r[j] == q[k] && r[j].id in Ids(r);
      OpenAt(q, k);
    }
    OpenIs(r, OpenOf(q) - {id});
  }

  lemma {:induction false} OpenResize(q: Queue, id: OrderId, qty: Qty)
    requires Distinct(q) && Has(q, id)
    ensures OpenOf(Resize(q, id, qty)) == OpenOf(q)[id := qty]
  {
    var i, r := IndexOf(q, id), Resize(q, id, qty);
    ResizeIds(q, id, qty);
    OpenKeys(q);
    HasIds(q, id);
    forall j | 0 <= j < |r| ensures r[j].id in OpenOf(q)[id := qty] && OpenOf(q)[id := qty][r[j].id] == r[j].qty {
      OpenAt(q, j);
      assert j != i ==> r[j] == q[j] && q[j].id != q[i].id;
    }
    OpenIs(r, OpenOf(q)[id := qty]);
  }

  lemma {:induction false} UnionSet(a: Ledger, b: Ledger, id: OrderId, qty: Qty)
    ensures a + b[id := qty] == (a + b)[id := qty]
    ensures id !in b ==> a[id := qty] + b == (a + b)[id := qty]
  {
  }

  lemma {:induction false} UnionDrop(a: Ledger, b: Ledger, id: OrderId)
    ensures (a + b) - {id} == (a - {id}) + (b - {id})
    ensures id !in a ==> a - {id} == a
  {
  }

  lemma {:induction false} DropSet(l: Ledger, id: OrderId, qty: Qty)
    requires id !in l
    ensures l[id := qty] - {id} == l
  {
  }

  // ---- a sweep ----

  lemma {:induction false} TellCons(e: Event, es: seq<Event>)
    ensures Tell([e] + es) == [Told(e)] + Tell(es)
  {
  }

  lemma {:induction false} AuditCons(l: Ledger, e: Entry, log: seq<Entry>)
    requires Legal(l, e)
    ensures Audit(l, [e] + log) == Audit(Post(l, e), log)
  {
    assert ([e] + log)[1..] == log;
  }

  lemma {:induction false} AuditConcat(l: Ledger, a: seq<Entry>, b: seq<Entry>)
    requires Audit(l, a).Some?
    ensures Audit(l, a + b) == Audit(Audit(l, a).value, b)
    decreases |a|
  {
    if a == [] {
      assert a + b == b;
    } else {
      assert (a + b)[1..] == a[1..] + b;
      AuditConcat(Post(l, a[0]), a[1..], b);
    }
  }

  /** `l` with `rem` units open under `id`, if any. */
  function Hold(l: Ledger, id: OrderId, rem: Qty): Ledger {
    if rem > 0 then l[id := rem] else l
  }

  /** While a taker sweeps `q`, everything else (`rest`) stands still and the audit goes through. */
  lemma {:induction false} SweepPosts(stp: StpPolicy, t: Taker, rem: Qty, q: Queue, rest: Ledger)
    requires Distinct(q) && Positive(q) && rest.Keys !! Ids(q) && t.id !in rest && t.id !in Ids(q)
    ensures var r := Match(stp, t, rem, q);
      Audit(Hold(rest + OpenOf(q), t.id, rem), Tell(r.events)) == Some(Hold(rest + OpenOf(r.queue), t.id, r.rem))
  {
    hide Match, Legal, Post, Audit;
    if rem == 0 || q == [] || !Crosses(t, q[0].price) {
      MatchNone(stp, t, rem, q);
      AuditNil(Hold(rest + OpenOf(q), t.id, rem));
    } else {
      MatchHead(stp, t, rem, q);
      OpenHead(q);
      OpenKeys(q);
      OpenKeys(q[1..]);
      var fill := Min(rem, q[0].qty);
      if SelfTrade(stp, t, q[0]) {
        if stp == CancelIncoming {
          CancelTakerPosts(t, rem, q, rest);
        } else {
          SweepPosts(stp, t, rem, q[1..], rest);
          CancelMakerPosts(t, rem, q, rest, Match(stp, t, rem, q[1..]).events);
        }
      } else if fill == q[0].qty {
        SweepPosts(stp, t, rem - fill, q[1..], rest);
        TradePosts(t, rem, q, q[1..], rest, Match(stp, t, rem - fill, q[1..]).events);
      } else {
        var q' := [q[0].(qty := q[0].qty - fill)] + q[1..];
        MatchNone(stp, t, 0, q');
        AuditNil(rest + OpenOf(q'));
        TradePosts(t, rem, q, q', rest, []);
      }
    }
  }

  lemma {:induction false} AuditNil(l: Ledger)
    ensures Audit(l, Tell([])) == Some(l)
  {
  }

  lemma {:induction false} CancelTakerPosts(t: Taker, rem: Qty, q: Queue, rest: Ledger)
    requires rem > 0 && t.id !in rest && t.id !in OpenOf(q)
    ensures Audit(Hold(rest + OpenOf(q), t.id, rem), Tell([Cancelled(t.id, SelfTradePrevention)])) == Some(rest + OpenOf(q))
  {
    var l := Hold(rest + OpenOf(q), t.id, rem);
    TellCons(Cancelled(t.id, SelfTradePrevention), []);
    AuditCons(l, Told(Cancelled(t.id, SelfTradePrevention)), []);
    assert l - {t.id} == rest + OpenOf(q);
  }

  lemma {:induction false} CancelMakerPosts(t: Taker, rem: Qty, q: Queue, rest: Ledger, es: seq<Event>)
    requires rem > 0 && q != [] && q[0].id != t.id && q[0].id !in rest && q[0].id !in OpenOf(q[1..])
    ensures Audit(Hold(rest + OpenOf(q), t.id, rem), Tell([Cancelled(q[0].id, SelfTradePrevention)] + es))
            == Audit(Hold(rest + OpenOf(q[1..]), t.id, rem), Tell(es))
  {
    var l, e := Hold(rest + OpenOf(q), t.id, rem), Cancelled(q[0].id, SelfTradePrevention);
    UnionSet(rest, OpenOf(q[1..]), q[0].id, q[0].qty);
    hide OpenOf, Audit, Tell;
    TellCons(e, es);
    AuditCons(l, Told(e), Tell(es));
    var base: Ledger := rest + OpenOf(q[1..]);
    assert l - {q[0].id} == base[t.id := rem];
  }

  /** A trade leaves both parties with what is left of them. */
  lemma {:induction false} TradePost(l: Ledger, e: Event, rem: Qty, qty: Qty)
    requires e.Traded? && e.taker != e.maker && e.taker !in l && e.maker !in l
    requires 0 < e.qty <= rem && e.qty <= qty
    ensures var before := l[e.maker := qty][e.taker := rem];
      Legal(before, Told(e)) && Post(before, Told(e)) == Hold(Hold(l, e.maker, qty - e.qty), e.taker, rem - e.qty)
  {
    var l1 := Take(l[e.maker := qty][e.taker := rem], e.taker, e.qty);
    assert l1 == Hold(l[e.maker := qty], e.taker, rem - e.qty);
  }

  lemma {:induction false} TradePosts(t: Taker, rem: Qty, q: Queue, q': Queue, rest: Ledger, es: seq<Event>)
    requires rem > 0 && q != [] && q[0].qty > 0 && q[0].id != t.id && q[0].id !in rest && q[0].id !in OpenOf(q[1..])
    requires t.id !in rest && t.id !in OpenOf(q)
    requires var fill := Min(rem, q[0].qty);
      q' == if fill == q[0].qty then q[1..] else [q[0].(qty := q[0].qty - fill)] + q[1..]
    ensures var fill := Min(rem, q[0].qty);
      Audit(Hold(rest + OpenOf(q), t.id, rem), Tell([Traded(t.id, q[0].id, q[0].price, fill, t.side)] + es))
            == Audit(Hold(rest + OpenOf(q'), t.id, rem - fill), Tell(es))
  {
    var fill, maker := Min(rem, q[0].qty), q[0].id;
    hide *;
    var base: Ledger := rest + OpenOf(q[1..]);
    var l, e := Hold(rest + OpenOf(q), t.id, rem), Traded(t.id, maker, q[0].price, fill, t.side);
    MinBounds(rem, q[0].qty);
    MakerOpen(t, rem, q, q', rest, fill);
    TradePost(base, e, rem, q[0].qty);
    TellCons(e, es);
    AuditCons(l, Told(e), Tell(es));
  }

  lemma {:induction false} MinBounds(a: Qty, b: Qty)
    requires a > 0 && b > 0
    ensures 0 < Min(a, b) <= a && Min(a, b) <= b
  {
  }

  /** The ledger before and after the fill, apart from the maker's entry and the taker's. */
  lemma {:induction false} MakerOpen(t: Taker, rem: Qty, q: Queue, q': Queue, rest: Ledger, fill: Qty)
    requires rem > 0 && q != [] && 0 < fill <= q[0].qty && q[0].id !in rest && q[0].id !in OpenOf(q[1..])
    requires t.id !in rest && t.id !in OpenOf(q)
    requires q' == if fill == q[0].qty then q[1..] else [q[0].(qty := q[0].qty - fill)] + q[1..]
    ensures var base: Ledger := rest + OpenOf(q[1..]);
      && q[0].id !in base && t.id !in base
      && rest + OpenOf(q') == Hold(base, q[0].id, q[0].qty - fill)
      && Hold(rest + OpenOf(q), t.id, rem) == base[q[0].id := q[0].qty][t.id := rem]
  {
    UnionSet(rest, OpenOf(q[1..]), q[0].id, q[0].qty);
    if fill < q[0].qty {
      assert q'[1..] == q[1..];
      UnionSet(rest, OpenOf(q[1..]), q[0].id, q[0].qty - fill);
    }
  }

  // ---- a message ----

  lemma {:induction false} OpenKeysIn(b: Book)
    requires Good(b)
    ensures OpenIn(b).Keys == Ids(b.bids) + Ids(b.asks)
    ensures forall s :: OpenIn(b) == OpenOf(b.At(s)) + OpenOf(b.At(s.Opposite()))
    ensures OpenOf(b.bids).Keys == Ids(b.bids) && OpenOf(b.asks).Keys == Ids(b.asks)
  {
    OpenKeys(b.bids);
    OpenKeys(b.asks);
    assert OpenOf(b.bids) + OpenOf(b.asks) == OpenOf(b.asks) + OpenOf(b.bids);
  }

  lemma {:induction false} SweepBookPosts(stp: StpPolicy, b: Book, t: Taker, qty: Qty)
    requires Good(b) && t.id !in Ids(b.bids) && t.id !in Ids(b.asks)
    ensures var (rem, b1, es) := Sweep(stp, b, t, qty);
      Audit(Hold(OpenIn(b), t.id, qty), Tell(es)) == Some(Hold(OpenIn(b1), t.id, rem))
  {
    hide Match, Audit;
    var s := t.side.Opposite();
    var (rem, b1, es) := Sweep(stp, b, t, qty);
    SweepGood(stp, b, t, qty);
    OpenKeysIn(b);
    OpenKeysIn(b1);
    SweepPosts(stp, t, qty, b.At(s), OpenOf(b.At(t.side)));
    assert OpenIn(b) == OpenOf(b.At(s.Opposite())) + OpenOf(b.At(s));
    assert OpenIn(b1) == OpenOf(b1.At(s.Opposite())) + OpenOf(b1.At(s));
  }

  lemma {:induction false} RestOpen(b: Book, t: Taker, qty: Qty)
    requires Good(b) && t.id !in Ids(b.bids) && t.id !in Ids(b.asks)
    ensures OpenIn(Rest(b, t, qty)) == OpenIn(b)[t.id := qty]
  {
    var q, o := b.At(t.side), Resting(t.id, t.participant, t.price, qty);
    HasIds(q, t.id);
    OpenKeysIn(b);
    OpenInsert(t.side, q, o);
    hide Good, Insert, OpenOf, Has;
    UnionSet(OpenOf(b.bids), OpenOf(b.asks), o.id, o.qty);
  }

  /** The remainder of a swept order is open exactly if it is put to rest. */
  lemma {:induction false} RemainderOpen(stp: StpPolicy, b: Book, t: Taker, qty: Qty)
    requires Good(b) && !t.market && t.id !in Ids(b.bids) && t.id !in Ids(b.asks)
    ensures var (rem, b1, es) := Sweep(stp, b, t, qty);
      OpenIn(if rem == 0 then b1 else Rest(b1, t, rem)) == Hold(OpenIn(b1), t.id, rem)
  {
    hide Match;
    SweepGood(stp, b, t, qty);
    var (rem, b1, es) := Sweep(stp, b, t, qty);
    assert Ids(b1.At(Bid)) <= Ids(b.At(Bid)) && Ids(b1.At(Ask)) <= Ids(b.At(Ask));
    hide Good;
    RestOpen(b1, t, rem);
  }

  /** ... and after a cancel of the remainder it is not open. */
  lemma {:induction false} RemainderCancelled(stp: StpPolicy, b: Book, t: Taker, qty: Qty, log: seq<Event>,
          why: CancelReason)
    requires Good(b) && t.id !in Ids(b.bids) && t.id !in Ids(b.asks)
    requires var (rem, b1, es) := Sweep(stp, b, t, qty);
      rem > 0 && Audit(OpenIn(b), Tell(log)) == Some(Hold(OpenIn(b1), t.id, rem))
    ensures Audit(OpenIn(b), Tell(log + [Cancelled(t.id, why)])) == Some(OpenIn(Sweep(stp, b, t, qty).1))
  {
    hide Match, Audit;
    SweepGood(stp, b, t, qty);
    var (rem, b1, es) := Sweep(stp, b, t, qty);
    assert Ids(b1.At(Bid)) <= Ids(b.At(Bid)) && Ids(b1.At(Ask)) <= Ids(b.At(Ask));
    OpenKeysIn(b1);
    hide Good, OpenIn, Tell;
    TellMore(OpenIn(b), OpenIn(b1)[t.id := rem], log, Cancelled(t.id, why));
    DropSet(OpenIn(b1), t.id, rem);
  }

  lemma {:induction false} TellConcat(a: seq<Event>, b: seq<Event>)
    ensures Tell(a + b) == Tell(a) + Tell(b)
  {
  }

  /** One more event at the end of an audited log. */
  lemma {:induction false} TellMore(l: Ledger, l': Ledger, log: seq<Event>, e: Event)
    requires Audit(l, Tell(log)) == Some(l') && Legal(l', Told(e))
    ensures Audit(l, Tell(log + [e])) == Some(Post(l', Told(e)))
  {
    TellConcat(log, [e]);
    AuditConcat(l, Tell(log), Tell([e]));
    TellCons(e, []);
    AuditCons(l', Told(e), []);
    AuditNil(Post(l', Told(e)));
  }

  /** A new order from its acceptance to the end of its sweep. */
  lemma {:induction false} AcceptPosts(stp: StpPolicy, b: Book, t: Taker, qty: Qty, shown: Price)
    requires Good(b) && qty > 0 && t.id !in Ids(b.bids) && t.id !in Ids(b.asks)
    ensures var (rem, b1, es) := Sweep(stp, b, t, qty);
      Audit(OpenIn(b), Tell([Accepted(t.id, t.side, shown, qty)] + es)) == Some(Hold(OpenIn(b1), t.id, rem))
  {
    hide Match, Audit;
    var es := Sweep(stp, b, t, qty).2;
    var e := Accepted(t.id, t.side, shown, qty);
    OpenKeysIn(b);
    TellCons(e, es);
    AuditCons(OpenIn(b), Told(e), Tell(es));
    SweepBookPosts(stp, b, t, qty);
  }

  lemma {:induction false} RejectPosts(b: Book, id: OrderId, why: RejectReason)
    requires Good(b) && (why.ZeroQty? || (why.DuplicateOrderId? <==> b.Locate(id).Some?))
    ensures Audit(OpenIn(b), Tell([Rejected(id, why)])) == Some(OpenIn(b))
  {
    LocateIds(b, id);
    OpenKeysIn(b);
    TellCons(Rejected(id, why), []);
    AuditCons(OpenIn(b), Told(Rejected(id, why)), []);
  }

  lemma {:induction false} LimitPosts(stp: StpPolicy, b: Book, t: Taker, qty: Qty, tif: TimeInForce)
    requires Good(b) && !t.market
    ensures var o := SubmitLimit(stp, b, t, qty, tif); Audit(OpenIn(b), Tell(o.events)) == Some(OpenIn(o.book))
  {
    hide Match, Audit, Insert, Tell, Good, OpenIn;
    LocateIds(b, t.id);
    if qty == 0 {
      RejectPosts(b, t.id, ZeroQty);
    } else if b.Locate(t.id).Some? {
      RejectPosts(b, t.id, DuplicateOrderId);
    } else {
      AcceptPosts(stp, b, t, qty, t.price);
      RemainderOpen(stp, b, t, qty);
      var (rem, b1, es) := Sweep(stp, b, t, qty);
      if rem > 0 && tif.IOC? {
        RemainderCancelled(stp, b, t, qty, [Accepted(t.id, t.side, t.price, qty)] + es, IocRemainder);
      }
    }
  }

  lemma {:induction false} MarketPosts(stp: StpPolicy, b: Book, t: Taker, qty: Qty)
    requires Good(b)
    ensures var o := SubmitMarket(stp, b, t, qty); Audit(OpenIn(b), Tell(o.events)) == Some(OpenIn(o.book))
  {
    hide Match, Audit, Tell, Good, OpenIn;
    LocateIds(b, t.id);
    if qty == 0 {
      RejectPosts(b, t.id, ZeroQty);
    } else if b.Locate(t.id).Some? {
      RejectPosts(b, t.id, DuplicateOrderId);
    } else {
      AcceptPosts(stp, b, t, qty, 0);
      var (rem, b1, es) := Sweep(stp, b, t, qty);
      if rem > 0 {
        RemainderCancelled(stp, b, t, qty, [Accepted(t.id, t.side, 0, qty)] + es, MarketRemainder);
      }
    }
  }

  lemma {:induction false} WithoutOpen(b: Book, s: Side, id: OrderId)
    requires Good(b) && Has(b.At(s), id)
    ensures OpenIn(b.With(s, Remove(b.At(s), id))) == OpenIn(b) - {id}
    ensures id in OpenIn(b)
  {
    OpenKeysIn(b);
    HasIds(b.At(s), id);
    OpenRemove(b.At(s), id);
    assert id !in Ids(b.At(s.Opposite()));
    hide Good, Remove, OpenOf, Has;
    UnionDrop(OpenOf(b.bids), OpenOf(b.asks), id);
    UnionDrop(OpenOf(b.asks), OpenOf(b.bids), id);
  }

  lemma {:induction false} CancelPosts(b: Book, id: OrderId)
    requires Good(b)
    ensures var o := CancelOrder(b, id); Audit(OpenIn(b), Tell(o.events)) == Some(OpenIn(o.book))
  {
    LocateIds(b, id);
    match b.Locate(id) {
      case None => RejectPosts(b, id, UnknownOrderId);
      case Some(s) =>
        WithoutOpen(b, s, id);
        TellCons(Cancelled(id, User), []);
        AuditCons(OpenIn(b), Told(Cancelled(id, User)), []);
        AuditNil(OpenIn(b) - {id});
    }
  }

  lemma {:induction false} ResizeOpen(b: Book, s: Side, id: OrderId, qty: Qty)
    requires Good(b) && Has(b.At(s), id)
    ensures OpenIn(b.With(s, Resize(b.At(s), id, qty))) == OpenIn(b)[id := qty]
  {
    OpenKeysIn(b);
    HasIds(b.At(s), id);
    OpenResize(b.At(s), id, qty);
    assert id !in Ids(b.At(s.Opposite()));
    hide Good, Resize, OpenOf, Has;
    UnionSet(OpenOf(b.bids), OpenOf(b.asks), id, qty);
  }

  /** Cancel/replace: the order leaves with its old quantity and comes back as a taker with the new one. */
  lemma {:induction false} ReplacePosts(stp: StpPolicy, b: Book, s: Side, id: OrderId, t: Taker, qty: Qty)
    requires Good(b) && Has(b.At(s), id) && qty > 0 && t.id == id && !t.market
    ensures var (rem, b1, es) := Sweep(stp, b.With(s, Remove(b.At(s), id)), t, qty);
      Audit(OpenIn(b)[id := qty], Tell(es)) == Some(OpenIn(if rem == 0 then b1 else Rest(b1, t, rem)))
  {
    hide Match, Audit, Remove, Insert, Tell, OpenIn;
    var b0 := b.With(s, Remove(b.At(s), id));
    RemoveGood(b, s, id);
    WithoutOpen(b, s, id);
    hide Good;
    SweepBookPosts(stp, b0, t, qty);
    RemainderOpen(stp, b0, t, qty);
    assert Hold(OpenIn(b0), id, qty) == OpenIn(b)[id := qty];
  }

  lemma {:induction false} ModifyPosts(stp: StpPolicy, b: Book, m: Message)
    requires Good(b) && m.Modify?
    ensures Audit(OpenIn(b), StepLog(stp, b, m)) == Some(OpenIn(Step(stp, b, m).book))
  {
    hide Match, Audit, Insert, Remove, Resize, Lookup, IndexOf, Good, OpenIn, Has;
    var id, qty := m.id, m.qty;
    LocateIds(b, id);
    if b.Locate(id) == None || qty == 0 {
      assert StepLog(stp, b, m) == Tell(CancelOrder(b, id).events);
      CancelPosts(b, id);
    } else {
      var s := b.Locate(id).value;
      var o := Lookup(b.At(s), id);
      WithoutOpen(b, s, id);
      AuditCons(OpenIn(b), Amended(id, qty), Tell(Step(stp, b, m).events));
      if KeepsPriority(o, m.price, qty) {
        ResizeOpen(b, s, id, qty);
        AuditNil(OpenIn(b)[id := qty]);
      } else {
        ReplacePosts(stp, b, s, id, Taker(id, o.participant, s, m.price, false), qty);
      }
    }
  }

  lemma {:induction false} StepPosts(stp: StpPolicy, b: Book, m: Message)
    requires Good(b)
    ensures Audit(OpenIn(b), StepLog(stp, b, m)) == Some(OpenIn(Step(stp, b, m).book))
  {
    if m.Modify? {
      ModifyPosts(stp, b, m);
    } else {
      assert StepLog(stp, b, m) == Tell(Step(stp, b, m).events);
      match m
      case AddLimit(id, participant, side, price, qty, tif) =>
        LimitPosts(stp, b, Taker(id, participant, side, price, false), qty, tif);
      case AddMarket(id, participant, side, qty) =>
        MarketPosts(stp, b, Taker(id, participant, side, 0, true), qty);
      case Cancel(id) => CancelPosts(b, id);
    }
  }

  /** Whatever is sent, the log is legal and the auditor's ledger is the book. */
  lemma {:induction false} RunPosts(stp: StpPolicy, ms: seq<Message>)
    ensures Audit(map[], RunLog(stp, EmptyBook, ms)) == Some(OpenIn(Run(stp, EmptyBook, ms).0))
    decreases |ms|
  {
    EmptyGood();
    if ms != [] {
      var init := ms[..|ms| - 1];
      RunPosts(stp, init);
      RunGood(stp, EmptyBook, init);
      var b := Run(stp, EmptyBook, init).0;
      StepPosts(stp, b, ms[|ms| - 1]);
      AuditConcat(map[], RunLog(stp, EmptyBook, init), StepLog(stp, b, ms[|ms| - 1]));
    }
  }
}
