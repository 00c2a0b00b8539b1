/** How much an incoming order trades, in terms of what rests on the other side and nothing else. */
module SweepTotals {
  import opened Types
  import opened PriceTimeBook
  import opened BookInvariants

  function Filled(log: seq<Event>): Qty {
    if log == [] then 0
    else (if log[0].Traded? then log[0].qty else 0) + Filled(log[1..])
  }

  /** Everything the taker's price reaches, wherever it stands in the queue. */
  function Reachable(t: Taker, q: Queue): Qty {
    if q == [] then 0
    else (if Crosses(t, q[0].price) then q[0].qty else 0) + Reachable(t, q[1..])
  }

  /** The same, leaving out the taker's own orders. */
  function ReachableForeign(t: Taker, q: Queue): Qty {
    if q == [] then 0
    else (if Crosses(t, q[0].price) && q[0].participant != t.participant then q[0].qty else 0)
         + ReachableForeign(t, q[1..])
  }

  /** The first order of the taker's own, or the length of the queue. */
  function FirstOwn(t: Taker, q: Queue): (k: nat)
    ensures k <= |q|
    ensures forall i :: 0 <= i < k ==> q[i].participant != t.participant
    ensures k < |q| ==> q[k].participant == t.participant
  {
    if q == [] || q[0].participant == t.participant then 0 else 1 + FirstOwn(t, q[1..])
  }

  lemma {:induction false} SortedTail(s: Side, q: Queue)
    requires Sorted(s, q) && q != []
    ensures Sorted(s, q[1..])
  {
  }

  /** Behind an order that the price does not reach there is none that it reaches. */
  lemma {:induction false} NothingReachable(t: Taker, q: Queue)
    requires Sorted(t.side.Opposite(), q) && q != [] && !Crosses(t, q[0].price)
    ensures Reachable(t, q) == 0 && ReachableForeign(t, q) == 0
  {
    if |q| > 1 {
      assert !Better(t.side.Opposite(), q[1].price, q[0].price);
      SortedTail(t.side.Opposite(), q);
      NothingReachable(t, q[1..]);
    }
  }

  lemma {:induction false} FilledAfter(e: Event, log: seq<Event>)
    ensures Filled([e] + log) == (if e.Traded? then e.qty else 0) + Filled(log)
  {
    assert ([e] + log)[1..] == log;
  }

  /** A head that is reached and no self-trade fills first; only if it is gone the next one follows. */
  lemma {:induction false} HeadFills(stp: StpPolicy, t: Taker, rem: Qty, q: Queue)
    requires rem > 0 && q != [] && Crosses(t, q[0].price) && !SelfTrade(stp, t, q[0])
    ensures var r, r', id := Match(stp, t, rem, q), Match(stp, t, rem - Min(rem, q[0].qty), q[1..]), t.id;
      if rem >= q[0].qty then
        && r.rem == r'.rem && Filled(r.events) == q[0].qty + Filled(r'.events)
        && (Cancelled(id, SelfTradePrevention) in r.events <==> Cancelled(id, SelfTradePrevention) in r'.events)
      else r.rem == 0 && Filled(r.events) == rem && Cancelled(id, SelfTradePrevention) !in r.events
  {
    var fill := Min(rem, q[0].qty);
    var e := Traded(t.id, q[0].id, q[0].price, fill, t.side);
    MatchHead(stp, t, rem, q);
    FilledAfter(e, []);
    if rem >= q[0].qty {
      FilledAfter(e, Match(stp, t, rem - fill, q[1..]).events);
    } else {
      MatchNone(stp, t, 0, [q[0].(qty := q[0].qty - fill)] + q[1..]);
    }
    hide Match, Filled, Crosses;
  }

  lemma {:induction false} ReachedHead(t: Taker, q: Queue)
    requires q != [] && Crosses(t, q[0].price)
    ensures Reachable(t, q) == q[0].qty + Reachable(t, q[1..])
    ensures ReachableForeign(t, q)
         == (if q[0].participant != t.participant then q[0].qty else 0) + ReachableForeign(t, q[1..])
  {
  }

  /** Nothing trades for want of units or of a price. */
  lemma {:induction false} FillsNothing(stp: StpPolicy, t: Taker, rem: Qty, q: Queue)
    requires rem == 0 || q == [] || !Crosses(t, q[0].price)
    ensures var r := Match(stp, t, rem, q); r.rem == rem && Filled(r.events) == 0 && r.events == []
  {
  }

  /** Without self-trade prevention an order trades all it can: its size or what its price reaches. */
  lemma {:induction false} FilledAllow(t: Taker, rem: Qty, q: Queue)
    requires Sorted(t.side.Opposite(), q)
    ensures var r := Match(Allow, t, rem, q);
      Filled(r.events) == Min(rem, Reachable(t, q)) && r.rem == rem - Filled(r.events)
  {
    hide Match, Filled, Sorted, Crosses;
    if rem == 0 || q == [] || !Crosses(t, q[0].price) {
      FillsNothing(Allow, t, rem, q);
      if q != [] && !Crosses(t, q[0].price) {
        NothingReachable(t, q);
      }
    } else {
      SortedTail(t.side.Opposite(), q);
      ReachedHead(t, q);
      HeadFills(Allow, t, rem, q);
      if rem >= q[0].qty {
        FilledAllow(t, rem - q[0].qty, q[1..]);
      }
    }
  }

  /** With CancelResting it trades its size or what its price reaches of other participants. */
  lemma {:induction false} FilledCancelResting(t: Taker, rem: Qty, q: Queue)
    requires Sorted(t.side.Opposite(), q)
    ensures var r := Match(CancelResting, t, rem, q);
      Filled(r.events) == Min(rem, ReachableForeign(t, q)) && r.rem == rem - Filled(r.events)
  {
    hide Match, Filled, Sorted, Crosses;
    if rem == 0 || q == [] || !Crosses(t, q[0].price) {
      FillsNothing(CancelResting, t, rem, q);
      if q != [] && !Crosses(t, q[0].price) {
        NothingReachable(t, q);
      }
    } else {
      SortedTail(t.side.Opposite(), q);
      ReachedHead(t, q);
      if q[0].participant == t.participant {
        MatchHead(CancelResting, t, rem, q);
        FilledCancelResting(t, rem, q[1..]);
        FilledAfter(Cancelled(q[0].id, SelfTradePrevention), Match(CancelResting, t, rem, q[1..]).events);
      } else {
        HeadFills(CancelResting, t, rem, q);
        if rem >= q[0].qty {
          FilledCancelResting(t, rem - q[0].qty, q[1..]);
        }
      }
    }
  }

  /** Whether an incoming order under CancelIncoming runs into one of its own. */
  predicate MeetsOwn(t: Taker, rem: Qty, q: Queue) {
    var k := FirstOwn(t, q);
    k < |q| && Crosses(t, q[k].price) && rem > Reachable(t, q[..k])
  }

  /** With CancelIncoming it trades its size or what it reaches ahead of its first own order; it is
      killed exactly when that order is reachable and units are still left. */
  lemma {:induction false} FilledCancelIncoming(t: Taker, rem: Qty, q: Queue)
    requires Sorted(t.side.Opposite(), q)
    ensures var r := Match(CancelIncoming, t, rem, q);
      && Filled(r.events) == Min(rem, Reachable(t, q[..FirstOwn(t, q)]))
      && r.rem == (if MeetsOwn(t, rem, q) then 0 else rem - Filled(r.events))
      && (Cancelled(t.id, SelfTradePrevention) in r.events <==> MeetsOwn(t, rem, q))
    decreases |q|, 1
  {
    var k := FirstOwn(t, q);
    if rem == 0 || q == [] {
    } else if !Crosses(t, q[0].price) {
      NothingReachable(t, q);
      PrefixUnreachable(t, q, k);
    } else if q[0].participant != t.participant {
      FilledAtHead(t, rem, q);
    }
  }

  /** The case that the head is another's and reached. */
  lemma {:induction false} FilledAtHead(t: Taker, rem: Qty, q: Queue)
    requires Sorted(t.side.Opposite(), q)
    requires rem > 0 && q != [] && Crosses(t, q[0].price) && q[0].participant != t.participant
    ensures var r := Match(CancelIncoming, t, rem, q);
      && Filled(r.events) == Min(rem, Reachable(t, q[..FirstOwn(t, q)]))
      && r.rem == (if MeetsOwn(t, rem, q) then 0 else rem - Filled(r.events))
      && (Cancelled(t.id, SelfTradePrevention) in r.events <==> MeetsOwn(t, rem, q))
    decreases |q|, 0
  {
    hide Match, FirstOwn, MeetsOwn, Reachable, Filled, Sorted, Crosses;
    SortedTail(t.side.Opposite(), q);
    HeadFills(CancelIncoming, t, rem, q);
    OwnLater(t, rem, q);
    if rem >= q[0].qty {
      FilledCancelIncoming(t, rem - q[0].qty, q[1..]);
    }
  }

  /** What is reached ahead of the first own order, when the head is another's and reached. */
  lemma {:induction false} OwnLater(t: Taker, rem: Qty, q: Queue)
    requires rem > 0 && q != [] && Crosses(t, q[0].price) && q[0].participant != t.participant
    ensures Reachable(t, q[..FirstOwn(t, q)]) == q[0].qty + Reachable(t, q[1..][..FirstOwn(t, q[1..])])
    ensures if rem >= q[0].qty then MeetsOwn(t, rem, q) <==> MeetsOwn(t, rem - q[0].qty, q[1..]) else !MeetsOwn(t, rem, q)
  {
    var k := FirstOwn(t, q);
    assert q[..k][1..] == q[1..][..k - 1];
  }

  lemma {:induction false} PrefixUnreachable(t: Taker, q: Queue, k: nat)
    requires Sorted(t.side.Opposite(), q) && q != [] && !Crosses(t, q[0].price) && k <= |q|
    ensures Reachable(t, q[..k]) == 0
    ensures forall i :: 0 <= i < |q| ==> !Crosses(t, q[i].price)
  {
    if k > 0 {
      NothingReachable(t, q[..k]);
    }
    forall i | 0 <= i < |q| ensures !Crosses(t, q[i].price) {
      assert i > 0 ==> !Better(t.side.Opposite(), q[i].price, q[0].price);
    }
  }
}
