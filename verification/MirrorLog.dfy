/** In what order a mirror does its work, as the engine's log shows it, and whose its orders are. */
module MirrorLogs {
  import opened Types
  import opened PriceTimeBook
  import opened BookInvariants
  import opened Mirrors
  import opened MirrorLevels
  import opened MirrorDiffs
  import opened DiffTheorems
  import opened PhantomTrades
  import opened MessageLaws
  import Replay

  // ---- whose the orders are ----

  /** All orders are of the mirror's participant. */
  ghost predicate Mine(b: Book) {
    forall s, i :: 0 <= i < |b.At(s)| ==> b.At(s)[i].participant == 0xFEED
  }

  ghost predicate MineQueue(q: Queue) {
    forall i :: 0 <= i < |q| ==> q[i].participant == 0xFEED
  }

  lemma {:induction false} MineSides(b: Book, s: Side)
    ensures Mine(b) <==> MineQueue(b.At(s)) && MineQueue(b.At(s.Opposite()))
  {
    if MineQueue(b.At(s)) && MineQueue(b.At(s.Opposite())) {
      forall x, i | 0 <= i < |b.At(x)| ensures b.At(x)[i].participant == 0xFEED {
        assert x == s || x == s.Opposite();
      }
    }
  }

  lemma {:induction false} MineSwept(stp: StpPolicy, t: Taker, rem: Qty, q: Queue, k: nat, r: Matched)
    requires SweptTo(stp, t, rem, q, k, r) && MineQueue(q)
    ensures MineQueue(r.queue)
  {
    SweptLeaves(stp, t, rem, q, k, r);
    hide SweptTo;
  }

  lemma {:induction false} MineJoined(s: Side, q: Queue, o: Resting, q': Queue)
    requires JoinsLast(s, q, o, q') && MineQueue(q) && o.participant == 0xFEED
    ensures MineQueue(q')
  {
    var k :| 0 <= k <= |q| && q' == q[..k] + [o] + q[k..];
    forall n | 0 <= n < |q'| ensures q'[n] == if n < k then q[n] else if n == k then o else q[n - 1] {}
  }

  lemma {:induction false} MineCut(q: Queue, i: nat, o: Resting)
    requires MineQueue(q) && i < |q| && o.participant == q[i].participant
    ensures MineQueue(q[..i] + q[i + 1..]) && MineQueue(q[i := o])
  {
    var q' := q[..i] + q[i + 1..];
    forall n | 0 <= n < |q'| ensures q'[n] == q[if n < i then n else n + 1] {}
  }

  lemma {:induction false} StepMine(stp: StpPolicy, b: Book, m: Message)
    requires Good(b) && Mine(b) && !m.AddMarket? && (m.AddLimit? ==> m.participant == 0xFEED)
    ensures Mine(Step(stp, b, m).book)
  {
    hide Step, Good, SweptTo, JoinsLast, Mine, MineQueue, Live;
    if m.AddLimit? {
      MineSides(b, m.side);
      MineSides(Step(stp, b, m).book, m.side);
      if m.qty == 0 || Live(b, m.id) {
        AddRefused(stp, b, m);
      } else {
        var k, r := LimitEntered(stp, b, m);
        MineSwept(stp, Taker(m.id, m.participant, m.side, m.price, false), m.qty, b.At(m.side.Opposite()), k, r);
        if r.rem > 0 && m.tif.GTC? {
          MineJoined(m.side, b.At(m.side), Resting(m.id, m.participant, m.price, r.rem), Step(stp, b, m).book.At(m.side));
        }
      }
    } else if !Live(b, m.id) {
      UnknownRefused(stp, b, m);
    } else {
      OldMine(stp, b, m);
    }
  }

  lemma {:induction false} OldMine(stp: StpPolicy, b: Book, m: Message)
    requires Good(b) && Mine(b) && (m.Cancel? || m.Modify?) && Live(b, m.id)
    ensures Mine(Step(stp, b, m).book)
  {
    hide Step, Good, SweptTo, JoinsLast, Mine, MineQueue;
    var s, i :| 0 <= i < |b.At(s)| && b.At(s)[i].id == m.id;
    var q, o := b.At(s), b.At(s)[i];
    MineSides(b, s);
    MineSides(Step(stp, b, m).book, s);
    MineAt(q, i);
    if m.Cancel? || m.qty == 0 {
      MineCut(q, i, o);
      TakenOut(stp, b, m, s, i);
    } else if m.price == o.price && m.qty <= o.qty {
      MineCut(q, i, o.(qty := m.qty));
      ModifiedInPlace(stp, b, m, s, i);
    } else {
      MineCut(q, i, o);
      var k, r := ModifiedAnew(stp, b, m, s, i);
      MineSwept(stp, Taker(m.id, o.participant, s, m.price, false), m.qty, b.At(s.Opposite()), k, r);
      if r.rem > 0 {
        MineJoined(s, q[..i] + q[i + 1..], Resting(m.id, o.participant, m.price, r.rem), Step(stp, b, m).book.At(s));
      }
    }
  }

  lemma {:induction false} MineAt(q: Queue, i: nat)
    requires MineQueue(q) && i < |q|
    ensures q[i].participant == 0xFEED
  {
  }

  lemma {:induction false} LevelMine(stp: StpPolicy, m: Mirror, s: Side, lu: LevelUpdate)
    requires Good(m.book) && Mine(m.book)
    ensures Mine(ApplyLevel(stp, m, s, lu).book) && Good(ApplyLevel(stp, m, s, lu).book)
  {
    LevelGood(stp, m, s, lu);
    hide Good, Step, OpenQty, Mine;
    var ids := m.IdsOf(s);
    StepMine(stp, m.book, AddLimit(m.nextId, MirrorParticipant, s, lu.price, lu.qty, GTC));
    if lu.price in ids {
      StepMine(stp, m.book, Cancel(ids[lu.price]));
      StepMine(stp, m.book, Modify(ids[lu.price], lu.price, lu.qty));
    }
  }

  lemma {:induction false} PassMine(stp: StpPolicy, m: Mirror, s: Side, lus: seq<LevelUpdate>, reductions: bool)
    requires Good(m.book) && Mine(m.book)
    ensures Mine(Pass(stp, m, s, lus, reductions).book) && Good(Pass(stp, m, s, lus, reductions).book)
    decreases |lus|
  {
    if lus != [] {
      PassMine(stp, m, s, lus[..|lus| - 1], reductions);
      LevelMine(stp, Pass(stp, m, s, lus[..|lus| - 1], reductions), s, lus[|lus| - 1]);
      hide Good, Mine, ApplyLevel, IsReduction;
    }
  }

  lemma {:induction false} LevelsMine(stp: StpPolicy, m: Mirror, s: Side, lus: seq<LevelUpdate>)
    requires Good(m.book) && Mine(m.book)
    ensures Mine(ApplyLevels(stp, m, s, lus).book) && Good(ApplyLevels(stp, m, s, lus).book)
    decreases |lus|
  {
    if lus != [] {
      LevelsMine(stp, m, s, lus[..|lus| - 1]);
      LevelMine(stp, ApplyLevels(stp, m, s, lus[..|lus| - 1]), s, lus[|lus| - 1]);
      hide Good, Mine, ApplyLevel;
    }
  }

  /** After a snapshot and any stream of diffs every order of the mirrored book is of participant 0xFEED. */
  lemma {:induction false} FollowMine(snap: Snapshot, ds: seq<Diff>)
    ensures var b := Replay.Follow(Replay.Seed(snap), ds).mirror.book; Mine(b) && Good(b)
    decreases |ds|
  {
    hide Good, Mine, Pass, ApplyLevels;
    if ds == [] {
      EmptyMine();
      var m := ApplyLevels(Allow, EmptyMirror(1), Bid, snap.bids);
      LevelsMine(Allow, EmptyMirror(1), Bid, snap.bids);
      LevelsMine(Allow, m, Ask, snap.asks);
    } else {
      var m, d := Replay.Follow(Replay.Seed(snap), ds[..|ds| - 1]).mirror, ds[|ds| - 1];
      FollowMine(snap, ds[..|ds| - 1]);
      hide Replay.Seed;
      var m1 := Pass(Allow, m, Bid, d.bids, true);
      var m2 := Pass(Allow, m1, Ask, d.asks, true);
      PassMine(Allow, m, Bid, d.bids, true);
      PassMine(Allow, m1, Ask, d.asks, true);
      PassMine(Allow, m2, Bid, d.bids, false);
      PassMine(Allow, Pass(Allow, m2, Bid, d.bids, false), Ask, d.asks, false);
    }
  }

  lemma {:induction false} EmptyMine()
    ensures Good(EmptyBook) && Mine(EmptyBook)
  {
    EmptyGood();
  }

  // ---- in what order ----

  /** What is accepted is of side `s`, and what trades is traded by a taker of it. */
  ghost predicate From(s: Side, ev: seq<Event>) {
    forall e :: e in ev ==> (e.Accepted? ==> e.side == s) && (e.Traded? ==> e.takerSide == s)
  }

  /** Nothing but removals, of orders tracked in `ids`. */
  ghost predicate Removals(ids: map<Price, OrderId>, ev: seq<Event>) {
    forall e :: e in ev ==> e.Cancelled? && e.reason == User && e.id in ids.Values
  }

  lemma {:induction false} AddFrom(stp: StpPolicy, b: Book, m: Message) returns (ev: seq<Event>)
    requires Good(b) && m.AddLimit?
    ensures ev == Step(stp, b, m).events && From(m.side, ev)
  {
    ev := Step(stp, b, m).events;
    hide Step, Good, Live;
    if m.qty == 0 || Live(b, m.id) {
      AddRefused(stp, b, m);
    } else {
      var k, r := LimitEntered(stp, b, m);
      SweptFrom(stp, Taker(m.id, m.participant, m.side, m.price, false), m.qty, b.At(m.side.Opposite()), k, r);
      hide SweptTo, JoinsLast;
    }
  }

  lemma {:induction false} SweptFrom(stp: StpPolicy, t: Taker, rem: Qty, q: Queue, k: nat, r: Matched)
    requires SweptTo(stp, t, rem, q, k, r)
    ensures From(t.side, r.events)
  {
    SweptEvents(stp, t, rem, q, k, r);
    forall e | e in r.events && e.Traded? ensures e.takerSide == t.side {
      var i := TradedWith(stp, t, rem, q, k, r, e);
    }
    hide SweptTo, Prevented;
  }

  /** A cancel or a modify of an order that stands on side `s`. */
  lemma {:induction false} OldFrom(stp: StpPolicy, b: Book, m: Message, s: Side, i: nat)
    requires Good(b) && (m.Cancel? || m.Modify?) && i < |b.At(s)| && b.At(s)[i].id == m.id
    ensures From(s, Step(stp, b, m).events)
    ensures m.Cancel? || m.qty == 0 ==> Step(stp, b, m).events == [Cancelled(m.id, User)]
    ensures m.Modify? && m.price == b.At(s)[i].price && 0 < m.qty <= b.At(s)[i].qty ==> Step(stp, b, m).events == []
  {
    hide Step, Good;
    if m.Cancel? || m.qty == 0 {
      TakenOut(stp, b, m, s, i);
    } else if m.price == b.At(s)[i].price && m.qty <= b.At(s)[i].qty {
      ModifiedInPlace(stp, b, m, s, i);
    } else {
      var k, r := ModifiedAnew(stp, b, m, s, i);
      SweptFrom(stp, Taker(m.id, b.At(s)[i].participant, s, m.price, false), m.qty, b.At(s.Opposite()), k, r);
      hide SweptTo, JoinsLast;
    }
  }

  /** Where the tracked order of a price stands, if it does. */
  lemma {:induction false} TrackedAt(m: Mirror, s: Side, p: Price) returns (i: nat)
    requires Loose(m) && p in m.IdsOf(s) && Live(m.book, m.IdsOf(s)[p])
    ensures i < |m.book.At(s)| && m.book.At(s)[i].id == m.IdsOf(s)[p] && m.book.At(s)[i].price == p
    ensures OpenQty(m.book, m.IdsOf(s)[p]) == m.book.At(s)[i].qty
  {
    LiveIs(m.book, m.IdsOf(s)[p]);
    LiveHere(m, s, p);
    i :| 0 <= i < |m.book.At(s)| && m.book.At(s)[i].id == m.IdsOf(s)[p] && m.book.At(s)[i].price == p;
    hide Filed, OwnIds;
    StandsAt(m.book, s, i);
  }

  /** One level update: the events it adds, and the ids it still tracks. */
  lemma {:induction false} LevelFrom(stp: StpPolicy, m: Mirror, s: Side, lu: LevelUpdate) returns (ev: seq<Event>)
    requires Loose(m)
    ensures var m' := ApplyLevel(stp, m, s, lu);
      && m'.log == m.log + ev && From(s, ev) && m'.IdsOf(s.Opposite()) == m.IdsOf(s.Opposite())
      && (IsReduction(m, s, lu) ==> Removals(m.IdsOf(s), ev) && m'.IdsOf(s).Values <= m.IdsOf(s).Values)
  {
    var ids := m.IdsOf(s);
    hide Step, Loose, Live, OpenQty;
    LooseSide(m, s);
    if lu.price !in ids {
      if lu.qty == 0 {
        ev := [];
      } else {
        ev := AddFrom(stp, m.book, AddLimit(m.nextId, MirrorParticipant, s, lu.price, lu.qty, GTC));
      }
    } else if lu.qty == 0 {
      ev := Step(stp, m.book, Cancel(ids[lu.price])).events;
      RemovalFrom(stp, m, s, lu);
    } else if lu.qty == OpenQty(m.book, ids[lu.price]) {
      ev := [];
    } else {
      ev := Step(stp, m.book, Modify(ids[lu.price], lu.price, lu.qty)).events;
      ModifyFrom(stp, m, s, lu);
    }
  }

  lemma {:induction false} RemovalFrom(stp: StpPolicy, m: Mirror, s: Side, lu: LevelUpdate)
    requires Loose(m) && lu.price in m.IdsOf(s) && lu.qty == 0
    ensures var ev := Step(stp, m.book, Cancel(m.IdsOf(s)[lu.price])).events;
      From(s, ev) && (IsReduction(m, s, lu) ==> Removals(m.IdsOf(s), ev))
  {
    hide *;
    var id := m.IdsOf(s)[lu.price];
    LooseSide(m, s);
    if Live(m.book, id) {
      var i := TrackedAt(m, s, lu.price);
      OldFrom(stp, m.book, Cancel(id), s, i);
      OneRemoval(m.IdsOf(s), lu.price);
    } else {
      UnknownRefused(stp, m.book, Cancel(id));
      DeadFrom(m, s, lu);
    }
  }

  lemma {:induction false} OneRemoval(ids: map<Price, OrderId>, p: Price)
    requires p in ids
    ensures Removals(ids, [Cancelled(ids[p], User)]) && Removals(ids, [])
  {
  }

  /** A tracked order that is gone is refused, and no reduction. */
  lemma {:induction false} DeadFrom(m: Mirror, s: Side, lu: LevelUpdate)
    requires lu.price in m.IdsOf(s) && !Live(m.book, m.IdsOf(s)[lu.price])
    ensures From(s, [Rejected(m.IdsOf(s)[lu.price], UnknownOrderId)]) && !IsReduction(m, s, lu)
  {
    LiveIs(m.book, m.IdsOf(s)[lu.price]);
    hide Live, Book.Locate;
  }

  lemma {:induction false} ModifyFrom(stp: StpPolicy, m: Mirror, s: Side, lu: LevelUpdate)
    requires Loose(m) && lu.price in m.IdsOf(s) && lu.qty > 0
    ensures var ev := Step(stp, m.book, Modify(m.IdsOf(s)[lu.price], lu.price, lu.qty)).events;
      From(s, ev) && (IsReduction(m, s, lu) ==> Removals(m.IdsOf(s), ev))
  {
    hide *;
    var id := m.IdsOf(s)[lu.price];
    LooseSide(m, s);
    if Live(m.book, id) {
      var i := TrackedAt(m, s, lu.price);
      OldFrom(stp, m.book, Modify(id, lu.price, lu.qty), s, i);
      OneRemoval(m.IdsOf(s), lu.price);
      ReductionBelow(m, s, lu);
    } else {
      UnknownRefused(stp, m.book, Modify(id, lu.price, lu.qty));
      DeadFrom(m, s, lu);
    }
  }

  lemma {:induction false} ReductionBelow(m: Mirror, s: Side, lu: LevelUpdate)
    requires lu.price in m.IdsOf(s)
    ensures IsReduction(m, s, lu) <==> lu.qty < OpenQty(m.book, m.IdsOf(s)[lu.price])
  {
  }

  lemma {:induction false} PassFrom(stp: StpPolicy, m: Mirror, s: Side, lus: seq<LevelUpdate>, reductions: bool) returns (ev: seq<Event>)
    requires Loose(m)
    ensures var m' := Pass(stp, m, s, lus, reductions);
      && Loose(m') && m'.log == m.log + ev && From(s, ev) && m'.IdsOf(s.Opposite()) == m.IdsOf(s.Opposite())
      && (reductions ==> Removals(m.IdsOf(s), ev) && m'.IdsOf(s).Values <= m.IdsOf(s).Values)
    decreases |lus|
  {
    hide Loose, ApplyLevel, IsReduction;
    if lus == [] {
      ev := [];
    } else {
      var front, lu := lus[..|lus| - 1], lus[|lus| - 1];
      var m1 := Pass(stp, m, s, front, reductions);
      ev := PassFrom(stp, m, s, front, reductions);
      if IsReduction(m1, s, lu) == reductions {
        LevelLoose(stp, m1, s, lu);
        var more := LevelFrom(stp, m1, s, lu);
        FromMore(s, m.IdsOf(s), m1.IdsOf(s), ev, more, reductions);
        assert m.log + ev + more == m.log + (ev + more);
        ev := ev + more;
      }
      hide OnlyThere;
    }
  }

  lemma {:induction false} FromMore(s: Side, ids: map<Price, OrderId>, ids': map<Price, OrderId>, ev: seq<Event>, more: seq<Event>, reductions: bool)
    requires From(s, ev) && From(s, more)
    requires reductions ==> Removals(ids, ev) && Removals(ids', more) && ids'.Values <= ids.Values
    ensures From(s, ev + more) && (reductions ==> Removals(ids, ev + more))
  {
  }

  /** A diff does its work in four parts, in this order: removals of tracked bids, removals of tracked
      asks, then what is accepted and traded for the bids, then for the asks. */
  lemma {:induction false} DiffInOrder(stp: StpPolicy, m: Mirror, d: Diff) returns (a: seq<Event>, b: seq<Event>, c: seq<Event>, e: seq<Event>)
    requires Loose(m)
    ensures ApplyDiff(stp, m, d).log == m.log + a + b + c + e
    ensures Removals(m.bidIds, a) && Removals(m.askIds, b) && From(Bid, c) && From(Ask, e)
  {
    hide Loose, Pass, From, Removals;
    var m1 := Pass(stp, m, Bid, d.bids, true);
    var m2 := Pass(stp, m1, Ask, d.asks, true);
    var m3 := Pass(stp, m2, Bid, d.bids, false);
    a := PassFrom(stp, m, Bid, d.bids, true);
    b := PassFrom(stp, m1, Ask, d.asks, true);
    c := PassFrom(stp, m2, Bid, d.bids, false);
    e := PassFrom(stp, m3, Ask, d.asks, false);
    assert m1.IdsOf(Bid.Opposite()) == m1.askIds == m.askIds;
  }

  lemma {:induction false} LevelsFrom(stp: StpPolicy, m: Mirror, s: Side, lus: seq<LevelUpdate>) returns (ev: seq<Event>)
    requires Loose(m)
    ensures var m' := ApplyLevels(stp, m, s, lus);
      Loose(m') && m'.log == m.log + ev && From(s, ev)
    decreases |lus|
  {
    hide Loose, ApplyLevel, IsReduction;
    if lus == [] {
      ev := [];
    } else {
      var front, lu := lus[..|lus| - 1], lus[|lus| - 1];
      var m1 := ApplyLevels(stp, m, s, front);
      ev := LevelsFrom(stp, m, s, front);
      LevelLoose(stp, m1, s, lu);
      var more := LevelFrom(stp, m1, s, lu);
      FromMore(s, map[], map[], ev, more, false);
      assert m.log + ev + more == m.log + (ev + more);
      ev := ev + more;
      hide OnlyThere;
    }
  }

  /** A snapshot enters its bids and then its asks. */
  lemma {:induction false} SnapshotInOrder(stp: StpPolicy, m: Mirror, snap: Snapshot) returns (a: seq<Event>, b: seq<Event>)
    requires Loose(m)
    ensures ApplySnapshot(stp, m, snap).log == m.log + a + b && From(Bid, a) && From(Ask, b)
  {
    hide Loose, ApplyLevels, From;
    a := LevelsFrom(stp, m, Bid, snap.bids);
    b := LevelsFrom(stp, ApplyLevels(stp, m, Bid, snap.bids), Ask, snap.asks);
  }
}
