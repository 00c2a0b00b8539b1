/** A mirror that traded: what still holds of it, which levels it lost, and why the next updates do
    not bring them back. */
module PhantomTrades {
  import opened Types
  import opened PriceTimeBook
  import opened QueueLemmas
  import opened BookInvariants
  import opened Mirrors
  import opened MirrorLevels
  import opened MirrorDiffs
  import opened DiffTheorems

  /** Every resting order is the tracked one of its side and price. */
  ghost predicate Filed(q: Queue, ids: map<Price, OrderId>) {
    forall i :: 0 <= i < |q| ==> q[i].price in ids && ids[q[i].price] == q[i].id
  }

  /** No id is tracked twice, and none that is still to be given out. */
  ghost predicate OwnIds(m: Mirror) {
    && (forall s, p :: p in m.IdsOf(s) ==> m.IdsOf(s)[p] < m.nextId)
    && (forall s, p, s', p' :: p in m.IdsOf(s) && p' in m.IdsOf(s') && m.IdsOf(s)[p] == m.IdsOf(s')[p'] ==> s == s' && p == p')
  }

  /** What is left of order in a mirror whatever happened to it: some tracked orders may be gone. */
  ghost predicate Loose(m: Mirror) {
    Good(m.book) && Filed(m.book.bids, m.bidIds) && Filed(m.book.asks, m.askIds) && OwnIds(m)
  }

  /** Tracked, but no longer resting. */
  ghost predicate Dead(m: Mirror, s: Side, p: Price) {
    p in m.IdsOf(s) && m.book.Locate(m.IdsOf(s)[p]) == None
  }

  /** A mirror is in order just when nothing it tracks is dead. */
  lemma {:induction false} InOrderIff(m: Mirror)
    requires Loose(m)
    ensures InOrder(m) <==> forall s, p :: p in m.IdsOf(s) ==> !Dead(m, s, p)
  {
    if forall s, p :: p in m.IdsOf(s) ==> !Dead(m, s, p) {
      forall s, p | p in m.IdsOf(s) ensures Rests(m.book.At(s), m.IdsOf(s)[p], p) {
        assert !Dead(m, s, p);
        LiveHere(m, s, p);
      }
      BelowNext(m, Bid);
      BelowNext(m, Ask);
      forall p | p in m.bidIds ensures Rests(m.book.bids, m.bidIds[p], p) {
        assert p in m.IdsOf(Bid);
      }
      forall p | p in m.askIds ensures Rests(m.book.asks, m.askIds[p], p) {
        assert p in m.IdsOf(Ask);
      }
    }
    if InOrder(m) {
      forall s, p | p in m.IdsOf(s) ensures !Dead(m, s, p) {
        Tracked(m, s, p);
      }
    }
  }

  lemma {:induction false} BelowNext(m: Mirror, s: Side)
    requires Loose(m)
    ensures Below(m.book.At(s), m.nextId)
  {
    forall i | 0 <= i < |m.book.At(s)| ensures m.book.At(s)[i].id < m.nextId {
      assert m.book.At(s)[i].price in m.IdsOf(s);
    }
  }

  /** A tracked id that rests, rests on its side at its price. */
  lemma {:induction false} LiveHere(m: Mirror, s: Side, p: Price)
    requires Loose(m) && p in m.IdsOf(s) && !Dead(m, s, p)
    ensures var q, id := m.book.At(s), m.IdsOf(s)[p];
      m.book.Locate(id) == Some(s) && Has(q, id) && Lookup(q, id).price == p && Lookup(q, id).id == id && Rests(q, id, p)
  {
    var id := m.IdsOf(s)[p];
    LocateIds(m.book, id);
    var x := m.book.Locate(id).value;
    var q := m.book.At(x);
    var i := IndexOf(q, id);
    assert q[i].price in m.IdsOf(x) && m.IdsOf(x)[q[i].price] == id;
  }

  // ---- a queue under one update ----

  /** No price shows more than before. */
  ghost predicate NoMore(q: Queue, q': Queue) {
    forall y {:trigger Depth(q', y)} :: Depth(q', y) <= Depth(q, y)
  }

  lemma {:induction false} ConsumedNoMore(q: Queue, k: nat, cut: Qty, q': Queue)
    requires Consumed(q, k, cut, q')
    ensures NoMore(q, q')
  {
    forall y ensures Depth(q', y) <= Depth(q, y) {
      assert q == q[..k] + q[k..];
      DepthSplit(q[..k], q[k..], y);
      if cut > 0 {
        var rest, o := q[k + 1..], q[k];
        assert q[k..] == [o] + rest;
        DepthSplit([o], rest, y);
        DepthSplit([o.(qty := o.qty - cut)], rest, y);
        DepthOne(o, y);
        DepthOne(o.(qty := o.qty - cut), y);
      }
    }
  }

  lemma {:induction false} ConsumedFiled(q: Queue, k: nat, cut: Qty, q': Queue, ids: map<Price, OrderId>)
    requires Consumed(q, k, cut, q') && Filed(q, ids)
    ensures Filed(q', ids)
  {
    forall i | 0 <= i < |q'| ensures q'[i].price in ids && ids[q'[i].price] == q'[i].id {
      assert q'[i].price == q[k + i].price && q'[i].id == q[k + i].id;
    }
  }

  /** No order of `q` stands at `p`. */
  ghost predicate Vacant(q: Queue, p: Price) {
    forall i :: 0 <= i < |q| ==> q[i].price != p
  }

  lemma {:induction false} InsertFiled(s: Side, q: Queue, o: Resting, ids: map<Price, OrderId>)
    requires Filed(q, ids) && Vacant(q, o.price)
    ensures Filed(Insert(s, q, o), ids[o.price := o.id])
  {
    var k := InsertPlace(s, q, o);
    hide Insert, Better;
    var q' := Insert(s, q, o);
    forall i | 0 <= i < |q'| ensures q'[i] == if i < k then q[i] else if i == k then o else q[i - 1] {}
  }

  lemma {:induction false} RemoveFiled(q: Queue, id: OrderId, ids: map<Price, OrderId>, p: Price)
    requires Filed(q, ids) && Distinct(q) && Has(q, id) && p in ids && ids[p] == id
    ensures Filed(Remove(q, id), ids) && Vacant(Remove(q, id), p) && NoMore(q, Remove(q, id))
  {
    var i, q' := IndexOf(q, id), Remove(q, id);
    forall j | 0 <= j < |q'| ensures q'[j] == q[if j < i then j else j + 1] && q'[j].price != p {
      var k := if j < i then j else j + 1;
      assert q[k].id != q[i].id;
    }
    forall y ensures Depth(q', y) <= Depth(q, y) {
      RemoveDepth(q, id, y);
    }
  }

  lemma {:induction false} ResizeFiled(q: Queue, id: OrderId, qty: Qty, ids: map<Price, OrderId>)
    requires Filed(q, ids) && Has(q, id) && qty <= Lookup(q, id).qty
    ensures Filed(Resize(q, id, qty), ids) && NoMore(q, Resize(q, id, qty))
  {
    var q' := Resize(q, id, qty);
    forall i | 0 <= i < |q| ensures q'[i].price == q[i].price && q'[i].id == q[i].id {}
    var a, o, b := SplitAt(q, id);
    forall y ensures Depth(q', y) <= Depth(q, y) {
      DepthAround(a, o, b, y);
      DepthAround(a, o.(qty := qty), b, y);
    }
  }

  // ---- a sweep and what it rests ----

  /** The book after taker `t` swept `b` with `qty` units and rested the remainder. */
  function Submitted(stp: StpPolicy, b: Book, t: Taker, qty: Qty): Book {
    var (rem, b1, _) := Sweep(stp, b, t, qty);
    if rem == 0 then b1 else Rest(b1, t, rem)
  }

  /** The taker's price gains at most the remainder; no other price of either side gains anything. */
  lemma {:induction false} SubmittedDepth(stp: StpPolicy, b: Book, t: Taker, qty: Qty)
    ensures var b', rem := Submitted(stp, b, t, qty), Sweep(stp, b, t, qty).0;
      && NoMore(b.At(t.side.Opposite()), b'.At(t.side.Opposite()))
      && rem <= qty
      && forall y {:trigger Depth(b'.At(t.side), y)} ::
           Depth(b'.At(t.side), y) == Depth(b.At(t.side), y) + if y == t.price then rem else 0
  {
    var q := b.At(t.side.Opposite());
    var k, cut := SweepShape(stp, t, qty, q);
    ConsumedNoMore(q, k, cut, Match(stp, t, qty, q).queue);
    var rem := Sweep(stp, b, t, qty).0;
    var o := Resting(t.id, t.participant, t.price, rem);
    hide Match, Insert, Depth, NoMore, Consumed;
    forall y ensures Depth(Insert(t.side, b.At(t.side), o), y) == Depth(b.At(t.side), y) + if y == t.price then rem else 0 {
      InsertDepth(t.side, b.At(t.side), o, y);
    }
  }

  lemma {:induction false} SubmittedFiled(stp: StpPolicy, b: Book, t: Taker, qty: Qty, own: map<Price, OrderId>,
          other: map<Price, OrderId>)
    requires Filed(b.At(t.side), own) && Filed(b.At(t.side.Opposite()), other) && Vacant(b.At(t.side), t.price)
    ensures var b' := Submitted(stp, b, t, qty);
      Filed(b'.At(t.side), own[t.price := t.id]) && Filed(b'.At(t.side.Opposite()), other)
  {
    var q := b.At(t.side.Opposite());
    var k, cut := SweepShape(stp, t, qty, q);
    ConsumedFiled(q, k, cut, Match(stp, t, qty, q).queue, other);
    var o := Resting(t.id, t.participant, t.price, Sweep(stp, b, t, qty).0);
    InsertFiled(t.side, b.At(t.side), o, own);
    hide Match, Insert;
  }

  // ---- every update, every diff ----

  /** Only the updated price of the updated side may show more, and not more than was asked for. */
  ghost predicate OnlyThere(b: Book, b': Book, s: Side, lu: LevelUpdate) {
    && NoMore(b.At(s.Opposite()), b'.At(s.Opposite()))
    && forall y {:trigger Depth(b'.At(s), y)} ::
         Depth(b'.At(s), y) <= if y == lu.price && Depth(b.At(s), y) < lu.qty then lu.qty else Depth(b.At(s), y)
  }

  ghost predicate LooseStep(m: Mirror, m': Mirror, s: Side, lu: LevelUpdate) {
    Loose(m') && OnlyThere(m.book, m'.book, s, lu)
  }

  lemma {:induction false} UnknownNext(m: Mirror)
    requires Loose(m)
    ensures m.book.Locate(m.nextId) == None
  {
    BelowNext(m, Bid);
    BelowNext(m, Ask);
  }

  /** The sides of a loose mirror, one by one. */
  lemma {:induction false} LooseSide(m: Mirror, s: Side)
    requires Loose(m)
    ensures Good(m.book) && Filed(m.book.At(s), m.IdsOf(s)) && Distinct(m.book.At(s)) && OwnIds(m)
  {
  }

  lemma {:induction false} LooseFrom(m: Mirror, s: Side)
    requires Good(m.book) && OwnIds(m)
    requires Filed(m.book.At(s), m.IdsOf(s)) && Filed(m.book.At(s.Opposite()), m.IdsOf(s.Opposite()))
    ensures Loose(m)
  {
  }

  /** An untracked price is vacant and shows nothing; so does a dead one. */
  lemma {:induction false} VacantPrice(m: Mirror, s: Side, p: Price)
    requires Loose(m) && (p !in m.IdsOf(s) || Dead(m, s, p))
    ensures Vacant(m.book.At(s), p) && Depth(m.book.At(s), p) == 0
  {
    var q := m.book.At(s);
    forall i | 0 <= i < |q| ensures q[i].price != p {
      if Dead(m, s, p) {
        LocateIds(m.book, m.IdsOf(s)[p]);
        assert q[i].id in Ids(q);
      }
    }
    DepthNone(q, p);
  }

  lemma {:induction false} OwnIdsMore(m: Mirror, m': Mirror, s: Side, p: Price)
    requires OwnIds(m) && m'.nextId == m.nextId + 1 && m'.IdsOf(s) == m.IdsOf(s)[p := m.nextId]
    requires m'.IdsOf(s.Opposite()) == m.IdsOf(s.Opposite())
    ensures OwnIds(m')
  {
    forall x, y | y in m'.IdsOf(x) ensures if x == s && y == p then m'.IdsOf(x)[y] == m.nextId
      else y in m.IdsOf(x) && m'.IdsOf(x)[y] == m.IdsOf(x)[y]
    {
      assert x == s || x == s.Opposite();
    }
  }

  lemma {:induction false} OwnIdsLess(m: Mirror, m': Mirror, s: Side, p: Price)
    requires OwnIds(m) && m'.nextId == m.nextId && m'.IdsOf(s) == m.IdsOf(s) - {p}
    requires m'.IdsOf(s.Opposite()) == m.IdsOf(s.Opposite())
    ensures OwnIds(m')
  {
    forall x, y | y in m'.IdsOf(x) ensures y in m.IdsOf(x) && m'.IdsOf(x)[y] == m.IdsOf(x)[y] {
      assert x == s || x == s.Opposite();
    }
  }

  /** An addition: the book is the submitted one, whatever it matched. */
  lemma {:induction false} AddLoose(stp: StpPolicy, m: Mirror, s: Side, lu: LevelUpdate)
    requires Loose(m) && lu.price !in m.IdsOf(s) && lu.qty > 0
    ensures var t := Taker(m.nextId, MirrorParticipant, s, lu.price, false);
      ApplyLevel(stp, m, s, lu).book == Submitted(stp, m.book, t, lu.qty)
    ensures LooseStep(m, ApplyLevel(stp, m, s, lu), s, lu)
  {
    var t := Taker(m.nextId, MirrorParticipant, s, lu.price, false);
    var m' := ApplyLevel(stp, m, s, lu);
    UnknownNext(m);
    VacantPrice(m, s, lu.price);
    LooseSide(m, s);
    LooseSide(m, s.Opposite());
    hide Loose, Filed, Good, OwnIds, Vacant, Depth, Sweep, Rest;
    AddStep(stp, m, s, lu);
    StepGood(stp, m.book, AddLimit(t.id, MirrorParticipant, s, lu.price, lu.qty, GTC));
    SubmittedDepth(stp, m.book, t, lu.qty);
    SubmittedFiled(stp, m.book, t, lu.qty, m.IdsOf(s), m.IdsOf(s.Opposite()));
    OwnIdsMore(m, m', s, lu.price);
    LooseFrom(m', s);
  }

  lemma {:induction false} AddStep(stp: StpPolicy, m: Mirror, s: Side, lu: LevelUpdate)
    requires lu.price !in m.IdsOf(s) && lu.qty > 0 && m.book.Locate(m.nextId) == None
    ensures var t, m' := Taker(m.nextId, MirrorParticipant, s, lu.price, false), ApplyLevel(stp, m, s, lu);
      && m'.book == Submitted(stp, m.book, t, lu.qty)
      && m'.book == Step(stp, m.book, AddLimit(t.id, MirrorParticipant, s, lu.price, lu.qty, GTC)).book
      && m'.log == m.log + ([Accepted(t.id, s, lu.price, lu.qty)] + Sweep(stp, m.book, t, lu.qty).2)
      && m'.nextId == m.nextId + 1 && m'.IdsOf(s) == m.IdsOf(s)[lu.price := m.nextId]
      && m'.IdsOf(s.Opposite()) == m.IdsOf(s.Opposite())
  {
    hide Sweep, Rest, Book.Locate;
  }

  /** A removal: the order goes if it rests, and in any case the price is untracked. */
  lemma {:induction false} CancelLoose(stp: StpPolicy, m: Mirror, s: Side, lu: LevelUpdate)
    requires Loose(m) && lu.price in m.IdsOf(s) && lu.qty == 0
    ensures LooseStep(m, ApplyLevel(stp, m, s, lu), s, lu)
  {
    var q, ids, m' := m.book.At(s), m.IdsOf(s), ApplyLevel(stp, m, s, lu);
    var id := ids[lu.price];
    LooseSide(m, s);
    LooseSide(m, s.Opposite());
    if Dead(m, s, lu.price) {
      VacantPrice(m, s, lu.price);
      DeadUpdate(stp, m, s, lu);
      hide *;
      UntrackParts(m, m', s, lu);
    } else {
      StepGood(stp, m.book, Cancel(id));
      LiveHere(m, s, lu.price);
      CancelStep(stp, m, s, lu);
      RemoveFiled(q, id, ids, lu.price);
      assert m'.book.At(s) == Remove(q, id);
      hide *;
      UntrackParts(m, m', s, lu);
    }
  }

  lemma {:induction false} UntrackParts(m: Mirror, m': Mirror, s: Side, lu: LevelUpdate)
    requires Good(m'.book) && OwnIds(m) && m'.nextId == m.nextId && lu.qty == 0
    requires m'.IdsOf(s) == m.IdsOf(s) - {lu.price} && m'.IdsOf(s.Opposite()) == m.IdsOf(s.Opposite())
    requires NoMore(m.book.At(s), m'.book.At(s)) && m'.book.At(s.Opposite()) == m.book.At(s.Opposite())
    requires Filed(m'.book.At(s), m.IdsOf(s)) && Vacant(m'.book.At(s), lu.price)
    requires Filed(m.book.At(s.Opposite()), m.IdsOf(s.Opposite()))
    ensures LooseStep(m, m', s, lu)
  {
    hide Good, Depth;
    OwnIdsLess(m, m', s, lu.price);
    LooseFrom(m', s);
  }

  /** An update of a dead price is rejected, and untracks the price only if it asks for nothing. */
  lemma {:induction false} DeadUpdate(stp: StpPolicy, m: Mirror, s: Side, lu: LevelUpdate)
    requires Dead(m, s, lu.price)
    ensures var m', id := ApplyLevel(stp, m, s, lu), m.IdsOf(s)[lu.price];
      var told := m.(applied := m.applied + 1, log := m.log + [Rejected(id, UnknownOrderId)]);
      m' == if lu.qty > 0 then told else told.WithIds(s, m.IdsOf(s) - {lu.price})
  {
    hide Book.Locate;
  }

  lemma {:induction false} ResizeLoose(stp: StpPolicy, m: Mirror, s: Side, lu: LevelUpdate)
    requires Loose(m) && lu.price in m.IdsOf(s) && !Dead(m, s, lu.price)
    requires 0 < lu.qty < OpenQty(m.book, m.IdsOf(s)[lu.price])
    ensures LooseStep(m, ApplyLevel(stp, m, s, lu), s, lu)
  {
    var q, ids, m' := m.book.At(s), m.IdsOf(s), ApplyLevel(stp, m, s, lu);
    var id := ids[lu.price];
    LiveHere(m, s, lu.price);
    LooseSide(m, s);
    LooseSide(m, s.Opposite());
    StepGood(stp, m.book, Modify(id, lu.price, lu.qty));
    ResizeFiled(q, id, lu.qty, ids);
    hide Loose, Good, OwnIds, Depth, Resize, Book.Locate, Lookup, Has, Rests, Filed, Sweep, CancelOrder;
    LooseFrom(m', s);
  }

  lemma {:induction false} ReplaceStep(stp: StpPolicy, m: Mirror, s: Side, lu: LevelUpdate)
    requires lu.price in m.IdsOf(s) && m.book.Locate(m.IdsOf(s)[lu.price]) == Some(s)
    requires Has(m.book.At(s), m.IdsOf(s)[lu.price]) && lu.qty > OpenQty(m.book, m.IdsOf(s)[lu.price])
    ensures var q, id, m' := m.book.At(s), m.IdsOf(s)[lu.price], ApplyLevel(stp, m, s, lu);
      var t := Taker(id, Lookup(q, id).participant, s, lu.price, false);
      && m'.book == Submitted(stp, m.book.With(s, Remove(q, id)), t, lu.qty)
      && m'.book == Step(stp, m.book, Modify(id, lu.price, lu.qty)).book
      && m'.nextId == m.nextId && m'.bidIds == m.bidIds && m'.askIds == m.askIds
  {
    hide Sweep, Rest, Book.Locate, Remove, Lookup, Has;
  }

  lemma {:induction false} ReplaceLoose(stp: StpPolicy, m: Mirror, s: Side, lu: LevelUpdate)
    requires Loose(m) && lu.price in m.IdsOf(s) && !Dead(m, s, lu.price)
    requires lu.qty > OpenQty(m.book, m.IdsOf(s)[lu.price])
    ensures LooseStep(m, ApplyLevel(stp, m, s, lu), s, lu)
  {
    var q, ids, m' := m.book.At(s), m.IdsOf(s), ApplyLevel(stp, m, s, lu);
    var id := ids[lu.price];
    LiveHere(m, s, lu.price);
    LooseSide(m, s);
    LooseSide(m, s.Opposite());
    ReplaceStep(stp, m, s, lu);
    StepGood(stp, m.book, Modify(id, lu.price, lu.qty));
    RemoveFiled(q, id, ids, lu.price);
    OpenIsDepth(m, s, lu.price);
    var b0 := m.book.With(s, Remove(q, id));
    var t := Taker(id, Lookup(q, id).participant, s, lu.price, false);
    DepthNone(Remove(q, id), lu.price);
    assert b0.At(s) == Remove(q, id) && b0.At(s.Opposite()) == m.book.At(s.Opposite());
    hide *;
    SubmittedDepth(stp, b0, t, lu.qty);
    SubmittedFiled(stp, b0, t, lu.qty, ids, m.IdsOf(s.Opposite()));
    ReplaceParts(m, m', s, lu, b0, t, Sweep(stp, b0, t, lu.qty).0);
  }

  lemma {:induction false} OpenIsDepth(m: Mirror, s: Side, p: Price)
    requires Loose(m) && p in m.IdsOf(s) && !Dead(m, s, p)
    ensures OpenQty(m.book, m.IdsOf(s)[p]) <= Depth(m.book.At(s), p)
  {
    LiveHere(m, s, p);
    var q, id := m.book.At(s), m.IdsOf(s)[p];
    RemoveDepth(q, id, p);
  }

  lemma {:induction false} ReplaceParts(m: Mirror, m': Mirror, s: Side, lu: LevelUpdate, b0: Book, t: Taker, rem: Qty)
    requires Good(m'.book) && OwnIds(m) && m'.nextId == m.nextId && m'.bidIds == m.bidIds && m'.askIds == m.askIds
    requires t.side == s && t.price == lu.price && rem <= lu.qty
    requires lu.price in m.IdsOf(s) && t.id == m.IdsOf(s)[lu.price]
    requires NoMore(m.book.At(s), b0.At(s)) && Depth(b0.At(s), lu.price) == 0
    requires b0.At(s.Opposite()) == m.book.At(s.Opposite()) && NoMore(b0.At(s.Opposite()), m'.book.At(s.Opposite()))
    requires forall y :: Depth(m'.book.At(s), y) == Depth(b0.At(s), y) + if y == lu.price then rem else 0
    requires Filed(m'.book.At(s), m.IdsOf(s)[lu.price := t.id]) && Filed(m'.book.At(s.Opposite()), m.IdsOf(s.Opposite()))
    ensures LooseStep(m, m', s, lu)
  {
    hide Good, Filed, Depth;
    assert m.IdsOf(s)[lu.price := t.id] == m.IdsOf(s) == m'.IdsOf(s);
    LooseFrom(m', s);
  }

  /** Whatever it matches, an update keeps a mirror loose, and no price but its own shows more. */
  lemma {:induction false} LevelLoose(stp: StpPolicy, m: Mirror, s: Side, lu: LevelUpdate)
    requires Loose(m)
    ensures LooseStep(m, ApplyLevel(stp, m, s, lu), s, lu)
  {
    var ids := m.IdsOf(s);
    if lu.price !in ids {
      if lu.qty > 0 {
        AddLoose(stp, m, s, lu);
      } else {
        SameLoose(m, ApplyLevel(stp, m, s, lu), s, lu);
      }
    } else if lu.qty == 0 {
      CancelLoose(stp, m, s, lu);
    } else if Dead(m, s, lu.price) {
      DeadUpdate(stp, m, s, lu);
      SameLoose(m, ApplyLevel(stp, m, s, lu), s, lu);
    } else if lu.qty == OpenQty(m.book, ids[lu.price]) {
      SameLoose(m, ApplyLevel(stp, m, s, lu), s, lu);
    } else if lu.qty < OpenQty(m.book, ids[lu.price]) {
      ResizeLoose(stp, m, s, lu);
    } else {
      ReplaceLoose(stp, m, s, lu);
    }
  }

  lemma {:induction false} SameLoose(m: Mirror, m': Mirror, s: Side, lu: LevelUpdate)
    requires Loose(m) && m'.book == m.book && m'.bidIds == m.bidIds && m'.askIds == m.askIds && m'.nextId == m.nextId
    ensures LooseStep(m, m', s, lu)
  {
    hide Good, Filed, Depth;
    assert forall x :: m'.IdsOf(x) == m.IdsOf(x);
  }

  lemma {:induction false} InOrderLoose(m: Mirror)
    requires InOrder(m)
    ensures Loose(m)
  {
    forall s, p | p in m.IdsOf(s) ensures m.IdsOf(s)[p] < m.nextId && Rests(m.book.At(s), m.IdsOf(s)[p], p) {
      if s == Bid {
        assert p in m.bidIds;
      } else {
        assert p in m.askIds;
      }
    }
    forall s, p, s', p' | p in m.IdsOf(s) && p' in m.IdsOf(s') && m.IdsOf(s)[p] == m.IdsOf(s')[p']
      ensures s == s' && p == p'
    {
      Tracked(m, s, p);
      Tracked(m, s', p');
    }
  }

  // ---- dead levels ----

  /** A dead price shows nothing, and no update but a zero for it changes that. */
  lemma {:induction false} DeadStays(stp: StpPolicy, m: Mirror, s: Side, lu: LevelUpdate, x: Side, y: Price)
    requires Loose(m) && Dead(m, x, y) && (s == x && lu.price == y ==> lu.qty > 0)
    ensures Dead(ApplyLevel(stp, m, s, lu), x, y)
  {
    var m' := ApplyLevel(stp, m, s, lu);
    LevelLoose(stp, m, s, lu);
    VacantPrice(m, x, y);
    KeepsTracking(stp, m, s, lu, x, y);
    if s == x && lu.price == y {
      DeadUpdate(stp, m, s, lu);
    } else {
      assert x == s || x == s.Opposite();
      assert Depth(m'.book.At(x), y) <= Depth(m.book.At(x), y);
      ShowsNone(m', x, y);
    }
  }

  lemma {:induction false} KeepsTracking(stp: StpPolicy, m: Mirror, s: Side, lu: LevelUpdate, x: Side, y: Price)
    requires y in m.IdsOf(x) && (s == x && lu.price == y ==> lu.qty > 0)
    ensures var m' := ApplyLevel(stp, m, s, lu);
      y in m'.IdsOf(x) && m'.IdsOf(x)[y] == m.IdsOf(x)[y]
  {
    hide Step, OpenQty;
  }

  lemma {:induction false} ShowsSome(q: Queue, id: OrderId)
    requires Has(q, id) && Positive(q)
    ensures Depth(q, Lookup(q, id).price) > 0
  {
    DepthAtLeast(q, IndexOf(q, id));
  }

  /** No update of the price asks for nothing. */
  ghost predicate NoZero(lus: seq<LevelUpdate>, y: Price) {
    forall i :: 0 <= i < |lus| && lus[i].price == y ==> lus[i].qty > 0
  }

  lemma {:induction false} PassLoose(stp: StpPolicy, m: Mirror, s: Side, lus: seq<LevelUpdate>, reductions: bool)
    requires Loose(m)
    ensures Loose(Pass(stp, m, s, lus, reductions))
    ensures NoMore(m.book.At(s.Opposite()), Pass(stp, m, s, lus, reductions).book.At(s.Opposite()))
    decreases |lus|
  {
    if lus != [] {
      PassLoose(stp, m, s, lus[..|lus| - 1], reductions);
      LevelLoose(stp, Pass(stp, m, s, lus[..|lus| - 1], reductions), s, lus[|lus| - 1]);
      hide Loose, ApplyLevel, IsReduction, Depth;
    }
  }

  lemma {:induction false} PassDead(stp: StpPolicy, m: Mirror, s: Side, lus: seq<LevelUpdate>, reductions: bool, x: Side, y: Price)
    requires Loose(m) && Dead(m, x, y) && (x == s ==> NoZero(lus, y))
    ensures Dead(Pass(stp, m, s, lus, reductions), x, y)
    decreases |lus|
  {
    if lus != [] {
      var front, lu := lus[..|lus| - 1], lus[|lus| - 1];
      assert forall i :: 0 <= i < |front| ==> front[i] == lus[i];
      PassDead(stp, m, s, front, reductions, x, y);
      PassLoose(stp, m, s, front, reductions);
      DeadStays(stp, Pass(stp, m, s, front, reductions), s, lu, x, y);
      hide Loose, ApplyLevel, IsReduction, Dead, NoMore;
    }
  }

  /** A dead level is missing from the book, and stays so through every diff that has no zero for it. */
  lemma {:induction false} DeadThroughDiff(stp: StpPolicy, m: Mirror, d: Diff, x: Side, y: Price)
    requires Loose(m) && Dead(m, x, y) && NoZero(d.Of(x), y)
    ensures var m' := ApplyDiff(stp, m, d);
      Loose(m') && Dead(m', x, y) && Depth(m'.book.At(x), y) == 0
  {
    hide Loose, Pass, Dead, Depth, NoZero, NoMore;
    var m1 := Pass(stp, m, Bid, d.bids, true);
    var m2 := Pass(stp, m1, Ask, d.asks, true);
    var m3 := Pass(stp, m2, Bid, d.bids, false);
    var m4 := Pass(stp, m3, Ask, d.asks, false);
    assert if x == Bid then d.Of(x) == d.bids else d.Of(x) == d.asks;
    PassDead(stp, m, Bid, d.bids, true, x, y);
    PassLoose(stp, m, Bid, d.bids, true);
    PassDead(stp, m1, Ask, d.asks, true, x, y);
    PassLoose(stp, m1, Ask, d.asks, true);
    PassDead(stp, m2, Bid, d.bids, false, x, y);
    PassLoose(stp, m2, Bid, d.bids, false);
    PassDead(stp, m3, Ask, d.asks, false, x, y);
    PassLoose(stp, m3, Ask, d.asks, false);
    VacantPrice(m4, x, y);
  }

  // ---- what a trade does to a mirror in order ----

  lemma {:induction false} CrossingSweep(t: Taker, qty: Qty, q: Queue)
    requires qty > 0 && q != [] && q[0].qty > 0 && Crosses(t, q[0].price)
    ensures var r := Match(Allow, t, qty, q);
      r.rem < qty && r.events != [] && r.events[0].Traded?
  {
    MatchHead(Allow, t, qty, q);
    var fill := Min(qty, q[0].qty);
    var q' := if fill == q[0].qty then q[1..] else [q[0].(qty := q[0].qty - fill)] + q[1..];
    var k, cut := SweepShape(Allow, t, qty - fill, q');
  }

  lemma {:induction false} CrossedHead(m: Mirror, s: Side, p: Price)
    requires InOrder(m) && !Clear(m.book, s, p)
    ensures var q := m.book.At(s.Opposite());
      q != [] && q[0].qty > 0 && !Better(s, q[0].price, p) && q[0].price in m.IdsOf(s.Opposite())
    ensures p !in m.IdsOf(s)
  {
    var q := m.book.At(s.Opposite());
    var j :| 0 <= j < |q| && !Better(s, q[j].price, p);
    assert j > 0 ==> !Better(s.Opposite(), q[j].price, q[0].price);
    if p in m.IdsOf(s) {
      TrackedIsClear(m, s, p);
    }
  }

  /** An addition that crosses shows less than was asked for, and leaves a dead level: its own if it
      was filled, else the best one it met. */
  lemma {:induction false} CrossSpoils(m: Mirror, s: Side, lu: LevelUpdate) returns (x: Side, y: Price)
    requires InOrder(m) && lu.qty > 0 && !Clear(m.book, s, lu.price)
    ensures var m' := ApplyLevel(Allow, m, s, lu);
      && Loose(m') && Depth(m'.book.At(s), lu.price) < lu.qty && Dead(m', x, y)
    ensures if x == s then y == lu.price else Depth(m.book.At(x), y) > 0
  {
    var q, t := m.book.At(s.Opposite()), Taker(m.nextId, MirrorParticipant, s, lu.price, false);
    var m' := ApplyLevel(Allow, m, s, lu);
    CrossedHead(m, s, lu.price);
    InOrderLoose(m);
    CrossingSweep(t, lu.qty, q);
    AddLoose(Allow, m, s, lu);
    VacantPrice(m, s, lu.price);
    SubmittedDepth(Allow, m.book, t, lu.qty);
    UnknownNext(m);
    AddStep(Allow, m, s, lu);
    var rem := Sweep(Allow, m.book, t, lu.qty).0;
    assert Depth(m'.book.At(s), lu.price) == rem;
    if rem == 0 {
      x, y := s, lu.price;
      ShowsNone(m', s, lu.price);
    } else {
      x, y := s.Opposite(), q[0].price;
      DepthAtLeast(q, 0);
      SweptAway(m, m', s, t, lu.qty);
      ShowsNone(m', x, y);
    }
  }

  /** A tracked price that shows nothing is dead. */
  lemma {:induction false} ShowsNone(m: Mirror, s: Side, p: Price)
    requires Loose(m) && p in m.IdsOf(s) && Depth(m.book.At(s), p) == 0
    ensures Dead(m, s, p)
  {
    if !Dead(m, s, p) {
      LiveHere(m, s, p);
      ShowsSome(m.book.At(s), m.IdsOf(s)[p]);
    }
  }

  /** A sweep with units left over has emptied every price that crosses. */
  lemma {:induction false} SweptAway(m: Mirror, m': Mirror, s: Side, t: Taker, qty: Qty)
    requires Good(m.book) && t.side == s && !t.market && m'.book == Submitted(Allow, m.book, t, qty)
    requires Sweep(Allow, m.book, t, qty).0 > 0
    ensures forall y :: Crosses(t, y) ==> Depth(m'.book.At(s.Opposite()), y) == 0
  {
    SweepGood(Allow, m.book, t, qty);
    var b1 := Sweep(Allow, m.book, t, qty).1;
    assert m'.book.At(s.Opposite()) == b1.At(s.Opposite());
    forall y | Crosses(t, y) ensures Depth(b1.At(s.Opposite()), y) == 0 {
      forall j | 0 <= j < |b1.At(s.Opposite())| ensures b1.At(s.Opposite())[j].price != y {
        assert !Crosses(t, b1.At(s.Opposite())[j].price);
      }
      DepthNone(b1.At(s.Opposite()), y);
    }
  }

  /** With self-trades allowed an update leaves a mirror in order exactly when it trades nothing. */
  lemma {:induction false} LevelInOrderIff(m: Mirror, s: Side, lu: LevelUpdate)
    requires InOrder(m)
    ensures InOrder(ApplyLevel(Allow, m, s, lu)) <==> Quiet(m.log, ApplyLevel(Allow, m, s, lu).log)
  {
    var m' := ApplyLevel(Allow, m, s, lu);
    if IsReduction(m, s, lu) || lu.qty == 0 || Clear(m.book, s, lu.price) {
      LevelExact(Allow, m, s, lu);
    } else {
      var x, y := CrossSpoils(m, s, lu);
      InOrderIff(m');
      CrossTrades(m, s, lu);
    }
  }

  // ---- what a trade does to a diff ----

  /** Some update got less than it asked for. */
  ghost predicate Short(b: Book, s: Side, lus: seq<LevelUpdate>) {
    exists i :: 0 <= i < |lus| && Depth(b.At(s), lus[i].price) < lus[i].qty
  }

  /** Some level is dead, and the diff has no zero for it. */
  ghost predicate Lost(m: Mirror, d: Diff) {
    exists x, y :: Dead(m, x, y) && NoZero(d.Of(x), y)
  }

  /** The levels the other side shows are not asked to go. */
  ghost predicate NoneToGo(b: Book, s: Side, d: Diff) {
    forall y :: Depth(b.At(s), y) > 0 ==> NoZero(d.Of(s), y)
  }

  ghost predicate Spoiled(m: Mirror, s: Side, lus: seq<LevelUpdate>, d: Diff) {
    Loose(m) && Short(m.book, s, lus) && Lost(m, d)
  }

  /** The pass of raises did what it should, level by level and in silence. */
  ghost predicate Raised(m: Mirror, m': Mirror, s: Side, lus: seq<LevelUpdate>) {
    && Settled(m, m', s)
    && forall x {:trigger Depth(m'.book.At(s), x)} :: Depth(m'.book.At(s), x) == Greatest(Depth(m.book.At(s), x), lus, x)
  }

  lemma {:induction false} RaisedOrSpoiled(m: Mirror, s: Side, lus: seq<LevelUpdate>, d: Diff)
    requires InOrder(m) && DistinctPrices(d.Of(s)) && lus <= d.Of(s) && NoneToGo(m.book, s.Opposite(), d)
    ensures var m' := Pass(Allow, m, s, lus, false);
      Raised(m, m', s, lus) || Spoiled(m', s, lus, d)
    decreases |lus|
  {
    if lus == [] {
      hide InOrder, Depth;
    } else {
      var front, lu := lus[..|lus| - 1], lus[|lus| - 1];
      assert front + [lu] == lus && front <= d.Of(s);
      RaisedOrSpoiled(m, s, front, d);
      var m1 := Pass(Allow, m, s, front, false);
      hide Raised, Spoiled, ApplyLevel, IsReduction, InOrder, NoneToGo, Depth;
      if Raised(m, m1, s, front) {
        RaiseLast(m, m1, s, front, lu, d);
      } else if !IsReduction(m1, s, lu) {
        StaysSpoiled(m1, s, front, lu, d);
      } else {
        MoreSpoiled(m1, s, front, lu, d);
      }
    }
  }

  /** A raise that trades leaves its own price short and some id dead. */
  lemma {:induction false} RaiseTrades(m: Mirror, m1: Mirror, s: Side, front: seq<LevelUpdate>, lu: LevelUpdate, d: Diff)
    requires Raised(m, m1, s, front) && NoneToGo(m.book, s.Opposite(), d)
    requires DistinctPrices(d.Of(s)) && front + [lu] <= d.Of(s)
    requires lu.qty > 0 && !Clear(m1.book, s, lu.price)
    ensures Spoiled(ApplyLevel(Allow, m1, s, lu), s, front + [lu], d)
  {
    var x, y := CrossSpoils(m1, s, lu);
    var m' := ApplyLevel(Allow, m1, s, lu);
    hide ApplyLevel, InOrder, Depth, Loose, Dead, Clear;
    assert (front + [lu])[|front|] == lu;
    if x == s {
      OnlyOnce(d.Of(s), |front|);
    } else {
      assert x == s.Opposite();
    }
    assert Dead(m', x, y) && NoZero(d.Of(x), y);
  }

  lemma {:induction false} RaiseLast(m: Mirror, m1: Mirror, s: Side, front: seq<LevelUpdate>, lu: LevelUpdate, d: Diff)
    requires Raised(m, m1, s, front) && NoneToGo(m.book, s.Opposite(), d)
    requires DistinctPrices(d.Of(s)) && front + [lu] <= d.Of(s)
    ensures var m' := if IsReduction(m1, s, lu) then m1 else ApplyLevel(Allow, m1, s, lu);
      Raised(m, m', s, front + [lu]) || Spoiled(m', s, front + [lu], d)
  {
    if lu.qty > 0 && !IsReduction(m1, s, lu) && !Clear(m1.book, s, lu.price) {
      RaiseTrades(m, m1, s, front, lu, d);
    } else {
      hide InOrder, Depth, ApplyLevel;
      RaiseOne(Allow, m, m1, s, front, lu);
    }
  }

  lemma {:induction false} OnlyOnce(lus: seq<LevelUpdate>, i: nat)
    requires DistinctPrices(lus) && i < |lus| && lus[i].qty > 0
    ensures NoZero(lus, lus[i].price)
  {
  }

  lemma {:induction false} MoreSpoiled(m: Mirror, s: Side, front: seq<LevelUpdate>, lu: LevelUpdate, d: Diff)
    requires Spoiled(m, s, front, d)
    ensures Spoiled(m, s, front + [lu], d)
  {
    hide Loose, Lost, Depth;
    var i :| 0 <= i < |front| && Depth(m.book.At(s), front[i].price) < front[i].qty;
    assert (front + [lu])[i] == front[i];
  }

  lemma {:induction false} StaysSpoiled(m: Mirror, s: Side, front: seq<LevelUpdate>, lu: LevelUpdate, d: Diff)
    requires Spoiled(m, s, front, d) && DistinctPrices(d.Of(s)) && front + [lu] <= d.Of(s)
    ensures Spoiled(ApplyLevel(Allow, m, s, lu), s, front + [lu], d)
  {
    var m' := ApplyLevel(Allow, m, s, lu);
    LevelLoose(Allow, m, s, lu);
    var x, y :| Dead(m, x, y) && NoZero(d.Of(x), y);
    var all := front + [lu];
    assert all[|front|] == lu && d.Of(s)[|front|] == lu;
    DeadStays(Allow, m, s, lu, x, y);
    hide Loose, Dead, ApplyLevel, Depth, Good, NoZero;
    var i :| 0 <= i < |front| && Depth(m.book.At(s), front[i].price) < front[i].qty;
    assert all[i] == front[i] && d.Of(s)[i] == front[i];
    assert front[i].price != lu.price;
    assert Depth(m'.book.At(s), all[i].price) < all[i].qty;
  }

  /** The raises of the other side leave it spoiled. */
  lemma {:induction false} PassKeepsSpoiled(m: Mirror, s: Side, lus: seq<LevelUpdate>, d: Diff, mine: seq<LevelUpdate>)
    requires Spoiled(m, s.Opposite(), mine, d) && lus == d.Of(s)
    ensures Spoiled(Pass(Allow, m, s, lus, false), s.Opposite(), mine, d)
  {
    var m' := Pass(Allow, m, s, lus, false);
    var x, y :| Dead(m, x, y) && NoZero(d.Of(x), y);
    PassDead(Allow, m, s, lus, false, x, y);
    PassLoose(Allow, m, s, lus, false);
    hide Loose, Dead, Pass, Depth;
    var i :| 0 <= i < |mine| && Depth(m.book.At(s.Opposite()), mine[i].price) < mine[i].qty;
    assert Depth(m'.book.At(s.Opposite()), mine[i].price) < mine[i].qty;
  }

  /** A diff with distinct prices either is exact, or leaves some update short and some level dead. */
  lemma {:induction false} ExactOrSpoiled(m: Mirror, d: Diff)
    requires InOrder(m) && DistinctPrices(d.bids) && DistinctPrices(d.asks)
    ensures var m' := ApplyDiff(Allow, m, d);
      || (InOrder(m') && Same(Shown(m'.book), Overridden(m.book, d)) && Quiet(m.log, m'.log))
      || Spoiled(m', Bid, d.bids, d) || Spoiled(m', Ask, d.asks, d)
  {
    var m2 := Pass(Allow, Pass(Allow, m, Bid, d.bids, true), Ask, d.asks, true);
    var m3 := Pass(Allow, m2, Bid, d.bids, false);
    var m4 := Pass(Allow, m3, Ask, d.asks, false);
    Lowers(Allow, m, d);
    assert d.Of(Bid) == d.bids && d.Of(Ask) == d.asks;
    LoweredGoes(m, m2, d, Ask);
    hide Depth, Pass, InOrder, Overridden, Spoiled, NoneToGo, Quiet, Greatest, Least;
    RaisedOrSpoiled(m2, Bid, d.bids, d);
    if Spoiled(m3, Bid, d.bids, d) {
      PassKeepsSpoiled(m3, Ask, d.asks, d, d.bids);
    } else {
      RaisedGoes(m, m2, m3, d);
      RaisedOrSpoiled(m3, Ask, d.asks, d);
      if Raised(m3, m4, Ask, d.asks) {
        EndState(m, m2, m3, m4, d);
        QuietTrans(m.log, m2.log, m3.log);
        QuietTrans(m.log, m3.log, m4.log);
      }
    }
  }

  lemma {:induction false} LoweredGoes(m: Mirror, m2: Mirror, d: Diff, s: Side)
    requires Lowered(m, m2, d)
    ensures NoneToGo(m2.book, s, d)
  {
    hide Depth, Least, InOrder, Quiet;
    forall y | Depth(m2.book.At(s), y) > 0 ensures NoZero(d.Of(s), y) {
      LeastBounds(Depth(m.book.At(s), y), d.Of(s), y);
    }
  }

  lemma {:induction false} RaisedGoes(m: Mirror, m2: Mirror, m3: Mirror, d: Diff)
    requires Lowered(m, m2, d) && Raised(m2, m3, Bid, d.bids) && DistinctPrices(d.bids)
    ensures NoneToGo(m3.book, Bid, d)
  {
    LoweredGoes(m, m2, d, Bid);
    hide Depth, Least, Greatest, InOrder, Quiet, Lowered;
    forall y | Depth(m3.book.At(Bid), y) > 0 ensures NoZero(d.Of(Bid), y) {
      GreatestBounds(Depth(m2.book.At(Bid), y), d.bids, y);
      if Depth(m2.book.At(Bid), y) == 0 {
        var i :| 0 <= i < |d.bids| && d.bids[i].price == y && Depth(m3.book.At(Bid), y) == d.bids[i].qty;
        OnlyOnce(d.bids, i);
      }
    }
  }

  /** With distinct prices a diff leaves the mirror in order exactly when its end state is uncrossed. */
  lemma {:induction false} DiffInOrderIff(m: Mirror, d: Diff)
    requires InOrder(m) && DistinctPrices(d.bids) && DistinctPrices(d.asks)
    ensures InOrder(ApplyDiff(Allow, m, d)) <==> NoCross(Overridden(m.book, d))
  {
    ExactOrSpoiled(m, d);
    TradesIffCrossed(m, d);
    hide ApplyDiff, Overridden, Depth;
    var m' := ApplyDiff(Allow, m, d);
    if NoCross(Overridden(m.book, d)) {
      DiffOverrides(Allow, m, d);
    }
    if Spoiled(m', Bid, d.bids, d) || Spoiled(m', Ask, d.asks, d) {
      var x, y :| Dead(m', x, y) && NoZero(d.Of(x), y);
      InOrderIff(m');
    }
  }
}
