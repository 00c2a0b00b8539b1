/** A whole diff, applied one update at a time through matching operations: when it turns the book
    into the old one overridden by the diff, and when it trades. */
module MirrorDiffs {
  import opened Types
  import opened PriceTimeBook
  import opened BookInvariants
  import opened Mirrors
  import opened MirrorLevels

  /** What a book, or a diff of one, shows at each price of each side. */
  type Levels = (Side, Price) -> Qty

  function Shown(b: Book): Levels {
    (s, p) => Depth(b.At(s), p)
  }

  ghost predicate Same(f: Levels, g: Levels) {
    forall s, p :: f(s, p) == g(s, p)
  }

  /** Best bid strictly below best ask. */
  ghost predicate NoCross(f: Levels) {
    forall p, q :: f(Bid, p) > 0 && f(Ask, q) > 0 ==> p < q
  }

  ghost predicate Mentions(lus: seq<LevelUpdate>, p: Price) {
    exists i :: 0 <= i < |lus| && lus[i].price == p
  }

  /** The greatest quantity among `q` and the updates of price `p`. */
  function Greatest(q: Qty, lus: seq<LevelUpdate>, p: Price): Qty
    decreases |lus|
  {
    if lus == [] then q
    else
      var r, lu := Greatest(q, lus[..|lus| - 1], p), lus[|lus| - 1];
      if lu.price == p && lu.qty > r then lu.qty else r
  }

  function Least(q: Qty, lus: seq<LevelUpdate>, p: Price): Qty
    decreases |lus|
  {
    if lus == [] then q
    else
      var r, lu := Least(q, lus[..|lus| - 1], p), lus[|lus| - 1];
      if lu.price == p && lu.qty < r then lu.qty else r
  }

  /** The old book overridden by the diff; of several updates of one price the greatest counts. */
  ghost function Overridden(b: Book, d: Diff): Levels {
    (s, p) => if Mentions(d.Of(s), p) then Greatest(0, d.Of(s), p) else Depth(b.At(s), p)
  }

  // ---- extremes ----

  lemma {:induction false} GreatestBounds(q: Qty, lus: seq<LevelUpdate>, p: Price)
    ensures Greatest(q, lus, p) >= q
    ensures forall i :: 0 <= i < |lus| && lus[i].price == p ==> Greatest(q, lus, p) >= lus[i].qty
    ensures Greatest(q, lus, p) == q || exists i :: 0 <= i < |lus| && lus[i].price == p && Greatest(q, lus, p) == lus[i].qty
    decreases |lus|
  {
    if lus != [] {
      var front := lus[..|lus| - 1];
      GreatestBounds(q, front, p);
      forall i | 0 <= i < |lus| && lus[i].price == p ensures Greatest(q, lus, p) >= lus[i].qty {
        assert i < |front| ==> lus[i] == front[i];
      }
      if Greatest(q, lus, p) != q && Greatest(q, lus, p) == Greatest(q, front, p) {
        var i :| 0 <= i < |front| && front[i].price == p && Greatest(q, front, p) == front[i].qty;
        assert lus[i] == front[i];
      }
    }
  }

  lemma {:induction false} LeastBounds(q: Qty, lus: seq<LevelUpdate>, p: Price)
    ensures Least(q, lus, p) <= q
    ensures forall i :: 0 <= i < |lus| && lus[i].price == p ==> Least(q, lus, p) <= lus[i].qty
    ensures !Mentions(lus, p) ==> Least(q, lus, p) == q
    decreases |lus|
  {
    if lus != [] {
      var front := lus[..|lus| - 1];
      LeastBounds(q, front, p);
      forall i | 0 <= i < |lus| && lus[i].price == p ensures Least(q, lus, p) <= lus[i].qty {
        assert i < |front| ==> lus[i] == front[i];
      }
      if !Mentions(lus, p) {
        assert lus[|lus| - 1].price != p;
        forall i | 0 <= i < |front| ensures front[i].price != p {
          assert front[i] == lus[i];
        }
      }
    }
  }

  /** Lowering to the least and then raising to the greatest is the override. */
  lemma {:induction false} LowerThenRaise(b: Book, d: Diff, s: Side, p: Price)
    ensures Greatest(Least(Depth(b.At(s), p), d.Of(s), p), d.Of(s), p) == Overridden(b, d)(s, p)
    ensures Least(Depth(b.At(s), p), d.Of(s), p) > 0 ==> Overridden(b, d)(s, p) > 0
    ensures forall i :: 0 <= i < |d.Of(s)| && d.Of(s)[i].price == p ==> Overridden(b, d)(s, p) >= d.Of(s)[i].qty
  {
    var q, lus := Depth(b.At(s), p), d.Of(s);
    hide Depth, Greatest, Least;
    LeastBounds(q, lus, p);
    GreatestBounds(Least(q, lus, p), lus, p);
    GreatestBounds(0, lus, p);
  }

  // ---- one pass ----

  /** The pass touched one side, left the mirror in order, and traded nothing. */
  ghost predicate Settled(m: Mirror, m': Mirror, s: Side) {
    InOrder(m') && m'.book.At(s.Opposite()) == m.book.At(s.Opposite()) && Quiet(m.log, m'.log)
  }

  lemma {:induction false} ReductionIs(m: Mirror, s: Side, lu: LevelUpdate)
    requires InOrder(m)
    ensures IsReduction(m, s, lu) <==> lu.qty < Depth(m.book.At(s), lu.price)
  {
    if lu.price in m.IdsOf(s) {
      Tracked(m, s, lu.price);
    } else {
      Untracked(m, s, lu.price);
    }
  }

  /** A pass over two updates. */
  lemma {:induction false} PassPair(m: Mirror, s: Side, a: LevelUpdate, b: LevelUpdate, m1: Mirror, m2: Mirror, reductions: bool)
    requires m1 == if IsReduction(m, s, a) == reductions then ApplyLevel(Allow, m, s, a) else m
    requires m2 == if IsReduction(m1, s, b) == reductions then ApplyLevel(Allow, m1, s, b) else m1
    ensures Pass(Allow, m, s, [a, b], reductions) == m2
  {
    hide ApplyLevel, IsReduction;
    assert [a, b][..1] == [a] && [a][..0] == [];
    assert Pass(Allow, m, s, [], reductions) == m;
    assert Pass(Allow, m, s, [a], reductions) == m1;
  }

  lemma {:induction false} QuietTrans(a: seq<Event>, b: seq<Event>, c: seq<Event>)
    requires Quiet(a, b) && Quiet(b, c)
    ensures Quiet(a, c)
  {
  }

  lemma {:induction false} ReduceOne(stp: StpPolicy, m: Mirror, m1: Mirror, s: Side, front: seq<LevelUpdate>,
          lu: LevelUpdate)
    requires Settled(m, m1, s) && forall x :: Depth(m1.book.At(s), x) == Least(Depth(m.book.At(s), x), front, x)
    ensures var m' := if IsReduction(m1, s, lu) then ApplyLevel(stp, m1, s, lu) else m1;
      && Settled(m, m', s)
      && forall x :: Depth(m'.book.At(s), x) == Least(Depth(m.book.At(s), x), front + [lu], x)
  {
    hide InOrder, Depth, IsReduction, ApplyLevel, Quiet, Least;
    ReductionIs(m1, s, lu);
    if IsReduction(m1, s, lu) {
      LevelExact(stp, m1, s, lu);
      QuietTrans(m.log, m1.log, ApplyLevel(stp, m1, s, lu).log);
    }
    forall x ensures Least(Depth(m.book.At(s), x), front + [lu], x)
      == if lu.price == x && lu.qty < Depth(m1.book.At(s), x) then lu.qty else Depth(m1.book.At(s), x)
    {
      LeastNext(Depth(m.book.At(s), x), front, lu, x);
    }
  }

  lemma {:induction false} LeastNext(q: Qty, front: seq<LevelUpdate>, lu: LevelUpdate, p: Price)
    ensures var r := Least(q, front, p);
      Least(q, front + [lu], p) == if lu.price == p && lu.qty < r then lu.qty else r
  {
    assert (front + [lu])[..|front|] == front;
  }

  lemma {:induction false} ReducePass(stp: StpPolicy, m: Mirror, s: Side, lus: seq<LevelUpdate>)
    requires InOrder(m)
    ensures Settled(m, Pass(stp, m, s, lus, true), s)
    ensures forall x :: Depth(Pass(stp, m, s, lus, true).book.At(s), x) == Least(Depth(m.book.At(s), x), lus, x)
    decreases |lus|
  {
    if lus != [] {
      var front, lu := lus[..|lus| - 1], lus[|lus| - 1];
      assert front + [lu] == lus;
      ReducePass(stp, m, s, front);
      hide InOrder, Depth, IsReduction, ApplyLevel, Quiet, Least;
      ReduceOne(stp, m, Pass(stp, m, s, front, true), s, front, lu);
    } else {
      hide InOrder, Depth;
    }
  }

  lemma {:induction false} RaiseOne(stp: StpPolicy, m: Mirror, m1: Mirror, s: Side, front: seq<LevelUpdate>, lu: LevelUpdate)
    requires Settled(m, m1, s) && forall x :: Depth(m1.book.At(s), x) == Greatest(Depth(m.book.At(s), x), front, x)
    requires lu.qty > 0 && !IsReduction(m1, s, lu) ==> Clear(m1.book, s, lu.price)
    ensures var m' := if IsReduction(m1, s, lu) then m1 else ApplyLevel(stp, m1, s, lu);
      && Settled(m, m', s)
      && forall x :: Depth(m'.book.At(s), x) == Greatest(Depth(m.book.At(s), x), front + [lu], x)
  {
    assert (front + [lu])[..|front|] == front;
    ReductionIs(m1, s, lu);
    hide InOrder, Depth, IsReduction, ApplyLevel, Quiet, Clear;
    if !IsReduction(m1, s, lu) {
      LevelExact(stp, m1, s, lu);
      QuietTrans(m.log, m1.log, ApplyLevel(stp, m1, s, lu).log);
    }
  }

  lemma {:induction false} RaisePass(stp: StpPolicy, m: Mirror, s: Side, lus: seq<LevelUpdate>)
    requires InOrder(m) && forall i :: 0 <= i < |lus| && lus[i].qty > 0 ==> Clear(m.book, s, lus[i].price)
    ensures Settled(m, Pass(stp, m, s, lus, false), s)
    ensures forall x :: Depth(Pass(stp, m, s, lus, false).book.At(s), x) == Greatest(Depth(m.book.At(s), x), lus, x)
    decreases |lus|
  {
    if lus != [] {
      var front, lu := lus[..|lus| - 1], lus[|lus| - 1];
      assert front + [lu] == lus;
      forall i | 0 <= i < |front| && front[i].qty > 0 ensures Clear(m.book, s, front[i].price) {
        assert front[i] == lus[i];
      }
      RaisePass(stp, m, s, front);
      var m1 := Pass(stp, m, s, front, false);
      hide InOrder, Depth, IsReduction, ApplyLevel, Quiet, Greatest;
      assert lu.qty > 0 ==> Clear(m1.book, s, lu.price);
      RaiseOne(stp, m, m1, s, front, lu);
    } else {
      hide InOrder, Depth;
    }
  }

  // ---- trading ----

  lemma {:induction false} LevelLogGrows(stp: StpPolicy, m: Mirror, s: Side, lu: LevelUpdate)
    ensures m.log <= ApplyLevel(stp, m, s, lu).log
  {
    hide Step, OpenQty;
  }

  lemma {:induction false} LogGrows(stp: StpPolicy, m: Mirror, s: Side, lus: seq<LevelUpdate>, reductions: bool)
    ensures m.log <= Pass(stp, m, s, lus, reductions).log
    decreases |lus|
  {
    if lus != [] {
      LogGrows(stp, m, s, lus[..|lus| - 1], reductions);
      LevelLogGrows(stp, Pass(stp, m, s, lus[..|lus| - 1], reductions), s, lus[|lus| - 1]);
      hide ApplyLevel, IsReduction;
    }
  }

  lemma {:induction false} TrackedIsClear(m: Mirror, s: Side, p: Price)
    requires InOrder(m) && p in m.IdsOf(s)
    ensures Clear(m.book, s, p)
  {
    var i :| 0 <= i < |m.book.At(s)| && m.book.At(s)[i].price == p;
  }

  /** An addition at a price that crosses trades, when self-trades are allowed. */
  lemma {:induction false} CrossTrades(m: Mirror, s: Side, lu: LevelUpdate)
    requires InOrder(m) && lu.qty > 0 && !IsReduction(m, s, lu) && !Clear(m.book, s, lu.price)
    ensures !Quiet(m.log, ApplyLevel(Allow, m, s, lu).log)
  {
    hide *;
    var t := Taker(m.nextId, MirrorParticipant, s, lu.price, false);
    if lu.price in m.IdsOf(s) {
      TrackedIsClear(m, s, lu.price);
    }
    UnknownBelow(m);
    HeadCrosses(m, t);
    var ev := Match(Allow, t, lu.qty, m.book.At(s.Opposite())).events;
    FirstTrades(t, lu.qty, m.book.At(s.Opposite()));
    AddLog(m, t, lu);
    TradeHeard(m.log, ApplyLevel(Allow, m, s, lu).log, Accepted(t.id, s, lu.price, lu.qty), ev);
  }

  lemma {:induction false} HeadCrosses(m: Mirror, t: Taker)
    requires InOrder(m) && !t.market && !Clear(m.book, t.side, t.price)
    ensures m.book.At(t.side.Opposite()) != [] && Crosses(t, m.book.At(t.side.Opposite())[0].price)
  {
    var q := m.book.At(t.side.Opposite());
    var j :| 0 <= j < |q| && !Better(t.side, q[j].price, t.price);
    assert j > 0 ==> !Better(t.side.Opposite(), q[j].price, q[0].price);
  }

  lemma {:induction false} FirstTrades(t: Taker, qty: Qty, q: Queue)
    requires qty > 0 && q != [] && Crosses(t, q[0].price)
    ensures var ev := Match(Allow, t, qty, q).events; ev != [] && ev[0].Traded?
  {
    MatchHead(Allow, t, qty, q);
    hide Match;
  }

  lemma {:induction false} AddLog(m: Mirror, t: Taker, lu: LevelUpdate)
    requires t == Taker(m.nextId, MirrorParticipant, t.side, lu.price, false)
    requires lu.price !in m.IdsOf(t.side) && lu.qty > 0 && m.book.Locate(m.nextId) == None
    ensures ApplyLevel(Allow, m, t.side, lu).log
         == m.log + ([Accepted(t.id, t.side, lu.price, lu.qty)] + Match(Allow, t, lu.qty, m.book.At(t.side.Opposite())).events)
  {
    hide Match, Rest, Book.Locate;
  }

  lemma {:induction false} TradeHeard(log: seq<Event>, log': seq<Event>, first: Event, ev: seq<Event>)
    requires log' == log + ([first] + ev) && ev != [] && ev[0].Traded?
    ensures !Quiet(log, log')
  {
    assert log'[|log| + 1] == ev[0];
  }

  /** So a pass that did not trade did what it should. */
  lemma {:induction false} QuietRaisePass(m: Mirror, s: Side, lus: seq<LevelUpdate>)
    requires InOrder(m) && Quiet(m.log, Pass(Allow, m, s, lus, false).log)
    ensures Settled(m, Pass(Allow, m, s, lus, false), s)
    ensures forall x :: Depth(Pass(Allow, m, s, lus, false).book.At(s), x) == Greatest(Depth(m.book.At(s), x), lus, x)
    decreases |lus|
  {
    if lus != [] {
      var front, lu := lus[..|lus| - 1], lus[|lus| - 1];
      assert front + [lu] == lus;
      var m1, m' := Pass(Allow, m, s, front, false), Pass(Allow, m, s, lus, false);
      LogGrows(Allow, m, s, front, false);
      LogGrows(Allow, m1, s, [lu], false);
      assert Pass(Allow, m1, s, [lu][..0], false) == m1;
      assert m1.log <= m'.log;
      QuietRaisePass(m, s, front);
      if lu.qty > 0 && !IsReduction(m1, s, lu) && !Clear(m1.book, s, lu.price) {
        CrossTrades(m1, s, lu);
      }
      hide InOrder, Depth, IsReduction, ApplyLevel, Quiet, Greatest, Clear;
      RaiseOne(Allow, m, m1, s, front, lu);
    } else {
      hide InOrder, Depth;
    }
  }
}
