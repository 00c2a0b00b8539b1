/** How many updates applying a diff counts. */
module UpdateCounts {
  import opened Types
  import opened PriceTimeBook
  import opened BookInvariants
  import opened Mirrors
  import opened MirrorLevels
  import opened MirrorDiffs
  import opened DiffTheorems
  import opened PhantomTrades

  /** How many of the updates take quantity away from queue `q`. */
  function Reductions(q: Queue, lus: seq<LevelUpdate>): nat
    decreases |lus|
  {
    if lus == [] then 0
    else
      var lu := lus[|lus| - 1];
      Reductions(q, lus[..|lus| - 1]) + if lu.qty < Depth(q, lu.price) then 1 else 0
  }

  /** How many updates are reductions when their turn comes, starting from queue `q`. */
  function Falls(q: Queue, lus: seq<LevelUpdate>): nat
    decreases |lus|
  {
    if lus == [] then 0
    else
      var front, lu := lus[..|lus| - 1], lus[|lus| - 1];
      Falls(q, front) + if lu.qty < Least(Depth(q, lu.price), front, lu.price) then 1 else 0
  }

  /** How many of `lus` are no reductions when their turn comes, after all of `all` were offered as
      reductions. */
  function Rises(q: Queue, all: seq<LevelUpdate>, lus: seq<LevelUpdate>): nat
    decreases |lus|
  {
    if lus == [] then 0
    else
      var front, lu := lus[..|lus| - 1], lus[|lus| - 1];
      Rises(q, all, front)
      + if lu.qty >= Greatest(Least(Depth(q, lu.price), all, lu.price), front, lu.price) then 1 else 0
  }

  lemma {:induction false} LevelCounts(stp: StpPolicy, m: Mirror, s: Side, lu: LevelUpdate)
    ensures ApplyLevel(stp, m, s, lu).applied == m.applied + 1
  {
    hide Step, OpenQty;
  }

  lemma {:induction false} ReducePassCounts(stp: StpPolicy, m: Mirror, s: Side, lus: seq<LevelUpdate>)
    requires InOrder(m)
    ensures Pass(stp, m, s, lus, true).applied == m.applied + Falls(m.book.At(s), lus)
    decreases |lus|
  {
    if lus != [] {
      var front, lu := lus[..|lus| - 1], lus[|lus| - 1];
      ReducePassCounts(stp, m, s, front);
      var m1 := Pass(stp, m, s, front, true);
      ReducePass(stp, m, s, front);
      ReductionIs(m1, s, lu);
      LevelCounts(stp, m1, s, lu);
      hide InOrder, Depth, ApplyLevel, IsReduction, Least;
    }
  }

  // ---- whatever crosses ----

  /** No price of `s` shows more than pass one left of it, raised by the updates `lus`. */
  ghost predicate Capped(m: Mirror, s: Side, q: Queue, all: seq<LevelUpdate>, lus: seq<LevelUpdate>) {
    Loose(m) && forall x {:trigger Depth(m.book.At(s), x)} ::
      Depth(m.book.At(s), x) <= Greatest(Least(Depth(q, x), all, x), lus, x)
  }

  /** An update that asks for no less than the level shows is no reduction, even where the tracked
      order is gone. */
  lemma {:induction false} NoReduction(m: Mirror, s: Side, lu: LevelUpdate)
    requires Loose(m) && Depth(m.book.At(s), lu.price) <= lu.qty
    ensures !IsReduction(m, s, lu)
  {
    if lu.price in m.IdsOf(s) && !Dead(m, s, lu.price) {
      OpenIsDepth(m, s, lu.price);
    }
    hide Loose, Depth;
  }

  lemma {:induction false} StillCapped(m: Mirror, m': Mirror, s: Side, q: Queue, all: seq<LevelUpdate>,
          front: seq<LevelUpdate>, lu: LevelUpdate)
    requires Capped(m, s, q, all, front) && LooseStep(m, m', s, lu)
    ensures Capped(m', s, q, all, front + [lu])
  {
    hide Loose, Depth, Least;
    var lus := front + [lu];
    assert lus[..|front|] == front;
    forall x ensures Depth(m'.book.At(s), x) <= Greatest(Least(Depth(q, x), all, x), lus, x) {
      assert Depth(m.book.At(s), x) <= Greatest(Least(Depth(q, x), all, x), front, x);
    }
  }

  lemma {:induction false} PassedOver(m: Mirror, s: Side, q: Queue, all: seq<LevelUpdate>, front: seq<LevelUpdate>, lu: LevelUpdate)
    requires Capped(m, s, q, all, front)
    ensures Capped(m, s, q, all, front + [lu])
  {
    hide Loose, Depth, Least;
    var lus := front + [lu];
    assert lus[..|front|] == front;
    forall x ensures Depth(m.book.At(s), x) <= Greatest(Least(Depth(q, x), all, x), lus, x) {
      assert Depth(m.book.At(s), x) <= Greatest(Least(Depth(q, x), all, x), front, x);
    }
  }

  /** The raising pass counts at least the rises: matches only ever take quantity away, so what is no
      reduction by the listed quantities is none in the book. */
  lemma {:induction false} CappedPass(stp: StpPolicy, m: Mirror, s: Side, q: Queue, all: seq<LevelUpdate>, lus: seq<LevelUpdate>)
    requires Capped(m, s, q, all, [])
    ensures var m' := Pass(stp, m, s, lus, false);
      && Capped(m', s, q, all, lus)
      && m.applied + Rises(q, all, lus) <= m'.applied <= m.applied + |lus|
    decreases |lus|
  {
    if lus != [] {
      var front, lu := lus[..|lus| - 1], lus[|lus| - 1];
      assert front + [lu] == lus;
      CappedPass(stp, m, s, q, all, front);
      var m1 := Pass(stp, m, s, front, false);
      LevelCounts(stp, m1, s, lu);
      LevelLoose(stp, m1, s, lu);
      StillCapped(m1, ApplyLevel(stp, m1, s, lu), s, q, all, front, lu);
      PassedOver(m1, s, q, all, front, lu);
      if lu.qty >= Depth(m1.book.At(s), lu.price) {
        NoReduction(m1, s, lu);
      }
      hide Loose, LooseStep, Depth, ApplyLevel, IsReduction, Least, Greatest;
    }
  }

  lemma {:induction false} CappedLess(m: Mirror, m': Mirror, s: Side, q: Queue, all: seq<LevelUpdate>)
    requires Capped(m, s, q, all, []) && Loose(m') && NoMore(m.book.At(s), m'.book.At(s))
    ensures Capped(m', s, q, all, [])
  {
    hide Loose, Depth, Least;
    forall x ensures Depth(m'.book.At(s), x) <= Greatest(Least(Depth(q, x), all, x), [], x) {
      assert Depth(m.book.At(s), x) <= Greatest(Least(Depth(q, x), all, x), [], x);
    }
  }

  lemma {:induction false} LoweredCapped(m: Mirror, m2: Mirror, d: Diff, s: Side)
    requires Lowered(m, m2, d)
    ensures Capped(m2, s, m.book.At(s), d.Of(s), [])
  {
    InOrderLoose(m2);
    hide Loose, InOrder, Depth, Least, Quiet;
  }

  /** The count after the two passes of reductions. */
  lemma {:induction false} LoweringCounts(stp: StpPolicy, m: Mirror, d: Diff)
    requires InOrder(m)
    ensures Pass(stp, Pass(stp, m, Bid, d.bids, true), Ask, d.asks, true).applied
         == m.applied + Falls(m.book.bids, d.bids) + Falls(m.book.asks, d.asks)
  {
    var m1 := Pass(stp, m, Bid, d.bids, true);
    ReducePass(stp, m, Bid, d.bids);
    ReducePassCounts(stp, m, Bid, d.bids);
    ReducePassCounts(stp, m1, Ask, d.asks);
    hide Depth, Least, Pass, Quiet, Good, Falls;
    assert m1.book.At(Ask) == m.book.At(Ask);
  }

  /** Each update is counted once if it is a reduction when its turn comes in the first pass, and once
      if it is none when its turn comes in the second. Of a crossing diff the second pass may count
      more, but no update twice. */
  lemma {:induction false} DiffCounts(stp: StpPolicy, m: Mirror, d: Diff)
    requires InOrder(m)
    ensures var falls, m' := Falls(m.book.bids, d.bids) + Falls(m.book.asks, d.asks), ApplyDiff(stp, m, d);
      && m'.applied <= m.applied + falls + |d.bids| + |d.asks|
      && m'.applied >= m.applied + falls + Rises(m.book.bids, d.bids, d.bids) + Rises(m.book.asks, d.asks, d.asks)
  {
    var m2 := Pass(stp, Pass(stp, m, Bid, d.bids, true), Ask, d.asks, true);
    var m3 := Pass(stp, m2, Bid, d.bids, false);
    LoweringCounts(stp, m, d);
    Lowers(stp, m, d);
    hide Lowered, Capped, Depth, Pass, Loose, InOrder, Falls, Rises, NoMore;
    assert d.Of(Bid) == d.bids && d.Of(Ask) == d.asks;
    LoweredCapped(m, m2, d, Bid);
    LoweredCapped(m, m2, d, Ask);
    CappedPass(stp, m2, Bid, m.book.bids, d.bids, d.bids);
    CappedIsLoose(m2, Bid, m.book.bids, d.bids);
    PassLoose(stp, m2, Bid, d.bids, false);
    CappedLess(m2, m3, Ask, m.book.asks, d.asks);
    CappedPass(stp, m3, Ask, m.book.asks, d.asks, d.asks);
  }

  lemma {:induction false} CappedIsLoose(m: Mirror, s: Side, q: Queue, all: seq<LevelUpdate>)
    requires Capped(m, s, q, all, [])
    ensures Loose(m)
  {
    hide Loose;
  }

  // ---- distinct prices ----

  lemma {:induction false} FrontDistinct(lus: seq<LevelUpdate>)
    requires lus != [] && DistinctPrices(lus)
    ensures DistinctPrices(lus[..|lus| - 1]) && !Mentions(lus[..|lus| - 1], lus[|lus| - 1].price)
  {
    assert forall i :: 0 <= i < |lus| - 1 ==> lus[..|lus| - 1][i] == lus[i];
  }

  lemma {:induction false} DistinctFalls(q: Queue, lus: seq<LevelUpdate>)
    requires DistinctPrices(lus)
    ensures Falls(q, lus) == Reductions(q, lus)
    decreases |lus|
  {
    if lus != [] {
      var front, lu := lus[..|lus| - 1], lus[|lus| - 1];
      FrontDistinct(lus);
      DistinctFalls(q, front);
      LeastBounds(Depth(q, lu.price), front, lu.price);
      hide Depth, Least;
    }
  }

  /** No update asks for less than an earlier one of its price. */
  ghost predicate Ascending(lus: seq<LevelUpdate>) {
    forall i, j :: 0 <= i < j < |lus| && lus[i].price == lus[j].price ==> lus[i].qty <= lus[j].qty
  }

  lemma {:induction false} AscendingUnfolds(lus: seq<LevelUpdate>)
    requires lus != []
    ensures var front, lu := lus[..|lus| - 1], lus[|lus| - 1];
      Ascending(lus) <==> Ascending(front) && forall i :: 0 <= i < |front| && front[i].price == lu.price ==> front[i].qty <= lu.qty
  {
    assert forall i :: 0 <= i < |lus| - 1 ==> lus[..|lus| - 1][i] == lus[i];
  }

  /** Every update rises exactly if they are ascending, price by price: just then the two bounds meet. */
  lemma {:induction false} RisesAllIff(q: Queue, all: seq<LevelUpdate>, lus: seq<LevelUpdate>)
    requires forall i :: 0 <= i < |lus| ==> lus[i] in all
    ensures Rises(q, all, lus) <= |lus| && (Rises(q, all, lus) == |lus| <==> Ascending(lus))
    decreases |lus|
  {
    if lus != [] {
      var front, lu := lus[..|lus| - 1], lus[|lus| - 1];
      var least := Least(Depth(q, lu.price), all, lu.price);
      assert forall i :: 0 <= i < |front| ==> front[i] == lus[i];
      RisesAllIff(q, all, front);
      AscendingUnfolds(lus);
      LeastBounds(Depth(q, lu.price), all, lu.price);
      GreatestBounds(least, front, lu.price);
      hide Depth, Least, Greatest, Ascending;
      var k :| 0 <= k < |all| && all[k] == lu;
    }
  }

  /** If no price asks for less than before, whatever crosses, every update is counted once and a
      reduction, when its turn comes, twice. */
  lemma {:induction false} AscendingCounts(stp: StpPolicy, m: Mirror, d: Diff)
    requires InOrder(m) && Ascending(d.bids) && Ascending(d.asks)
    ensures ApplyDiff(stp, m, d).applied
         == m.applied + |d.bids| + |d.asks| + Falls(m.book.bids, d.bids) + Falls(m.book.asks, d.asks)
  {
    DiffCounts(stp, m, d);
    RisesAllIff(m.book.bids, d.bids, d.bids);
    RisesAllIff(m.book.asks, d.asks, d.asks);
    hide ApplyDiff, InOrder;
  }

  /** With distinct prices those are the updates that ask for less than the book shows. */
  lemma {:induction false} DistinctCounts(stp: StpPolicy, m: Mirror, d: Diff)
    requires InOrder(m) && DistinctPrices(d.bids) && DistinctPrices(d.asks)
    ensures ApplyDiff(stp, m, d).applied
         == m.applied + |d.bids| + |d.asks| + Reductions(m.book.bids, d.bids) + Reductions(m.book.asks, d.asks)
  {
    AscendingCounts(stp, m, d);
    DistinctFalls(m.book.bids, d.bids);
    DistinctFalls(m.book.asks, d.asks);
    hide ApplyDiff, InOrder;
  }

  // ---- nothing crosses ----

  lemma {:induction false} RaisePassCounts(stp: StpPolicy, m: Mirror, s: Side, q: Queue, all: seq<LevelUpdate>,
          lus: seq<LevelUpdate>)
    requires InOrder(m) && forall x :: Depth(m.book.At(s), x) == Least(Depth(q, x), all, x)
    requires forall i :: 0 <= i < |lus| && lus[i].qty > 0 ==> Clear(m.book, s, lus[i].price)
    ensures Pass(stp, m, s, lus, false).applied == m.applied + Rises(q, all, lus)
    decreases |lus|
  {
    if lus != [] {
      var front, lu := lus[..|lus| - 1], lus[|lus| - 1];
      assert forall i :: 0 <= i < |front| ==> front[i] == lus[i];
      RaisePassCounts(stp, m, s, q, all, front);
      var m1 := Pass(stp, m, s, front, false);
      RaisePass(stp, m, s, front);
      ReductionIs(m1, s, lu);
      LevelCounts(stp, m1, s, lu);
      hide InOrder, Depth, ApplyLevel, IsReduction, Least, Greatest, Clear;
    }
  }

  lemma {:induction false} LoweredSide(m: Mirror, m2: Mirror, d: Diff, s: Side)
    requires Lowered(m, m2, d)
    ensures forall x :: Depth(m2.book.At(s), x) == Least(Depth(m.book.At(s), x), d.Of(s), x)
  {
  }

  /** When the end state does not cross, the count is exact. */
  lemma {:induction false} UncrossedCounts(stp: StpPolicy, m: Mirror, d: Diff)
    requires InOrder(m) && NoCross(Overridden(m.book, d))
    ensures ApplyDiff(stp, m, d).applied
         == m.applied + Falls(m.book.bids, d.bids) + Falls(m.book.asks, d.asks)
            + Rises(m.book.bids, d.bids, d.bids) + Rises(m.book.asks, d.asks, d.asks)
  {
    var m2 := Pass(stp, Pass(stp, m, Bid, d.bids, true), Ask, d.asks, true);
    var m3 := Pass(stp, m2, Bid, d.bids, false);
    LoweringCounts(stp, m, d);
    Lowers(stp, m, d);
    hide Depth, Least, Greatest, Pass, Quiet, Good, Clear, Overridden, Falls, Rises, NoCross;
    LoweredSide(m, m2, d, Bid);
    LoweredSide(m, m2, d, Ask);
    RaiseReady(m, m2, Bid, d);
    RaisePassCounts(stp, m2, Bid, m.book.bids, d.bids, d.bids);
    RaisePass(stp, m2, Bid, d.bids);
    assert m3.book.At(Ask) == m2.book.At(Ask);
    AskRaiseReady(m, m2, m3, d);
    RaisePassCounts(stp, m3, Ask, m.book.asks, d.asks, d.asks);
  }

  // ---- a count beyond the formula ----

  /** One ask of five. */
  function OneAsk(p: Price): Mirror {
    Mirror(Book([], [Resting(1, MirrorParticipant, p, 5)]), [], map[], map[p := 1], 2, 0)
  }

  lemma {:induction false} OneAskInOrder(p: Price)
    ensures InOrder(OneAsk(p))
  {
    var q := OneAsk(p).book.asks;
    assert q[0].id == 1;
  }

  /** Five units to buy at its price eat it, and die. */
  lemma {:induction false} OneAskEaten(p: Price)
    ensures var m1 := ApplyLevel(Allow, OneAsk(p), Bid, LevelUpdate(p, 5));
      m1.applied == 1 && m1.book == EmptyBook && m1.bidIds == map[p := 2]
  {
    var t := Taker(2, MirrorParticipant, Bid, p, false);
    var q := OneAsk(p).book.asks;
    assert q[1..] == [];
    assert Match(Allow, t, 5, q).queue == [];
  }

  /** Bids of five and three at the price of one ask of five: both are counted by the raising pass, as
      the second meets a level that the match has emptied. By the listed quantities it is a reduction. */
  lemma {:induction false} CrossingCountsMore(p: Price)
    ensures var m, d := OneAsk(p), Diff(1, 1, [LevelUpdate(p, 5), LevelUpdate(p, 3)], []);
      && InOrder(m) && ApplyDiff(Allow, m, d).applied == m.applied + |d.bids|
      && Falls(m.book.bids, d.bids) == 0 && Rises(m.book.bids, d.bids, d.bids) == 1
  {
    var m, a, b := OneAsk(p), LevelUpdate(p, 5), LevelUpdate(p, 3);
    OneAskInOrder(p);
    OneAskEaten(p);
    var m1 := ApplyLevel(Allow, m, Bid, a);
    var m2 := ApplyLevel(Allow, m1, Bid, b);
    LevelCounts(Allow, m1, Bid, b);
    ListedCounts(p, a, b);
    assert !IsReduction(m, Bid, a) && !IsReduction(m, Bid, b) && !IsReduction(m1, Bid, b);
    hide ApplyLevel, IsReduction, Falls, Rises, InOrder, Pass;
    PassPair(m, Bid, a, b, m, m, true);
    PassPair(m, Bid, a, b, m1, m2, false);
    PassNone(m, true);
    PassNone(m2, false);
  }

  lemma {:induction false} ListedCounts(p: Price, a: LevelUpdate, b: LevelUpdate)
    requires a == LevelUpdate(p, 5) && b == LevelUpdate(p, 3)
    ensures Falls([], [a, b]) == 0 && Rises([], [a, b], [a, b]) == 1
  {
    assert [a, b][..1] == [a] && [a][..0] == [];
    assert Least(0, [], p) == 0 && Least(0, [a], p) == 0 && Least(0, [a, b], p) == 0;
    assert Greatest(0, [], p) == 0 && Greatest(0, [a], p) == 5;
    hide Least, Greatest;
    assert Falls([], []) == 0 && Falls([], [a]) == 0;
    assert Rises([], [a, b], []) == 0 && Rises([], [a, b], [a]) == 1;
  }

  lemma {:induction false} PassNone(m: Mirror, reductions: bool)
    ensures Pass(Allow, m, Ask, [], reductions) == m
  {
    hide ApplyLevel, IsReduction;
  }
}
