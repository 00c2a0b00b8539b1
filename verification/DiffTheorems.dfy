/** What applying a diff comes to. */
module DiffTheorems {
  import opened Types
  import opened PriceTimeBook
  import opened BookInvariants
  import opened Mirrors
  import opened MirrorLevels
  import opened MirrorDiffs

  lemma {:induction false} DepthAtLeast(q: Queue, i: nat)
    requires i < |q|
    ensures Depth(q, q[i].price) >= q[i].qty
  {
    if i > 0 {
      DepthAtLeast(q[1..], i - 1);
    }
  }

  lemma {:induction false} DepthHere(q: Queue, p: Price) returns (i: nat)
    requires Depth(q, p) > 0
    ensures i < |q| && q[i].price == p
  {
    i := 0;
    if q[0].price != p {
      i := DepthHere(q[1..], p);
      i := i + 1;
    }
  }

  lemma {:induction false} GoodShown(b: Book)
    requires Good(b)
    ensures NoCross(Shown(b))
  {
    forall p, q | Shown(b)(Bid, p) > 0 && Shown(b)(Ask, q) > 0 ensures p < q {
      var i := DepthHere(b.bids, p);
      var j := DepthHere(b.asks, q);
    }
  }

  lemma {:induction false} ClearIf(b: Book, s: Side, p: Price)
    requires Good(b) && forall y :: Depth(b.At(s.Opposite()), y) > 0 ==> Better(s, y, p)
    ensures Clear(b, s, p)
  {
    var q := b.At(s.Opposite());
    forall j | 0 <= j < |q| ensures Better(s, q[j].price, p) {
      DepthAtLeast(q, j);
    }
  }

  // ---- the two passes of reductions ----

  /** After the reductions every price shows the least it was told, or what it had. */
  ghost predicate Lowered(m: Mirror, m2: Mirror, d: Diff) {
    && InOrder(m2) && Quiet(m.log, m2.log)
    && forall s, x {:trigger Depth(m2.book.At(s), x)} :: Depth(m2.book.At(s), x) == Least(Depth(m.book.At(s), x), d.Of(s), x)
  }

  lemma {:induction false} Lowers(stp: StpPolicy, m: Mirror, d: Diff)
    requires InOrder(m)
    ensures Lowered(m, Pass(stp, Pass(stp, m, Bid, d.bids, true), Ask, d.asks, true), d)
  {
    var m1 := Pass(stp, m, Bid, d.bids, true);
    var m2 := Pass(stp, m1, Ask, d.asks, true);
    ReducePass(stp, m, Bid, d.bids);
    ReducePass(stp, m1, Ask, d.asks);
    QuietTrans(m.log, m1.log, m2.log);
    hide InOrder, Depth, Least, Pass, Quiet;
    assert m1.book.At(Ask) == m.book.At(Ask) && m2.book.At(Bid) == m1.book.At(Bid);
    forall s, x ensures Depth(m2.book.At(s), x) == Least(Depth(m.book.At(s), x), d.Of(s), x) {
      if s == Bid {
        assert Depth(m1.book.At(Bid), x) == Least(Depth(m.book.At(Bid), x), d.bids, x);
      } else {
        assert Depth(m2.book.At(Ask), x) == Least(Depth(m1.book.At(Ask), x), d.asks, x);
      }
    }
  }

  // ---- what a diff does ----

  /** The raises of `s` meet nothing: the other side shows only levels of the uncrossed end state. */
  lemma {:induction false} RaisesClear(m: Mirror, m2: Mirror, s: Side, d: Diff)
    requires NoCross(Overridden(m.book, d)) && Good(m2.book)
    requires forall y :: Depth(m2.book.At(s.Opposite()), y) > 0 ==> Overridden(m.book, d)(s.Opposite(), y) > 0
    ensures forall i :: 0 <= i < |d.Of(s)| && d.Of(s)[i].qty > 0 ==> Clear(m2.book, s, d.Of(s)[i].price)
  {
    forall i | 0 <= i < |d.Of(s)| && d.Of(s)[i].qty > 0 ensures Clear(m2.book, s, d.Of(s)[i].price) {
      var p := d.Of(s)[i].price;
      LowerThenRaise(m.book, d, s, p);
      hide Good, Depth, Overridden, Clear;
      assert Overridden(m.book, d)(s, p) > 0;
      forall y | Depth(m2.book.At(s.Opposite()), y) > 0 ensures Better(s, y, p) {}
      ClearIf(m2.book, s, p);
    }
  }

  /** Lowered and then raised, one side after the other, the book shows the override. */
  lemma {:induction false} EndState(m: Mirror, m2: Mirror, m3: Mirror, m4: Mirror, d: Diff)
    requires Lowered(m, m2, d)
    requires m3.book.At(Ask) == m2.book.At(Ask) && m4.book.At(Bid) == m3.book.At(Bid)
    requires forall y :: Depth(m3.book.At(Bid), y) == Greatest(Depth(m2.book.At(Bid), y), d.bids, y)
    requires forall y :: Depth(m4.book.At(Ask), y) == Greatest(Depth(m3.book.At(Ask), y), d.asks, y)
    ensures Same(Shown(m4.book), Overridden(m.book, d))
  {
    hide Depth, Least, Greatest, InOrder, Overridden, Quiet;
    forall s, y ensures Shown(m4.book)(s, y) == Overridden(m.book, d)(s, y) {
      LowerThenRaise(m.book, d, s, y);
      assert s == Bid ==> Depth(m3.book.At(Bid), y) == Greatest(Depth(m2.book.At(Bid), y), d.bids, y);
    }
  }

  /** After the reductions nothing in the diff is below the book, and no raise crosses. */
  lemma {:induction false} RaiseReady(m: Mirror, m2: Mirror, s: Side, d: Diff)
    requires Lowered(m, m2, d) && NoCross(Overridden(m.book, d))
    ensures forall i :: 0 <= i < |d.Of(s)| ==> d.Of(s)[i].qty >= Depth(m2.book.At(s), d.Of(s)[i].price)
    ensures forall i :: 0 <= i < |d.Of(s)| && d.Of(s)[i].qty > 0 ==> Clear(m2.book, s, d.Of(s)[i].price)
  {
    hide Depth, Least, Greatest, Good, Clear, Overridden, NoCross;
    forall i | 0 <= i < |d.Of(s)| ensures d.Of(s)[i].qty >= Depth(m2.book.At(s), d.Of(s)[i].price) {
      LeastBounds(Depth(m.book.At(s), d.Of(s)[i].price), d.Of(s), d.Of(s)[i].price);
    }
    forall y | Depth(m2.book.At(s.Opposite()), y) > 0 ensures Overridden(m.book, d)(s.Opposite(), y) > 0 {
      LowerThenRaise(m.book, d, s.Opposite(), y);
    }
    RaisesClear(m, m2, s, d);
  }

  lemma {:induction false} AskRaiseReady(m: Mirror, m2: Mirror, m3: Mirror, d: Diff)
    requires Lowered(m, m2, d) && NoCross(Overridden(m.book, d))
    requires InOrder(m3) && m3.book.At(Ask) == m2.book.At(Ask)
    requires forall y :: Depth(m3.book.At(Bid), y) == Greatest(Depth(m2.book.At(Bid), y), d.bids, y)
    ensures forall i :: 0 <= i < |d.asks| ==> d.asks[i].qty >= Depth(m3.book.At(Ask), d.asks[i].price)
    ensures forall i :: 0 <= i < |d.asks| && d.asks[i].qty > 0 ==> Clear(m3.book, Ask, d.asks[i].price)
  {
    hide Depth, Least, Greatest, Good, Clear, Overridden, NoCross;
    RaiseReady(m, m2, Ask, d);
    forall y | Depth(m3.book.At(Bid), y) > 0 ensures Overridden(m.book, d)(Bid, y) > 0 {
      LowerThenRaise(m.book, d, Bid, y);
    }
    RaisesClear(m, m3, Ask, d);
  }

  /** Any diff whose end state is uncrossed, duplicates included, for any policy: the book becomes
      the override, level by level, and nothing trades. */
  lemma {:induction false} DiffOverrides(stp: StpPolicy, m: Mirror, d: Diff)
    requires InOrder(m) && NoCross(Overridden(m.book, d))
    ensures var m' := ApplyDiff(stp, m, d);
      InOrder(m') && Same(Shown(m'.book), Overridden(m.book, d)) && Quiet(m.log, m'.log)
  {
    var m2 := Pass(stp, Pass(stp, m, Bid, d.bids, true), Ask, d.asks, true);
    var m3 := Pass(stp, m2, Bid, d.bids, false);
    var m4 := Pass(stp, m3, Ask, d.asks, false);
    Lowers(stp, m, d);
    hide Depth, Least, Greatest, Pass, Quiet, Good, Clear, Overridden;
    assert d.Of(Bid) == d.bids;
    RaiseReady(m, m2, Bid, d);
    RaisePass(stp, m2, Bid, d.bids);
    AskRaiseReady(m, m2, m3, d);
    RaisePass(stp, m3, Ask, d.asks);
    EndState(m, m2, m3, m4, d);
    hide InOrder, NoCross, Shown;
    QuietTrans(m.log, m2.log, m3.log);
    QuietTrans(m.log, m3.log, m4.log);
  }

  lemma {:induction false} LevelGood(stp: StpPolicy, m: Mirror, s: Side, lu: LevelUpdate)
    requires Good(m.book)
    ensures Good(ApplyLevel(stp, m, s, lu).book)
  {
    hide Good, Step, OpenQty;
    var ids := m.IdsOf(s);
    StepGood(stp, m.book, AddLimit(m.nextId, MirrorParticipant, s, lu.price, lu.qty, GTC));
    if lu.price in ids {
      StepGood(stp, m.book, Cancel(ids[lu.price]));
      StepGood(stp, m.book, Modify(ids[lu.price], lu.price, lu.qty));
    }
  }

  lemma {:induction false} PassGood(stp: StpPolicy, m: Mirror, s: Side, lus: seq<LevelUpdate>, reductions: bool)
    requires Good(m.book)
    ensures Good(Pass(stp, m, s, lus, reductions).book)
    decreases |lus|
  {
    if lus != [] {
      PassGood(stp, m, s, lus[..|lus| - 1], reductions);
      LevelGood(stp, Pass(stp, m, s, lus[..|lus| - 1], reductions), s, lus[|lus| - 1]);
      hide Good, ApplyLevel, IsReduction;
    }
  }

  lemma {:induction false} DiffGood(stp: StpPolicy, m: Mirror, d: Diff)
    requires Good(m.book)
    ensures Good(ApplyDiff(stp, m, d).book)
  {
    hide Good, Pass;
    var m1 := Pass(stp, m, Bid, d.bids, true);
    var m2 := Pass(stp, m1, Ask, d.asks, true);
    PassGood(stp, m, Bid, d.bids, true);
    PassGood(stp, m1, Ask, d.asks, true);
    PassGood(stp, m2, Bid, d.bids, false);
    PassGood(stp, Pass(stp, m2, Bid, d.bids, false), Ask, d.asks, false);
  }

  /** Under every policy the diff takes effect exactly when its end state is uncrossed. */
  lemma {:induction false} TakesEffectIff(stp: StpPolicy, m: Mirror, d: Diff)
    requires InOrder(m)
    ensures Same(Shown(ApplyDiff(stp, m, d).book), Overridden(m.book, d)) <==> NoCross(Overridden(m.book, d))
  {
    var m' := ApplyDiff(stp, m, d);
    DiffGood(stp, m, d);
    GoodShown(m'.book);
    if NoCross(Overridden(m.book, d)) {
      DiffOverrides(stp, m, d);
    }
    hide Good, Shown, Overridden, ApplyDiff;
  }

  /** With self-trades allowed, as in the replay, a trade shows that the input was crossed, and
      only that. */
  lemma {:induction false} TradesIffCrossed(m: Mirror, d: Diff)
    requires InOrder(m)
    ensures Quiet(m.log, ApplyDiff(Allow, m, d).log) <==> NoCross(Overridden(m.book, d))
  {
    var m2 := Pass(Allow, Pass(Allow, m, Bid, d.bids, true), Ask, d.asks, true);
    var m3 := Pass(Allow, m2, Bid, d.bids, false);
    var m4 := Pass(Allow, m3, Ask, d.asks, false);
    if NoCross(Overridden(m.book, d)) {
      DiffOverrides(Allow, m, d);
    }
    if Quiet(m.log, m4.log) {
      Lowers(Allow, m, d);
      LogGrows(Allow, m2, Bid, d.bids, false);
      LogGrows(Allow, m3, Ask, d.asks, false);
      QuietParts(m.log, m2.log, m3.log, m4.log);
      QuietRaisePass(m2, Bid, d.bids);
      QuietRaisePass(m3, Ask, d.asks);
      hide Depth, Least, Greatest, Pass, Quiet, Good, Overridden;
      EndState(m, m2, m3, m4, d);
      GoodShown(m4.book);
    }
  }

  lemma {:induction false} QuietParts(a: seq<Event>, b: seq<Event>, c: seq<Event>, d: seq<Event>)
    requires a <= b <= c <= d && Quiet(a, d)
    ensures Quiet(b, c) && Quiet(c, d)
  {
    forall i | |a| <= i < |c| ensures c[i] == d[i] {}
  }

  // ---- last write wins ----

  /** The quantity of the last update of price `p`, or `q` if there is none. */
  function LastWrite(q: Qty, lus: seq<LevelUpdate>, p: Price): Qty
    decreases |lus|
  {
    if lus == [] then q
    else if lus[|lus| - 1].price == p then lus[|lus| - 1].qty
    else LastWrite(q, lus[..|lus| - 1], p)
  }

  /** No price is listed twice. */
  ghost predicate DistinctPrices(lus: seq<LevelUpdate>) {
    forall i, j :: 0 <= i < j < |lus| ==> lus[i].price != lus[j].price
  }

  lemma {:induction false} LastWriteListed(q: Qty, lus: seq<LevelUpdate>, p: Price) returns (i: nat)
    requires Mentions(lus, p)
    ensures i < |lus| && lus[i].price == p && LastWrite(q, lus, p) == lus[i].qty
    decreases |lus|
  {
    var front := lus[..|lus| - 1];
    i := |lus| - 1;
    if lus[i].price != p {
      assert Mentions(front, p) by {
        var k :| 0 <= k < |lus| && lus[k].price == p;
        assert front[k] == lus[k];
      }
      i := LastWriteListed(q, front, p);
    }
  }

  lemma {:induction false} LastWriteUnlisted(q: Qty, lus: seq<LevelUpdate>, p: Price)
    requires !Mentions(lus, p)
    ensures LastWrite(q, lus, p) == q
    decreases |lus|
  {
    if lus != [] {
      var front := lus[..|lus| - 1];
      assert lus[|lus| - 1].price != p;
      assert forall k :: 0 <= k < |front| ==> front[k] == lus[k];
      LastWriteUnlisted(q, front, p);
    }
  }

  /** No update of the price asks for more than the last one. */
  ghost predicate LastIsGreatest(lus: seq<LevelUpdate>, p: Price) {
    forall i :: 0 <= i < |lus| && lus[i].price == p ==> lus[i].qty <= LastWrite(0, lus, p)
  }

  lemma {:induction false} OverrideLastWriteIff(b: Book, d: Diff, s: Side, p: Price)
    ensures Overridden(b, d)(s, p) == LastWrite(Depth(b.At(s), p), d.Of(s), p) <==> LastIsGreatest(d.Of(s), p)
  {
    var lus, q := d.Of(s), Depth(b.At(s), p);
    hide LastWrite, Greatest, Depth;
    if Mentions(lus, p) {
      GreatestBounds(0, lus, p);
      LastWriteSame(q, lus, p);
      var i := LastWriteListed(0, lus, p);
    } else {
      LastWriteUnlisted(q, lus, p);
      assert forall i :: 0 <= i < |lus| ==> lus[i].price != p;
    }
  }

  lemma {:induction false} LastWriteSame(q: Qty, lus: seq<LevelUpdate>, p: Price)
    requires Mentions(lus, p)
    ensures LastWrite(q, lus, p) == LastWrite(0, lus, p)
    decreases |lus|
  {
    var front := lus[..|lus| - 1];
    if lus[|lus| - 1].price != p {
      assert Mentions(front, p) by {
        var k :| 0 <= k < |lus| && lus[k].price == p;
        assert front[k] == lus[k];
      }
      LastWriteSame(q, front, p);
    }
  }

  /** In particular when the prices of a side are distinct. */
  lemma {:induction false} DistinctIsLastWrite(b: Book, d: Diff, s: Side, p: Price)
    requires DistinctPrices(d.Of(s))
    ensures Overridden(b, d)(s, p) == LastWrite(Depth(b.At(s), p), d.Of(s), p)
  {
    hide LastWrite, Overridden, Depth;
    OverrideLastWriteIff(b, d, s, p);
    if Mentions(d.Of(s), p) {
      var i := LastWriteListed(0, d.Of(s), p);
    }
  }

  /** In the book that `apply_diff` leaves, the last update of a price has won exactly when no update
      of that price asks for more than the last. */
  lemma {:induction false} LastWriteWinsIff(stp: StpPolicy, m: Mirror, d: Diff, s: Side, p: Price)
    requires InOrder(m) && NoCross(Overridden(m.book, d))
    ensures Depth(ApplyDiff(stp, m, d).book.At(s), p) == LastWrite(Depth(m.book.At(s), p), d.Of(s), p)
      <==> LastIsGreatest(d.Of(s), p)
  {
    DiffOverrides(stp, m, d);
    OverrideLastWriteIff(m.book, d, s, p);
    hide InOrder, Depth, Overridden, ApplyDiff, LastWrite, LastIsGreatest;
    assert Shown(ApplyDiff(stp, m, d).book)(s, p) == Overridden(m.book, d)(s, p);
  }

  /** With distinct prices it always has. */
  lemma {:induction false} DistinctLastWriteWins(stp: StpPolicy, m: Mirror, d: Diff, s: Side, p: Price)
    requires InOrder(m) && NoCross(Overridden(m.book, d)) && DistinctPrices(d.Of(s))
    ensures Depth(ApplyDiff(stp, m, d).book.At(s), p) == LastWrite(Depth(m.book.At(s), p), d.Of(s), p)
  {
    DiffOverrides(stp, m, d);
    DistinctIsLastWrite(m.book, d, s, p);
    hide InOrder, Depth, Overridden, ApplyDiff, LastWrite;
    assert Shown(ApplyDiff(stp, m, d).book)(s, p) == Overridden(m.book, d)(s, p);
  }

  /** And it need not: five and then three units at one price of an empty book end as five. */
  lemma {:induction false} LastWriteLoses(stp: StpPolicy, p: Price)
    ensures var d := Diff(1, 1, [LevelUpdate(p, 5), LevelUpdate(p, 3)], []);
      && Depth(ApplyDiff(stp, EmptyMirror(1), d).book.bids, p) == 5
      && LastWrite(0, d.bids, p) == 3
  {
    var m, d := EmptyMirror(1), Diff(1, 1, [LevelUpdate(p, 5), LevelUpdate(p, 3)], []);
    assert d.Of(Ask) == [] && d.Of(Bid) == d.bids && m.book.At(Bid) == [];
    GreatestBounds(0, d.bids, p);
    assert d.bids[0] == LevelUpdate(p, 5);
    forall q ensures Overridden(m.book, d)(Ask, q) == 0 {}
    DiffOverrides(stp, m, d);
    hide ApplyDiff, Greatest;
    assert Shown(ApplyDiff(stp, m, d).book)(Bid, p) == Overridden(m.book, d)(Bid, p);
  }

  // ---- the same diff again ----

  /** Every update says what the book already shows. */
  ghost predicate Agreed(m: Mirror, s: Side, lus: seq<LevelUpdate>) {
    forall i :: 0 <= i < |lus| ==> lus[i].qty == Depth(m.book.At(s), lus[i].price)
  }

  /** A pass over updates that are already in force only counts them. */
  lemma {:induction false} AgreedPass(stp: StpPolicy, m: Mirror, s: Side, lus: seq<LevelUpdate>, reductions: bool)
    requires InOrder(m) && Agreed(m, s, lus)
    ensures Pass(stp, m, s, lus, reductions) == m.(applied := m.applied + if reductions then 0 else |lus|)
    decreases |lus|
  {
    if lus != [] {
      var front, lu := lus[..|lus| - 1], lus[|lus| - 1];
      assert Agreed(m, s, front) by {
        assert forall i :: 0 <= i < |front| ==> front[i] == lus[i];
      }
      AgreedPass(stp, m, s, front, reductions);
      ReductionIs(m, s, lu);
      if lu.price in m.IdsOf(s) {
        Tracked(m, s, lu.price);
      } else {
        Untracked(m, s, lu.price);
      }
      hide InOrder, Depth, OpenQty;
    }
  }

  lemma {:induction false} InForce(b: Book, m: Mirror, d: Diff, s: Side)
    requires Same(Shown(m.book), Overridden(b, d)) && DistinctPrices(d.Of(s))
    ensures Agreed(m, s, d.Of(s))
  {
    forall i | 0 <= i < |d.Of(s)| ensures d.Of(s)[i].qty == Depth(m.book.At(s), d.Of(s)[i].price) {
      var p := d.Of(s)[i].price;
      assert Shown(m.book)(s, p) == Overridden(b, d)(s, p);
      DistinctIsLastWrite(b, d, s, p);
      var k := LastWriteListed(Depth(b.At(s), p), d.Of(s), p);
    }
  }

  /** Applying a diff with distinct prices a second time changes nothing: not an order, not an id,
      not an event, only the count of updates seen. */
  lemma {:induction false} Idempotent(stp: StpPolicy, m: Mirror, d: Diff)
    requires InOrder(m) && NoCross(Overridden(m.book, d)) && DistinctPrices(d.bids) && DistinctPrices(d.asks)
    ensures var m' := ApplyDiff(stp, m, d);
      ApplyDiff(stp, m', d) == m'.(applied := m'.applied + |d.bids| + |d.asks|)
  {
    var m' := ApplyDiff(stp, m, d);
    DiffOverrides(stp, m, d);
    hide Depth, Overridden, ApplyDiff;
    InForce(m.book, m', d, Bid);
    InForce(m.book, m', d, Ask);
    assert d.Of(Bid) == d.bids && d.Of(Ask) == d.asks;
    var m1 := m'.(applied := m'.applied + |d.bids|);
    AgreedPass(stp, m', Bid, d.bids, true);
    AgreedPass(stp, m', Ask, d.asks, true);
    AgreedPass(stp, m', Bid, d.bids, false);
    assert InOrder(m1) && Agreed(m1, Ask, d.asks);
    AgreedPass(stp, m1, Ask, d.asks, false);
    hide InOrder;
    DiffFrom(stp, m', m1, d);
  }

  lemma {:induction false} DiffFrom(stp: StpPolicy, m: Mirror, m1: Mirror, d: Diff)
    requires Pass(stp, m, Bid, d.bids, true) == m && Pass(stp, m, Ask, d.asks, true) == m && Pass(stp, m, Bid, d.bids, false) == m1
    ensures ApplyDiff(stp, m, d) == Pass(stp, m1, Ask, d.asks, false)
  {
  }
}
