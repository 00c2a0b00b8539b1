/** Following an exchange: seed from a snapshot, then let sequence numbers decide which diffs to
    apply, and when the local book is the exchange's. */
module Replay {
  import opened Types
  import opened PriceTimeBook
  import opened BookInvariants
  import opened Mirrors
  import opened MirrorLevels
  import opened MirrorDiffs
  import opened DiffTheorems
  import opened PhantomTrades

  datatype Verdict = Skipped | Applied | Gap

  /** The mirrored book with the last update id it includes; `synced` once a diff was applied. */
  datatype Local = Local(mirror: Mirror, lastU: nat, synced: bool)

  function Seed(snap: Snapshot): Local {
    Local(ApplySnapshot(Allow, EmptyMirror(1), snap), snap.lastUpdateId, false)
  }

  function Judge(l: Local, d: Diff): Verdict {
    if d.lastId <= l.lastU then Skipped
    else if if l.synced then d.firstId != l.lastU + 1 else d.firstId > l.lastU + 1 then Gap
    else Applied
  }

  /** A diff with a gap before it is reported, and applied all the same. */
  function Receive(l: Local, d: Diff): Local {
    if Judge(l, d) == Skipped then l else Local(ApplyDiff(Allow, l.mirror, d), d.lastId, true)
  }

  function Follow(l: Local, ds: seq<Diff>): Local
    decreases |ds|
  {
    if ds == [] then l else Receive(Follow(l, ds[..|ds| - 1]), ds[|ds| - 1])
  }

  /** Some diff of the stream was judged to come after a gap. */
  ghost predicate Gapped(l: Local, ds: seq<Diff>)
    decreases |ds|
  {
    ds != [] && (Gapped(l, ds[..|ds| - 1]) || Judge(Follow(l, ds[..|ds| - 1]), ds[|ds| - 1]) == Gap)
  }

  // ---- the exchange ----

  /** The exchange's book after each update id. */
  type History = nat -> Levels

  /** The diff gives, for its whole batch, the final quantity of every price the batch touched; and
      the exchange's book is uncrossed at the end of the batch. */
  ghost predicate Reports(hist: History, d: Diff) {
    && (forall s, i :: 0 <= i < |d.Of(s)| ==> d.Of(s)[i].qty == hist(d.lastId)(s, d.Of(s)[i].price))
    && (forall s, p, i: nat :: !Mentions(d.Of(s), p) && d.firstId <= i + 1 && i <= d.lastId ==> hist(i)(s, p) == hist(d.lastId)(s, p))
    && NoCross(hist(d.lastId))
  }

  /** The snapshot lists every level of the exchange's book at its update id, each once. */
  ghost predicate Lists(hist: History, snap: Snapshot) {
    && DistinctPrices(snap.bids) && DistinctPrices(snap.asks)
    && (forall s, p :: LastWrite(0, snap.Of(s), p) == hist(snap.lastUpdateId)(s, p))
    && NoCross(hist(snap.lastUpdateId))
  }

  /** The local book is the exchange's at the last update applied, and no match was ever reported. */
  ghost predicate InSync(hist: History, l: Local) {
    InOrder(l.mirror) && Same(Shown(l.mirror.book), hist(l.lastU)) && Quiet([], l.mirror.log)
  }

  // ---- seeding ----

  lemma {:induction false} WriteOne(stp: StpPolicy, m: Mirror, m1: Mirror, s: Side, front: seq<LevelUpdate>, lu: LevelUpdate)
    requires Settled(m, m1, s) && forall x :: Depth(m1.book.At(s), x) == LastWrite(Depth(m.book.At(s), x), front, x)
    requires lu.qty > 0 ==> Clear(m.book, s, lu.price)
    ensures var m' := ApplyLevel(stp, m1, s, lu);
      && Settled(m, m', s)
      && forall x :: Depth(m'.book.At(s), x) == LastWrite(Depth(m.book.At(s), x), front + [lu], x)
  {
    hide InOrder, Depth, ApplyLevel, Quiet, IsReduction;
    assert (front + [lu])[..|front|] == front;
    assert lu.qty > 0 ==> Clear(m1.book, s, lu.price);
    hide Clear;
    LevelExact(stp, m1, s, lu);
    QuietTrans(m.log, m1.log, ApplyLevel(stp, m1, s, lu).log);
  }

  lemma {:induction false} LevelsWrite(stp: StpPolicy, m: Mirror, s: Side, lus: seq<LevelUpdate>)
    requires InOrder(m) && forall i :: 0 <= i < |lus| && lus[i].qty > 0 ==> Clear(m.book, s, lus[i].price)
    ensures Settled(m, ApplyLevels(stp, m, s, lus), s)
    ensures forall x :: Depth(ApplyLevels(stp, m, s, lus).book.At(s), x) == LastWrite(Depth(m.book.At(s), x), lus, x)
    decreases |lus|
  {
    if lus != [] {
      var front, lu := lus[..|lus| - 1], lus[|lus| - 1];
      assert forall i :: 0 <= i < |front| ==> front[i] == lus[i];
      assert front + [lu] == lus;
      LevelsWrite(stp, m, s, front);
      hide InOrder, Depth, ApplyLevel, Quiet, Clear, LastWrite;
      WriteOne(stp, m, ApplyLevels(stp, m, s, front), s, front, lu);
    } else {
      hide InOrder, Depth;
    }
  }

  lemma {:induction false} EmptyInOrder()
    ensures InOrder(EmptyMirror(1)) && forall s, p :: Depth(EmptyMirror(1).book.At(s), p) == 0
  {
  }

  /** A full snapshot seeds the exchange's book. */
  lemma {:induction false} SeedInSync(hist: History, snap: Snapshot)
    requires Lists(hist, snap)
    ensures InSync(hist, Seed(snap))
  {
    var m0 := EmptyMirror(1);
    EmptyInOrder();
    LevelsWrite(Allow, m0, Bid, snap.bids);
    var m1 := ApplyLevels(Allow, m0, Bid, snap.bids);
    var target := hist(snap.lastUpdateId);
    hide InOrder, Depth, LastWrite, Quiet, ApplyLevels;
    forall y ensures Depth(m1.book.At(Bid), y) == target(Bid, y) {
      assert LastWrite(0, snap.Of(Bid), y) == target(Bid, y);
    }
    forall i | 0 <= i < |snap.asks| && snap.asks[i].qty > 0 ensures Clear(m1.book, Ask, snap.asks[i].price) {
      var p := snap.asks[i].price;
      var k := LastWriteListed(0, snap.asks, p);
      assert LastWrite(0, snap.Of(Ask), p) == target(Ask, p) && k == i;
      forall y | Depth(m1.book.At(Bid), y) > 0 ensures Better(Ask, y, p) {}
      GoodOf(m1);
      ClearIf(m1.book, Ask, p);
    }
    LevelsWrite(Allow, m1, Ask, snap.asks);
    var m2 := ApplyLevels(Allow, m1, Ask, snap.asks);
    assert m1.book.At(Ask) == m0.book.At(Ask) && m2.book.At(Bid) == m1.book.At(Bid);
    forall s, p ensures Shown(m2.book)(s, p) == target(s, p) {
      assert LastWrite(0, snap.Of(s), p) == target(s, p);
      assert s == Ask ==> Depth(m2.book.At(Ask), p) == LastWrite(Depth(m1.book.At(Ask), p), snap.asks, p);
    }
    QuietTrans([], m1.log, m2.log);
  }

  lemma {:induction false} GoodOf(m: Mirror)
    requires InOrder(m)
    ensures Good(m.book)
  {
  }

  // ---- following ----

  /** Overriding by a report leaves what the report says, and elsewhere what there was. */
  lemma {:induction false} OverrideReports(hist: History, b: Book, d: Diff, s: Side, p: Price)
    requires Reports(hist, d)
    ensures Mentions(d.Of(s), p) ==> Overridden(b, d)(s, p) == hist(d.lastId)(s, p)
    ensures !Mentions(d.Of(s), p) ==> Overridden(b, d)(s, p) == Depth(b.At(s), p)
  {
    hide Depth, Greatest;
    if Mentions(d.Of(s), p) {
      GreatestBounds(0, d.Of(s), p);
      var i :| 0 <= i < |d.Of(s)| && d.Of(s)[i].price == p;
    }
  }

  lemma {:induction false} ReceiveInSync(hist: History, l: Local, d: Diff)
    requires InSync(hist, l) && Reports(hist, d) && Judge(l, d) != Gap
    ensures InSync(hist, Receive(l, d))
  {
    if Judge(l, d) == Applied {
      var b := l.mirror.book;
      hide InOrder, Depth, Overridden, ApplyDiff, Quiet;
      forall s, p ensures Overridden(b, d)(s, p) == hist(d.lastId)(s, p) {
        OverrideReports(hist, b, d, s, p);
        assert Shown(b)(s, p) == hist(l.lastU)(s, p);
      }
      DiffOverrides(Allow, l.mirror, d);
      QuietTrans([], l.mirror.log, ApplyDiff(Allow, l.mirror, d).log);
    }
  }

  /** However stale diffs are mixed in, and wherever the first one straddles the snapshot: with no
      gap reported, the book is the exchange's at the last update id applied. */
  lemma {:induction false} FollowInSync(hist: History, snap: Snapshot, ds: seq<Diff>)
    requires Lists(hist, snap) && !Gapped(Seed(snap), ds)
    requires forall i :: 0 <= i < |ds| ==> Reports(hist, ds[i])
    ensures InSync(hist, Follow(Seed(snap), ds))
    decreases |ds|
  {
    hide InSync, Lists, Reports, Receive, Judge, Seed;
    if ds == [] {
      SeedInSync(hist, snap);
    } else {
      var front := ds[..|ds| - 1];
      assert forall i :: 0 <= i < |front| ==> front[i] == ds[i];
      FollowInSync(hist, snap, front);
      ReceiveInSync(hist, Follow(Seed(snap), front), ds[|ds| - 1]);
    }
  }

  /** The update id never goes back, and moves with every diff that is applied. */
  lemma {:induction false} UpdateIdAdvances(l: Local, d: Diff)
    ensures Receive(l, d).lastU == if d.lastId > l.lastU then d.lastId else l.lastU
    ensures Judge(l, d) == Skipped <==> d.lastId <= l.lastU
  {
  }

  /** Nothing outside the diff changed from the last id applied to the end of the diff. */
  ghost predicate NothingMissed(hist: History, l: Local, d: Diff) {
    forall s, p :: !Mentions(d.Of(s), p) ==> hist(l.lastU)(s, p) == hist(d.lastId)(s, p)
  }

  /** Whatever its first id, a diff outside which nothing changed brings the book up to date. */
  lemma {:induction false} NothingMissedInSync(hist: History, l: Local, d: Diff)
    requires InSync(hist, l) && Reports(hist, d) && d.lastId > l.lastU && NothingMissed(hist, l, d)
    ensures InSync(hist, Receive(l, d))
  {
    var b := l.mirror.book;
    hide InOrder, Depth, Overridden, ApplyDiff, Quiet;
    forall s, p ensures Overridden(b, d)(s, p) == hist(d.lastId)(s, p) {
      OverrideReports(hist, b, d, s, p);
      assert Shown(b)(s, p) == hist(l.lastU)(s, p);
    }
    DiffOverrides(Allow, l.mirror, d);
    QuietTrans([], l.mirror.log, ApplyDiff(Allow, l.mirror, d).log);
  }

  /** If the book then is the override, and the exchange's, nothing was missed. */
  lemma {:induction false} OverrideMissesNothing(hist: History, l: Local, d: Diff)
    requires InSync(hist, l) && Reports(hist, d)
    requires Same(Shown(Receive(l, d).mirror.book), Overridden(l.mirror.book, d))
    requires Same(Shown(Receive(l, d).mirror.book), hist(d.lastId))
    ensures NothingMissed(hist, l, d)
  {
    var b, now := l.mirror.book, Shown(Receive(l, d).mirror.book);
    hide InOrder, Depth, Overridden, Receive, Quiet;
    forall s, p | !Mentions(d.Of(s), p) ensures hist(l.lastU)(s, p) == hist(d.lastId)(s, p) {
      OverrideReports(hist, b, d, s, p);
      assert Shown(b)(s, p) == hist(l.lastU)(s, p);
      assert now(s, p) == Overridden(b, d)(s, p) && now(s, p) == hist(d.lastId)(s, p);
    }
  }

  /** What a diff with distinct prices is worth whatever its first id, phantom matches and all: the
      book is the exchange's exactly when nothing outside the diff changed since the last id applied. */
  lemma {:induction false} GapIff(hist: History, l: Local, d: Diff)
    requires InSync(hist, l) && Reports(hist, d) && d.lastId > l.lastU
    requires DistinctPrices(d.bids) && DistinctPrices(d.asks)
    ensures Same(Shown(Receive(l, d).mirror.book), hist(d.lastId)) <==> NothingMissed(hist, l, d)
  {
    hide *;
    var m' := Receive(l, d).mirror;
    if NothingMissed(hist, l, d) {
      NothingMissedInSync(hist, l, d);
      SyncShows(hist, Receive(l, d));
    }
    Received(l, d);
    if Same(Shown(m'.book), hist(d.lastId)) {
      SyncShows(hist, l);
      ExactOrSpoiled(l.mirror, d);
      NotSpoiled(hist, m', d);
      OverrideMissesNothing(hist, l, d);
    }
  }

  lemma {:induction false} SyncShows(hist: History, l: Local)
    requires InSync(hist, l)
    ensures InOrder(l.mirror) && Same(Shown(l.mirror.book), hist(l.lastU))
  {
    hide InOrder, Shown;
  }

  lemma {:induction false} NotSpoiled(hist: History, m: Mirror, d: Diff)
    requires Same(Shown(m.book), hist(d.lastId)) && Reports(hist, d)
    ensures !Spoiled(m, Bid, d.bids, d) && !Spoiled(m, Ask, d.asks, d)
  {
    NotShort(hist, m.book, d, Bid);
    NotShort(hist, m.book, d, Ask);
    hide Loose, Short, Lost, Shown, Reports;
  }

  lemma {:induction false} NotShort(hist: History, b: Book, d: Diff, s: Side)
    requires Same(Shown(b), hist(d.lastId)) && Reports(hist, d)
    ensures !Short(b, s, d.Of(s))
  {
    hide Depth;
    forall i | 0 <= i < |d.Of(s)| ensures Depth(b.At(s), d.Of(s)[i].price) == d.Of(s)[i].qty {
      assert Shown(b)(s, d.Of(s)[i].price) == hist(d.lastId)(s, d.Of(s)[i].price);
    }
  }

  lemma {:induction false} Received(l: Local, d: Diff)
    requires d.lastId > l.lastU
    ensures Receive(l, d).mirror == ApplyDiff(Allow, l.mirror, d) && Receive(l, d).lastU == d.lastId
  {
    hide ApplyDiff;
  }

  /** The same with repeated prices, for a diff whose end state does not cross. */
  lemma {:induction false} UncrossedGapIff(hist: History, l: Local, d: Diff)
    requires InSync(hist, l) && Reports(hist, d) && d.lastId > l.lastU && NoCross(Overridden(l.mirror.book, d))
    ensures Same(Shown(Receive(l, d).mirror.book), hist(d.lastId)) <==> NothingMissed(hist, l, d)
  {
    hide *;
    SyncShows(hist, l);
    Received(l, d);
    if NothingMissed(hist, l, d) {
      NothingMissedInSync(hist, l, d);
      SyncShows(hist, Receive(l, d));
    }
    DiffOverrides(Allow, l.mirror, d);
    if Same(Shown(Receive(l, d).mirror.book), hist(d.lastId)) {
      OverrideMissesNothing(hist, l, d);
    }
  }

  // ---- a gap that matters ----

  /** Three units are bid at 10; then they go; then six are asked at 10. */
  function GapHistory(id: nat): Levels {
    (s, p) => if id < 2 && s == Bid && p == 10 then 3 else if id >= 3 && s == Ask && p == 10 then 6 else 0
  }

  const GapSnapshot := Snapshot(1, [LevelUpdate(10, 3)], [])

  lemma {:induction false} GapReports(asks: seq<LevelUpdate>)
    requires asks != [] && forall i :: 0 <= i < |asks| ==> asks[i] == LevelUpdate(10, 6)
    ensures Lists(GapHistory, GapSnapshot) && Reports(GapHistory, Diff(3, 3, [], asks))
    ensures Judge(Seed(GapSnapshot), Diff(3, 3, [], asks)) == Gap
    ensures InSync(GapHistory, Seed(GapSnapshot)) && !NothingMissed(GapHistory, Seed(GapSnapshot), Diff(3, 3, [], asks))
  {
    GapListed();
    GapReported(asks);
    SeedInSync(GapHistory, GapSnapshot);
    GapMissed(asks);
    hide InSync, Lists, ApplySnapshot, Reports, NothingMissed;
  }

  lemma {:induction false} GapReported(asks: seq<LevelUpdate>)
    requires asks != [] && forall i :: 0 <= i < |asks| ==> asks[i] == LevelUpdate(10, 6)
    ensures Reports(GapHistory, Diff(3, 3, [], asks))
  {
    var d := Diff(3, 3, [], asks);
    assert asks[0].price == 10 && Mentions(d.Of(Ask), 10);
    forall s, i | 0 <= i < |d.Of(s)| ensures d.Of(s)[i].qty == GapHistory(3)(s, d.Of(s)[i].price) {
      assert s == Ask;
    }
    forall s, p, i: nat | !Mentions(d.Of(s), p) && d.firstId <= i + 1 && i <= d.lastId
      ensures GapHistory(i)(s, p) == GapHistory(3)(s, p)
    {
      assert s == Ask ==> p != 10;
    }
  }

  lemma {:induction false} GapMissed(asks: seq<LevelUpdate>)
    ensures Seed(GapSnapshot).lastU == 1
    ensures !NothingMissed(GapHistory, Seed(GapSnapshot), Diff(3, 3, [], asks))
  {
    var d := Diff(3, 3, [], asks);
    hide ApplySnapshot;
    assert !Mentions(d.Of(Bid), 10) && GapHistory(1)(Bid, 10) != GapHistory(3)(Bid, 10);
  }

  lemma {:induction false} GapListed()
    ensures Lists(GapHistory, GapSnapshot)
  {
    assert [LevelUpdate(10, 3)][..0] == [];
    forall s, p ensures LastWrite(0, GapSnapshot.Of(s), p) == GapHistory(1)(s, p) {
      assert s == Bid ==> GapSnapshot.Of(s) == [LevelUpdate(10, 3)];
    }
  }

  /** Applied after the gap, the ask meets the bid that is no more: a phantom match, and a wrong book. */
  lemma {:induction false} GapGoesWrong()
    ensures var l, d := Seed(GapSnapshot), Diff(3, 3, [], [LevelUpdate(10, 6)]);
      && InSync(GapHistory, l) && Reports(GapHistory, d) && Judge(l, d) == Gap
      && !Same(Shown(Receive(l, d).mirror.book), GapHistory(3))
      && !Quiet(l.mirror.log, Receive(l, d).mirror.log)
  {
    var l, d := Seed(GapSnapshot), Diff(3, 3, [], [LevelUpdate(10, 6)]);
    GapReports(d.asks);
    GapIff(GapHistory, l, d);
    TradesIffCrossed(l.mirror, d);
    OverrideReports(GapHistory, l.mirror.book, d, Bid, 10);
    OverrideReports(GapHistory, l.mirror.book, d, Ask, 10);
    hide InOrder, Depth, Overridden, Seed, ApplyDiff;
    assert d.asks[0].price == 10 && Mentions(d.Of(Ask), 10) && !Mentions(d.Of(Bid), 10);
    assert Shown(l.mirror.book)(Bid, 10) == GapHistory(1)(Bid, 10);
    assert Overridden(l.mirror.book, d)(Bid, 10) > 0 && Overridden(l.mirror.book, d)(Ask, 10) > 0;
  }

  /** A repeated price can hide the damage, which is why the exact condition asks for distinct ones:
      the second write restores what the phantom match took. */
  lemma {:induction false} RepeatHidesGap()
    ensures var l, d := Seed(GapSnapshot), Diff(3, 3, [], [LevelUpdate(10, 6), LevelUpdate(10, 6)]);
      && InSync(GapHistory, l) && Reports(GapHistory, d) && !NothingMissed(GapHistory, l, d)
      && Same(Shown(Receive(l, d).mirror.book), GapHistory(3))
  {
    var lu := LevelUpdate(10, 6);
    var l, d := Seed(GapSnapshot), Diff(3, 3, [], [lu, lu]);
    GapReports(d.asks);
    var m0 := GapSeeded();
    var m1 := GapFirst(m0);
    var m2 := GapSecond(m1);
    PassPair(m0, Ask, lu, lu, m0, m0, true);
    PassPair(m0, Ask, lu, lu, m1, m2, false);
    assert ApplyDiff(Allow, m0, d) == m2;
    hide InSync, Reports, NothingMissed, ApplyLevel, IsReduction, Pass;
    forall s, p ensures Depth(m2.book.At(s), p) == GapHistory(3)(s, p) {
      DepthOne(Resting(2, MirrorParticipant, 10, 6), p);
    }
  }

  lemma {:induction false} GapSeeded() returns (m: Mirror)
    ensures m == Seed(GapSnapshot).mirror
    ensures m.book == Book([Resting(1, MirrorParticipant, 10, 3)], []) && m.bidIds == map[10 := 1] && m.askIds == map[]
    ensures m.nextId == 2
    ensures !IsReduction(m, Ask, LevelUpdate(10, 6))
  {
    var lu := LevelUpdate(10, 3);
    m := ApplyLevel(Allow, EmptyMirror(1), Bid, lu);
    assert [lu][..0] == [];
    assert ApplyLevels(Allow, EmptyMirror(1), Bid, [lu]) == m;
  }

  /** Three of the six match the stale bid. */
  lemma {:induction false} GapFirst(m: Mirror) returns (m': Mirror)
    requires m.book == Book([Resting(1, MirrorParticipant, 10, 3)], []) && m.askIds == map[] && m.nextId == 2
    ensures m' == ApplyLevel(Allow, m, Ask, LevelUpdate(10, 6))
    ensures m'.book == Book([], [Resting(2, MirrorParticipant, 10, 3)]) && m'.askIds == map[10 := 2] && m'.nextId == 3
    ensures !IsReduction(m', Ask, LevelUpdate(10, 6))
  {
    var t, q := Taker(2, MirrorParticipant, Ask, 10, false), m.book.bids;
    MatchHead(Allow, t, 6, q);
    assert q[1..] == [];
    MatchNone(Allow, t, 3, []);
    assert !Has(m.book.bids, 2) && !Has(m.book.asks, 2);
    m' := ApplyLevel(Allow, m, Ask, LevelUpdate(10, 6));
    hide Match;
    assert m'.book == Book([], [Resting(2, MirrorParticipant, 10, 3)]);
    GapOpen(m'.book);
  }

  lemma {:induction false} GapOpen(b: Book)
    requires b == Book([], [Resting(2, MirrorParticipant, 10, 3)])
    ensures !Has(b.bids, 2) && Has(b.asks, 2) && b.Locate(2) == Some(Ask)
    ensures Lookup(b.asks, 2) == b.asks[0] && OpenQty(b, 2) == 3 && Remove(b.asks, 2) == []
  {
    assert b.asks[0].id == 2;
  }

  lemma {:induction false} GapSecond(m: Mirror) returns (m': Mirror)
    requires m.book == Book([], [Resting(2, MirrorParticipant, 10, 3)]) && m.askIds == map[10 := 2]
    ensures m' == ApplyLevel(Allow, m, Ask, LevelUpdate(10, 6))
    ensures m'.book == Book([], [Resting(2, MirrorParticipant, 10, 6)])
  {
    GapOpen(m.book);
    m' := ApplyLevel(Allow, m, Ask, LevelUpdate(10, 6));
    MatchNone(Allow, Taker(2, MirrorParticipant, Ask, 10, false), 6, []);
    hide Match, Has, Book.Locate, Lookup, Remove;
  }

  // ---- completeness ----

  /** Batches that follow each other without a hole. */
  ghost predicate Contiguous(ds: seq<Diff>) {
    && (forall i :: 0 <= i < |ds| ==> ds[i].firstId <= ds[i].lastId)
    && (forall i {:trigger ds[i].lastId} :: 0 <= i < |ds| - 1 ==> ds[i + 1].firstId == ds[i].lastId + 1)
  }

  /** A complete stream is never taken for a broken one: if it starts at or before the update after
      the snapshot and has no hole, no gap is reported, and the book ends at the last batch, or at
      the snapshot if every batch was older. */
  lemma {:induction false} CompleteHasNoGap(snap: Snapshot, ds: seq<Diff>)
    requires Contiguous(ds) && (ds != [] ==> ds[0].firstId <= snap.lastUpdateId + 1)
    ensures !Gapped(Seed(snap), ds)
    ensures var l := Follow(Seed(snap), ds);
      && l.lastU == (if ds != [] && ds[|ds| - 1].lastId > snap.lastUpdateId then ds[|ds| - 1].lastId else snap.lastUpdateId)
      && l.synced == (ds != [] && ds[|ds| - 1].lastId > snap.lastUpdateId)
    decreases |ds|
  {
    hide ApplyDiff, ApplySnapshot;
    if ds != [] {
      var front := ds[..|ds| - 1];
      assert forall i :: 0 <= i < |front| ==> front[i] == ds[i];
      CompleteHasNoGap(snap, front);
      assert front != [] ==> ds[|front|].firstId == ds[|front| - 1].lastId + 1;
    }
  }

  /** So over a complete stream of reports the book is the exchange's after every batch. */
  lemma {:induction false} CompleteInSync(hist: History, snap: Snapshot, ds: seq<Diff>)
    requires Lists(hist, snap) && Contiguous(ds) && (ds != [] ==> ds[0].firstId <= snap.lastUpdateId + 1)
    requires forall i :: 0 <= i < |ds| ==> Reports(hist, ds[i])
    ensures var u := if ds != [] && ds[|ds| - 1].lastId > snap.lastUpdateId then ds[|ds| - 1].lastId else snap.lastUpdateId;
      Same(Shown(Follow(Seed(snap), ds).mirror.book), hist(u))
  {
    CompleteHasNoGap(snap, ds);
    FollowInSync(hist, snap, ds);
    hide Follow, Seed;
  }
}
