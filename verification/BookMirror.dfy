/** The mirror as the code runs it, driving a matching engine one level update at a time. */
module BookMirrors {
  import opened Types
  import opened PriceTimeBook
  import opened MatchingEngines
  import opened IntrusiveBook
  import Mirrors

  class BookMirror {
    const engine: MatchingEngine
    var bidIds: map<Price, OrderId>
    var askIds: map<Price, OrderId>
    var nextId: OrderId
    var levelsApplied: nat

    constructor (engine: MatchingEngine, idBase: OrderId)
      requires engine.Valid()
      ensures Valid() && this.engine == engine
      ensures State() == Mirrors.Mirror(engine.Contents(), engine.events, map[], map[], idBase, 0)
    {
      this.engine := engine;
      bidIds, askIds := map[], map[];
      nextId, levelsApplied := idBase, 0;
    }

    ghost predicate Valid()
      reads this, engine, engine.bids, engine.asks, engine.bids.repr, engine.asks.repr
    {
      engine.Valid() && this !in engine.Repr()
    }

    ghost function State(): Mirrors.Mirror
      reads this, engine, engine.bids, engine.asks
    {
      Mirrors.Mirror(engine.Contents(), engine.events, bidIds, askIds, nextId, levelsApplied)
    }

    function IdsOf(s: Side): map<Price, OrderId>
      reads this
    {
      if s.Bid? then bidIds else askIds
    }

    method SetIds(s: Side, ids: map<Price, OrderId>)
      modifies `bidIds, `askIds
      ensures IdsOf(s) == ids && IdsOf(s.Opposite()) == old(IdsOf(s.Opposite()))
    {
      if s.Bid? {
        bidIds := ids;
      } else {
        askIds := ids;
      }
    }

    method IsReduction(s: Side, lu: Mirrors.LevelUpdate) returns (yes: bool)
      requires Valid()
      ensures yes == Mirrors.IsReduction(State(), s, lu)
    {
      hide MatchingEngine.Valid;
      if lu.price !in IdsOf(s) {
        return false;
      }
      var open := engine.OpenQtyOf(IdsOf(s)[lu.price]);
      return lu.qty < open;
    }

    method ApplyLevel(s: Side, lu: Mirrors.LevelUpdate)
      requires Valid()
      modifies this, engine.Repr()
      ensures Valid() && fresh(engine.Repr() - old(engine.Repr()))
      ensures State() == Mirrors.ApplyLevel(engine.stp, old(State()), s, lu)
    {
      hide MatchingEngine.Valid, MatchingEngine.Contents, SubmitLimit, CancelOrder, ModifyOrder, OpenQty;
      levelsApplied := levelsApplied + 1;
      if lu.price !in IdsOf(s) {
        if lu.qty == 0 {
          return;
        }
        var id := nextId;
        nextId := nextId + 1;
        var _ := engine.AddLimit(id, Mirrors.MirrorParticipant, s, lu.price, lu.qty, GTC);
        SetIds(s, IdsOf(s)[lu.price := id]);
        return;
      }
      var existing := IdsOf(s)[lu.price];
      if lu.qty == 0 {
        var _ := engine.CancelById(existing);
        SetIds(s, IdsOf(s) - {lu.price});
        return;
      }
      var open := engine.OpenQtyOf(existing);
      if lu.qty == open {
        return;
      }
      var _ := engine.ModifyById(existing, lu.price, lu.qty);
    }

    /** One of the four loops of `apply_diff`. */
    method Pass(s: Side, lus: seq<Mirrors.LevelUpdate>, reductions: bool)
      requires Valid()
      modifies this, engine.Repr()
      ensures Valid() && fresh(engine.Repr() - old(engine.Repr()))
      ensures State() == Mirrors.Pass(engine.stp, old(State()), s, lus, reductions)
    {
      hide MatchingEngine.Valid, Mirrors.ApplyLevel, Mirrors.IsReduction;
      for i := 0 to |lus|
        invariant Valid() && fresh(engine.Repr() - old(engine.Repr()))
        invariant State() == Mirrors.Pass(engine.stp, old(State()), s, lus[..i], reductions)
      {
        assert lus[..i + 1][..i] == lus[..i];
        var reduces := IsReduction(s, lus[i]);
        if reduces == reductions {
          ApplyLevel(s, lus[i]);
        }
      }
      assert lus[..|lus|] == lus;
    }

    method ApplyDiff(d: Mirrors.Diff)
      requires Valid()
      modifies this, engine.Repr()
      ensures Valid() && fresh(engine.Repr() - old(engine.Repr()))
      ensures State() == Mirrors.ApplyDiff(engine.stp, old(State()), d)
    {
      hide MatchingEngine.Valid, Mirrors.Pass;
      Pass(Bid, d.bids, true);
      Pass(Ask, d.asks, true);
      Pass(Bid, d.bids, false);
      Pass(Ask, d.asks, false);
    }

    method ApplyLevels(s: Side, lus: seq<Mirrors.LevelUpdate>)
      requires Valid()
      modifies this, engine.Repr()
      ensures Valid() && fresh(engine.Repr() - old(engine.Repr()))
      ensures State() == Mirrors.ApplyLevels(engine.stp, old(State()), s, lus)
    {
      hide MatchingEngine.Valid, Mirrors.ApplyLevel;
      for i := 0 to |lus|
        invariant Valid() && fresh(engine.Repr() - old(engine.Repr()))
        invariant State() == Mirrors.ApplyLevels(engine.stp, old(State()), s, lus[..i])
      {
        assert lus[..i + 1][..i] == lus[..i];
        ApplyLevel(s, lus[i]);
      }
      assert lus[..|lus|] == lus;
    }

    method ApplySnapshot(snap: Mirrors.Snapshot)
      requires Valid()
      modifies this, engine.Repr()
      ensures Valid() && fresh(engine.Repr() - old(engine.Repr()))
      ensures State() == Mirrors.ApplySnapshot(engine.stp, old(State()), snap)
    {
      hide MatchingEngine.Valid, Mirrors.ApplyLevels;
      ApplyLevels(Bid, snap.bids);
      ApplyLevels(Ask, snap.asks);
    }
  }
}
