/** Mirroring an exchange's price levels: each live level is one synthetic resting order, and level
    updates become order operations. */
module Mirrors {
  import opened Types
  import opened PriceTimeBook

  /** An absolute quantity at a price; zero removes the level. */
  datatype LevelUpdate = LevelUpdate(price: Price, qty: Qty)

  datatype Snapshot = Snapshot(lastUpdateId: nat, bids: seq<LevelUpdate>, asks: seq<LevelUpdate>) {
    function Of(s: Side): seq<LevelUpdate> {
      if s.Bid? then bids else asks
    }
  }

  datatype Diff = Diff(firstId: nat, lastId: nat, bids: seq<LevelUpdate>, asks: seq<LevelUpdate>) {
    function Of(s: Side): seq<LevelUpdate> {
      if s.Bid? then bids else asks
    }
  }

  const MirrorParticipant: ParticipantId := 0xFEED

  /** The mirrored engine's book and event log, and the mirror's own bookkeeping. */
  datatype Mirror = Mirror(book: Book, log: seq<Event>, bidIds: map<Price, OrderId>, askIds: map<Price, OrderId>,
                           nextId: OrderId, applied: nat) {
    function IdsOf(s: Side): map<Price, OrderId> {
      if s.Bid? then bidIds else askIds
    }

    function WithIds(s: Side, ids: map<Price, OrderId>): Mirror {
      if s.Bid? then this.(bidIds := ids) else this.(askIds := ids)
    }

    /** Send the engine a message. */
    function Send(stp: StpPolicy, msg: Message): Mirror {
      var o := Step(stp, book, msg);
      this.(book := o.book, log := log + o.events)
    }
  }

  /** Whether the update takes quantity away from a level that is tracked. */
  predicate IsReduction(m: Mirror, s: Side, lu: LevelUpdate) {
    lu.price in m.IdsOf(s) && lu.qty < OpenQty(m.book, m.IdsOf(s)[lu.price])
  }

  function ApplyLevel(stp: StpPolicy, m: Mirror, s: Side, lu: LevelUpdate): Mirror {
    var m1, ids := m.(applied := m.applied + 1), m.IdsOf(s);
    if lu.price !in ids then
      if lu.qty == 0 then m1
      else
        m1.(nextId := m.nextId + 1)
          .Send(stp, AddLimit(m.nextId, MirrorParticipant, s, lu.price, lu.qty, GTC))
          .WithIds(s, ids[lu.price := m.nextId])
    else if lu.qty == 0 then
      m1.Send(stp, Cancel(ids[lu.price])).WithIds(s, ids - {lu.price})
    else if lu.qty == OpenQty(m.book, ids[lu.price]) then m1
    else m1.Send(stp, Modify(ids[lu.price], lu.price, lu.qty))
  }

  /** Apply in order those updates that are reductions when their turn comes, or those that are not. */
  function Pass(stp: StpPolicy, m: Mirror, s: Side, lus: seq<LevelUpdate>, reductions: bool): Mirror
    decreases |lus|
  {
    if lus == [] then m
    else
      var m1, lu := Pass(stp, m, s, lus[..|lus| - 1], reductions), lus[|lus| - 1];
      if IsReduction(m1, s, lu) == reductions then ApplyLevel(stp, m1, s, lu) else m1
  }

  /** Removals and reductions on both sides, then additions and increases on both sides. */
  function ApplyDiff(stp: StpPolicy, m: Mirror, d: Diff): Mirror {
    var m1 := Pass(stp, m, Bid, d.bids, true);
    var m2 := Pass(stp, m1, Ask, d.asks, true);
    var m3 := Pass(stp, m2, Bid, d.bids, false);
    Pass(stp, m3, Ask, d.asks, false)
  }

  function ApplyLevels(stp: StpPolicy, m: Mirror, s: Side, lus: seq<LevelUpdate>): Mirror
    decreases |lus|
  {
    if lus == [] then m
    else ApplyLevel(stp, ApplyLevels(stp, m, s, lus[..|lus| - 1]), s, lus[|lus| - 1])
  }

  function ApplySnapshot(stp: StpPolicy, m: Mirror, snap: Snapshot): Mirror {
    ApplyLevels(stp, ApplyLevels(stp, m, Bid, snap.bids), Ask, snap.asks)
  }

  function EmptyMirror(idBase: OrderId): Mirror {
    Mirror(EmptyBook, [], map[], map[], idBase, 0)
  }
}
