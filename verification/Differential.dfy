/** The repository's differential test as a theorem: the intrusive engine and the naive reference
    receive the same stream and are compared after every message, and no comparison ever fails. */
module Differential {
  import opened Types
  import opened PriceTimeBook
  import opened MatchingEngines
  import opened ReferenceEngines

  /** Both engines answer every query alike, on the touch, one price and one id. */
  method CrossCheck(engine: MatchingEngine, ref: ReferenceEngine, s: Side, price: Price, id: OrderId) returns (agree: bool)
    requires engine.Valid() && ref.Valid() && engine.Contents() == ref.Contents()
    ensures agree
  {
    hide MatchingEngine.Valid, MatchingEngine.Contents, ReferenceEngine.Valid, ReferenceEngine.Contents;
    var eBest := engine.BestOf(s);
    var rBest := ref.BestOf(s);
    var eDepth := engine.DepthAt(s, price);
    var rDepth := ref.DepthAt(s, price);
    var eQty := engine.OpenQtyOf(id);
    var rQty := ref.OpenQtyOf(id);
    var eCount := engine.OpenOrderCount();
    var rCount := ref.OpenOrderCount();
    return eBest == rBest && eDepth == rDepth && eQty == rQty && eCount == rCount;
  }

  /** Feed both the stream; after each message compare return values, whole event logs, and the
      answers at the prices and ids given for that step. */
  method RunDifferential(stp: StpPolicy, ms: seq<Message>, prices: seq<Price>, ids: seq<OrderId>)
    returns (agree: bool, log: seq<Event>)
    requires |prices| == |ids| == |ms|
    ensures agree
    ensures log == Run(stp, EmptyBook, ms).1
  {
    hide MatchingEngine.Valid, ReferenceEngine.Valid, Step;
    var engine := new MatchingEngine(stp);
    var ref := new ReferenceEngine(stp);
    agree := true;
    for i := 0 to |ms|
      invariant engine.Valid() && ref.Valid() && fresh(engine.Repr()) && fresh(ref)
      invariant engine.Contents() == ref.Contents() == Run(stp, EmptyBook, ms[..i]).0
      invariant engine.events == ref.events == Run(stp, EmptyBook, ms[..i]).1
      invariant engine.stp == ref.stp == stp && ref !in engine.Repr()
      invariant agree
    {
      assert ms[..i + 1][..i] == ms[..i];
      var okEngine := engine.Apply(ms[i]);
      var okRef := ref.Apply(ms[i]);
      var bids := CrossCheck(engine, ref, Bid, prices[i], ids[i]);
      var asks := CrossCheck(engine, ref, Ask, prices[i], ids[i]);
      agree := agree && okEngine == okRef && engine.events == ref.events && bids && asks;
    }
    assert ms[..|ms|] == ms;
    log := engine.events;
  }
}
