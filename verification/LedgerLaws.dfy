/** What every audited stream obeys, hence every run of the engine: each life of an id ends exactly
    once, nothing names an id that is not open, and no quantity appears or vanishes. */
module LedgerLaws {
  import opened Types
  import opened PriceTimeBook
  import opened QueueLemmas
  import opened BookInvariants
  import opened Ledgers

  /** What the handler heard, without the amendments. */
  function Heard(log: seq<Entry>): seq<Event> {
    if log == [] then []
    else (if log[0].Told? then [log[0].event] else []) + Heard(log[1..])
  }

  lemma {:induction false} HeardConcat(a: seq<Entry>, b: seq<Entry>)
    ensures Heard(a + b) == Heard(a) + Heard(b)
    decreases |a|
  {
    if a == [] {
      assert a + b == b;
    } else {
      HeardConcat(a[1..], b);
      var ab := a + b;
      assert ab[0] == a[0] && ab[1..] == a[1..] + b;
    }
  }

  lemma {:induction false} HeardTell(es: seq<Event>)
    ensures Heard(Tell(es)) == es
  {
    if es != [] {
      assert es == [es[0]] + es[1..];
      TellCons(es[0], es[1..]);
      assert Tell(es)[1..] == Tell(es[1..]);
      HeardTell(es[1..]);
    }
  }

  /** The audited log is the engine's event stream, amendments aside. */
  lemma {:induction false} RunLogIsHeard(stp: StpPolicy, b: Book, ms: seq<Message>)
    ensures Heard(RunLog(stp, b, ms)) == Run(stp, b, ms).1
    decreases |ms|
  {
    if ms != [] {
      var init := ms[..|ms| - 1];
      var b', es := Run(stp, b, init).0, Step(stp, Run(stp, b, init).0, ms[|ms| - 1]).events;
      RunLogIsHeard(stp, b, init);
      HeardConcat(RunLog(stp, b, init), StepLog(stp, b', ms[|ms| - 1]));
      HeardTell(es);
      if StepLog(stp, b', ms[|ms| - 1]) != Tell(es) {
        var amend := StepLog(stp, b', ms[|ms| - 1])[0];
        HeardConcat([amend], Tell(es));
      }
    }
  }

  // ---- lifecycle ----

  function Accepts(log: seq<Entry>, id: OrderId): nat {
    if log == [] then 0
    else (if log[0].Told? && log[0].event.Accepted? && log[0].event.id == id then 1 else 0) + Accepts(log[1..], id)
  }

  function Cancels(log: seq<Entry>, id: OrderId): nat {
    if log == [] then 0
    else (if log[0].Told? && log[0].event.Cancelled? && log[0].event.id == id then 1 else 0) + Cancels(log[1..], id)
  }

  predicate IsTradeOf(e: Entry, id: OrderId) {
    e.Told? && e.event.Traded? && (e.event.taker == id || e.event.maker == id)
  }

  /** How often a trade fills `id` to the last unit. */
  function CompleteFills(l: Ledger, log: seq<Entry>, id: OrderId): nat
    requires Audit(l, log).Some?
    decreases |log|
  {
    if log == [] then 0
    else
      (if IsTradeOf(log[0], id) && id !in Post(l, log[0]) then 1 else 0) + CompleteFills(Post(l, log[0]), log[1..], id)
  }

  function Open(l: Ledger, id: OrderId): nat {
    if id in l then 1 else 0
  }

  /** Every acceptance is answered by exactly one end, a complete fill or a cancel, or is still open. */
  lemma {:induction false} LivesEndOnce(l: Ledger, log: seq<Entry>, id: OrderId)
    requires Audit(l, log).Some?
    ensures Open(l, id) + Accepts(log, id)
            == Cancels(log, id) + CompleteFills(l, log, id) + Open(Audit(l, log).value, id)
    decreases |log|
  {
    if log != [] {
      LivesEndOnce(Post(l, log[0]), log[1..], id);
    }
  }

  /** The ledger is legal at every point of a legal stream, and so is the entry that comes next. */
  lemma {:induction false} LegalThroughout(l: Ledger, log: seq<Entry>, i: nat)
    requires Audit(l, log).Some? && i < |log|
    ensures Audit(l, log[..i]).Some? && Legal(Audit(l, log[..i]).value, log[i])
    decreases |log|
  {
    if i > 0 {
      LegalThroughout(Post(l, log[0]), log[1..], i - 1);
      assert log[..i][1..] == log[1..][..i - 1];
    }
  }

  /** In a run from the empty book an id is accepted as often as it is cancelled or filled, plus one
      while it rests. */
  lemma {:induction false} RunLivesEndOnce(stp: StpPolicy, ms: seq<Message>, id: OrderId)
    ensures var log, b := RunLog(stp, EmptyBook, ms), Run(stp, EmptyBook, ms).0;
      && Audit(map[], log).Some?
      && Accepts(log, id) == Cancels(log, id) + CompleteFills(map[], log, id) + (if b.Locate(id).Some? then 1 else 0)
  {
    RunPosts(stp, ms);
    EmptyGood();
    RunGood(stp, EmptyBook, ms);
    var b := Run(stp, EmptyBook, ms).0;
    LivesEndOnce(map[], RunLog(stp, EmptyBook, ms), id);
    OpenKeysIn(b);
    LocateIds(b, id);
  }

  /** Which orders an event other than a reject is about. */
  function Subjects(e: Event): set<OrderId> {
    match e
    case Accepted(_, _, _, _) => {}
    case Traded(taker, maker, _, _, _) => {taker, maker}
    case Cancelled(id, _) => {id}
    case Rejected(_, _) => {}
  }

  /** At every point of every run, trades and cancels name only orders that are open just then, and
      an acceptance only an id that is not. */
  lemma {:induction false} RunNamesOpenOrders(stp: StpPolicy, ms: seq<Message>, i: nat)
    requires i < |RunLog(stp, EmptyBook, ms)| && RunLog(stp, EmptyBook, ms)[i].Told?
    ensures var log := RunLog(stp, EmptyBook, ms);
      && Audit(map[], log[..i]).Some?
      && Subjects(log[i].event) <= Audit(map[], log[..i]).value.Keys
      && (log[i].event.Accepted? ==> log[i].event.id !in Audit(map[], log[..i]).value)
  {
    RunPosts(stp, ms);
    LegalThroughout(map[], RunLog(stp, EmptyBook, ms), i);
  }

  // ---- conservation ----

  ghost function Sum(l: Ledger): nat
    decreases |l|
  {
    if l == map[] then 0 else
      var id :| id in l;
      assert |l - {id}| < |l| by { Smaller(l, id); }
      l[id] + Sum(l - {id})
  }

  lemma {:induction false} Smaller(l: Ledger, id: OrderId)
    requires id in l
    ensures |l - {id}| < |l|
  {
    assert (l - {id}).Keys == l.Keys - {id};
    assert |(l - {id}).Keys| == |l.Keys| - 1;
  }

  lemma {:induction false} SumDrop(l: Ledger, id: OrderId)
    requires id in l
    ensures Sum(l) == l[id] + Sum(l - {id})
    decreases |l|
  {
    var first :| first in l && Sum(l) == l[first] + Sum(l - {first});
    if first != id {
      Smaller(l, first);
      SumDrop(l - {first}, id);
      SumDrop'(l, first, id);
    }
  }

  lemma {:induction false} SumDrop'(l: Ledger, first: OrderId, id: OrderId)
    requires id in l && first in l && first != id
    ensures Sum(l - {id}) == l[first] + Sum((l - {first}) - {id})
    decreases |l|, 0
  {
    Smaller(l, id);
    assert (l - {id}) - {first} == (l - {first}) - {id};
    SumDrop(l - {id}, first);
  }

  lemma {:induction false} SumSet(l: Ledger, id: OrderId, qty: Qty)
    ensures Sum(l[id := qty]) == qty + Sum(l) - (if id in l then l[id] else 0)
  {
    SumDrop(l[id := qty], id);
    assert l[id := qty] - {id} == l - {id};
    if id in l {
      SumDrop(l, id);
    } else {
      assert l - {id} == l;
    }
  }

  lemma {:induction false} SumOf(q: Queue)
    requires Distinct(q)
    ensures Sum(OpenOf(q)) == Total(q)
  {
    if q != [] {
      OpenHead(q);
      OpenKeys(q[1..]);
      SumOf(q[1..]);
      SumSet(OpenOf(q[1..]), q[0].id, q[0].qty);
    }
  }

  lemma {:induction false} SumUnion(a: Ledger, q: Queue)
    requires Distinct(q) && a.Keys !! Ids(q)
    ensures Sum(a + OpenOf(q)) == Sum(a) + Total(q)
  {
    if q == [] {
      assert a + OpenOf(q) == a;
    } else {
      OpenHead(q);
      OpenKeys(q[1..]);
      SumUnion(a, q[1..]);
      UnionSet(a, OpenOf(q[1..]), q[0].id, q[0].qty);
      SumSet(a + OpenOf(q[1..]), q[0].id, q[0].qty);
    }
  }

  /** What rests in a book is what its ledger holds. */
  lemma {:induction false} SumOpenIn(b: Book)
    requires Good(b)
    ensures Sum(OpenIn(b)) == Total(b.bids) + Total(b.asks)
  {
    OpenKeys(b.bids);
    SumOf(b.bids);
    SumUnion(OpenOf(b.bids), b.asks);
  }

  function AcceptedQty(log: seq<Entry>): Qty {
    if log == [] then 0
    else (if log[0].Told? && log[0].event.Accepted? then log[0].event.qty else 0) + AcceptedQty(log[1..])
  }

  function TradedQty(log: seq<Entry>): Qty {
    if log == [] then 0
    else (if log[0].Told? && log[0].event.Traded? then log[0].event.qty else 0) + TradedQty(log[1..])
  }

  /** Net change by modifies to a nonzero quantity. */
  function AmendedQty(l: Ledger, log: seq<Entry>): int
    requires Audit(l, log).Some?
    decreases |log|
  {
    if log == [] then 0
    else (if log[0].Amended? then log[0].qty - l[log[0].id] else 0) + AmendedQty(Post(l, log[0]), log[1..])
  }

  /** What cancels for one reason took out of the book. */
  function KilledQty(l: Ledger, log: seq<Entry>, why: CancelReason): Qty
    requires Audit(l, log).Some?
    decreases |log|
  {
    if log == [] then 0
    else
      (if log[0].Told? && log[0].event.Cancelled? && log[0].event.reason == why then l[log[0].event.id] else 0)
      + KilledQty(Post(l, log[0]), log[1..], why)
  }

  function AllKilled(l: Ledger, log: seq<Entry>): Qty
    requires Audit(l, log).Some?
  {
    KilledQty(l, log, User) + KilledQty(l, log, IocRemainder)
    + KilledQty(l, log, MarketRemainder) + KilledQty(l, log, SelfTradePrevention)
  }

  lemma {:induction false} SumTake(l: Ledger, id: OrderId, qty: Qty)
    requires id in l && qty <= l[id]
    ensures Sum(Take(l, id, qty)) == Sum(l) - qty
  {
    SumDrop(l, id);
    SumSet(l, id, l[id] - qty);
  }

  /** How one entry moves the open total. */
  function Moved(l: Ledger, e: Entry): int
    requires Legal(l, e)
  {
    match e
    case Amended(id, qty) => qty - l[id]
    case Told(Accepted(_, _, _, qty)) => qty
    case Told(Traded(_, _, _, qty, _)) => -2 * qty
    case Told(Cancelled(id, _)) => -(l[id] as int)
    case Told(Rejected(_, _)) => 0
  }

  lemma {:induction false} PostConserves(l: Ledger, e: Entry)
    requires Legal(l, e)
    ensures Sum(Post(l, e)) == Sum(l) + Moved(l, e)
  {
    match e
    case Amended(id, qty) => SumSet(l, id, qty);
    case Told(Accepted(id, _, _, qty)) => SumSet(l, id, qty);
    case Told(Traded(taker, maker, _, qty, _)) =>
      SumTake(l, taker, qty);
      SumTake(Take(l, taker, qty), maker, qty);
    case Told(Cancelled(id, _)) => SumDrop(l, id);
    case Told(Rejected(_, _)) =>
  }

  /** Along any legal stream: opened + accepted + amended = twice traded + killed + still open. */
  lemma {:induction false} Conservation(l: Ledger, log: seq<Entry>)
    requires Audit(l, log).Some?
    ensures Sum(l) + AcceptedQty(log) + AmendedQty(l, log)
            == 2 * TradedQty(log) + AllKilled(l, log) + Sum(Audit(l, log).value)
    decreases |log|
  {
    if log != [] {
      PostConserves(l, log[0]);
      Conservation(Post(l, log[0]), log[1..]);
    }
  }

  /** Along every run from the empty book, whatever the policy. */
  lemma {:induction false} RunConserves(stp: StpPolicy, ms: seq<Message>)
    ensures var log, b := RunLog(stp, EmptyBook, ms), Run(stp, EmptyBook, ms).0;
      && Audit(map[], log).Some?
      && AcceptedQty(log) + AmendedQty(map[], log)
         == 2 * TradedQty(log) + AllKilled(map[], log) + Total(b.bids) + Total(b.asks)
  {
    RunPosts(stp, ms);
    EmptyGood();
    RunGood(stp, EmptyBook, ms);
    Conservation(map[], RunLog(stp, EmptyBook, ms));
    SumOpenIn(Run(stp, EmptyBook, ms).0);
  }
}
