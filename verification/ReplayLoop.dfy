/** The replay as the code runs it: a mirrored book that is seeded and then fed diffs, and the loop
    that compares it with later snapshots. */
module ReplayLoops {
  import opened Types
  import opened PriceTimeBook
  import opened MatchingEngines
  import opened IntrusiveBook
  import opened BookMirrors
  import Mirrors
  import Replay
  import ReplayTargets

  /** A new engine and a mirror over it, filled from the snapshot. */
  method NewMirror(snap: Mirrors.Snapshot) returns (m: BookMirror)
    ensures m.Valid() && m.engine.stp == Allow && fresh(m) && fresh(m.engine.Repr())
    ensures m.State() == Mirrors.ApplySnapshot(Allow, Mirrors.EmptyMirror(1), snap)
  {
    hide MatchingEngine.Valid, MatchingEngine.Contents, Mirrors.ApplySnapshot;
    var engine := new MatchingEngine(Allow);
    m := new BookMirror(engine, 1);
    m.ApplySnapshot(snap);
  }

  class MirroredBook {
    var mirror: BookMirror
    var lastU: nat
    var synced: bool

    ghost function Repr(): set<object>
      reads this, mirror, mirror.engine, mirror.engine.bids, mirror.engine.asks
    {
      {mirror} + mirror.engine.Repr()
    }

    ghost predicate Valid()
      reads this, mirror, mirror.engine, mirror.engine.bids, mirror.engine.asks, mirror.engine.bids.repr, mirror.engine.asks.repr
    {
      mirror.Valid() && mirror.engine.stp == Allow && this !in Repr()
    }

    ghost function State(): Replay.Local
      reads this, mirror, mirror.engine, mirror.engine.bids, mirror.engine.asks
    {
      Replay.Local(mirror.State(), lastU, synced)
    }

    /** Seeding replaces engine and mirror by new ones filled from the snapshot. */
    constructor Seed(snap: Mirrors.Snapshot)
      ensures Valid() && fresh(Repr()) && State() == Replay.Seed(snap)
    {
      hide MatchingEngine.Valid, MatchingEngine.Contents, Mirrors.ApplySnapshot;
      var m := NewMirror(snap);
      mirror := m;
      lastU := snap.lastUpdateId;
      synced := false;
    }

    method Apply(d: Mirrors.Diff) returns (verdict: Replay.Verdict)
      requires Valid()
      modifies this, Repr()
      ensures Valid() && mirror == old(mirror) && fresh(Repr() - old(Repr()))
      ensures verdict == Replay.Judge(old(State()), d) && State() == Replay.Receive(old(State()), d)
    {
      hide MatchingEngine.Valid, Mirrors.ApplyDiff;
      if d.lastId <= lastU {
        return Replay.Skipped;
      }
      verdict := Replay.Applied;
      if !synced {
        if d.firstId > lastU + 1 {
          verdict := Replay.Gap;
        }
        synced := true;
      } else if d.firstId != lastU + 1 {
        verdict := Replay.Gap;
      }
      mirror.ApplyDiff(d);
      lastU := d.lastId;
    }
  }

  class ReplayLoop {
    const book: MirroredBook
    var targets: seq<Mirrors.Snapshot>
    ghost var checks: seq<ReplayTargets.Check>
    var unreachable: nat

    constructor (book: MirroredBook, targets: seq<Mirrors.Snapshot>)
      requires book.Valid()
      ensures this.book == book && book.Repr() == old(book.Repr())
      ensures State() == ReplayTargets.Progress(book.State(), targets, [], 0)
      ensures Valid()
    {
      this.book := book;
      this.targets := targets;
      checks, unreachable := [], 0;
    }

    ghost predicate Valid()
      reads this, book, book.mirror, book.mirror.engine, book.mirror.engine.bids, book.mirror.engine.asks,
            book.mirror.engine.bids.repr, book.mirror.engine.asks.repr
    {
      book.Valid() && this !in book.Repr()
    }

    ghost function State(): ReplayTargets.Progress
      reads this, book, book.mirror, book.mirror.engine, book.mirror.engine.bids, book.mirror.engine.asks
    {
      ReplayTargets.Progress(book.State(), targets, checks, unreachable)
    }

    /** Retire the targets that are due; a comparison records the book it saw. */
    method Settle()
      requires Valid()
      modifies this
      ensures Valid() && State() == ReplayTargets.Settle(old(State()))
    {
      hide MirroredBook.Valid;
      while targets != [] && targets[0].lastUpdateId <= book.lastU
        invariant Valid() && ReplayTargets.Settle(State()) == ReplayTargets.Settle(old(State()))
        decreases |targets|
      {
        if targets[0].lastUpdateId == book.lastU {
          checks := checks + [ReplayTargets.Check(targets[0], book.mirror.engine.Contents())];
        } else {
          unreachable := unreachable + 1;
        }
        targets := targets[1..];
      }
    }

    method OnDiff(d: Mirrors.Diff)
      requires Valid()
      modifies this, book, book.Repr()
      ensures Valid() && fresh(book.Repr() - old(book.Repr()))
      ensures State() == ReplayTargets.Take(old(State()), d)
    {
      hide MirroredBook.Valid, ReplayTargets.Settle, Replay.Judge, Mirrors.ApplyDiff;
      var verdict := book.Apply(d);
      if verdict != Replay.Skipped {
        Settle();
      }
    }
  }
}
