/** A whole capture, record by record: the pre-scan for target snapshots, the seed, and the diffs,
    in whatever order the file has them. */
module ReplayFiles {
  import opened Types
  import opened PriceTimeBook
  import opened Mirrors
  import opened MirrorDiffs
  import opened Replay
  import opened ReplayTargets
  import opened ReplayLoops

  /** Trade prints are not for the mirror. */
  datatype Record = SnapshotRecord(snap: Snapshot) | DiffRecord(diff: Diff) | TradeRecord

  /** An ordered map by update id; the first snapshot of an id stays. */
  function Emplace(ts: seq<Snapshot>, s: Snapshot): seq<Snapshot> {
    if ts == [] || s.lastUpdateId < ts[0].lastUpdateId then [s] + ts
    else if s.lastUpdateId == ts[0].lastUpdateId then ts
    else [ts[0]] + Emplace(ts[1..], s)
  }

  function Drop(ts: seq<Snapshot>, id: nat): seq<Snapshot> {
    if ts == [] then []
    else if ts[0].lastUpdateId == id then ts[1..]
    else [ts[0]] + Drop(ts[1..], id)
  }

  function Prescan(records: seq<Record>): seq<Snapshot>
    decreases |records|
  {
    if records == [] then []
    else
      var ts, r := Prescan(records[..|records| - 1]), records[|records| - 1];
      if r.SnapshotRecord? then Emplace(ts, r.snap) else ts
  }

  /** The replay of `records` with targets `ts`: nothing before the first snapshot, which seeds. */
  function ReplayRecords(ts: seq<Snapshot>, records: seq<Record>): Option<Progress>
    decreases |records|
  {
    if records == [] then None
    else
      var p := ReplayRecords(ts, records[..|records| - 1]);
      match records[|records| - 1]
      case SnapshotRecord(s) =>
        if p.Some? then p else Some(Progress(Seed(s), Drop(ts, s.lastUpdateId), [], 0))
      case DiffRecord(d) => if p.Some? then Some(Take(p.value, d)) else None
      case TradeRecord => p
  }

  // ---- the targets ----

  ghost predicate Among(s: Snapshot, ts: seq<Snapshot>) {
    exists i :: 0 <= i < |ts| && ts[i] == s
  }

  ghost predicate HasId(ts: seq<Snapshot>, id: nat) {
    exists i :: 0 <= i < |ts| && ts[i].lastUpdateId == id
  }

  lemma {:induction false} Cons(t: Snapshot, ts: seq<Snapshot>)
    ensures forall s :: Among(s, [t] + ts) <==> s == t || Among(s, ts)
    ensures forall id :: HasId([t] + ts, id) <==> t.lastUpdateId == id || HasId(ts, id)
    ensures Ascending(ts) && (forall i :: 0 <= i < |ts| ==> t.lastUpdateId < ts[i].lastUpdateId) ==> Ascending([t] + ts)
  {
    var us := [t] + ts;
    assert us[0] == t && forall i :: 0 <= i < |ts| ==> us[i + 1] == ts[i];
  }

  lemma {:induction false} EmplaceIs(ts: seq<Snapshot>, s: Snapshot)
    requires Ascending(ts)
    ensures Ascending(Emplace(ts, s))
    ensures forall id :: HasId(Emplace(ts, s), id) <==> HasId(ts, id) || id == s.lastUpdateId
    ensures forall t :: Among(t, Emplace(ts, s)) <==> Among(t, ts) || (t == s && !HasId(ts, s.lastUpdateId))
  {
    if ts == [] || s.lastUpdateId < ts[0].lastUpdateId {
      Cons(s, ts);
      hide Among;
    } else {
      var rest := ts[1..];
      assert ts == [ts[0]] + rest;
      assert Ascending(rest) && forall i :: 0 <= i < |rest| ==> ts[0].lastUpdateId < rest[i].lastUpdateId;
      Cons(ts[0], rest);
      if s.lastUpdateId > ts[0].lastUpdateId {
        EmplaceIs(rest, s);
        Cons(ts[0], Emplace(rest, s));
        Later(ts[0], Emplace(rest, s));
      }
      hide Among, HasId;
    }
  }

  lemma {:induction false} Later(t: Snapshot, ts: seq<Snapshot>)
    requires forall id :: HasId(ts, id) ==> t.lastUpdateId < id
    ensures forall i :: 0 <= i < |ts| ==> t.lastUpdateId < ts[i].lastUpdateId
  {
    forall i | 0 <= i < |ts| ensures t.lastUpdateId < ts[i].lastUpdateId {
      assert HasId(ts, ts[i].lastUpdateId);
    }
  }

  ghost predicate Listed(records: seq<Record>, s: Snapshot) {
    exists i :: 0 <= i < |records| && records[i] == SnapshotRecord(s)
  }

  ghost predicate ListedId(records: seq<Record>, id: nat) {
    exists i :: 0 <= i < |records| && records[i].SnapshotRecord? && records[i].snap.lastUpdateId == id
  }

  /** The snapshot is the first of its id in the file. */
  ghost predicate FirstListed(records: seq<Record>, s: Snapshot) {
    exists i :: 0 <= i < |records| && records[i] == SnapshotRecord(s)
      && forall j :: 0 <= j < i && records[j].SnapshotRecord? ==> records[j].snap.lastUpdateId != s.lastUpdateId
  }

  lemma {:induction false} FirstListedMore(records: seq<Record>, s: Snapshot)
    requires records != []
    ensures var front, r := records[..|records| - 1], records[|records| - 1];
      FirstListed(records, s) <==> FirstListed(front, s) || (r == SnapshotRecord(s) && !ListedId(front, s.lastUpdateId))
  {
    var n := |records| - 1;
    var front := records[..n];
    assert forall i :: 0 <= i < n ==> front[i] == records[i];
    if FirstListed(records, s) {
      var i :| 0 <= i < |records| && records[i] == SnapshotRecord(s)
        && forall j :: 0 <= j < i && records[j].SnapshotRecord? ==> records[j].snap.lastUpdateId != s.lastUpdateId;
      if i < n {
        assert front[i] == SnapshotRecord(s);
      }
    }
    if FirstListed(front, s) {
      var i :| 0 <= i < n && front[i] == SnapshotRecord(s)
        && forall j :: 0 <= j < i && front[j].SnapshotRecord? ==> front[j].snap.lastUpdateId != s.lastUpdateId;
      assert records[i] == SnapshotRecord(s);
    }
  }

  lemma {:induction false} Front(records: seq<Record>)
    requires records != []
    ensures var front, r := records[..|records| - 1], records[|records| - 1];
      && (forall s :: Listed(records, s) <==> Listed(front, s) || r == SnapshotRecord(s))
      && (forall id :: ListedId(records, id) <==> ListedId(front, id) || (r.SnapshotRecord? && r.snap.lastUpdateId == id))
  {
    var n := |records| - 1;
    assert forall i :: 0 <= i < n ==> records[..n][i] == records[i];
  }

  /** The targets are snapshots of the file, the first of every id, in order. */
  lemma {:induction false} PrescanIs(records: seq<Record>)
    ensures Ascending(Prescan(records))
    ensures forall s :: Among(s, Prescan(records)) <==> FirstListed(records, s)
    ensures forall s :: Among(s, Prescan(records)) ==> Listed(records, s)
    ensures forall id :: HasId(Prescan(records), id) <==> ListedId(records, id)
    decreases |records|
  {
    if records != [] {
      var front, r := records[..|records| - 1], records[|records| - 1];
      PrescanIs(front);
      Front(records);
      if r.SnapshotRecord? {
        EmplaceIs(Prescan(front), r.snap);
      }
      hide Among, HasId, Listed, ListedId, Ascending, Emplace, FirstListed;
      forall s ensures FirstListed(records, s) <==> FirstListed(front, s) || (r == SnapshotRecord(s) && !ListedId(front, s.lastUpdateId)) {
        FirstListedMore(records, s);
      }
    }
  }

  lemma {:induction false} DropIs(ts: seq<Snapshot>, id: nat)
    requires Ascending(ts)
    ensures Ascending(Drop(ts, id))
    ensures forall s :: Among(s, Drop(ts, id)) ==> Among(s, ts)
    ensures forall x :: HasId(Drop(ts, id), x) <==> HasId(ts, x) && x != id
    ensures |Drop(ts, id)| == |ts| - if HasId(ts, id) then 1 else 0
  {
    if ts != [] {
      var rest := ts[1..];
      assert ts == [ts[0]] + rest;
      assert Ascending(rest) && forall i :: 0 <= i < |rest| ==> ts[0].lastUpdateId < rest[i].lastUpdateId;
      Cons(ts[0], rest);
      if ts[0].lastUpdateId != id {
        DropIs(rest, id);
        Cons(ts[0], Drop(rest, id));
        AllLater(ts[0], rest);
        Later(ts[0], Drop(rest, id));
      } else {
        AllLater(ts[0], rest);
      }
      hide Among, HasId;
    }
  }

  lemma {:induction false} AllLater(t: Snapshot, ts: seq<Snapshot>)
    requires forall i :: 0 <= i < |ts| ==> t.lastUpdateId < ts[i].lastUpdateId
    ensures forall id :: HasId(ts, id) ==> t.lastUpdateId < id
  {
  }

  // ---- the records ----

  function FirstSnapshot(records: seq<Record>): Option<Snapshot>
    decreases |records|
  {
    if records == [] then None
    else
      var before, r := FirstSnapshot(records[..|records| - 1]), records[|records| - 1];
      if before.Some? then before else if r.SnapshotRecord? then Some(r.snap) else None
  }

  /** The diffs behind the first snapshot. */
  function DiffsAfter(records: seq<Record>): seq<Diff>
    decreases |records|
  {
    if records == [] then []
    else
      var front, r := records[..|records| - 1], records[|records| - 1];
      DiffsAfter(front) + if FirstSnapshot(front).Some? && r.DiffRecord? then [r.diff] else []
  }

  /** The replay is that of the first snapshot and the diffs behind it. */
  lemma {:induction false} ReplayRecordsIs(ts: seq<Snapshot>, records: seq<Record>)
    ensures var seed := FirstSnapshot(records);
      && (seed.None? ==> ReplayRecords(ts, records) == None && DiffsAfter(records) == [])
      && (seed.Some? ==>
            var p0 := Progress(Seed(seed.value), Drop(ts, seed.value.lastUpdateId), [], 0);
            ReplayRecords(ts, records) == Some(TakeAll(p0, DiffsAfter(records))))
    decreases |records|
  {
    hide Seed, Take, Drop;
    if records != [] {
      var front, r := records[..|records| - 1], records[|records| - 1];
      ReplayRecordsIs(ts, front);
      var ds := DiffsAfter(front);
      assert ds + [] == ds;
      if r.DiffRecord? {
        assert (ds + [r.diff])[..|ds|] == ds;
      }
    }
  }

  lemma {:induction false} HitsHas(ts: seq<Snapshot>, marks: set<nat>, id: nat)
    ensures HasId(Hits(ts, marks), id) <==> HasId(ts, id) && id in marks
    decreases |ts|
  {
    if ts != [] {
      var front, t := ts[..|ts| - 1], ts[|ts| - 1];
      HitsHas(front, marks, id);
      assert ts == front + [t];
      Snoc(front, t, id);
      Snoc(Hits(front, marks), t, id);
      hide HasId;
      assert Hits(front, marks) + [] == Hits(front, marks);
    }
  }

  lemma {:induction false} Snoc(ts: seq<Snapshot>, t: Snapshot, id: nat)
    ensures HasId(ts + [t], id) <==> HasId(ts, id) || t.lastUpdateId == id
  {
    assert (ts + [t])[|ts|] == t && forall i :: 0 <= i < |ts| ==> (ts + [t])[i] == ts[i];
  }

  /** The ids compared are those of the targets at which some applied diff ends. */
  lemma {:induction false} ComparedIds(p: Progress, p0: Progress, marks: set<nat>, k: nat, id: nat)
    requires OnTrack(p, p0, marks, k)
    ensures HasId(Compared(p.checks), id) <==> HasId(p0.targets, id) && id in marks
  {
    var ts := p0.targets;
    HitsHas(ts[..k], marks, id);
    if HasId(ts[..k], id) {
      var i :| 0 <= i < k && ts[..k][i].lastUpdateId == id;
      assert ts[i].lastUpdateId == id;
    }
    if HasId(ts, id) && id in marks {
      var i :| 0 <= i < |ts| && ts[i].lastUpdateId == id;
      assert i < k && ts[..k][i] == ts[i];
    }
  }

  /** A capture of a gap-free stream, its snapshots anywhere among the diffs: no comparison finds a
      mismatch, none fails but of an empty book, and the snapshots compared are exactly those, but
      the seed's, at whose id an applied diff ends; all but the seed's are accounted for. */
  lemma {:induction false} CaptureValidates(hist: History, records: seq<Record>)
    requires FirstSnapshot(records).Some? && !Gapped(Seed(FirstSnapshot(records).value), DiffsAfter(records))
    requires forall s :: Listed(records, s) ==> Lists(hist, s)
    requires forall i :: 0 <= i < |records| && records[i].DiffRecord? ==> Reports(hist, records[i].diff)
    ensures var seed, p := FirstSnapshot(records).value, ReplayRecords(Prescan(records), records);
      && p.Some? && AllPass(p.value.checks)
      && forall id :: HasId(Compared(p.value.checks), id) <==>
           ListedId(records, id) && id != seed.lastUpdateId && id in Marks(Seed(seed), DiffsAfter(records))
    ensures var p := ReplayRecords(Prescan(records), records).value;
      p.unreachable + |p.checks| + |p.targets| == |Prescan(records)| - 1
  {
    var seed, ds := FirstSnapshot(records).value, DiffsAfter(records);
    var ts := Drop(Prescan(records), seed.lastUpdateId);
    FirstIsListed(records);
    DiffsAreListed(records);
    PrescanIs(records);
    assert HasId(Prescan(records), seed.lastUpdateId);
    DropIs(Prescan(records), seed.lastUpdateId);
    ReplayRecordsIs(Prescan(records), records);
    hide Seed, Gapped, Lists, Reports, Drop, Prescan, Listed, ListedId, TakeAll, AllPass;
    forall i | 0 <= i < |ts| ensures Lists(hist, ts[i]) {
      assert Among(ts[i], ts);
    }
    hide HasId, Among, Ascending;
    EveryCheckPasses(hist, seed, ts, ds);
    var k := TargetsAccounted(Seed(seed), ts, ds);
    var p0 := Progress(Seed(seed), ts, [], 0);
    assert |TakeAll(p0, ds).targets| == |ts| - k;
    hide OnTrack, Marks;
    forall id ensures HasId(Compared(TakeAll(p0, ds).checks), id) <==> HasId(ts, id) && id in Marks(Seed(seed), ds) {
      ComparedIds(TakeAll(p0, ds), p0, Marks(Seed(seed), ds), k, id);
    }
  }

  lemma {:induction false} FirstIsListed(records: seq<Record>)
    requires FirstSnapshot(records).Some?
    ensures Listed(records, FirstSnapshot(records).value)
    decreases |records|
  {
    var front := records[..|records| - 1];
    Front(records);
    if FirstSnapshot(front).Some? {
      FirstIsListed(front);
    }
  }

  lemma {:induction false} DiffsAreListed(records: seq<Record>)
    ensures forall i :: 0 <= i < |DiffsAfter(records)| ==> DiffRecord(DiffsAfter(records)[i]) in records
    decreases |records|
  {
    if records != [] {
      DiffsAreListed(records[..|records| - 1]);
    }
  }

  // ---- the loop over the file ----

  method ScanTargets(records: seq<Record>) returns (targets: seq<Snapshot>)
    ensures targets == Prescan(records)
  {
    targets := [];
    for i := 0 to |records|
      invariant targets == Prescan(records[..i])
    {
      assert records[..i + 1][..i] == records[..i];
      if records[i].SnapshotRecord? {
        targets := Emplace(targets, records[i].snap);
      }
    }
    assert records[..|records|] == records;
  }

  method ReplayFile(records: seq<Record>) returns (loop: ReplayLoop?)
    ensures loop == null <==> ReplayRecords(Prescan(records), records) == None
    ensures loop != null ==> loop.Valid() && Some(loop.State()) == ReplayRecords(Prescan(records), records)
  {
    hide MirroredBook.Valid, MirroredBook.State, ReplayLoop.Valid, ReplayLoop.State, Prescan, Seed, Take, Drop, ReplayRecords;
    var targets := ScanTargets(records);
    NoRecords(targets);
    assert records[..|records|] == records;
    loop := null;
    for i := 0 to |records|
      invariant loop == null <==> ReplayRecords(targets, records[..i]) == None
      invariant loop != null ==> loop.Valid() && fresh(loop) && fresh(loop.book) && fresh(loop.book.Repr())
      invariant loop != null ==> Some(loop.State()) == ReplayRecords(targets, records[..i])
    {
      NextRecord(targets, records, i);
      if records[i].SnapshotRecord? && loop == null {
        loop := Start(records[i].snap, targets);
      } else if records[i].DiffRecord? && loop != null {
        loop.OnDiff(records[i].diff);
      }
    }
  }

  lemma {:induction false} NoRecords(ts: seq<Snapshot>)
    ensures ReplayRecords(ts, []) == None
  {
  }

  lemma {:induction false} NextRecord(ts: seq<Snapshot>, records: seq<Record>, i: nat)
    requires i < |records|
    ensures var p := ReplayRecords(ts, records[..i]);
      ReplayRecords(ts, records[..i + 1]) == match records[i] {
        case SnapshotRecord(s) => if p.Some? then p else Some(Progress(Seed(s), Drop(ts, s.lastUpdateId), [], 0))
        case DiffRecord(d) => if p.Some? then Some(Take(p.value, d)) else None
        case TradeRecord => p
      }
  {
    assert records[..i + 1][..i] == records[..i];
    hide Seed, Take, Drop;
  }

  /** The first snapshot seeds the book, and is not a target itself. */
  method Start(snap: Snapshot, targets: seq<Snapshot>) returns (loop: ReplayLoop)
    ensures loop.Valid() && fresh(loop) && fresh(loop.book) && fresh(loop.book.Repr())
    ensures loop.State() == Progress(Seed(snap), Drop(targets, snap.lastUpdateId), [], 0)
  {
    hide MirroredBook.Valid, MirroredBook.State, Seed, Drop;
    var book := new MirroredBook.Seed(snap);
    loop := new ReplayLoop(book, Drop(targets, snap.lastUpdateId));
  }
}
