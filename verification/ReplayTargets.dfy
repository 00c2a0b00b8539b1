/** Checking the replayed book against later snapshots, each at its own sequence point. */
module ReplayTargets {
  import opened Types
  import opened PriceTimeBook
  import opened Mirrors
  import opened MirrorDiffs
  import opened DiffTheorems
  import opened Replay

  /** A comparison made: a snapshot with the book as it was when the snapshot fell due. */
  datatype Check = Check(snap: Snapshot, book: Book)

  /** A replay under way; `unreachable` counts snapshots passed over without a comparison. */
  datatype Progress = Progress(local: Local, targets: seq<Snapshot>, checks: seq<Check>, unreachable: nat)

  /** Retire every target the last update id has reached: compared if it was met, else unreachable. */
  function Settle(p: Progress): Progress
    decreases |p.targets|
  {
    if p.targets == [] || p.targets[0].lastUpdateId > p.local.lastU then p
    else if p.targets[0].lastUpdateId == p.local.lastU then
      Settle(p.(targets := p.targets[1..], checks := p.checks + [Check(p.targets[0], p.local.mirror.book)]))
    else
      Settle(p.(targets := p.targets[1..], unreachable := p.unreachable + 1))
  }

  function Take(p: Progress, d: Diff): Progress {
    if Judge(p.local, d) == Skipped then p else Settle(p.(local := Receive(p.local, d)))
  }

  function TakeAll(p: Progress, ds: seq<Diff>): Progress
    decreases |ds|
  {
    if ds == [] then p else Take(TakeAll(p, ds[..|ds| - 1]), ds[|ds| - 1])
  }

  ghost predicate Ascending(ts: seq<Snapshot>) {
    forall i, j :: 0 <= i < j < |ts| ==> ts[i].lastUpdateId < ts[j].lastUpdateId
  }

  /** The last update ids at which an applied diff ended. */
  ghost function Marks(l: Local, ds: seq<Diff>): set<nat>
    decreases |ds|
  {
    if ds == [] then {}
    else
      var before := Follow(l, ds[..|ds| - 1]);
      Marks(l, ds[..|ds| - 1]) + if Judge(before, ds[|ds| - 1]) == Skipped then {} else {ds[|ds| - 1].lastId}
  }

  /** Those of `ts` whose sequence point is marked. */
  ghost function Hits(ts: seq<Snapshot>, marks: set<nat>): seq<Snapshot>
    decreases |ts|
  {
    if ts == [] then []
    else
      var t := ts[|ts| - 1];
      Hits(ts[..|ts| - 1], marks) + if t.lastUpdateId in marks then [t] else []
  }

  function Compared(checks: seq<Check>): seq<Snapshot>
    decreases |checks|
  {
    if checks == [] then [] else Compared(checks[..|checks| - 1]) + [checks[|checks| - 1].snap]
  }

  // ---- retiring ----

  /** Of `ts`, the first `k` are retired by the last update id `u`. */
  ghost predicate Retired(ts: seq<Snapshot>, k: nat, u: nat) {
    && k <= |ts|
    && (forall i :: 0 <= i < k ==> ts[i].lastUpdateId <= u)
    && (forall i :: k <= i < |ts| ==> ts[i].lastUpdateId > u)
  }

  lemma {:induction false} HitsSplit(a: seq<Snapshot>, b: seq<Snapshot>, marks: set<nat>)
    ensures Hits(a + b, marks) == Hits(a, marks) + Hits(b, marks)
    decreases |b|
  {
    if b == [] {
      assert a + b == a;
    } else {
      assert (a + b)[..|a + b| - 1] == a + b[..|b| - 1];
      HitsSplit(a, b[..|b| - 1], marks);
    }
  }

  /** Marks that none of `ts` has do not matter. */
  lemma {:induction false} HitsSame(ts: seq<Snapshot>, marks: set<nat>, marks': set<nat>)
    requires forall i :: 0 <= i < |ts| ==> (ts[i].lastUpdateId in marks <==> ts[i].lastUpdateId in marks')
    ensures Hits(ts, marks) == Hits(ts, marks')
  {
    if ts != [] {
      HitsSame(ts[..|ts| - 1], marks, marks');
    }
  }

  ghost predicate MadeHere(p: Progress, c: Check) {
    c.snap in p.targets && c.book == p.local.mirror.book && c.snap.lastUpdateId == p.local.lastU
  }

  /** `p'` is `p` with its first `k` targets retired: the met ones compared, the others counted. */
  ghost predicate RetiredFrom(p: Progress, p': Progress, k: nat) {
    && k <= |p.targets| && p'.targets == p.targets[k..] && p'.local == p.local
    && p.checks <= p'.checks
    && Compared(p'.checks) == Compared(p.checks) + Hits(p.targets[..k], {p.local.lastU})
    && p'.unreachable + |p'.checks| == p.unreachable + |p.checks| + k
    && forall i :: |p.checks| <= i < |p'.checks| ==> MadeHere(p, p'.checks[i])
  }

  function Retire(p: Progress): Progress
    requires p.targets != []
  {
    var t, rest := p.targets[0], p.targets[1..];
    if t.lastUpdateId == p.local.lastU then p.(targets := rest, checks := p.checks + [Check(t, p.local.mirror.book)])
    else p.(targets := rest, unreachable := p.unreachable + 1)
  }

  lemma {:induction false} RetireFirst(p: Progress)
    requires p.targets != []
    ensures RetiredFrom(p, Retire(p), 1)
  {
    var t := p.targets[0];
    assert p.targets[..1] == [t] && [t][..0] == [];
    assert (p.checks + [Check(t, p.local.mirror.book)])[..|p.checks|] == p.checks;
  }

  lemma {:induction false} RetiredThen(p: Progress, p1: Progress, p': Progress, n: nat)
    requires RetiredFrom(p, p1, 1) && RetiredFrom(p1, p', n)
    ensures RetiredFrom(p, p', n + 1)
  {
    hide Compared, Hits;
    var u := {p.local.lastU};
    assert p.targets[..n + 1] == p.targets[..1] + p1.targets[..n];
    HitsSplit(p.targets[..1], p1.targets[..n], u);
    assert p'.targets == p.targets[n + 1..];
    forall i | |p.checks| <= i < |p'.checks| ensures MadeHere(p, p'.checks[i]) {
      if i < |p1.checks| {
        assert p'.checks[i] == p1.checks[i];
      } else {
        assert MadeHere(p1, p'.checks[i]);
      }
    }
  }

  lemma {:induction false} RetireNone(p: Progress)
    ensures RetiredFrom(p, p, 0)
  {
    assert p.targets[..0] == [];
  }

  lemma {:induction false} RetiredMore(ts: seq<Snapshot>, n: nat, u: nat)
    requires ts != [] && ts[0].lastUpdateId <= u && Retired(ts[1..], n, u)
    ensures Retired(ts, n + 1, u)
  {
    var rest := ts[1..];
    assert forall i :: 0 < i < |ts| ==> ts[i] == rest[i - 1];
  }

  /** Settling retires exactly the targets that are due. */
  lemma {:induction false} SettleRetires(p: Progress) returns (k: nat)
    requires Ascending(p.targets)
    ensures Retired(p.targets, k, p.local.lastU) && RetiredFrom(p, Settle(p), k)
    decreases |p.targets|
  {
    if p.targets == [] || p.targets[0].lastUpdateId > p.local.lastU {
      k := 0;
      hide RetiredFrom;
      RetireNone(p);
    } else {
      var p1 := Retire(p);
      assert Settle(p) == Settle(p1) && Ascending(p1.targets) && p1.targets == p.targets[1..] && p1.local == p.local;
      hide *;
      RetireFirst(p);
      var n := SettleRetires(p1);
      k := n + 1;
      RetiredThen(p, p1, Settle(p1), n);
      RetiredMore(p.targets, n, p.local.lastU);
    }
  }

  // ---- the whole stream ----

  /** Where a replay with initial targets `ts` stands. */
  ghost predicate OnTrack(p: Progress, p0: Progress, marks: set<nat>, k: nat) {
    && k <= |p0.targets| && p.targets == p0.targets[k..]
    && Compared(p.checks) == Hits(p0.targets[..k], marks)
    && p.unreachable + |p.checks| == k
    && (forall m :: m in marks ==> m <= p.local.lastU)
    && (if marks == {} then k == 0 else Retired(p0.targets, k, p.local.lastU))
  }

  lemma {:induction false} TakeOnTrack(p: Progress, p0: Progress, marks: set<nat>, k: nat, d: Diff) returns (k': nat)
    requires Ascending(p0.targets) && OnTrack(p, p0, marks, k)
    ensures Take(p, d).local == Receive(p.local, d)
    ensures OnTrack(Take(p, d), p0, if Judge(p.local, d) == Skipped then marks else marks + {d.lastId}, k')
  {
    hide ApplyDiff, Settle, Hits, Compared;
    k' := k;
    if Judge(p.local, d) != Skipped {
      var p1 := p.(local := Receive(p.local, d));
      UpdateIdAdvances(p.local, d);
      assert p.targets == p0.targets[k..] && p.targets == p1.targets;
      TailAscending(p0.targets, k);
      hide *;
      var n := SettleRetires(p1);
      k' := k + n;
      StaysOnTrack(p, p0, marks, k, p1, Settle(p1), n);
    }
  }

  lemma {:induction false} TailAscending(ts: seq<Snapshot>, k: nat)
    requires Ascending(ts) && k <= |ts|
    ensures Ascending(ts[k..])
  {
    assert forall i :: 0 <= i < |ts| - k ==> ts[k..][i] == ts[k + i];
  }

  lemma {:induction false} StaysOnTrack(p: Progress, p0: Progress, marks: set<nat>, k: nat, p1: Progress,
          p2: Progress, n: nat)
    requires OnTrack(p, p0, marks, k) && p1 == p.(local := p1.local) && p1.local.lastU > p.local.lastU
    requires RetiredFrom(p1, p2, n) && Retired(p1.targets, n, p1.local.lastU)
    ensures OnTrack(p2, p0, marks + {p1.local.lastU}, k + n)
  {
    hide Hits, Compared;
    var ts, u, u' := p0.targets, p.local.lastU, p1.local.lastU;
    NewHits(ts, k, n, marks, u, u');
    forall i | 0 <= i < |ts| ensures if i < k + n then ts[i].lastUpdateId <= u' else ts[i].lastUpdateId > u' {
      if i >= k {
        assert ts[i] == p1.targets[i - k];
      }
    }
  }

  /** A new mark beyond all old ones hits nothing that was retired, and old marks nothing new. */
  lemma {:induction false} NewHits(ts: seq<Snapshot>, k: nat, n: nat, marks: set<nat>, u: nat, u': nat)
    requires k + n <= |ts| && u < u'
    requires forall m :: m in marks ==> m <= u
    requires if marks == {} then k == 0 else Retired(ts, k, u)
    ensures Hits(ts[..k + n], marks + {u'}) == Hits(ts[..k], marks) + Hits(ts[k..][..n], {u'})
    ensures ts[k..][n..] == ts[k + n..]
  {
    hide Hits;
    var a, b := ts[..k], ts[k..][..n];
    assert ts[..k + n] == a + b;
    HitsSplit(a, b, marks + {u'});
    HitsSame(a, marks, marks + {u'});
    forall i | 0 <= i < n ensures b[i].lastUpdateId !in marks {
      assert b[i] == ts[k + i];
    }
    HitsSame(b, {u'}, marks + {u'});
  }

  /** Every snapshot is compared if and only if some applied diff ends at its id; it is counted
      unreachable if the stream passed it by, and is left over if the stream never came so far. */
  lemma {:induction false} TargetsAccounted(l: Local, ts: seq<Snapshot>, ds: seq<Diff>) returns (k: nat)
    requires Ascending(ts)
    ensures var p := TakeAll(Progress(l, ts, [], 0), ds);
      && p.local == Follow(l, ds)
      && OnTrack(p, Progress(l, ts, [], 0), Marks(l, ds), k)
    decreases |ds|
  {
    var p0 := Progress(l, ts, [], 0);
    if ds == [] {
      k := 0;
      assert ts[..0] == [] && ts[0..] == ts;
    } else {
      var front := ds[..|ds| - 1];
      k := TargetsAccounted(l, ts, front);
      hide OnTrack, Receive, Judge, Take;
      k := TakeOnTrack(TakeAll(p0, front), p0, Marks(l, front), k, ds[|ds| - 1]);
      assert Marks(l, front) + {} == Marks(l, front);
    }
  }

  /** No mismatch: the book shows the snapshot, level by level. */
  ghost predicate Matches(c: Check) {
    forall s, p :: Depth(c.book.At(s), p) == LastWrite(0, c.snap.Of(s), p)
  }

  /** Some side has levels on both accounts, so that at least one level was compared. */
  ghost predicate Compares(c: Check) {
    exists s, p, p' :: Depth(c.book.At(s), p) > 0 && LastWrite(0, c.snap.Of(s), p') > 0
  }

  /** The verdict of a comparison: an empty one does not pass. */
  ghost predicate Passes(c: Check) {
    Matches(c) && Compares(c)
  }

  ghost predicate ListsLevel(snap: Snapshot) {
    exists s, i :: 0 <= i < |snap.Of(s)| && snap.Of(s)[i].qty > 0
  }

  /** No mismatch anywhere, and the verdict is a pass unless the snapshot is of an empty book. */
  ghost predicate AllPass(checks: seq<Check>) {
    forall i :: 0 <= i < |checks| ==> Matches(checks[i]) && (Passes(checks[i]) <==> ListsLevel(checks[i].snap))
  }

  /** A match passes just when there was something to compare. */
  lemma {:induction false} PassesIff(hist: History, c: Check)
    requires Matches(c) && Lists(hist, c.snap)
    ensures Passes(c) <==> ListsLevel(c.snap)
  {
    hide Depth, LastWrite;
    if ListsLevel(c.snap) {
      var s, i :| 0 <= i < |c.snap.Of(s)| && c.snap.Of(s)[i].qty > 0;
      var lus := c.snap.Of(s);
      assert Mentions(lus, lus[i].price) && DistinctPrices(lus);
      var k := LastWriteListed(0, lus, lus[i].price);
      assert Depth(c.book.At(s), lus[i].price) == LastWrite(0, lus, lus[i].price);
    }
    if Compares(c) {
      var s, p, p' :| Depth(c.book.At(s), p) > 0 && LastWrite(0, c.snap.Of(s), p') > 0;
      if !Mentions(c.snap.Of(s), p') {
        LastWriteUnlisted(0, c.snap.Of(s), p');
      }
      var k := LastWriteListed(0, c.snap.Of(s), p');
    }
  }

  /** With no gap every comparison that is made finds no mismatch, and passes unless the snapshot is
      of an empty book. */
  lemma {:induction false} EveryCheckPasses(hist: History, snap: Snapshot, ts: seq<Snapshot>, ds: seq<Diff>)
    requires Lists(hist, snap) && !Gapped(Seed(snap), ds) && Ascending(ts)
    requires forall i :: 0 <= i < |ds| ==> Reports(hist, ds[i])
    requires forall i :: 0 <= i < |ts| ==> Lists(hist, ts[i])
    ensures AllPass(TakeAll(Progress(Seed(snap), ts, [], 0), ds).checks)
    decreases |ds|
  {
    if ds != [] {
      var front, d := ds[..|ds| - 1], ds[|ds| - 1];
      assert forall i :: 0 <= i < |front| ==> front[i] == ds[i];
      EveryCheckPasses(hist, snap, ts, front);
      var p := TakeAll(Progress(Seed(snap), ts, [], 0), front);
      var k := TargetsAccounted(Seed(snap), ts, front);
      FollowInSync(hist, snap, ds);
      hide InSync, Lists, Reports, Receive, AllPass, Marks, Seed;
      if Judge(p.local, d) != Skipped {
        var p1 := p.(local := Receive(p.local, d));
        var n := SettleRetires(p1);
        NewChecksPass(hist, p1, Settle(p1), ts);
      }
    }
  }

  lemma {:induction false} NewChecksPass(hist: History, p: Progress, p': Progress, ts: seq<Snapshot>)
    requires InSync(hist, p.local) && AllPass(p.checks) && p.checks <= p'.checks
    requires forall t :: t in p.targets ==> t in ts
    requires forall i :: 0 <= i < |ts| ==> Lists(hist, ts[i])
    requires forall i :: |p.checks| <= i < |p'.checks| ==> MadeHere(p, p'.checks[i])
    ensures AllPass(p'.checks)
  {
    forall i | 0 <= i < |p'.checks| ensures Matches(p'.checks[i]) && (Passes(p'.checks[i]) <==> ListsLevel(p'.checks[i].snap)) {
      if i >= |p.checks| {
        var c := p'.checks[i];
        assert MadeHere(p, c) && Lists(hist, c.snap);
        forall s, x ensures Depth(c.book.At(s), x) == LastWrite(0, c.snap.Of(s), x) {
          assert Shown(c.book)(s, x) == hist(p.local.lastU)(s, x);
        }
        PassesIff(hist, c);
      } else {
        assert p'.checks[i] == p.checks[i];
      }
    }
  }
}
