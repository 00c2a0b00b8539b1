/** Which diffs of a stream are taken for stale, which for broken off, and which are simply applied, in
    terms of the ids in the stream. */
module ReplayVerdicts {
  import opened Mirrors
  import opened Replay

  /** The last update id applied after a snapshot at `id` and the diffs: the greatest there was. */
  function Newest(id: nat, ds: seq<Diff>): nat
    decreases |ds|
  {
    if ds == [] then id
    else
      var u, d := Newest(id, ds[..|ds| - 1]), ds[|ds| - 1];
      if d.lastId > u then d.lastId else u
  }

  lemma {:induction false} NewestIs(id: nat, ds: seq<Diff>)
    ensures Newest(id, ds) >= id && forall i :: 0 <= i < |ds| ==> ds[i].lastId <= Newest(id, ds)
    ensures Newest(id, ds) == id || exists i :: 0 <= i < |ds| && ds[i].lastId == Newest(id, ds)
    decreases |ds|
  {
    if ds != [] {
      var front := ds[..|ds| - 1];
      NewestIs(id, front);
      assert forall i :: 0 <= i < |front| ==> front[i] == ds[i];
      if Newest(id, ds) == Newest(id, front) && Newest(id, front) != id {
        var i :| 0 <= i < |front| && front[i].lastId == Newest(id, front);
        assert ds[i].lastId == Newest(id, ds);
      }
    }
  }

  /** Some diff reaches past the snapshot. */
  ghost predicate Reached(id: nat, ds: seq<Diff>) {
    exists i :: 0 <= i < |ds| && ds[i].lastId > id
  }

  lemma {:induction false} ReachedMore(id: nat, ds: seq<Diff>)
    requires ds != []
    ensures Reached(id, ds) <==> Reached(id, ds[..|ds| - 1]) || ds[|ds| - 1].lastId > id
    ensures !Reached(id, ds[..|ds| - 1]) ==> Newest(id, ds[..|ds| - 1]) == id
  {
    var front := ds[..|ds| - 1];
    NewestIs(id, front);
    assert forall i :: 0 <= i < |front| ==> front[i] == ds[i];
    if Reached(id, front) {
      var i :| 0 <= i < |front| && front[i].lastId > id;
      assert ds[i].lastId > id;
    }
    hide Newest;
  }

  lemma {:induction false} FollowedTo(snap: Snapshot, ds: seq<Diff>)
    ensures var l := Follow(Seed(snap), ds);
      l.lastU == Newest(snap.lastUpdateId, ds) && (l.synced <==> Reached(snap.lastUpdateId, ds))
    decreases |ds|
  {
    if ds != [] {
      var front, d := ds[..|ds| - 1], ds[|ds| - 1];
      FollowedTo(snap, front);
      ReachedMore(snap.lastUpdateId, ds);
      NewestIs(snap.lastUpdateId, front);
      hide Reached, Seed, ApplyDiff;
    }
  }

  /** The verdict on the next diff of a stream. It is stale if it ends no later than what was applied.
      If not, it comes after a gap just when its first id is not the successor of the last one applied,
      once a diff was applied; before that, when it lies beyond the snapshot's successor. */
  lemma {:induction false} VerdictIff(snap: Snapshot, ds: seq<Diff>, d: Diff)
    ensures var v, u := Judge(Follow(Seed(snap), ds), d), Newest(snap.lastUpdateId, ds);
      && (v == Skipped <==> d.lastId <= u)
      && (v == Gap <==>
            && d.lastId > u
            && if exists i :: 0 <= i < |ds| && ds[i].lastId > snap.lastUpdateId then d.firstId != u + 1 else d.firstId > u + 1)
  {
    FollowedTo(snap, ds);
    hide Follow, Seed, Newest;
  }

  /** After a snapshot at 100 and a diff of 90 to 105, one of 104 to 110 overlaps what was applied, and
      is taken for a gap. One that overlaps the snapshot itself is not. */
  lemma {:induction false} OverlapIsGap(snap: Snapshot, d: Diff, e: Diff)
    requires snap.lastUpdateId == 100 && d.firstId == 90 && d.lastId == 105 && e.firstId == 98 && e.lastId == 110
    ensures Judge(Follow(Seed(snap), [d]), e.(firstId := 104)) == Gap
    ensures Judge(Follow(Seed(snap), []), e) == Applied
  {
    VerdictIff(snap, [d], e.(firstId := 104));
    VerdictIff(snap, [], e);
    hide Follow, Seed;
    assert [d][..0] == [] && [d][0].lastId > 100 && Newest(100, []) == 100 && Newest(100, [d]) == 105;
  }
}
