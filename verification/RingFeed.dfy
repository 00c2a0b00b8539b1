/** An engine fed through the ring: whatever the threads' timing, it emits the first events of the
    producer's message stream and no others. */
module RingFeeds {
  import opened Types
  import opened PriceTimeBook
  import opened SpscRings
  import BookInvariants
  import RingWraps

  /** The producer offers the stream in order: every push is of the first message not yet accepted. */
  ghost predicate Offers(c: Counting, ms: seq<Message>, s: Ring<Message>, acts: seq<Act<Message>>)
    requires |s.slots| > 0 && Play(c, s, acts).Some?
    decreases |acts|
  {
    acts != [] ==>
      var before, a := Play(c, s, acts[..|acts| - 1]).value, acts[|acts| - 1];
      && Offers(c, ms, s, acts[..|acts| - 1])
      && (a.BeginPush? ==> |before.pushed| < |ms| && a.value == ms[|before.pushed|])
  }

  ghost predicate OnStream(ms: seq<Message>, s: Ring<Message>) {
    && s.pushed <= ms
    && (!s.producer.Ready? ==> |s.pushed| < |ms| && s.producer.value == ms[|s.pushed|])
  }

  lemma {:induction false} PushesThePrefix(c: Counting, ms: seq<Message>, slots: seq<Message>, acts: seq<Act<Message>>)
    requires |slots| > 0 && Play(c, Init(slots), acts).Some? && Offers(c, ms, Init(slots), acts)
    ensures OnStream(ms, Play(c, Init(slots), acts).value)
    decreases |acts|
  {
    if acts != [] {
      var before := acts[..|acts| - 1];
      PushesThePrefix(c, ms, slots, before);
      hide OnStream, Do;
      StaysOnStream(c, ms, Play(c, Init(slots), before).value, acts[|acts| - 1]);
    }
  }

  lemma {:induction false} StaysOnStream(c: Counting, ms: seq<Message>, s: Ring<Message>, a: Act<Message>)
    requires |s.slots| > 0 && Enabled(c, s, a) && OnStream(ms, s)
    requires a.BeginPush? ==> |s.pushed| < |ms| && a.value == ms[|s.pushed|]
    ensures OnStream(ms, Do(c, s, a))
  {
    if |s.pushed| < |ms| {
      assert ms[..|s.pushed| + 1] == s.pushed + [ms[|s.pushed|]];
    }
    hide Lag, Bump, MayLoad;
  }

  /** The consumer applies what it pops, so its log is a prefix of the log of the whole stream, with
      nothing missing but the tail of messages still in the ring or not yet accepted. */
  lemma {:induction false} FedEngine(c: Counting, stp: StpPolicy, b: Book, ms: seq<Message>,
          slots: seq<Message>, acts: seq<Act<Message>>)
    requires |slots| > 0 && Play(c, Init(slots), acts).Some? && Offers(c, ms, Init(slots), acts)
    requires c.Modulo? ==> RingWraps.Fits(c.width, |slots|)
    ensures var s := Play(c, Init(slots), acts).value;
      && s.popped <= s.pushed <= ms
      && |s.pushed| - |s.popped| <= |slots|
      && Run(stp, b, s.popped).1 <= Run(stp, b, ms).1
      && (|s.popped| == |ms| ==> Run(stp, b, s.popped) == Run(stp, b, ms))
  {
    hide RingWraps.Fits;
    PushesThePrefix(c, ms, slots, acts);
    var s := Play(c, Init(slots), acts).value;
    if c.Modulo? {
      RingWraps.WrappingDelivers(c.width, slots, acts);
    } else {
      RingDelivers(slots, acts);
    }
    hide Run, Play, Offers;
    PrefixLog(stp, b, ms, s.popped);
  }

  lemma {:induction false} PrefixLog(stp: StpPolicy, b: Book, ms: seq<Message>, taken: seq<Message>)
    requires taken <= ms
    ensures Run(stp, b, taken).1 <= Run(stp, b, ms).1
    ensures |taken| == |ms| ==> taken == ms
  {
    assert taken == ms[..|taken|];
    BookInvariants.RunPrefix(stp, b, ms, |taken|);
  }
}
