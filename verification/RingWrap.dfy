/** Counters that wrap: with a capacity that divides the counters' range and is smaller than it, a
    ring on wrapping counters and a ring on unbounded ones cannot be told apart. */
module RingWraps {
  import opened Types
  import opened Cyclic
  import opened SpscRings

  /** `r` is `s` with every counter reduced to the width. */
  ghost predicate Wrapped<T>(w: Positive, s: Ring<T>, r: Ring<T>) {
    r == s.(head := s.head % w, tail := s.tail % w, cachedHead := s.cachedHead % w, cachedTail := s.cachedTail % w)
  }

  /** A distance shorter than the width survives wrapping. */
  lemma {:induction false} LagWraps(w: Positive, a: nat, b: nat)
    requires b <= a < b + w
    ensures Lag(Modulo(w), a % w, b % w) == a - b
  {
    var q := a / w - b / w;
    assert a % w - b % w == a - b - q * w;
    if a % w >= b % w {
      ModIs(a % w - b % w, 0, a % w - b % w, w);
      Multiples(q, w);
    } else {
      ModIs(a % w - b % w, -1, a % w - b % w + w, w);
      Multiples(q - 1, w);
    }
  }

  lemma {:induction false} BumpWraps(w: Positive, a: nat)
    ensures Bump(Modulo(w), a % w) == (a + 1) % w
  {
    var r := a % w;
    assert a == (a / w) * w + r;
    if r + 1 == w {
      ModIs(a + 1, a / w + 1, 0, w);
      ModIs(r + 1, 1, 0, w);
    } else {
      ModIs(a + 1, a / w, r + 1, w);
      ModIs(r + 1, 0, r + 1, w);
    }
  }

  /** The masked index of a wrapped counter is that of the counter. */
  lemma {:induction false} SlotWraps(w: Positive, cap: Positive, times: nat, a: nat)
    requires w == times * cap
    ensures (a % w) % cap == a % cap
  {
    var q := a / w;
    assert a == q * w + a % w;
    assert q * w == (q * times) * cap by {
      Associate(q, times, cap);
    }
    var r := (a % w) / cap;
    assert a == (q * times + r) * cap + (a % w) % cap by {
      Distribute(q * times, r, cap);
    }
    ModIs(a, q * times + r, (a % w) % cap, cap);
  }

  lemma {:induction false} Associate(a: int, b: int, c: int)
    ensures a * (b * c) == (a * b) * c
  {
  }

  lemma {:induction false} Distribute(a: int, b: int, c: int)
    ensures (a + b) * c == a * c + b * c
  {
  }

  /** The unbounded value that a wrapped load of `seen` stands for. */
  function Unwrap(w: Positive, last: nat, seen: nat): nat {
    last + (seen - last % w) % w
  }

  lemma {:induction false} UnwrapIs(w: Positive, last: nat, seen: nat)
    requires seen < w
    ensures Unwrap(w, last, seen) % w == seen
  {
    var d, r, q := (seen - last % w) % w, last % w, last / w;
    var k := (seen - last % w) / w;
    assert seen - r == k * w + d;
    assert last + d == (q - k) * w + seen by {
      Distribute(q, -k, w);
    }
    ModIs(last + d, q - k, seen, w);
  }

  lemma {:induction false} LoadUnwraps(w: Positive, last: nat, seen: nat, current: nat)
    requires last <= current < last + w && MayLoad(Modulo(w), last % w, seen, current % w)
    ensures MayLoad(Unbounded, last, Unwrap(w, last, seen), current)
    ensures Unwrap(w, last, seen) % w == seen && last <= Unwrap(w, last, seen) <= current
  {
    LagWraps(w, current, last);
    UnwrapIs(w, last, seen);
  }

  lemma {:induction false} LoadWraps(w: Positive, last: nat, seen: nat, current: nat)
    requires last <= current < last + w && MayLoad(Unbounded, last, seen, current)
    ensures MayLoad(Modulo(w), last % w, seen % w, current % w)
  {
    LagWraps(w, current, last);
    LagWraps(w, seen, last);
  }

  // ---- every act ----

  /** The unbounded act that an act on wrapped counters stands for. */
  function UnwrapAct<T>(w: Positive, s: Ring<T>, a: Act<T>): Act<T> {
    match a
    case LoadHead(seen) => LoadHead(Unwrap(w, s.cachedHead, seen))
    case LoadTail(seen) => LoadTail(Unwrap(w, s.cachedTail, seen))
    case _ => a
  }

  function WrapAct<T>(w: Positive, a: Act<T>): Act<T> {
    match a
    case LoadHead(seen) => LoadHead(seen % w)
    case LoadTail(seen) => LoadTail(seen % w)
    case _ => a
  }

  /** The two rings answer alike and stay related. */
  ghost predicate Agrees<T>(w: Positive, s: Ring<T>, b: Act<T>, r: Ring<T>, a: Act<T>)
    requires |s.slots| == |r.slots| > 0
  {
    && Enabled(Unbounded, s, b) && Enabled(Modulo(w), r, a)
    && Wrapped(w, Do(Unbounded, s, b), Do(Modulo(w), r, a))
    && Returns(Unbounded, s, b) == Returns(Modulo(w), r, a)
  }

  ghost predicate Fits(w: Positive, cap: nat) {
    PowerOfTwo(w) && PowerOfTwo(cap) && cap < w
  }

  /** Acts that load nothing, and loads of values that correspond, keep the rings related. */
  lemma {:induction false} ActWraps<T>(w: Positive, s: Ring<T>, b: Act<T>, r: Ring<T>)
    requires Safe(s) && Wrapped(w, s, r) && Fits(w, |s.slots|)
    requires Enabled(Unbounded, s, b) && Enabled(Modulo(w), r, WrapAct(w, b))
    ensures Agrees(w, s, b, r, WrapAct(w, b))
  {
    hide PowerOfTwo;
    var cap := |s.slots|;
    var times := PowersDivide(cap, w);
    LagWraps(w, s.tail, s.cachedHead);
    BumpWraps(w, s.tail);
    BumpWraps(w, s.head);
    SlotWraps(w, cap, times, s.tail);
    SlotWraps(w, cap, times, s.head);
    match b
    case LoadHead(seen) => LagWraps(w, s.tail, seen);
    case BeginPop => SameCounter(w, s.head, s.cachedTail);
    case LoadTail(seen) => SameCounter(w, s.head, seen);
    case _ =>
  }

  lemma {:induction false} SameCounter(w: Positive, a: nat, b: nat)
    requires a <= b < a + w
    ensures a == b <==> a % w == b % w
  {
    if a < b {
      SlotsApart(a, b, w);
    }
  }

  /** Whatever the wrapping ring can do, the unbounded one can do too. */
  lemma {:induction false} StepUnwraps<T>(w: Positive, s: Ring<T>, r: Ring<T>, a: Act<T>)
    requires Safe(s) && Wrapped(w, s, r) && Fits(w, |s.slots|) && Enabled(Modulo(w), r, a)
    ensures Agrees(w, s, UnwrapAct(w, s, a), r, a)
    ensures Fresh(r, a) <==> Fresh(s, UnwrapAct(w, s, a))
  {
    hide PowerOfTwo, Do, Returns, Lag, Bump, Unwrap, MayLoad;
    match a {
    case LoadHead(seen) =>
      assert MayLoad(Modulo(w), s.cachedHead % w, seen, s.head % w);
      LoadUnwraps(w, s.cachedHead, seen, s.head);
      SameCounter(w, Unwrap(w, s.cachedHead, seen), s.head);
    case LoadTail(seen) =>
      assert MayLoad(Modulo(w), s.cachedTail % w, seen, s.tail % w);
      LoadUnwraps(w, s.cachedTail, seen, s.tail);
      SameCounter(w, Unwrap(w, s.cachedTail, seen), s.tail);
    case _ =>
    }
    var b := UnwrapAct(w, s, a);
    assert WrapAct(w, b) == a;
    ActWraps(w, s, b, r);
  }

  /** Whatever the unbounded ring can do, the wrapping one can do too. */
  lemma {:induction false} StepWraps<T>(w: Positive, s: Ring<T>, r: Ring<T>, b: Act<T>)
    requires Safe(s) && Wrapped(w, s, r) && Fits(w, |s.slots|) && Enabled(Unbounded, s, b)
    ensures Agrees(w, s, b, r, WrapAct(w, b))
    ensures Fresh(r, WrapAct(w, b)) <==> Fresh(s, b)
  {
    hide PowerOfTwo, Do, Returns, Bump;
    match b {
    case LoadHead(seen) =>
      LoadWraps(w, s.cachedHead, seen, s.head);
      SameCounter(w, seen, s.head);
    case LoadTail(seen) =>
      LoadWraps(w, s.cachedTail, seen, s.tail);
      SameCounter(w, seen, s.tail);
    case _ =>
    }
    ActWraps(w, s, b, r);
  }

  // ---- every schedule ----

  /** Each schedule of the wrapping ring is one of the unbounded ring with the same answers. */
  lemma {:induction false} PlayUnwraps<T>(w: Positive, slots: seq<T>, acts: seq<Act<T>>) returns (bs: seq<Act<T>>)
    requires Fits(w, |slots|) && |slots| > 0 && Play(Modulo(w), Init(slots), acts).Some?
    ensures Play(Unbounded, Init(slots), bs).Some?
    ensures Wrapped(w, Play(Unbounded, Init(slots), bs).value, Play(Modulo(w), Init(slots), acts).value)
    ensures History(Unbounded, Init(slots), bs) == History(Modulo(w), Init(slots), acts)
    ensures RefusalsFresh(Modulo(w), Init(slots), acts) <==> RefusalsFresh(Unbounded, Init(slots), bs)
    decreases |acts|
  {
    if acts == [] {
      bs := [];
      ZeroWraps(w);
    } else {
      var init := Init(slots);
      var front, a := acts[..|acts| - 1], acts[|acts| - 1];
      var before := PlayUnwraps(w, slots, front);
      var s, r := Play(Unbounded, init, before).value, Play(Modulo(w), init, front).value;
      PlaySafe(init, before);
      StepUnwraps(w, s, r, a);
      bs := before + [UnwrapAct(w, s, a)];
      assert bs[..|before|] == before;
    }
  }

  lemma {:induction false} ZeroWraps(w: Positive)
    ensures 0 % w == 0
  {
    ModIs(0, 0, 0, w);
  }

  /** Each schedule of the unbounded ring is one of the wrapping ring with the same answers. */
  lemma {:induction false} PlayWraps<T>(w: Positive, slots: seq<T>, bs: seq<Act<T>>) returns (acts: seq<Act<T>>)
    requires Fits(w, |slots|) && |slots| > 0 && Play(Unbounded, Init(slots), bs).Some?
    ensures Play(Modulo(w), Init(slots), acts).Some?
    ensures Wrapped(w, Play(Unbounded, Init(slots), bs).value, Play(Modulo(w), Init(slots), acts).value)
    ensures History(Unbounded, Init(slots), bs) == History(Modulo(w), Init(slots), acts)
    ensures RefusalsFresh(Modulo(w), Init(slots), acts) <==> RefusalsFresh(Unbounded, Init(slots), bs)
    decreases |bs|
  {
    if bs == [] {
      acts := [];
      ZeroWraps(w);
    } else {
      var init := Init(slots);
      var front, b := bs[..|bs| - 1], bs[|bs| - 1];
      var before := PlayWraps(w, slots, front);
      var s, r := Play(Unbounded, init, front).value, Play(Modulo(w), init, before).value;
      PlaySafe(init, front);
      StepWraps(w, s, r, b);
      acts := before + [WrapAct(w, b)];
      assert acts[..|before|] == before;
    }
  }

  /** So wrapping counters lose, repeat and reorder nothing, and never overfill the ring. */
  lemma {:induction false} WrappingDelivers<T>(w: Positive, slots: seq<T>, acts: seq<Act<T>>)
    requires Fits(w, |slots|) && |slots| > 0 && Play(Modulo(w), Init(slots), acts).Some?
    ensures var r := Play(Modulo(w), Init(slots), acts).value;
      r.popped <= r.pushed && |r.pushed| - |r.popped| <= |slots|
  {
    var bs := PlayUnwraps(w, slots, acts);
    RingDelivers(slots, bs);
  }

  /** And they are the atomic bounded queue, exactly if every refusal rests on a current load. */
  lemma {:induction false} WrappingLinearizable<T>(timid: bool, w: Positive, slots: seq<T>, acts: seq<Act<T>>)
    requires Fits(w, |slots|) && |slots| > 0 && Play(Modulo(w), Init(slots), acts).Some?
    ensures var r := Play(Modulo(w), Init(slots), acts).value;
      && |r.popped| <= |r.pushed|
      && FifoRun(timid, |slots|, [], History(Modulo(w), Init(slots), acts))
         == if timid || RefusalsFresh(Modulo(w), Init(slots), acts) then Some(r.pushed[|r.popped|..]) else None
  {
    hide PowerOfTwo, Play, FifoRun, History, RefusalsFresh;
    var bs := PlayUnwraps(w, slots, acts);
    Linearizable(timid, Init(slots), bs);
    var s := Play(Unbounded, Init(slots), bs).value;
    assert Live(s) == s.pushed[|s.popped|..];
  }
}
