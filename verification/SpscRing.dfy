/** The single-producer single-consumer ring as a machine whose acts are the single loads and stores
    of the two threads, in any interleaving. An acquire load may return any value between the last
    one seen and the current one. Counters are unbounded or wrap at a given width. */
module SpscRings {
  import opened Types
  import opened Cyclic

  type Positive = n: nat | n > 0 witness 1

  datatype Counting = Unbounded | Modulo(width: Positive)

  /** `a - b` in the counters' arithmetic. */
  function Lag(c: Counting, a: nat, b: nat): int {
    if c.Modulo? then (a - b) % c.width else a - b
  }

  function Bump(c: Counting, a: nat): nat {
    if c.Modulo? then (a + 1) % c.width else a + 1
  }

  /** Where the producer is inside `try_push`. */
  datatype Producer<T> = Ready | Refreshing(value: T) | Writing(value: T) | Publishing(value: T)

  /** Where the consumer is inside `try_pop`. */
  datatype Consumer<T> = Waiting | Reloading | Reading | Releasing(out: T)

  /** `pushed` and `popped` record what successful calls passed in and handed out. */
  datatype Ring<T> = Ring(head: nat, tail: nat, cachedHead: nat, cachedTail: nat, slots: seq<T>,
                          producer: Producer<T>, consumer: Consumer<T>, pushed: seq<T>, popped: seq<T>)

  datatype Act<T> =
    | BeginPush(value: T) | LoadHead(seen: nat) | Scribble(junk: T) | Write | Publish
    | BeginPop | LoadTail(seen: nat) | Read | Release

  function Init<T>(slots: seq<T>): Ring<T> {
    Ring(0, 0, 0, 0, slots, Ready, Waiting, [], [])
  }

  /** `seen` is a value the counter had since it was `last`. */
  predicate MayLoad(c: Counting, last: nat, seen: nat, current: nat) {
    && 0 <= Lag(c, seen, last) <= Lag(c, current, last)
    && (c.Modulo? ==> seen < c.width)
  }

  predicate Enabled<T>(c: Counting, s: Ring<T>, a: Act<T>) {
    match a
    case BeginPush(_) => s.producer.Ready?
    case LoadHead(seen) => s.producer.Refreshing? && MayLoad(c, s.cachedHead, seen, s.head)
    case Scribble(_) => s.producer.Writing?
    case Write => s.producer.Writing?
    case Publish => s.producer.Publishing?
    case BeginPop => s.consumer.Waiting?
    case LoadTail(seen) => s.consumer.Reloading? && MayLoad(c, s.cachedTail, seen, s.tail)
    case Read => s.consumer.Reading?
    case Release => s.consumer.Releasing?
  }

  /** One act. Until `Write` completes, the slot being written may hold anything (`Scribble`). */
  function Do<T>(c: Counting, s: Ring<T>, a: Act<T>): Ring<T>
    requires |s.slots| > 0 && Enabled(c, s, a)
  {
    var cap := |s.slots|;
    match a
    case BeginPush(v) =>
      s.(producer := if Lag(c, s.tail, s.cachedHead) >= cap then Refreshing(v) else Writing(v))
    case LoadHead(seen) =>
      s.(cachedHead := seen,
         producer := if Lag(c, s.tail, seen) >= cap then Ready else Writing(s.producer.value))
    case Scribble(junk) => s.(slots := s.slots[s.tail % cap := junk])
    case Write =>
      s.(slots := s.slots[s.tail % cap := s.producer.value], producer := Publishing(s.producer.value))
    case Publish =>
      s.(tail := Bump(c, s.tail), producer := Ready, pushed := s.pushed + [s.producer.value])
    case BeginPop => s.(consumer := if s.head == s.cachedTail then Reloading else Reading)
    case LoadTail(seen) => s.(cachedTail := seen, consumer := if s.head == seen then Waiting else Reading)
    case Read => s.(consumer := Releasing(s.slots[s.head % cap]))
    case Release => s.(head := Bump(c, s.head), consumer := Waiting, popped := s.popped + [s.consumer.out])
  }

  /** A schedule: the state it ends in, if every act was possible when its turn came. */
  function Play<T>(c: Counting, s: Ring<T>, acts: seq<Act<T>>): (r: Option<Ring<T>>)
    requires |s.slots| > 0
    ensures r.Some? ==> |r.value.slots| == |s.slots|
    decreases |acts|
  {
    if acts == [] then Some(s)
    else
      var r := Play(c, s, acts[..|acts| - 1]);
      if r.Some? && Enabled(c, r.value, acts[|acts| - 1]) then Some(Do(c, r.value, acts[|acts| - 1])) else None
  }

  // ---- safety ----

  ghost predicate Ordered<T>(s: Ring<T>) {
    s.cachedHead <= s.head <= s.cachedTail <= s.tail <= s.cachedHead + |s.slots|
  }

  /** What was popped is the start of what was pushed, and the slots hold the rest in order. */
  ghost predicate Delivers<T>(s: Ring<T>) {
    && s.head <= s.tail == |s.pushed|
    && s.popped == s.pushed[..s.head]
    && |s.slots| > 0
    && forall p :: s.head <= p < s.tail ==> s.slots[p % |s.slots|] == s.pushed[p]
  }

  ghost predicate Safe<T>(s: Ring<T>) {
    && Ordered(s) && Delivers(s)
    && (s.producer.Refreshing? ==> s.tail == s.cachedHead + |s.slots|)
    && (s.producer.Writing? || s.producer.Publishing? ==> s.tail < s.cachedHead + |s.slots|)
    && (s.producer.Publishing? ==> s.slots[s.tail % |s.slots|] == s.producer.value)
    && (s.consumer.Reloading? ==> s.head == s.cachedTail)
    && (s.consumer.Reading? || s.consumer.Releasing? ==> s.head < s.cachedTail)
    && (s.consumer.Releasing? ==> s.consumer.out == s.pushed[s.head])
  }

  /** A write to the slot behind the tail leaves every live slot alone. */
  lemma {:induction false} LiveUntouched<T>(s: Ring<T>, v: T)
    requires Safe(s) && s.tail < s.cachedHead + |s.slots|
    ensures forall p :: s.head <= p < s.tail ==> s.slots[s.tail % |s.slots| := v][p % |s.slots|] == s.pushed[p]
  {
    forall p | s.head <= p < s.tail ensures p % |s.slots| != s.tail % |s.slots| {
      SlotsApart(p, s.tail, |s.slots|);
    }
  }

  lemma {:induction false} DoSafe<T>(s: Ring<T>, a: Act<T>)
    requires Safe(s) && Enabled(Unbounded, s, a)
    ensures Safe(Do(Unbounded, s, a))
  {
    match a
    case Scribble(junk) => LiveUntouched(s, junk);
    case Write => LiveUntouched(s, s.producer.value);
    case Publish => PublishSafe(s);
    case Release => ReleaseSafe(s);
    case _ =>
  }

  lemma {:induction false} PublishSafe<T>(s: Ring<T>)
    requires Safe(s) && s.producer.Publishing?
    ensures Safe(Do(Unbounded, s, Publish))
  {
    var t := Do(Unbounded, s, Publish);
    forall p | t.head <= p < t.tail ensures t.slots[p % |t.slots|] == t.pushed[p] {
      assert p < s.tail ==> t.pushed[p] == s.pushed[p];
    }
    assert t.pushed[..t.head] == s.pushed[..s.head];
  }

  lemma {:induction false} ReleaseSafe<T>(s: Ring<T>)
    requires Safe(s) && s.consumer.Releasing?
    ensures Safe(Do(Unbounded, s, Release))
  {
    assert s.pushed[..s.head + 1] == s.pushed[..s.head] + [s.pushed[s.head]];
  }

  lemma {:induction false} PlaySafe<T>(s: Ring<T>, acts: seq<Act<T>>)
    requires Safe(s) && Play(Unbounded, s, acts).Some?
    ensures Safe(Play(Unbounded, s, acts).value)
    decreases |acts|
  {
    if acts != [] {
      PlaySafe(s, acts[..|acts| - 1]);
      DoSafe(Play(Unbounded, s, acts[..|acts| - 1]).value, acts[|acts| - 1]);
    }
  }

  /** Every interleaving with any stale loads: the counters stay ordered, what comes out is a prefix
      of what went in, and the live slots hold the rest. */
  lemma {:induction false} RingDelivers<T>(slots: seq<T>, acts: seq<Act<T>>)
    requires |slots| > 0 && Play(Unbounded, Init(slots), acts).Some?
    ensures var s := Play(Unbounded, Init(slots), acts).value;
      Ordered(s) && Delivers(s) && s.popped <= s.pushed && |s.pushed| - |s.popped| <= |slots|
  {
    PlaySafe(Init(slots), acts);
  }

  /** The slot the producer writes was released by the consumer and that release was seen; the slot
      the consumer reads was published and seen; and they are never the same slot. */
  lemma {:induction false} NoRace<T>(slots: seq<T>, acts: seq<Act<T>>)
    requires |slots| > 0 && Play(Unbounded, Init(slots), acts).Some?
    ensures var s := Play(Unbounded, Init(slots), acts).value;
      && (s.producer.Writing? ==> s.tail < s.cachedHead + |slots|)
      && (s.consumer.Reading? ==> s.head < s.cachedTail)
      && (s.producer.Writing? && s.consumer.Reading? ==> s.tail % |slots| != s.head % |slots|)
  {
    PlaySafe(Init(slots), acts);
    var s := Play(Unbounded, Init(slots), acts).value;
    if s.producer.Writing? && s.consumer.Reading? {
      SlotsApart(s.head, s.tail, |slots|);
    }
  }

  // ---- the ring is a bounded queue ----

  /** A completed call and its answer. */
  datatype Call<T> = Pushed(value: T) | PushFull(value: T) | Popped(value: T) | PopEmpty

  /** The call that `a` completes, if it completes one. */
  function Returns<T>(c: Counting, s: Ring<T>, a: Act<T>): Option<Call<T>>
    requires |s.slots| > 0 && Enabled(c, s, a)
  {
    match a
    case LoadHead(seen) => if Lag(c, s.tail, seen) >= |s.slots| then Some(PushFull(s.producer.value)) else None
    case Publish => Some(Pushed(s.producer.value))
    case LoadTail(seen) => if s.head == seen then Some(PopEmpty) else None
    case Release => Some(Popped(s.consumer.out))
    case _ => None
  }

  /** The completed calls of a schedule, in the order of completion. */
  function History<T>(c: Counting, s: Ring<T>, acts: seq<Act<T>>): seq<Call<T>>
    requires |s.slots| > 0 && Play(c, s, acts).Some?
    decreases |acts|
  {
    if acts == [] then []
    else
      var t := Play(c, s, acts[..|acts| - 1]).value;
      var r := Returns(c, t, acts[|acts| - 1]);
      History(c, s, acts[..|acts| - 1]) + if r.Some? then [r.value] else []
  }

  /** The atomic bounded queue: the queue after `call`, if `call` could answer as it did. A timid
      queue may also refuse a call that it could have served. */
  function Fifo<T(==)>(timid: bool, cap: nat, q: seq<T>, call: Call<T>): Option<seq<T>> {
    match call
    case Pushed(v) => if |q| < cap then Some(q + [v]) else None
    case PushFull(_) => if timid || |q| >= cap then Some(q) else None
    case Popped(v) => if q != [] && q[0] == v then Some(q[1..]) else None
    case PopEmpty => if timid || q == [] then Some(q) else None
  }

  function FifoRun<T(==)>(timid: bool, cap: nat, q: seq<T>, calls: seq<Call<T>>): Option<seq<T>>
    decreases |calls|
  {
    if calls == [] then Some(q)
    else
      var r := FifoRun(timid, cap, q, calls[..|calls| - 1]);
      if r.Some? then Fifo(timid, cap, r.value, calls[|calls| - 1]) else None
  }

  /** Loads return the value the counter has. */
  ghost predicate Fresh<T>(s: Ring<T>, a: Act<T>) {
    (a.LoadHead? ==> a.seen == s.head) && (a.LoadTail? ==> a.seen == s.tail)
  }

  predicate Refuses<T>(call: Call<T>) {
    call.PushFull? || call.PopEmpty?
  }

  /** Whether the act is no refusal, or one that rests on a current load. */
  ghost predicate WellRefused<T>(c: Counting, s: Ring<T>, a: Act<T>)
    requires |s.slots| > 0 && Enabled(c, s, a)
  {
    var r := Returns(c, s, a);
    r.Some? && Refuses(r.value) ==> Fresh(s, a)
  }

  /** Every refusal of the schedule rests on a current load; other loads may be stale. */
  ghost predicate RefusalsFresh<T>(c: Counting, s: Ring<T>, acts: seq<Act<T>>)
    requires |s.slots| > 0 && Play(c, s, acts).Some?
    decreases |acts|
  {
    acts != [] ==>
      && RefusalsFresh(c, s, acts[..|acts| - 1])
      && WellRefused(c, Play(c, s, acts[..|acts| - 1]).value, acts[|acts| - 1])
  }

  ghost function Live<T>(s: Ring<T>): seq<T>
    requires s.head <= s.tail <= |s.pushed|
  {
    s.pushed[s.head..s.tail]
  }

  lemma {:induction false} SliceMore<T>(x: seq<T>, v: T, i: nat)
    requires i <= |x|
    ensures (x + [v])[i..|x| + 1] == x[i..|x|] + [v]
  {
  }

  /** An act that completes a call is where the call takes effect on the queue, which answers the
      same unless the act is a refusal on a stale load; no other act does anything to it. */
  lemma {:induction false} TakesEffect<T>(timid: bool, s: Ring<T>, a: Act<T>)
    requires Safe(s) && Enabled(Unbounded, s, a) && Safe(Do(Unbounded, s, a))
    ensures var r, t := Returns(Unbounded, s, a), Do(Unbounded, s, a);
      if r.None? then Live(t) == Live(s)
      else Fifo(timid, |s.slots|, Live(s), r.value)
           == if timid || WellRefused(Unbounded, s, a) then Some(Live(t)) else None
  {
    match a
    case Publish =>
      SliceMore(s.pushed, s.producer.value, s.head);
    case Release =>
      assert Live(Do(Unbounded, s, a)) == Live(s)[1..];
    case _ =>
  }

  /** Every schedule's calls, in the order they complete, are a run of the bounded queue that may
      refuse needlessly; they are a run of the atomic one exactly if every refusal rests on a current
      load. */
  lemma {:induction false} Linearizable<T>(timid: bool, s: Ring<T>, acts: seq<Act<T>>)
    requires Safe(s) && Live(s) == [] && Play(Unbounded, s, acts).Some?
    ensures Safe(Play(Unbounded, s, acts).value)
    ensures FifoRun(timid, |s.slots|, [], History(Unbounded, s, acts))
         == if timid || RefusalsFresh(Unbounded, s, acts) then Some(Live(Play(Unbounded, s, acts).value)) else None
    decreases |acts|
  {
    if acts != [] {
      hide Safe, Live, Do, Fifo, Returns, Enabled, WellRefused;
      var before := acts[..|acts| - 1];
      Linearizable(timid, s, before);
      var t, a := Play(Unbounded, s, before).value, acts[|acts| - 1];
      DoSafe(t, a);
      TakesEffect(timid, t, a);
      Answered(t, a);
      var h, r := History(Unbounded, s, before), Returns(Unbounded, t, a);
      if r.Some? {
        assert (h + [r.value])[..|h|] == h;
      } else {
        assert h + [] == h;
      }
    }
  }

  lemma {:induction false} Answered<T>(s: Ring<T>, a: Act<T>)
    requires Safe(s) && Enabled(Unbounded, s, a)
    ensures Returns(Unbounded, s, a).None? ==> WellRefused(Unbounded, s, a)
  {
  }

  /** Such a refusal does happen: a ring of one slot that was filled and emptied can still report
      itself full. */
  lemma {:induction false} StaleLoadReportsFull<T>(x: T, y: T) returns (acts: seq<Act<T>>)
    ensures var r := Play(Unbounded, Init([x]), acts);
      && r == Some(Ring(1, 1, 0, 1, [y], Refreshing(y), Waiting, [y], [y]))
      && Enabled(Unbounded, r.value, LoadHead(0))
      && Returns(Unbounded, r.value, LoadHead(0)) == Some(PushFull(y))
  {
    acts := PushOne(x, y);
    acts := PopOne(x, y, acts);
    hide Play;
    Last(Init([x]), acts, BeginPush(y));
    acts := acts + [BeginPush(y)];
  }

  lemma {:induction false} PushOne<T>(x: T, y: T) returns (acts: seq<Act<T>>)
    ensures Play(Unbounded, Init([x]), acts) == Some(Ring(0, 1, 0, 0, [y], Ready, Waiting, [y], []))
  {
    var s := Init([x]);
    assert Play(Unbounded, s, []) == Some(s);
    hide Play;
    assert [x][0 := y] == [y] && [] + [y] == [y];
    acts := [];
    Last(s, acts, BeginPush(y));
    acts := acts + [BeginPush(y)];
    assert Play(Unbounded, s, acts) == Some(Ring(0, 0, 0, 0, [x], Writing(y), Waiting, [], []));
    Last(s, acts, Write);
    acts := acts + [Write];
    assert Play(Unbounded, s, acts) == Some(Ring(0, 0, 0, 0, [y], Publishing(y), Waiting, [], []));
    Last(s, acts, Publish);
    acts := acts + [Publish];
  }

  lemma {:induction false} PopOne<T>(x: T, y: T, before: seq<Act<T>>) returns (acts: seq<Act<T>>)
    requires Play(Unbounded, Init([x]), before) == Some(Ring(0, 1, 0, 0, [y], Ready, Waiting, [y], []))
    ensures Play(Unbounded, Init([x]), acts) == Some(Ring(1, 1, 0, 1, [y], Ready, Waiting, [y], [y]))
  {
    hide Play;
    var s := Init([x]);
    assert [] + [y] == [y];
    acts := before;
    Last(s, acts, BeginPop);
    acts := acts + [BeginPop];
    Last(s, acts, LoadTail(1));
    acts := acts + [LoadTail(1)];
    Last(s, acts, Read);
    acts := acts + [Read];
    Last(s, acts, Release);
    acts := acts + [Release];
  }

  lemma {:induction false} Last<T>(s: Ring<T>, acts: seq<Act<T>>, a: Act<T>)
    requires |s.slots| > 0
    ensures Play(Unbounded, s, acts).Some? ==> |Play(Unbounded, s, acts).value.slots| == |s.slots|
    ensures var r := Play(Unbounded, s, acts);
      Play(Unbounded, s, acts + [a]) == if r.Some? && Enabled(Unbounded, r.value, a) then Some(Do(Unbounded, r.value, a)) else None
  {
    assert (acts + [a])[..|acts|] == acts;
  }

  // ---- the code, run without interruption ----

  /** The acts of one uninterrupted push: the other side's counter is loaded only when the cached
      copy says full. */
  function PushActs<T>(s: Ring<T>, v: T): seq<Act<T>> {
    var room, really := s.tail - s.cachedHead < |s.slots|, s.tail - s.head < |s.slots|;
    [BeginPush(v)] + (if room then [] else [LoadHead(s.head)]) + if room || really then [Write, Publish] else []
  }

  function PopActs<T>(s: Ring<T>): seq<Act<T>> {
    var some, really := s.head != s.cachedTail, s.head != s.tail;
    [BeginPop] + (if some then [] else [LoadTail(s.tail)]) + if some || really then [Read, Release] else []
  }

  lemma {:induction false} Then<T>(s: Ring<T>, acts: seq<Act<T>>, t: Ring<T>, a: Act<T>)
    requires |s.slots| > 0 && Play(Unbounded, s, acts) == Some(t) && Enabled(Unbounded, t, a)
    ensures Play(Unbounded, s, acts + [a]) == Some(Do(Unbounded, t, a))
  {
    Last(s, acts, a);
  }

  lemma {:induction false} TwoMore<T>(s: Ring<T>, acts: seq<Act<T>>, t: Ring<T>, a: Act<T>, b: Act<T>)
    requires |s.slots| > 0 && Play(Unbounded, s, acts) == Some(t)
    requires Enabled(Unbounded, t, a) && Enabled(Unbounded, Do(Unbounded, t, a), b)
    ensures Play(Unbounded, s, acts + [a, b]) == Some(Do(Unbounded, Do(Unbounded, t, a), b))
  {
    Then(s, acts, t, a);
    Then(s, acts + [a], Do(Unbounded, t, a), b);
    assert acts + [a] + [b] == acts + [a, b];
  }

  /** What an uninterrupted push leaves. */
  function PushLeaves<T>(s: Ring<T>, v: T): Ring<T>
    requires |s.slots| > 0
  {
    var seen := s.(cachedHead := if s.tail - s.cachedHead < |s.slots| then s.cachedHead else s.head);
    if s.tail - seen.cachedHead >= |s.slots| then seen
    else seen.(slots := s.slots[s.tail % |s.slots| := v], tail := s.tail + 1, pushed := s.pushed + [v])
  }

  function PopLeaves<T>(s: Ring<T>): Ring<T>
    requires |s.slots| > 0
  {
    var seen := s.(cachedTail := if s.head != s.cachedTail then s.cachedTail else s.tail);
    if s.head == seen.cachedTail then seen
    else seen.(head := s.head + 1, popped := s.popped + [s.slots[s.head % |s.slots|]])
  }

  lemma {:induction false} PushPlays<T>(s: Ring<T>, v: T)
    requires Safe(s) && s.producer.Ready?
    ensures Play(Unbounded, s, PushActs(s, v)) == Some(PushLeaves(s, v))
    ensures Safe(PushLeaves(s, v))
    ensures Live(PushLeaves(s, v)) == if |Live(s)| < |s.slots| then Live(s) + [v] else Live(s)
  {
    assert Play(Unbounded, s, []) == Some(s);
    hide Play;
    var cap := |s.slots|;
    var acts: seq<Act<T>>, t := [BeginPush(v)], Do(Unbounded, s, BeginPush(v));
    Then(s, [], s, BeginPush(v));
    assert [] + acts == acts;
    if s.tail - s.cachedHead >= cap {
      Then(s, acts, t, LoadHead(s.head));
      acts, t := acts + [LoadHead(s.head)], Do(Unbounded, t, LoadHead(s.head));
    }
    if t.producer.Writing? {
      TwoMore(s, acts, t, Write, Publish);
      acts := acts + [Write, Publish];
    }
    assert acts == PushActs(s, v);
    PlaySafe(s, acts);
    PushLive(s, v);
    hide Safe, Live;
  }

  lemma {:induction false} PushLive<T>(s: Ring<T>, v: T)
    requires Safe(s) && s.producer.Ready? && Safe(PushLeaves(s, v))
    ensures Live(PushLeaves(s, v)) == if |Live(s)| < |s.slots| then Live(s) + [v] else Live(s)
  {
    SliceMore(s.pushed, v, s.head);
  }

  lemma {:induction false} PopPlays<T>(s: Ring<T>)
    requires Safe(s) && s.consumer.Waiting?
    ensures Play(Unbounded, s, PopActs(s)) == Some(PopLeaves(s))
    ensures Safe(PopLeaves(s))
    ensures Live(s) == [] ==> Live(PopLeaves(s)) == [] && PopLeaves(s).popped == s.popped
    ensures Live(s) != [] ==> Live(PopLeaves(s)) == Live(s)[1..] && PopLeaves(s).popped == s.popped + [Live(s)[0]]
  {
    assert Play(Unbounded, s, []) == Some(s);
    hide Play;
    var acts: seq<Act<T>>, t := [BeginPop], Do(Unbounded, s, BeginPop);
    Then(s, [], s, BeginPop);
    assert [] + acts == acts;
    if s.head == s.cachedTail {
      Then(s, acts, t, LoadTail(s.tail));
      acts, t := acts + [LoadTail(s.tail)], Do(Unbounded, t, LoadTail(s.tail));
    }
    if t.consumer.Reading? {
      TwoMore(s, acts, t, Read, Release);
      acts := acts + [Read, Release];
    }
    assert acts == PopActs(s);
    PlaySafe(s, acts);
  }

  class SpscRing<T> {
    var head: nat
    var tail: nat
    var cachedHead: nat
    var cachedTail: nat
    const slots: array<T>
    ghost var pushed: seq<T>
    ghost var popped: seq<T>

    ghost function State(): Ring<T>
      reads this, slots
    {
      Ring(head, tail, cachedHead, cachedTail, slots[..], Ready, Waiting, pushed, popped)
    }

    ghost predicate Valid()
      reads this, slots
    {
      Safe(State())
    }

    constructor (slots: array<T>)
      requires slots.Length > 0
      ensures Valid() && State() == Init(slots[..]) && this.slots == slots
    {
      this.slots := slots;
      head, tail, cachedHead, cachedTail := 0, 0, 0, 0;
      pushed, popped := [], [];
    }

    method TryPush(value: T) returns (ok: bool)
      requires Valid()
      modifies this, slots
      ensures Valid()
      ensures ok == (|Live(old(State()))| < slots.Length)
      ensures Live(State()) == if ok then Live(old(State())) + [value] else Live(old(State()))
      ensures Play(Unbounded, old(State()), PushActs(old(State()), value)) == Some(State())
    {
      ghost var s := State();
      PushPlays(s, value);
      hide Play, PushActs;
      if tail - cachedHead >= slots.Length {
        cachedHead := head;
        if tail - cachedHead >= slots.Length {
          return false;
        }
      }
      slots[tail % slots.Length] := value;
      tail := tail + 1;
      pushed := pushed + [value];
      assert State() == PushLeaves(s, value);
      return true;
    }

    method TryPop() returns (out: Option<T>)
      requires Valid()
      modifies this
      ensures Valid()
      ensures var before := Live(old(State()));
        if before == [] then out == None && Live(State()) == []
        else out == Some(before[0]) && Live(State()) == before[1..]
      ensures Play(Unbounded, old(State()), PopActs(old(State()))) == Some(State())
    {
      ghost var s := State();
      PopPlays(s);
      hide Play, PopActs;
      if head == cachedTail {
        cachedTail := tail;
        if head == cachedTail {
          return None;
        }
      }
      out := Some(slots[head % slots.Length]);
      head := head + 1;
      popped := popped + [out.value];
      assert State() == PopLeaves(s);
    }
  }
}
