/** The interrupt queue: a ring of sixteen slots that never holds a number twice. */
module Irq {
  import Ring

  const Size: nat := 16

  /** Interrupt numbers; fresh slots hold 0, so 0 would always seem to be waiting. */
  type Number = n: int | 1 <= n <= 15 witness 1

  ghost predicate Distinct(q: seq<int>) { forall i, j :: 0 <= i < j < |q| ==> q[i] != q[j] }

  ghost predicate Numbers(q: seq<int>) { Distinct(q) && forall i :: 0 <= i < |q| ==> 1 <= q[i] <= 15 }

  lemma {:induction false} SmallSets(n: nat, s: set<int>)
    requires forall x :: x in s ==> 1 <= x <= n
    ensures |s| <= n
    decreases n
  {
    if n > 0 {
      SmallSets(n - 1, s - {n});
      assert s <= (s - {n}) + {n};
    } else {
      assert forall x :: x !in s;
    }
  }

  lemma {:induction false} DistinctSize(q: seq<int>)
    requires Distinct(q)
    ensures |set x | x in q| == |q|
    decreases |q|
  {
    if q != [] {
      var init, last := q[..|q| - 1], q[|q| - 1];
      DistinctSize(init);
      assert (set x | x in q) == (set x | x in init) + {last} by {
        assert q == init + [last];
      }
    }
  }

  /** Distinct numbers leave at least one slot free. */
  lemma NeverFull(q: seq<int>)
    requires Numbers(q)
    ensures |q| <= 15
  {
    DistinctSize(q);
    SmallSets(15, set x | x in q);
  }

  /** A number that waits is not queued again. */
  function Queued(q: seq<int>, n: Number): seq<int> { if n in q then q else q + [n] }

  /** The ring: its slots, front, rear and count. */
  type Cells = b: Ring.Buffer<int> | b.Fits() witness Ring.Buffer([0], 0, -1, 0)

  /** The slots in use hold distinct numbers, the others 0 or -1. */
  ghost predicate Sound(q: Cells) {
    && q.Ok() && |q.slots| == Size && Numbers(q.Contents())
    && forall i: nat :: q.count <= i < Size ==> q.slots[Ring.Slot(Size, q.front, i)] in {0, -1}
  }

  /** The numbers that wait. */
  function Waiting(q: Cells): seq<int> { if q.Ok() then q.Contents() else [] }

  /** Every slot is the i-th from the front for some i. */
  lemma SlotOf(front: nat, k: nat) returns (i: nat)
    requires front < Size && k < Size
    ensures i < Size && Ring.Slot(Size, front, i) == k
  {
    i := if k >= front then k - front else k - front + Size;
  }

  /** Scanning all the slots finds a number exactly if it waits. */
  lemma ScanIsMembership(q: Cells, n: Number)
    requires Sound(q)
    ensures n in Waiting(q) <==> n in q.slots
  {
    if n in Waiting(q) {
      var i :| 0 <= i < |Waiting(q)| && Waiting(q)[i] == n;
      assert q.slots[Ring.Slot(Size, q.front, i)] == n;
    }
    if n in q.slots {
      var k: nat :| k < Size && q.slots[k] == n;
      var i := SlotOf(q.front, k);
      assert Waiting(q)[i] == n;
    }
  }

  /** The scan for the number, the test for room, and the number behind the rear. */
  function Enqueued(q: Cells, n: Number): Cells {
    if n in q.slots || q.count == Size then q else q.Put(n)
  }

  /** There is always room for a number that does not wait yet. */
  lemma EnqueuedIs(q: Cells, n: Number)
    requires Sound(q)
    ensures Sound(Enqueued(q, n)) && Waiting(Enqueued(q, n)) == Queued(Waiting(q), n)
    ensures Enqueued(q, n) == q <==> n in Waiting(q)
    ensures q.count < Size
  {
    hide Ring.Entries, Ring.Next, Ring.Buffer.Put;
    NeverFull(q.Contents());
    ScanIsMembership(q, n);
    if n !in q.slots {
      Ring.PutAppends(q, n);
      MoreNumbers(q.Contents(), n);
      StillUnused(q, n);
      assert q.Put(n).Contents() != q.Contents();
    }
  }

  lemma MoreNumbers(q: seq<int>, n: Number)
    requires Numbers(q) && n !in q
    ensures Numbers(q + [n])
  {
    assert forall i :: 0 <= i < |q| ==> (q + [n])[i] == q[i] && q[i] in q;
  }

  lemma StillUnused(q: Cells, n: Number)
    requires Sound(q) && q.count < Size
    ensures q.Put(n).count == q.count + 1 && q.Put(n).front == q.front
    ensures forall i: nat :: q.count + 1 <= i < Size ==> q.Put(n).slots[Ring.Slot(Size, q.front, i)] in {0, -1}
  {
    Ring.PutAppends(q, n);
    var slots := q.slots[Ring.Slot(Size, q.front, q.count) := n];
    forall i: nat | q.count + 1 <= i < Size
      ensures slots[Ring.Slot(Size, q.front, i)] in {0, -1}
    {
      assert Ring.Slot(Size, q.front, i) != Ring.Slot(Size, q.front, q.count);
    }
  }

  /** Taking the front of a ring that is not empty. */
  lemma DequeuedIs(q: Cells)
    requires Sound(q) && q.count > 0
    ensures Sound(q.Get(-1)) && Waiting(q) == [q.First()] + Waiting(q.Get(-1)) && 1 <= q.First() <= 15
  {
    hide Ring.Entries, Ring.Next;
    Ring.GetDrops(q, -1);
    assert q.Contents()[1..] == q.Get(-1).Contents() && q.Contents()[0] == q.First();
    Tail(q.Contents());
    Moved(q.front);
  }

  /** Slots counted from the next front. */
  lemma Moved(front: int)
    requires 0 <= front < Size
    ensures var next := if front + 1 == Size then 0 else front + 1;
            && (forall i: nat :: i < Size - 1 ==> Ring.Slot(Size, next, i) == Ring.Slot(Size, front, i + 1))
            && Ring.Slot(Size, next, Size - 1) == front
  {
    var next := if front + 1 == Size then 0 else front + 1;
    forall i: nat | i < Size - 1
      ensures Ring.Slot(Size, next, i) == Ring.Slot(Size, front, i + 1)
    {
    }
  }

  lemma Tail(q: seq<int>)
    requires Numbers(q) && q != []
    ensures Numbers(q[1..])
  {
  }

  class Fifo {
    const slots: array<int>
    var front: int
    var rear: int
    var count: int

    constructor ()
      ensures Valid() && Waiting(Value()) == [] && fresh(slots)
    {
      slots := new int[Size](_ => 0);
      front, rear, count := 0, -1, 0;
    }

    ghost function Value(): Ring.Buffer<int>
      reads this, slots
    {
      Ring.Buffer(slots[..], front, rear, count)
    }

    ghost predicate Valid()
      reads this, slots
    {
      slots.Length == Size && Value().Fits() && Sound(Value())
    }

    /** A number that waits already is not queued again. */
    method Enqueue(n: Number) returns (r: int)
      requires Valid()
      modifies this, slots
      ensures Valid() && r == |Waiting(Value())| <= 15
      ensures Value() == Enqueued(old(Value()), n) && Waiting(Value()) == Queued(old(Waiting(Value())), n)
    {
      hide Ring.Entries, Ring.Next, Sound;
      ghost var before := Value();
      EnqueuedIs(before, n);
      Bounded(before);
      Bounded(Enqueued(before, n));
      for i := 0 to Size
        invariant forall k: nat :: k < i ==> slots[k] != n
      {
        if slots[i] == n {
          return count;
        }
      }
      if count == Size {
        return -1;
      }
      Ring.NextIs(Size, rear);
      Ring.NextIsRemainder(Size, rear);
      rear := (rear + 1) % Size;
      slots[rear] := n;
      count := count + 1;
      assert Value() == before.Put(n);
      return count;
    }

    /** The number that has waited longest, or -1. */
    method Dequeue() returns (r: int)
      requires Valid()
      modifies this, slots
      ensures Valid() && Value() == if old(count) == 0 then old(Value()) else old(Value()).Get(-1)
      ensures r == -1 <==> old(Waiting(Value())) == []
      ensures if r == -1 then Waiting(Value()) == [] else old(Waiting(Value())) == [r] + Waiting(Value())
    {
      hide Ring.Entries, Ring.Next, Sound;
      ghost var before := Value();
      Bounded(before);
      if count == 0 {
        return -1;
      }
      DequeuedIs(before);
      Ring.NextIs(Size, front);
      Ring.NextIsRemainder(Size, front);
      var item := slots[front];
      slots[front] := -1;
      front := (front + 1) % Size;
      count := count - 1;
      assert Value() == before.Get(-1);
      return item;
    }

    /** Writing to the interrupt controller empties the queue. */
    method Clear()
      requires Valid()
      modifies this, slots
      ensures Valid() && Waiting(Value()) == []
    {
      hide Sound, Waiting;
      var r := Dequeue();
      while r != -1
        invariant Valid() && (r == -1 ==> Waiting(Value()) == [])
        decreases if r == -1 then 0 else |Waiting(Value())| + 1
      {
        r := Dequeue();
      }
    }
  }

  lemma Bounded(q: Cells)
    requires Sound(q)
    ensures q.Ok() && |q.slots| == Size && |Waiting(q)| == q.count <= 15
  {
    NeverFull(q.Contents());
  }

  // ----- many producers, one consumer -----

  /** Where the consumer is: it tests the count twice without the lock, then takes the front under the lock; to
      clear the queue it tests once, takes, and starts over. */
  datatype Consumer = Idle | TestedOnce | Tested | Clearing | ClearTested

  /** requests: the numbers put in the queue, in order; taken: those the consumer took out again, delivered or
      cleared. */
  datatype State = State(ring: Cells, consumer: Consumer, requests: seq<int>, taken: seq<int>, delivered: seq<int>)

  ghost predicate Init(s: State) {
    s.ring == Ring.Unused(Size, 0) && s.consumer == Idle && s.requests == [] && s.taken == [] && s.delivered == []
  }

  /** A request by any producer, under the lock. */
  function Requested(s: State, n: Number): State {
    var ring := Enqueued(s.ring, n);
    s.(ring := ring, requests := if ring == s.ring then s.requests else s.requests + [n])
  }

  ghost predicate Producer(s: State, t: State) { exists n: Number :: t == Requested(s, n) }

  /** Taking the front, without another test: an empty ring would yield an invalid number. */
  function Take(s: State): State {
    var item, ring := s.ring.First(), s.ring.Get(-1);
    if s.consumer == ClearTested then s.(ring := ring, taken := s.taken + [item], consumer := Clearing)
    else s.(ring := ring, taken := s.taken + [item], delivered := s.delivered + [item], consumer := Idle)
  }

  ghost predicate Consume(s: State, t: State) {
    match s.consumer
    case Idle => t == s.(consumer := Clearing) || t == s.(consumer := if s.ring.count == 0 then Idle else TestedOnce)
    case TestedOnce => t == s.(consumer := if s.ring.count == 0 then Idle else Tested)
    case Tested => t == Take(s)
    case Clearing => t == s.(consumer := if s.ring.count == 0 then Idle else ClearTested)
    case ClearTested => t == Take(s)
  }

  ghost predicate Step(s: State, t: State) { Producer(s, t) || Consume(s, t) }

  ghost predicate Run(ss: seq<State>) {
    && ss != [] && Init(ss[0])
    && forall i :: 0 <= i < |ss| - 1 ==> Step(ss[i], ss[i + 1])
  }

  /** In order, some left out. */
  predicate Subsequence(a: seq<int>, b: seq<int>)
    decreases |b|
  {
    if b == [] then a == []
    else
      var n := |b| - 1;
      Subsequence(a, b[..n]) || (a != [] && a[|a| - 1] == b[n] && Subsequence(a[..|a| - 1], b[..n]))
  }

  lemma {:induction false} SubsequenceMore(a: seq<int>, b: seq<int>, x: int)
    requires Subsequence(a, b)
    ensures Subsequence(a, b + [x]) && Subsequence(a + [x], b + [x])
  {
    assert (b + [x])[..|b|] == b && (a + [x])[..|a|] == a;
  }

  ghost predicate Inv(s: State) {
    && Sound(s.ring) && Subsequence(s.delivered, s.taken)
    && s.requests == s.taken + Waiting(s.ring)
    && (s.consumer != Idle && s.consumer != Clearing ==> s.ring.count > 0)
    && forall i :: 0 <= i < |s.delivered| ==> 1 <= s.delivered[i] <= 15
  }

  lemma InvInit(s: State)
    requires Init(s)
    ensures Inv(s)
  {
    assert Waiting(s.ring) == [] && s.ring.Contents() == [];
  }

  lemma InvProducer(s: State, n: Number)
    requires Inv(s)
    ensures Inv(Requested(s, n))
  {
    hide Sound, Waiting, Enqueued, Subsequence;
    EnqueuedIs(s.ring, n);
    Bounded(s.ring);
    Bounded(Enqueued(s.ring, n));
    assert s.taken + Waiting(s.ring) + [n] == s.taken + (Waiting(s.ring) + [n]);
  }

  lemma InvConsume(s: State, t: State)
    requires Inv(s) && Consume(s, t)
    ensures Inv(t)
  {
    hide Sound, Waiting, Subsequence, Ring.Buffer.Get;
    Bounded(s.ring);
    if s.ring.count > 0 {
      DequeuedIs(s.ring);
      var item, rest := s.ring.First(), Waiting(s.ring.Get(-1));
      SubsequenceMore(s.delivered, s.taken, item);
      assert s.taken + ([item] + rest) == s.taken + [item] + rest;
    }
  }

  /** In every interleaving: the emptiness test stays sound, so no invalid number is delivered; the ring never fills
      its sixteen slots; what was taken and what waits are the requests in their order, and what was delivered was
      taken, in that order. */
  lemma {:induction false} EveryRun(ss: seq<State>, k: nat)
    requires Run(ss) && k < |ss|
    ensures Inv(ss[k]) && |Waiting(ss[k].ring)| == ss[k].ring.count < Size && ss[k].taken <= ss[k].requests
    ensures Subsequence(ss[k].delivered, ss[k].taken) && ss[k].requests == ss[k].taken + Waiting(ss[k].ring)
    decreases k
  {
    hide Sound, Waiting, Consume, Requested, Init;
    if k == 0 {
      InvInit(ss[0]);
    } else {
      EveryRun(ss, k - 1);
      var s, t := ss[k - 1], ss[k];
      assert Step(ss[k - 1], ss[k - 1 + 1]);
      if Producer(s, t) {
        var n: Number :| t == Requested(s, n);
        InvProducer(s, n);
      } else {
        InvConsume(s, t);
      }
    }
    Bounded(ss[k].ring);
  }

  /** If the queue is never cleared, everything taken was delivered. */
  lemma {:induction false} AllDelivered(ss: seq<State>, k: nat)
    requires Run(ss) && k < |ss|
    requires forall i :: 0 <= i <= k ==> ss[i].consumer != Clearing && ss[i].consumer != ClearTested
    ensures ss[k].delivered == ss[k].taken && ss[k].delivered <= ss[k].requests
    decreases k
  {
    hide Inv, Enqueued, Ring.Buffer.Get, Ring.Buffer.First;
    EveryRun(ss, k);
    if k > 0 {
      AllDelivered(ss, k - 1);
      assert Step(ss[k - 1], ss[k - 1 + 1]);
    }
  }

  // ----- what waits is delivered -----

  predicate Clears(c: Consumer) { c == Clearing || c == ClearTested }

  /** Steps of the consumer until the x-th request of all is delivered. */
  function Ahead(s: State, x: nat): int {
    3 * (x - |s.taken|) + (match s.consumer case Idle => 3 case TestedOnce => 2 case Tested => 1 case _ => 0)
  }

  /** What a step may change while a request waits and the queue is not cleared: the consumer comes nearer to it, and
      what it takes it delivers. */
  ghost predicate Nearer(s: State, t: State, x: nat) {
    && s.requests <= t.requests
    && Ahead(t, x) == Ahead(s, x) - (if s.consumer == t.consumer then 0 else 1)
    && ((t.taken == s.taken && t.delivered == s.delivered)
        || (exists v :: t.taken == s.taken + [v] && t.delivered == s.delivered + [v]))
  }

  lemma StepNearer(s: State, t: State, x: nat)
    requires Inv(s) && Step(s, t) && |s.taken| <= x < |s.requests| && !Clears(s.consumer) && !Clears(t.consumer)
    ensures Nearer(s, t, x)
  {
    hide Sound, Waiting, Enqueued, Subsequence, Ring.Buffer.Get;
    Bounded(s.ring);
    assert s.ring.count > 0;
    if Consume(s, t) && s.consumer == Tested {
      assert t.taken == s.taken + [s.ring.First()] && t.delivered == s.delivered + [s.ring.First()];
    }
  }

  /** The consumer's own steps in a stretch of a run. */
  ghost function Moves(ss: seq<State>, i: nat, k: nat): nat
    requires i <= k < |ss|
    decreases k - i
  {
    if i == k then 0 else (if ss[i].consumer == ss[i + 1].consumer then 0 else 1) + Moves(ss, i + 1, k)
  }

  /** A request that waits is delivered within three steps of the consumer for itself and each one before it, unless
      the queue is cleared, whatever the producers do meanwhile. */
  lemma {:induction false} Served(ss: seq<State>, i: nat, k: nat, x: nat) returns (m: nat)
    requires Run(ss) && i <= k < |ss| && |ss[i].taken| <= x < |ss[i].requests|
    requires forall j :: i <= j <= k ==> !Clears(ss[j].consumer)
    requires Moves(ss, i, k) >= Ahead(ss[i], x)
    ensures i <= m <= k && |ss[m].taken| == x + 1 && ss[m].taken[x] == ss[i].requests[x]
    ensures ss[m].delivered != [] && ss[m].delivered[|ss[m].delivered| - 1] == ss[i].requests[x]
    decreases k - i
  {
    hide Inv, Step, Init, Consume;
    EveryRun(ss, i);
    assert i < k;
    var s, t := ss[i], ss[i + 1];
    assert Step(s, t);
    StepNearer(s, t, x);
    EveryRun(ss, i + 1);
    if |t.taken| <= x {
      m := Served(ss, i + 1, k, x);
    } else {
      LastTaken(s, t, x);
      m := i + 1;
    }
  }

  lemma LastTaken(s: State, t: State, x: nat)
    requires Inv(t) && Nearer(s, t, x) && |s.taken| <= x < |s.requests| && |t.taken| > x
    ensures |t.taken| == x + 1 && t.taken[x] == s.requests[x] && t.delivered != []
    ensures t.delivered[|t.delivered| - 1] == s.requests[x]
  {
    hide Sound, Waiting, Subsequence;
    assert t.requests[x] == t.taken[x];
  }

  /** A request is dropped exactly if its number is waiting already, so it is delivered with the earlier one. */
  lemma DroppedOnlyIfWaiting(s: State, n: Number)
    requires Inv(s)
    ensures Requested(s, n).requests == s.requests <==> n in Waiting(s.ring)
    ensures n in Waiting(Requested(s, n).ring)
  {
    hide Sound, Waiting, Enqueued, Subsequence;
    EnqueuedIs(s.ring, n);
    var t := Requested(s, n);
    if n !in Waiting(s.ring) {
      assert Waiting(t.ring)[|Waiting(s.ring)|] == n;
      assert |t.requests| == |s.requests| + 1;
    }
  }
}
