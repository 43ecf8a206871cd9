/** The ring buffer of the console output and of the interrupt queue: an array with front, rear and count. */
module Ring {

  type Byte = b: int | 0 <= b < 256

  /** The i-th slot from the front. */
  function Slot(size: nat, front: nat, i: nat): nat {
    if front + i < size then front + i else front + i - size
  }

  function Next(size: nat, i: int): int
    requires size > 0
  {
    (i + 1) % size
  }

  lemma NextIs(size: nat, i: int)
    requires size > 0 && -1 <= i < size
    ensures Next(size, i) == if i + 1 == size then 0 else i + 1
  {
    if i + 1 < size {
      assert (i + 1) / size == 0;
    }
  }

  /** Slots in use start at the front; the rear is the last one, or the slot before the front if there is none, or
      -1 before the first use. */
  predicate Shape(size: nat, front: int, rear: int, count: int) {
    && size > 0 && 0 <= front < size && 0 <= count <= size && -1 <= rear < size
    && (rear == -1 ==> front == 0 && count == 0)
    && (rear != -1 && count > 0 ==> rear == Slot(size, front, count - 1))
    && (rear != -1 && count == 0 ==> front == if rear + 1 == size then 0 else rear + 1)
  }

  /** The n entries from the front on. */
  function Entries<T>(s: seq<T>, front: nat, n: nat): (q: seq<T>)
    requires front < |s| && n <= |s|
    ensures |q| == n
  {
    seq(n, i requires 0 <= i < n => s[Slot(|s|, front, i)])
  }

  /** Writing the slot after the last entry appends to the entries. */
  lemma Appended<T>(s: seq<T>, front: nat, n: nat, v: T)
    requires front < |s| && n < |s|
    ensures var t := s[Slot(|s|, front, n) := v]; Entries(t, front, n + 1) == Entries(s, front, n) + [v]
  {
    var t := s[Slot(|s|, front, n) := v];
    forall i | 0 <= i < n + 1
      ensures Entries(t, front, n + 1)[i] == (Entries(s, front, n) + [v])[i]
    {
      assert Slot(|s|, front, i) == Slot(|s|, front, n) <==> i == n;
    }
  }

  /** Overwriting the front slot and moving past it drops the first entry. */
  lemma Dropped<T>(s: seq<T>, front: nat, n: nat, v: T)
    requires front < |s| && 0 < n <= |s|
    ensures var t, next := s[front := v], if front + 1 == |s| then 0 else front + 1;
            Entries(s, front, n) == [s[front]] + Entries(t, next, n - 1)
  {
    var t, next := s[front := v], if front + 1 == |s| then 0 else front + 1;
    forall i | 0 <= i < n
      ensures Entries(s, front, n)[i] == ([s[front]] + Entries(t, next, n - 1))[i]
    {
      if i > 0 {
        assert Slot(|s|, next, i - 1) == Slot(|s|, front, i) != front;
      }
    }
  }

  // ----- the ring as a value -----

  datatype Buffer<T> = Buffer(slots: seq<T>, front: int, rear: int, count: int) {
    predicate Fits() { slots != [] && 0 <= front < |slots| }

    predicate Ok() { Shape(|slots|, front, rear, count) }

    function Contents(): (q: seq<T>)
      requires Ok()
      ensures |q| == count
    {
      Entries(slots, front, count)
    }

    /** The front slot, whether it is in use or not. */
    function First(): T
      requires Fits()
    {
      slots[front]
    }

    /** Writing behind the rear; there is no test for room. */
    function Put(v: T): (b: Buffer<T>)
      requires Fits()
      ensures b.Fits() && |b.slots| == |slots|
    {
      var next := Next(|slots|, rear);
      Buffer(slots[next := v], front, next, count + 1)
    }

    /** Moving past the front, which is overwritten; there is no test for an entry. */
    function Get(mark: T): (b: Buffer<T>)
      requires Fits()
      ensures b.Fits() && |b.slots| == |slots|
    {
      Buffer(slots[front := mark], Next(|slots|, front), rear, count - 1)
    }
  }

  function Unused<T>(size: nat, v: T): (b: Buffer<T>)
    ensures size > 0 ==> b.Fits() && b.Ok() && b.Contents() == [] && |b.slots| == size
  {
    Buffer(seq(size, i => v), 0, -1, 0)
  }

  lemma PutAppends<T>(b: Buffer<T>, v: T)
    requires b.Fits() && b.Ok() && b.count < |b.slots|
    ensures b.Put(v).Ok() && b.Put(v).Contents() == b.Contents() + [v]
    ensures b.Put(v).slots == b.slots[Slot(|b.slots|, b.front, b.count) := v]
  {
    hide Next;
    NextIs(|b.slots|, b.rear);
    Appended(b.slots, b.front, b.count, v);
    assert Next(|b.slots|, b.rear) == Slot(|b.slots|, b.front, b.count);
  }

  lemma GetDrops<T>(b: Buffer<T>, mark: T)
    requires b.Fits() && b.Ok() && b.count > 0
    ensures b.Get(mark).Ok() && b.Contents() == [b.First()] + b.Get(mark).Contents()
    ensures b.Get(mark).front == if b.front + 1 == |b.slots| then 0 else b.front + 1
  {
    hide Next;
    NextIs(|b.slots|, b.front);
    Dropped(b.slots, b.front, b.count, mark);
  }

  class ByteRing {
    const size: nat
    const slots: array<Byte>
    var rear: int
    var front: int
    var count: int

    constructor (capacity: nat)
      requires capacity > 0
      ensures Valid() && Contents() == [] && size == capacity && fresh(slots)
    {
      size := capacity;
      slots := new Byte[capacity](_ => 0);
      rear, front, count := -1, 0, 0;
    }

    ghost function Value(): Buffer<Byte>
      reads this, slots
    {
      Buffer(slots[..], front, rear, count)
    }

    ghost predicate Valid()
      reads this, slots
    {
      slots.Length == size && Value().Fits() && Value().Ok()
    }

    ghost function Contents(): (q: seq<Byte>)
      reads this, slots
      requires Valid()
      ensures |q| == count
    {
      Value().Contents()
    }

    /** The number of entries, or -1 if the ring is full and the value is dropped. */
    method Enqueue(value: Byte) returns (r: int)
      requires Valid()
      modifies this, slots
      ensures Valid() && Value() == if old(count) >= size then old(Value()) else old(Value()).Put(value)
      ensures old(count) >= size ==> r == -1 && Contents() == old(Contents())
      ensures old(count) < size ==> Contents() == old(Contents()) + [value] && r == |Contents()|
    {
      hide Next, Entries;
      if count >= size {
        return -1;
      }
      ghost var before := Value();
      PutAppends(before, value);
      NextIs(size, rear);
      rear := (rear + 1) % size;
      assert rear == Next(size, before.rear) by { NextIsRemainder(size, before.rear); }
      slots[rear] := value;
      count := count + 1;
      assert Value() == before.Put(value);
      return count;
    }

    /** The entry at the front, or -1 if there is none; the slot is overwritten. */
    method Dequeue() returns (r: int)
      requires Valid()
      modifies this, slots
      ensures Valid() && Value() == if old(count) == 0 then old(Value()) else old(Value()).Get(255)
      ensures old(count) == 0 ==> r == -1 && Contents() == old(Contents())
      ensures old(count) > 0 ==> 0 <= r < 256 && old(Contents()) == [r] + Contents()
    {
      hide Next, Entries;
      if count == 0 {
        return -1;
      }
      ghost var before := Value();
      GetDrops(before, 255);
      var item := slots[front];
      slots[front] := 255;
      front := (front + 1) % size;
      assert front == Next(size, before.front) by { NextIsRemainder(size, before.front); }
      count := count - 1;
      assert Value() == before.Get(255);
      return item;
    }
  }

  lemma NextIsRemainder(size: nat, i: int)
    requires size > 0
    ensures Next(size, i) == (i + 1) % size
  {
  }
}
