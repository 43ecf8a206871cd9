/** The console's output: the CPU and an output thread as atomic steps over two locks, a condition variable, the
    status register and the ring. The two outputs differ in one constant only. */
module ConsoleOut {
  import Ring

  type Byte = Ring.Byte

  /** The ring: its slots, front, rear and count. */
  type Cells = b: Ring.Buffer<Byte> | b.Fits() witness Ring.Buffer([0], 0, -1, 0)

  const Ready: Byte := 0x00
  const Sending: Byte := 0x01
  const Broken: Byte := 0xFF
  const NewLine: Byte := 10

  const QueueSize: nat := 262144

  datatype Owner = Nobody | Output | Cpu

  /** Where the CPU is in a write to the data register. */
  datatype CpuPc =
    | Idle
    | WantStatus(v: Byte)
    | Storing(v: Byte)
    | Enqueueing(v: Byte)
    | Checking(v: Byte)
    | WantOut
    | Signalling
    | LeavingOut
    | LeavingStatus

  /** Where the output thread is. */
  datatype OutPc =
    | Top
    | Looking
    | Flushing
    | Writing(v: Byte)
    | Flushed
    | WantSignal
    | Letting
    | Asking
    | Waiting
    | Woken
    | Awake
    | Back
    | Sleeping
    | Unlocking

  /** resets: whether a flush makes the device ready again. accepted: the bytes the CPU wrote while the device was
      ready; emitted: the bytes the terminal took; rejected: a byte found the ring full. */
  datatype State = State(
    status: Byte, data: Byte, queue: Cells, lockStatus: Owner, lockOut: Owner, cpu: CpuPc, out: OutPc,
    resets: bool, accepted: seq<Byte>, emitted: seq<Byte>, rejected: bool, broken: bool)

  ghost predicate Init(s: State) {
    && s.status == Ready && s.queue == Ring.Unused(QueueSize, 0) && s.lockStatus == Nobody && s.lockOut == Nobody
    && s.cpu == Idle && s.out == Top && s.accepted == [] && s.emitted == [] && !s.rejected && !s.broken
  }

  // ----- the CPU -----

  /** A thread that takes a lock waits until it is free. */
  predicate CpuFree(s: State) {
    (s.cpu.WantStatus? ==> s.lockStatus == Nobody) && (s.cpu.WantOut? ==> s.lockOut == Nobody)
  }

  /** A write tests the status without a lock; when the device is not ready it is ignored. */
  function CpuNext(s: State, v: Byte): State {
    match s.cpu
    case Idle => if s.status == Ready then s.(cpu := WantStatus(v)) else s
    case WantStatus(v) => s.(lockStatus := Cpu, cpu := Storing(v))
    case Storing(v) => s.(data := v, cpu := Enqueueing(v))
    case Enqueueing(v) =>
      if s.queue.count >= QueueSize then s.(rejected := true, cpu := Checking(v))
      else s.(queue := s.queue.Put(v), accepted := s.accepted + [v], cpu := Checking(v))
    case Checking(v) =>
      if v == NewLine || s.queue.count == QueueSize then s.(status := Sending, cpu := WantOut)
      else s.(cpu := LeavingStatus)
    case WantOut => s.(lockOut := Cpu, cpu := Signalling)
    case Signalling => s.(out := if s.out == Waiting then Woken else s.out, cpu := LeavingOut)
    case LeavingOut => s.(lockOut := Nobody, cpu := LeavingStatus)
    case LeavingStatus => s.(lockStatus := Nobody, cpu := Idle)
  }

  ghost predicate CpuStep(s: State, t: State) { CpuFree(s) && exists v: Byte :: t == CpuNext(s, v) }

  // ----- the output thread -----

  predicate OutFree(s: State) {
    && (s.out.Top? || s.out.Back? ==> s.lockStatus == Nobody)
    && (s.out.WantSignal? || s.out.Woken? ==> s.lockOut == Nobody)
  }

  function OutNext(s: State): State {
    match s.out
    case Top => s.(lockStatus := Output, out := Looking)
    case Looking =>
      s.(out := if s.status == Sending then Flushing
                else if s.status == Ready then WantSignal
                else if s.status == Broken then Sleeping else Unlocking)
    case Flushing =>
      if s.queue.count == 0 then s.(out := Flushed)
      else s.(queue := s.queue.Get(255), out := Writing(s.queue.First()))
    case Writing(v) => s.(emitted := s.emitted + [v], out := Flushing)
    case Flushed => s.(status := if s.status == Sending && s.resets then Ready else s.status, out := Unlocking)
    case WantSignal => s.(lockOut := Output, out := Letting)
    case Letting => s.(lockStatus := Nobody, out := Asking)
    case Asking => if s.status == Ready then s.(lockOut := Nobody, out := Waiting) else s.(out := Awake)
    case Waiting => s.(out := Woken)
    case Woken => s.(lockOut := Output, out := Awake)
    case Awake => s.(lockOut := Nobody, out := Back)
    case Back => s.(lockStatus := Output, out := Unlocking)
    case Sleeping => s.(out := Unlocking)
    case Unlocking => s.(lockStatus := Nobody, out := Top)
  }

  /** The terminal may also refuse a byte for now, or for good. */
  ghost predicate OutStep(s: State, t: State) {
    OutFree(s) &&
    (t == OutNext(s)
     || (s.out.Writing? && (t == s || t == s.(status := Broken, broken := true, out := Flushing))))
  }

  ghost predicate Step(s: State, t: State) { CpuStep(s, t) || OutStep(s, t) }

  ghost predicate Run(ss: seq<State>) {
    && ss != [] && Init(ss[0])
    && forall i :: 0 <= i < |ss| - 1 ==> Step(ss[i], ss[i + 1])
  }

  // ----- invariant -----

  predicate CpuHasStatus(pc: CpuPc) { !pc.Idle? && !pc.WantStatus? }

  predicate CpuHasOut(pc: CpuPc) { pc.Signalling? || pc.LeavingOut? }

  predicate OutHasStatus(pc: OutPc) {
    pc.Looking? || pc.Flushing? || pc.Writing? || pc.Flushed? || pc.WantSignal? || pc.Letting? || pc.Sleeping?
    || pc.Unlocking?
  }

  predicate OutHasOut(pc: OutPc) { pc.Letting? || pc.Asking? || pc.Awake? }

  ghost predicate Locks(s: State) {
    && (s.lockStatus == Cpu <==> CpuHasStatus(s.cpu)) && (s.lockStatus == Output <==> OutHasStatus(s.out))
    && (s.lockOut == Cpu <==> CpuHasOut(s.cpu)) && (s.lockOut == Output <==> OutHasOut(s.out))
  }

  /** The CPU has seen the device ready and not yet decided to send. */
  predicate Filling(pc: CpuPc) { pc.WantStatus? || pc.Storing? || pc.Enqueueing? || pc.Checking? }

  /** The CPU has made the device send and still has to signal. */
  predicate Announcing(pc: CpuPc) { pc.WantOut? || pc.Signalling? }

  predicate Emptying(pc: OutPc) { pc.Flushing? || pc.Writing? || pc.Flushed? }

  function InFlight(pc: OutPc): seq<Byte> { if pc.Writing? then [pc.v] else [] }

  ghost predicate Phases(s: State) {
    && s.status in {Ready, Sending, Broken} && (s.status == Broken ==> s.broken)
    && (Filling(s.cpu) ==> s.status == Ready)
    && (Announcing(s.cpu) ==> s.status == Sending || s.broken)
    && (Emptying(s.out) ==> s.status != Ready)
    && (s.out.WantSignal? || s.out.Letting? ==> s.status == Ready)
    && (s.out.Waiting? ==> s.status == Ready || Announcing(s.cpu))
  }

  /** The ring is in order. */
  predicate Sound(q: Cells) { q.Ok() && |q.slots| == QueueSize }

  /** The bytes the ring holds. */
  function Held(q: Cells): seq<Byte> { if q.Ok() then q.Contents() else [] }

  ghost predicate Bytes(s: State) {
    && Sound(s.queue) && !s.rejected
    && (s.status == Ready && !s.cpu.Checking? ==> s.queue.count < QueueSize)
    && (s.cpu.Checking? ==> s.accepted != [] && s.accepted[|s.accepted| - 1] == s.cpu.v)
    && (s.out.Flushed? ==> s.queue.count == 0)
    && (!s.broken ==> s.accepted == s.emitted + InFlight(s.out) + Held(s.queue))
  }

  ghost predicate Inv(s: State) { Locks(s) && Phases(s) && Bytes(s) }

  lemma InvInit(s: State)
    requires Init(s)
    ensures Inv(s)
  {
  }

  lemma HeldPut(q: Cells, v: Byte)
    requires Sound(q) && q.count < QueueSize
    ensures Sound(q.Put(v)) && Held(q.Put(v)) == Held(q) + [v] && q.Put(v).count == q.count + 1
  {
    Ring.PutAppends(q, v);
  }

  lemma HeldGet(q: Cells)
    requires Sound(q) && q.count > 0
    ensures Sound(q.Get(255)) && Held(q) == [q.First()] + Held(q.Get(255)) && q.Get(255).count == q.count - 1
  {
    Ring.GetDrops(q, 255);
  }

  lemma HeldIs(q: Cells)
    requires Sound(q)
    ensures |Held(q)| == q.count <= QueueSize
  {
  }

  lemma InvCpu(s: State, t: State)
    requires Inv(s) && CpuStep(s, t)
    ensures Inv(t)
  {
    hide Sound, Held, Ring.Buffer.Put, Ring.Buffer.Get;
    HeldIs(s.queue);
    if s.cpu.Enqueueing? {
      HeldPut(s.queue, s.cpu.v);
      assert s.emitted + InFlight(s.out) + Held(s.queue) + [s.cpu.v] ==
             s.emitted + InFlight(s.out) + (Held(s.queue) + [s.cpu.v]);
    }
    match s.cpu
    case Idle =>
    case WantStatus(_) =>
    case Enqueueing(_) =>
    case Checking(_) =>
    case Signalling =>
    case _ =>
  }

  lemma OutLocks(s: State, t: State)
    requires Locks(s) && OutStep(s, t)
    ensures Locks(t)
  {
    hide OutNext, OutFree;
    NextLocks(s);
  }

  lemma NextLocks(s: State)
    requires Locks(s) && OutFree(s)
    ensures Locks(OutNext(s))
  {
    hide CpuHasStatus, CpuHasOut;
    match s.out
    case Top =>
    case Looking =>
    case Flushing =>
    case Writing(_) =>
    case Letting =>
    case Asking =>
    case Back =>
    case Unlocking =>
    case _ =>
  }

  /** A finished flush leaves nobody announcing: the CPU would hold the status lock. */
  lemma FlushedPhases(s: State)
    requires Inv(s) && s.out.Flushed?
    ensures Phases(OutNext(s))
  {
    hide Bytes;
  }

  lemma WritingPhases(s: State, t: State)
    requires Inv(s) && OutStep(s, t) && s.out.Writing?
    ensures Phases(t)
  {
    hide Bytes, OutFree;
  }

  lemma OtherPhases(s: State)
    requires Inv(s) && OutFree(s) && !s.out.Flushed? && !s.out.Writing?
    ensures Phases(OutNext(s))
  {
    hide Bytes, OutFree, Ring.Buffer.Get;
    match s.out
    case Top =>
    case Looking =>
    case Flushing =>
    case Letting =>
    case Asking =>
    case Back =>
    case Unlocking =>
    case _ =>
  }

  lemma OutPhases(s: State, t: State)
    requires Inv(s) && OutStep(s, t)
    ensures Phases(t)
  {
    hide Inv, OutNext, OutFree, Phases;
    if s.out.Flushed? {
      FlushedPhases(s);
    } else if s.out.Writing? {
      WritingPhases(s, t);
    } else {
      OtherPhases(s);
    }
  }

  /** Only flushing and writing touch the bytes, and only a finished flush makes the device ready. */
  lemma OutKeeps(s: State, t: State)
    requires Phases(s) && OutStep(s, t) && !s.out.Flushing? && !s.out.Writing?
    ensures t.queue == s.queue && t.accepted == s.accepted && t.emitted == s.emitted && t.rejected == s.rejected
    ensures t.broken == s.broken && t.cpu == s.cpu && !t.out.Writing? && !t.out.Flushed?
    ensures t.status == s.status || s.out.Flushed?
  {
    hide Ring.Buffer.Put, Ring.Buffer.Get, OutFree;
    match s.out
    case Top =>
    case Looking =>
    case Letting =>
    case Asking =>
    case Back =>
    case Unlocking =>
    case _ =>
  }

  lemma OutFlushes(s: State, t: State)
    requires Phases(s) && Bytes(s) && OutStep(s, t) && s.out.Flushing?
    ensures Bytes(t)
  {
    hide Sound, Held, Ring.Buffer.Put, Ring.Buffer.Get, OutFree;
    HeldIs(s.queue);
    if s.queue.count != 0 {
      HeldGet(s.queue);
      var v, rest := s.queue.First(), Held(s.queue.Get(255));
      assert s.emitted + [] + ([v] + rest) == s.emitted + [v] + rest;
    }
  }

  lemma OutWrites(s: State, t: State)
    requires Phases(s) && Bytes(s) && OutStep(s, t) && s.out.Writing?
    ensures Bytes(t)
  {
    hide Sound, Held, Ring.Buffer.Put, Ring.Buffer.Get, OutFree;
    assert s.emitted + [s.out.v] + Held(s.queue) == s.emitted + [s.out.v] + [] + Held(s.queue);
  }

  lemma OutBytes(s: State, t: State)
    requires Inv(s) && OutStep(s, t)
    ensures Bytes(t)
  {
    hide Sound, Held, OutStep, Locks, Phases;
    if s.out.Flushing? {
      OutFlushes(s, t);
    } else if s.out.Writing? {
      OutWrites(s, t);
    } else {
      OutKeeps(s, t);
    }
  }

  lemma InvOut(s: State, t: State)
    requires Inv(s) && OutStep(s, t)
    ensures Inv(t)
  {
    hide Locks, Phases, Bytes, OutStep;
    OutLocks(s, t);
    OutPhases(s, t);
    OutBytes(s, t);
  }

  lemma {:induction false} InvRun(ss: seq<State>, k: nat)
    requires Run(ss) && k < |ss|
    ensures Inv(ss[k])
    decreases k
  {
    if k == 0 {
      InvInit(ss[0]);
    } else {
      InvRun(ss, k - 1);
      var s, t := ss[k - 1], ss[k];
      assert Step(ss[k - 1], ss[k - 1 + 1]);
      if CpuStep(s, t) {
        InvCpu(s, t);
      } else {
        InvOut(s, t);
      }
    }
  }

  // ----- safety over every run -----

  /** A device that is ready, with no write under way, has room: no byte is ever rejected. */
  lemma {:induction false} NeverRejects(ss: seq<State>, k: nat)
    requires Run(ss) && k < |ss|
    ensures !ss[k].rejected && |Held(ss[k].queue)| == ss[k].queue.count <= QueueSize
    ensures ss[k].status == Ready && !ss[k].cpu.Checking? ==> ss[k].queue.count < QueueSize
  {
    InvRun(ss, k);
  }

  /** As long as the terminal takes every byte, what it has taken is a prefix of the bytes accepted, in order;
      only the byte in hand and the ring are still to come. */
  lemma {:induction false} EmittedInOrder(ss: seq<State>, k: nat)
    requires Run(ss) && k < |ss| && !ss[k].broken
    ensures ss[k].emitted <= ss[k].accepted
    ensures ss[k].accepted == ss[k].emitted + InFlight(ss[k].out) + Held(ss[k].queue)
  {
    InvRun(ss, k);
  }

  /** After a flush nothing accepted is left behind. */
  lemma {:induction false} FlushEmptiesAll(ss: seq<State>, k: nat)
    requires Run(ss) && k < |ss| && ss[k].out.Flushed? && !ss[k].broken
    ensures ss[k].emitted == ss[k].accepted
  {
    InvRun(ss, k);
    assert ss[k].emitted + [] + [] == ss[k].emitted;
  }

  /** The output thread never waits unsignalled while there is something to send: if it waits, the device is ready or
      the CPU has still to signal, and the signal wakes it. */
  lemma {:induction false} NoLostWakeup(ss: seq<State>, k: nat)
    requires Run(ss) && k < |ss| && ss[k].out == Waiting && ss[k].status != Ready
    ensures Announcing(ss[k].cpu)
    ensures forall t :: CpuStep(ss[k], t) && ss[k].cpu.Signalling? ==> t.out != Waiting
  {
    InvRun(ss, k);
  }

  // ----- no deadlock -----

  ghost predicate CpuEnabled(s: State) { exists t :: CpuStep(s, t) }

  ghost predicate OutEnabled(s: State) { exists t :: OutStep(s, t) }

  lemma CpuCanStep(s: State)
    requires CpuFree(s)
    ensures CpuEnabled(s)
  {
    var v: Byte := 0;
    assert CpuStep(s, CpuNext(s, v));
  }

  lemma OutCanStep(s: State)
    requires OutFree(s)
    ensures OutEnabled(s)
  {
    assert OutStep(s, OutNext(s));
  }

  /** A thread that waits for a lock waits for the other thread, which can go on. */
  lemma NoDeadlock(s: State)
    requires Inv(s)
    ensures CpuEnabled(s) || OutEnabled(s)
    ensures !CpuEnabled(s) ==> OutEnabled(s) && (s.cpu.WantOut? ==> s.out.Asking? || s.out.Awake?)
    ensures !OutEnabled(s) ==> CpuEnabled(s) || s.cpu.WantOut?
  {
    if CpuFree(s) {
      CpuCanStep(s);
    } else {
      OutCanStep(s);
    }
  }

  // ----- what is accepted is sent -----

  /** A flush is called for and not finished, and the terminal has not failed. */
  ghost predicate Due(s: State) { Inv(s) && s.status == Sending && !s.broken && !s.out.Flushed? }

  /** A step in which the terminal takes the byte it is given. */
  ghost predicate Works(s: State, t: State) { CpuStep(s, t) || (OutFree(s) && t == OutNext(s)) }

  /** The check after an accepted byte calls for a flush exactly if the byte is a newline or has filled the ring. */
  lemma CheckCalls(s: State, t: State)
    requires Inv(s) && CpuStep(s, t) && s.cpu.Checking?
    ensures s.accepted != [] && s.accepted[|s.accepted| - 1] == s.cpu.v && t.accepted == s.accepted
    ensures t.status != Ready <==> s.cpu.v == NewLine || |Held(s.queue)| == QueueSize
    ensures t.status != Ready && !s.broken ==>
              Due(t) && t.accepted == t.emitted + InFlight(t.out) + Held(t.queue)
  {
    hide Sound, Held, Locks;
    HeldIs(s.queue);
    InvCpu(s, t);
    assert t.out == s.out && !s.out.Flushed? by { NotWhileChecking(s); }
  }

  lemma NotWhileChecking(s: State)
    requires Locks(s) && s.cpu.Checking?
    ensures !s.out.Flushed?
  {
  }

  /** Steps of the output thread until the flush has finished. */
  function Ahead(pc: OutPc, count: nat): nat {
    match pc
    case Flushed => 0
    case Flushing => 2 * count + 1
    case Writing(_) => 2 * count + 2
    case Looking => 2 * count + 2
    case Top => 2 * count + 3
    case Unlocking => 2 * count + 4
    case Back => 2 * count + 5
    case Sleeping => 2 * count + 5
    case Awake => 2 * count + 6
    case Asking => 2 * count + 7
    case Woken => 2 * count + 7
    case Waiting => 2 * count + 8
    case WantSignal => 0
    case Letting => 0
  }

  /** Steps of the CPU until its write has finished. */
  function Rest(pc: CpuPc): nat {
    match pc
    case WantOut => 4
    case Signalling => 3
    case LeavingOut => 2
    case LeavingStatus => 1
    case _ => 0
  }

  function Distance(s: State): nat
    requires s.queue.count >= 0
  {
    Ahead(s.out, s.queue.count) + Rest(s.cpu)
  }

  lemma DueCount(s: State)
    requires Inv(s)
    ensures s.queue.count >= 0
  {
    hide Held;
  }

  lemma CpuNearer(s: State, t: State)
    requires Due(s) && CpuStep(s, t)
    ensures t.status == Sending && !t.broken && t.accepted == s.accepted && t.queue == s.queue
    ensures t.out == s.out || (s.out.Waiting? && t.out.Woken?)
    ensures t == s || Rest(t.cpu) < Rest(s.cpu)
  {
    hide Bytes, Locks, Ring.Buffer.Put;
    match s.cpu
    case Idle =>
    case Signalling =>
    case _ =>
  }

  lemma OutNearer(s: State)
    requires Due(s) && OutFree(s) && s.queue.count >= 0
    ensures var t := OutNext(s);
            && t.status == Sending && !t.broken && t.accepted == s.accepted && t.cpu == s.cpu
            && (t.queue.count >= 0 ==> Ahead(t.out, t.queue.count) < Ahead(s.out, s.queue.count))
  {
    hide Bytes, Locks, OutFree;
    match s.out
    case Flushing =>
    case Looking =>
    case Asking =>
    case _ =>
  }

  /** Every step but an ignored write brings the end of the flush nearer. */
  lemma Nearer(s: State, t: State)
    requires Due(s) && Works(s, t) && t != s && s.queue.count >= 0
    ensures Inv(t) && t.status == Sending && !t.broken && t.accepted == s.accepted
    ensures t.queue.count >= 0 && Distance(t) < Distance(s)
  {
    hide Inv, CpuStep, OutFree, OutNext;
    assert Inv(s);
    if CpuStep(s, t) {
      InvCpu(s, t);
      CpuNearer(s, t);
      assert Ahead(t.out, s.queue.count) <= Ahead(s.out, s.queue.count);
    } else {
      assert OutStep(s, t);
      InvOut(s, t);
      DueCount(t);
      OutNearer(s);
    }
  }

  /** And until then there is one, that needs no unprompted wake-up. */
  lemma GoesOn(s: State) returns (t: State)
    requires Due(s)
    ensures t != s && Works(s, t) && (s.out.Waiting? ==> CpuStep(s, t))
  {
    hide Bytes, Ring.Buffer.Put, Ring.Buffer.Get;
    if CpuFree(s) && !s.cpu.Idle? {
      var v: Byte := 0;
      t := CpuNext(s, v);
    } else {
      t := OutNext(s);
    }
  }

  /** The steps of a run that change something. */
  ghost function Moves(ss: seq<State>, i: nat, k: nat): nat
    requires i <= k < |ss|
    decreases k - i
  {
    if i == k then 0 else (if ss[i] == ss[i + 1] then 0 else 1) + Moves(ss, i + 1, k)
  }

  /** Once a flush is called for, and as long as the terminal works, every accepted byte is sent after a number of
      moves bounded by twice the bytes in the ring and a constant. */
  lemma {:induction false} AllSent(ss: seq<State>, i: nat, k: nat) returns (m: nat)
    requires Run(ss) && i <= k < |ss| && Due(ss[i]) && ss[i].queue.count >= 0
    requires forall j :: i <= j < k ==> Works(ss[j], ss[j + 1])
    requires Moves(ss, i, k) >= Distance(ss[i])
    ensures i <= m <= k && ss[m].out.Flushed? && ss[m].accepted == ss[i].accepted == ss[m].emitted
    decreases k - i
  {
    hide Inv, CpuStep, OutFree, OutNext, Works, Init;
    assert Distance(ss[i]) > 0 by { NotDone(ss[i]); }
    assert Works(ss[i], ss[i + 1]);
    if ss[i + 1] == ss[i] {
      m := AllSent(ss, i + 1, k);
    } else {
      Nearer(ss[i], ss[i + 1]);
      if ss[i + 1].out.Flushed? {
        m := i + 1;
        FlushEmptiesAll(ss, m);
      } else {
        m := AllSent(ss, i + 1, k);
      }
    }
  }

  lemma NotDone(s: State)
    requires Due(s) && s.queue.count >= 0
    ensures Distance(s) > 0
  {
    hide Bytes, Locks;
  }

  // ----- the second output -----

  /** The second output never becomes ready again after its first flush, so it takes no further byte. */
  lemma SecondStaysBusy(s: State, t: State)
    requires Inv(s) && Step(s, t) && !s.resets && s.status != Ready && !Filling(s.cpu)
    ensures t.status != Ready && !Filling(t.cpu) && !t.resets && t.accepted == s.accepted
  {
  }

  lemma {:induction false} SecondIsSilenced(ss: seq<State>, j: nat, k: nat)
    requires Run(ss) && j <= k < |ss| && !ss[j].resets && ss[j].status != Ready
    ensures ss[k].status != Ready && !Filling(ss[k].cpu) && !ss[k].resets && ss[k].accepted == ss[j].accepted
    decreases k
  {
    hide Inv, CpuStep, OutStep, Init;
    InvRun(ss, j);
    BusyIsNotFilling(ss[j]);
    if k > j {
      InvRun(ss, k - 1);
      SecondIsSilenced(ss, j, k - 1);
      assert Step(ss[k - 1], ss[k - 1 + 1]);
      SecondStaysBusy(ss[k - 1], ss[k]);
    }
  }

  lemma BusyIsNotFilling(s: State)
    requires Inv(s) && s.status != Ready
    ensures !Filling(s.cpu)
  {
  }

  /** The first output does become ready again: its flush ends in the ready state. */
  lemma FirstIsReadyAgain(s: State, t: State)
    requires Inv(s) && OutStep(s, t) && s.out.Flushed? && s.resets && !s.broken
    ensures t.status == Ready && t.queue.count == 0 && Held(t.queue) == []
  {
  }
}
