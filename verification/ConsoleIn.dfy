/** The console's input handshake: the reader thread and the CPU as atomic steps over two locks, a condition
    variable and the registers IN and INSTATUS. */
module ConsoleIn {

  type Byte = b: int | 0 <= b < 256

  const Ready: Byte := 0x00
  const Consumed: Byte := 0x01
  const NoInput: Byte := 0xFF

  datatype Owner = Nobody | Reader | Cpu

  /** Where the reader thread is: it holds lockIN except while it waits, and while it is about to take the lock at
      its start or after a wait. */
  datatype ReaderPc =
    | Top
    | Reading
    | WantStatus
    | Marking
    | Marked
    | EndOfInput
    | Sleeping
    | Waiting
    | Woken

  /** Where the CPU is in a read of the register IN. */
  datatype CpuPc =
    | Idle
    | CpuWantStatus
    | Testing
    | WantIn
    | Taking
    | Acknowledging(v: Byte)
    | Signalling(v: Byte)
    | LeavingIn(v: Byte)
    | Peeking
    | LeavingStatus(took: bool, v: Byte)

  /** What a read of IN gave the program, and whether it took a byte marked ready. */
  datatype Read = Read(took: bool, v: Byte)

  /** The registers, the locks and the two program counters; received and consumed record every byte the terminal
      delivered and every byte the CPU took while it was marked ready, returned what the finished reads returned. */
  datatype State = State(
    inReg: Byte, status: Byte, lockIn: Owner, lockStatus: Owner, reader: ReaderPc, cpu: CpuPc,
    received: seq<Byte>, consumed: seq<Byte>, returned: seq<Read>)

  ghost predicate Init(s: State) {
    && s.status == Consumed && s.lockIn == Nobody && s.lockStatus == Nobody
    && s.reader == Woken && s.cpu == Idle && s.received == [] && s.consumed == []
    && s.returned == []
  }

  // ----- the reader thread -----

  ghost predicate ReaderStep(s: State, t: State) {
    match s.reader
    case Top =>
      t == s.(reader := if s.status == Consumed then Reading
                        else if s.status == Ready then Waiting
                        else if s.status == NoInput then Sleeping else Top,
              lockIn := if s.status == Ready then Nobody else Reader)
    case Reading =>
      || (exists b: Byte :: t == s.(inReg := b, received := s.received + [b], reader := WantStatus))
      || t == s.(reader := EndOfInput)
      || t == s.(reader := Top)
    case WantStatus => s.lockStatus == Nobody && t == s.(lockStatus := Reader, reader := Marking)
    case Marking => t == s.(status := Ready, reader := Marked)
    case Marked => t == s.(lockStatus := Nobody, reader := Top)
    case EndOfInput => t == s.(status := NoInput, reader := Top)
    case Sleeping => t == s.(reader := Top)
    case Waiting => t == s.(reader := Woken)
    case Woken => s.lockIn == Nobody && t == s.(lockIn := Reader, reader := Top)
  }

  // ----- the CPU -----

  ghost predicate CpuStep(s: State, t: State) {
    match s.cpu
    case Idle => t == s.(cpu := CpuWantStatus)
    case CpuWantStatus => s.lockStatus == Nobody && t == s.(lockStatus := Cpu, cpu := Testing)
    case Testing => t == s.(cpu := if s.status == Ready then WantIn else Peeking)
    case WantIn => s.lockIn == Nobody && t == s.(lockIn := Cpu, cpu := Taking)
    case Taking => t == s.(cpu := Acknowledging(s.inReg), consumed := s.consumed + [s.inReg])
    case Acknowledging(v) => t == s.(status := Consumed, cpu := Signalling(v))
    case Signalling(v) =>
      t == s.(reader := if s.reader == Waiting then Woken else s.reader, cpu := LeavingIn(v))
    case LeavingIn(v) => t == s.(lockIn := Nobody, cpu := LeavingStatus(true, v))
    case Peeking => t == s.(cpu := LeavingStatus(false, s.inReg))
    case LeavingStatus(took, v) =>
      t == s.(lockStatus := Nobody, cpu := Idle, returned := s.returned + [Read(took, v)])
  }

  ghost predicate Step(s: State, t: State) { ReaderStep(s, t) || CpuStep(s, t) }

  ghost predicate Run(ss: seq<State>) {
    && ss != [] && Init(ss[0])
    && forall i :: 0 <= i < |ss| - 1 ==> Step(ss[i], ss[i + 1])
  }

  // ----- invariant -----

  /** The CPU is between testing INSTATUS as ready and acknowledging. */
  predicate Claimed(pc: CpuPc) { pc.WantIn? || pc.Taking? || pc.Acknowledging? }

  predicate CpuHasIn(pc: CpuPc) {
    pc.Taking? || pc.Acknowledging? || pc.Signalling? || pc.LeavingIn?
  }

  predicate CpuHasStatus(pc: CpuPc) { !pc.Idle? && !pc.CpuWantStatus? }

  predicate ReaderHasIn(pc: ReaderPc) { !pc.Waiting? && !pc.Woken? }

  predicate ReaderHasStatus(pc: ReaderPc) { pc.Marking? || pc.Marked? }

  ghost predicate Locks(s: State) {
    && (s.lockIn == Cpu <==> CpuHasIn(s.cpu)) && (s.lockIn == Reader <==> ReaderHasIn(s.reader))
    && (s.lockStatus == Cpu <==> CpuHasStatus(s.cpu)) && (s.lockStatus == Reader <==> ReaderHasStatus(s.reader))
  }

  /** A byte has arrived and has not been taken. */
  predicate Pending(s: State) {
    s.reader.WantStatus? || s.reader.Marking? || (s.status == Ready && !s.cpu.Acknowledging?)
  }

  /** The bytes taken by the reads that have returned. */
  function Taken(returned: seq<Read>): seq<Byte> {
    if returned == [] then [] else
    var last := returned[|returned| - 1];
    Taken(returned[..|returned| - 1]) + if last.took then [last.v] else []
  }

  /** The byte a read has taken and not returned yet. */
  function InHand(pc: CpuPc): seq<Byte> {
    match pc
    case Acknowledging(v) => [v]
    case Signalling(v) => [v]
    case LeavingIn(v) => [v]
    case LeavingStatus(took, v) => if took then [v] else []
    case _ => []
  }

  ghost predicate Inv(s: State) {
    && Locks(s)
    && s.status in {Ready, Consumed, NoInput}
    && (s.reader.Reading? || s.reader.WantStatus? || s.reader.Marking? || s.reader.EndOfInput? ==> s.status == Consumed)
    && (s.reader.Marked? ==> s.status == Ready)
    && (Claimed(s.cpu) ==> s.status == Ready)
    && (s.reader.Waiting? ==> s.status == Ready || s.cpu.Signalling?)
    && (s.cpu.Signalling? ==> s.status == Consumed)
    && (s.cpu.Acknowledging? ==> s.cpu.v == s.inReg)
    && (s.cpu.Peeking? ==> s.status != Ready)
    && s.received == (if Pending(s) then s.consumed + [s.inReg] else s.consumed)
    && s.consumed == Taken(s.returned) + InHand(s.cpu)
  }

  lemma InvInit(s: State)
    requires Init(s)
    ensures Inv(s)
  {
  }

  lemma InvReader(s: State, t: State)
    requires Inv(s) && ReaderStep(s, t)
    ensures Inv(t)
  {
  }

  lemma InvCpu(s: State, t: State)
    requires Inv(s) && CpuStep(s, t)
    ensures Inv(t)
  {
    hide Taken;
    if s.cpu.LeavingStatus? {
      TakenGrows(s.returned, Read(s.cpu.took, s.cpu.v));
    }
  }

  lemma {:induction false} TakenGrows(returned: seq<Read>, r: Read)
    ensures Taken(returned + [r]) == Taken(returned) + if r.took then [r.v] else []
  {
    assert (returned + [r])[..|returned|] == returned;
  }

  lemma {:induction false} InvRun(ss: seq<State>, k: nat)
    requires Run(ss) && k < |ss|
    ensures Inv(ss[k])
    decreases k
  {
    if k == 0 {
      InvInit(ss[0]);
    } else {
      InvRun(ss, k - 1);
      var s, t := ss[k - 1], ss[k];
      assert Step(ss[k - 1], ss[k - 1 + 1]);
      if ReaderStep(s, t) {
        InvReader(s, t);
      } else {
        InvCpu(s, t);
      }
    }
  }

  // ----- safety over every run -----

  /** INSTATUS changes only in the hands of a thread that holds lockIN. */
  lemma StatusChangesUnderLock(s: State, t: State)
    requires Inv(s) && Step(s, t) && s.status != t.status
    ensures (ReaderStep(s, t) && s.lockIn == Reader) || (CpuStep(s, t) && s.lockIn == Cpu)
  {
  }

  /** The register IN is not written while a byte in it waits to be taken. */
  lemma NotOverwritten(s: State, t: State)
    requires Inv(s) && Step(s, t) && s.inReg != t.inReg
    ensures !Pending(s) && s.status == Consumed
  {
  }

  /** Every byte is taken at most once and in order: the bytes taken are a prefix of those delivered, short of at
      most the one that waits in IN. */
  lemma {:induction false} TakenInOrder(ss: seq<State>, k: nat)
    requires Run(ss) && k < |ss|
    ensures var s := ss[k];
            && s.consumed <= s.received
            && s.received == (if Pending(s) then s.consumed + [s.inReg] else s.consumed)
  {
    InvRun(ss, k);
  }

  /** The reads that took a byte return, in order, the bytes the terminal delivered: what is still to come is the byte
      in the hand of the read under way and the one that waits in IN, between two reads at most the latter. */
  lemma {:induction false} ReturnedInOrder(ss: seq<State>, k: nat)
    requires Run(ss) && k < |ss|
    ensures var s := ss[k];
            && s.received == Taken(s.returned) + InHand(s.cpu) + (if Pending(s) then [s.inReg] else [])
            && Taken(s.returned) <= s.received && |s.received| <= |Taken(s.returned)| + 2
            && (s.cpu.Idle? ==> |s.received| <= |Taken(s.returned)| + 1)
  {
    hide Taken;
    InvRun(ss, k);
  }

  /** A read returns what its last step holds, and nothing else returns a value. */
  lemma ReadEnds(s: State, t: State)
    requires Step(s, t) && s.returned != t.returned
    ensures s.cpu.LeavingStatus? && t.cpu.Idle? && t.returned == s.returned + [Read(s.cpu.took, s.cpu.v)]
  {
  }

  lemma PeekHolds(s: State, t: State)
    requires Inv(s) && Step(s, t) && t.cpu.LeavingStatus? && !t.cpu.took
    ensures s.cpu == t.cpu || (s.cpu.Peeking? && s.status != Ready && s.inReg == t.cpu.v)
  {
    hide Taken, Pending;
  }

  /** A read that takes no byte returns the register as it stood, INSTATUS not being ready. */
  lemma {:induction false} PeekReturns(ss: seq<State>, k: nat) returns (j: nat)
    requires Run(ss) && k < |ss| && ss[k].cpu.LeavingStatus? && !ss[k].cpu.took
    ensures j < k && ss[j].cpu.Peeking? && ss[j].status != Ready && ss[j].inReg == ss[k].cpu.v
    ensures forall i :: j < i <= k ==> ss[i].cpu == ss[k].cpu
    decreases k
  {
    hide Inv, Step;
    assert k > 0;
    assert Step(ss[k - 1], ss[k - 1 + 1]);
    InvRun(ss, k - 1);
    PeekHolds(ss[k - 1], ss[k]);
    if ss[k - 1].cpu.Peeking? {
      j := k - 1;
    } else {
      j := PeekReturns(ss, k - 1);
    }
  }

  /** A step of the CPU takes a byte only when one waits, and then that byte. */
  lemma TakesTheByte(s: State, t: State)
    requires Inv(s) && Step(s, t) && s.consumed != t.consumed
    ensures CpuStep(s, t) && s.cpu.Taking? && s.lockIn == Cpu && s.lockStatus == Cpu && Pending(s) && s.status == Ready
    ensures t.consumed == s.consumed + [s.inReg] && t.cpu == Acknowledging(s.inReg) && t.consumed == t.received
  {
  }

  /** No wake-up is lost: a waiting reader either has a byte to be taken still, whose taker will signal, or is
      about to be signalled. A consumed byte never finds the reader asleep once the signal is given. */
  lemma {:induction false} NoLostWakeup(ss: seq<State>, k: nat)
    requires Run(ss) && k < |ss| && ss[k].reader == Waiting
    ensures (Pending(ss[k]) && ss[k].status == Ready) || ss[k].cpu.Acknowledging? || ss[k].cpu.Signalling?
  {
    InvRun(ss, k);
  }

  lemma SignalWakes(s: State, t: State)
    requires Inv(s) && CpuStep(s, t) && s.cpu.Signalling?
    ensures t.reader != Waiting
  {
  }

  // ----- no deadlock -----

  ghost predicate CpuEnabled(s: State) { exists t :: CpuStep(s, t) }

  ghost predicate ReaderEnabled(s: State) { exists t :: ReaderStep(s, t) }

  /** The two threads take the locks in opposite orders, but never wait for each other. */
  lemma OppositeOrdersNeverMeet(s: State)
    requires Inv(s)
    ensures !(s.reader == WantStatus && s.lockStatus == Cpu && s.cpu == WantIn && s.lockIn == Reader)
  {
  }

  /** Reader steps until the lock the CPU waits for is free. */
  function Hold(s: State): nat {
    match s.reader
    case Marking => 2
    case Marked => 1
    case Sleeping => 2
    case Top => 1
    case _ => 3
  }

  lemma CpuCanStep(s: State)
    requires s.cpu == CpuWantStatus ==> s.lockStatus == Nobody
    requires s.cpu == WantIn ==> s.lockIn == Nobody
    ensures CpuEnabled(s)
  {
    match s.cpu
    case Idle => assert CpuStep(s, s.(cpu := CpuWantStatus));
    case CpuWantStatus => assert CpuStep(s, s.(lockStatus := Cpu, cpu := Testing));
    case Testing => assert CpuStep(s, s.(cpu := if s.status == Ready then WantIn else Peeking));
    case WantIn => assert CpuStep(s, s.(lockIn := Cpu, cpu := Taking));
    case Taking => assert CpuStep(s, s.(cpu := Acknowledging(s.inReg), consumed := s.consumed + [s.inReg]));
    case Acknowledging(v) => assert CpuStep(s, s.(status := Consumed, cpu := Signalling(v)));
    case Signalling(v) =>
      assert CpuStep(s, s.(reader := if s.reader == Waiting then Woken else s.reader, cpu := LeavingIn(v)));
    case LeavingIn(v) => assert CpuStep(s, s.(lockIn := Nobody, cpu := LeavingStatus(true, v)));
    case Peeking => assert CpuStep(s, s.(cpu := LeavingStatus(false, s.inReg)));
    case LeavingStatus(took, v) =>
      assert CpuStep(s, s.(lockStatus := Nobody, cpu := Idle, returned := s.returned + [Read(took, v)]));
  }

  /** The CPU is never blocked by the terminal: if it must wait for a lock, the reader is not in the blocking read,
      can go on, and gives up the lock within two steps. */
  lemma CpuWaitsBriefly(s: State)
    requires Inv(s) && !CpuEnabled(s)
    ensures !s.reader.Reading? && ReaderEnabled(s) && 1 <= Hold(s) <= 2
    ensures forall t :: ReaderStep(s, t) ==> CpuEnabled(t) || (!CpuEnabled(t) && Hold(t) < Hold(s))
  {
    if (s.cpu == CpuWantStatus ==> s.lockStatus == Nobody) && (s.cpu == WantIn ==> s.lockIn == Nobody) {
      CpuCanStep(s);
    } else {
      ReaderGoesOn(s);
      forall t | ReaderStep(s, t)
        ensures CpuEnabled(t) || Hold(t) < Hold(s)
      {
        if Hold(s) == 1 {
          CpuCanStep(t);
        }
      }
    }
  }

  lemma ReaderGoesOn(s: State)
    requires Inv(s)
    requires (s.cpu == CpuWantStatus && s.lockStatus != Nobody) || (s.cpu == WantIn && s.lockIn != Nobody)
    ensures ReaderEnabled(s) && !s.reader.Reading? && 1 <= Hold(s) <= 2
  {
    match s.reader
    case Marking => assert ReaderStep(s, s.(status := Ready, reader := Marked));
    case Marked => assert ReaderStep(s, s.(lockStatus := Nobody, reader := Top));
    case Sleeping => assert ReaderStep(s, s.(reader := Top));
    case Top => assert ReaderStep(s, s.(reader := Waiting, lockIn := Nobody));
  }

  /** Where the CPU stands in giving up a lock the reader waits for. */
  function Rest(pc: CpuPc): nat {
    match pc
    case Testing => 3
    case Peeking => 2
    case LeavingStatus(_, _) => 1
    case Taking => 4
    case Acknowledging(_) => 3
    case Signalling(_) => 2
    case LeavingIn(_) => 1
    case _ => 0
  }

  /** The reader, too, waits for a lock only while the CPU is on its way to give it up: the CPU can step and each
      step brings the release nearer. */
  lemma ReaderWaitsBriefly(s: State)
    requires Inv(s)
    requires (s.reader == WantStatus && s.lockStatus != Nobody) || (s.reader == Woken && s.lockIn != Nobody)
    ensures CpuEnabled(s) && Rest(s.cpu) > 0
    ensures forall t :: CpuStep(s, t) ==> ReaderEnabled(t) || Rest(t.cpu) < Rest(s.cpu)
  {
    CpuCanStep(s);
    forall t | CpuStep(s, t)
      ensures ReaderEnabled(t) || Rest(t.cpu) < Rest(s.cpu)
    {
      if s.reader == WantStatus && t.lockStatus == Nobody {
        assert ReaderStep(t, t.(lockStatus := Reader, reader := Marking));
      } else if s.reader == Woken && t.lockIn == Nobody {
        assert ReaderStep(t, t.(lockIn := Reader, reader := Top));
      }
    }
  }
}
