/** The timer scheduler: spawn of src/c/process.c and c_timer_switch and asm_timer_handler of
    src/c/interrupt.c, with the frames and the FXSAVE area they keep on the stacks. */
module Scheduler {
  import StackGuards

  // ---------------------------------------------------------------- memory and frames

  /** Memory in words of 8 bytes, by byte address. */
  type Memory = map<nat, nat>

  function Word(m: Memory, a: nat): nat { if a in m then m[a] else 0 }

  function Put(m: Memory, a: nat, words: seq<nat>): Memory
    decreases |words|
  {
    if words == [] then m else Put(m[a := words[0]], a + 8, words[1..])
  }

  function Get(m: Memory, a: nat, n: nat): (words: seq<nat>)
    ensures |words| == n && forall i :: 0 <= i < n ==> words[i] == Word(m, a + 8 * i)
  {
    seq(n, i requires 0 <= i < n => Word(m, a + 8 * i))
  }

  lemma {:induction false} PutWord(m: Memory, a: nat, words: seq<nat>, b: nat)
    requires b < a || b >= a + 8 * |words|
    ensures Word(Put(m, a, words), b) == Word(m, b)
    decreases |words|
  {
    if words != [] { PutWord(m[a := words[0]], a + 8, words[1..], b); }
  }

  lemma {:induction false} PutGet(m: Memory, a: nat, words: seq<nat>, i: nat)
    requires i < |words|
    ensures Word(Put(m, a, words), a + 8 * i) == words[i]
    decreases |words|
  {
    if i == 0 {
      PutWord(m[a := words[0]], a + 8, words[1..], a);
    } else {
      PutGet(m[a := words[0]], a + 8, words[1..], i - 1);
    }
  }

  /** What a process is made of while it does not run: the 15 general registers in the order
      they lie on the stack, the FPU state and the interrupt frame. */
  datatype Context = Context(gpr: seq<nat>, fpu: seq<nat>, rip: nat, cs: nat, rflags: nat, rsp: nat, ss: nat)

  predicate Complete(c: Context) { |c.gpr| == 15 && |c.fpu| == 64 }

  const FRAME: nat := 160
  const FX_ROOM: nat := 528

  /** The processor aligns the stack before it pushes the interrupt frame. */
  function FrameBase(rsp: nat): int { rsp / 16 * 16 - FRAME }

  /** The frame ends at the last multiple of 16 that is not above the stack pointer. */
  lemma FrameIsAligned(rsp: nat)
    ensures FrameBase(rsp) % 16 == 0 && FrameBase(rsp) + FRAME <= rsp < FrameBase(rsp) + FRAME + 16
  {
  }

  /** The FXSAVE area, from the stack pointer after the registers are pushed. */
  function FxArea(base: nat): nat
    requires base >= FX_ROOM
  {
    (base - FX_ROOM + 15) / 16 * 16
  }

  /** The area is aligned, and lies between the room made for it and the saved registers. */
  lemma FxAreaFits(base: nat)
    requires base >= FX_ROOM
    ensures FxArea(base) % 16 == 0
    ensures base - FX_ROOM <= FxArea(base) && FxArea(base) + 512 < base
  {
  }

  function Words(c: Context): seq<nat> { c.gpr + [c.rip, c.cs, c.rflags, c.rsp, c.ss] }

  /** The interrupt, the pushes and fxsave of asm_timer_handler. */
  function Save(m: Memory, base: nat, c: Context): Memory
    requires base >= FX_ROOM
  {
    Put(Put(m, base, Words(c)), FxArea(base), c.fpu)
  }

  /** fxrstor, the pops and iretq of asm_timer_handler. */
  function Load(m: Memory, base: nat): Context
    requires base >= FX_ROOM
  {
    var w := Get(m, base, 20);
    Context(w[..15], Get(m, FxArea(base), 64), w[15], w[16], w[17], w[18], w[19])
  }

  /** What was saved is loaded back: saving and loading find the same FXSAVE area. */
  lemma SavedIsLoaded(m: Memory, base: nat, c: Context)
    requires base >= FX_ROOM && Complete(c)
    ensures Load(Save(m, base, c), base) == c
  {
    FxAreaFits(base);
    var frame := Put(m, base, Words(c));
    var s := Save(m, base, c);
    forall i: nat | i < 20 ensures Word(s, base + 8 * i) == Words(c)[i] {
      PutWord(frame, FxArea(base), c.fpu, base + 8 * i);
      PutGet(m, base, Words(c), i);
    }
    forall i: nat | i < 64 ensures Word(s, FxArea(base) + 8 * i) == c.fpu[i] {
      PutGet(frame, FxArea(base), c.fpu, i);
    }
    assert Get(s, base, 20) == Words(c);
    assert Get(s, FxArea(base), 64) == c.fpu;
  }

  /** Memory below a frame and its FXSAVE area, or above the frame, does not matter to it. */
  lemma LoadDepends(m: Memory, n: Memory, base: nat)
    requires base >= FX_ROOM
    requires forall a: nat :: base - FX_ROOM <= a < base + FRAME ==> Word(m, a) == Word(n, a)
    ensures Load(m, base) == Load(n, base)
  {
    FxAreaFits(base);
    assert Get(m, base, 20) == Get(n, base, 20);
    assert Get(m, FxArea(base), 64) == Get(n, FxArea(base), 64);
  }

  lemma SaveElsewhere(m: Memory, base: nat, c: Context, a: nat)
    requires base >= FX_ROOM && Complete(c) && !(base - FX_ROOM <= a < base + FRAME)
    ensures Word(Save(m, base, c), a) == Word(m, a)
  {
    FxAreaFits(base);
    PutWord(Put(m, base, Words(c)), FxArea(base), c.fpu, a);
    PutWord(m, base, Words(c), a);
  }

  // ---------------------------------------------------------------- the run queue

  const PROCESS_COUNT: nat := StackGuards.PROCESS_COUNT
  const STACK_SIZE: nat := StackGuards.STACK_PAGES * StackGuards.PAGE
  const STACK_SLOT_SIZE: nat := StackGuards.SLOT_PAGES * StackGuards.PAGE
  const STACK_GUARD_SIZE: nat := StackGuards.GUARD_PAGES * StackGuards.PAGE

  /** A PCB and the run-queue cell that holds it. */
  class Process {
    const index: nat
    var savedRsp: nat
    var next: Process

    constructor (index: nat, savedRsp: nat)
      ensures this.index == index && this.savedRsp == savedRsp && next == this
    {
      this.index, this.savedRsp := index, savedRsp;
      next := this;
    }
  }

  /** A single cycle through all the cells. */
  ghost predicate Cycle(ring: seq<Process>)
    reads ring`next
  {
    && ring != []
    && (forall i, j :: 0 <= i < j < |ring| ==> ring[i] != ring[j] && ring[i].index != ring[j].index)
    && (forall i :: 0 <= i < |ring| - 1 ==> ring[i].next == ring[i + 1])
    && ring[|ring| - 1].next == ring[0]
  }

  function StackLow(area: nat, i: nat): nat { area + i * STACK_SLOT_SIZE + STACK_GUARD_SIZE }

  /** The frame and everything the handler needs below it lie in the stack of process `i`. */
  predicate InStack(area: nat, i: nat, base: nat) {
    base >= FX_ROOM && StackLow(area, i) <= base - FX_ROOM && base + FRAME <= StackLow(area, i) + STACK_SIZE
  }

  lemma StacksApart(area: nat, i: nat, j: nat)
    requires i != j
    ensures StackLow(area, i) + STACK_SIZE <= StackLow(area, j) || StackLow(area, j) + STACK_SIZE <= StackLow(area, i)
  {
    if i < j {
      assert (j - i) * STACK_SLOT_SIZE >= STACK_SLOT_SIZE;
    } else {
      assert (i - j) * STACK_SLOT_SIZE >= STACK_SLOT_SIZE;
    }
  }

  class Machine {
    const area: nat
    const fpuDefault: seq<nat>
    const trampoline: nat
    var memory: Memory
    var cpu: Context
    var runQueue: Process?
    var current: Process?
    ghost var ring: seq<Process>
    /** What every process that does not run was when it was last suspended. */
    ghost var suspended: map<nat, Context>

    constructor (area: nat, fpuDefault: seq<nat>, trampoline: nat, memory: Memory, cpu: Context)
      requires |fpuDefault| == 64 && Complete(cpu)
      ensures Valid() && ring == [] && this.area == area && this.fpuDefault == fpuDefault
              && this.trampoline == trampoline
      ensures current == null
    {
      this.area, this.fpuDefault, this.trampoline, this.memory, this.cpu := area, fpuDefault, trampoline, memory, cpu;
      runQueue, current, ring, suspended := null, null, [], map[];
    }

    ghost predicate Valid()
      reads this, ring
    {
      && |fpuDefault| == 64 && Complete(cpu)
      && Queued()
      && (current != null ==> current in ring)
      && OthersWait(ring, current)
    }

    /** All processes of the queue but the running one wait. */
    ghost predicate OthersWait(queue: seq<Process>, running: Process?)
      reads this`memory, this`suspended, queue`savedRsp
    {
      forall i :: 0 <= i < |queue| && queue[i] != running ==> Waits(queue[i])
    }

    /** A process that does not run can be resumed as it was suspended. */
    ghost predicate Waits(p: Process)
      reads this`memory, this`suspended, p`savedRsp
    {
      && p.index in suspended && InStack(area, p.index, p.savedRsp) && Load(memory, p.savedRsp) == suspended[p.index]
      && Complete(suspended[p.index])
    }

    /** The context a new process starts in: its index in rdi, interrupts on. */
    function Fresh(index: nat): Context {
      var top := StackTop(index);
      Context(seq(15, i => if i == 9 then index else 0), fpuDefault, trampoline, 0x08, 0x202, top - 16, 0x10)
    }

    /** The end of the stack, moved so that it is 8 more than a multiple of 16. */
    function StackTop(index: nat): (top: nat)
      ensures StackLow(area, index) + STACK_SIZE - 8 <= top <= StackLow(area, index) + STACK_SIZE
    {
      var end := StackLow(area, index) + STACK_SIZE;
      if end % 16 != 8 then end - 8 else end
    }

    /** The frame on the stack of a new process, as the timer would have left it. */
    method PrepareStack(index: nat) returns (base: nat)
      requires |fpuDefault| == 64 && OthersWait(ring, null) && forall q :: q in ring ==> q.index != index
      modifies this`memory, this`suspended
      ensures suspended == old(suspended)[index := Fresh(index)]
      ensures InStack(area, index, base) && Load(memory, base) == Fresh(index)
      ensures OthersWait(ring, null)
    {
      base := StackTop(index) - FRAME;
      var c := Fresh(index);
      ghost var before := memory;
      memory := Save(memory, base, c);
      suspended := suspended[index := c];
      SavedIsLoaded(before, base, c);
      forall i | 0 <= i < |ring| ensures Waits(ring[i]) {
        var q := ring[i];
        assert old(Waits(q)) && q in ring;
        StillThere(before, base, c, index, q.index, q.savedRsp);
      }
    }

    /** The queue alone: a single cycle, entered at its first cell. */
    ghost predicate Queued()
      reads this`ring, this`runQueue, ring`next
    {
      if ring == [] then runQueue == null else Cycle(ring) && runQueue == ring[0]
    }

    /** The end of spawn: the new cell goes behind the first one of the queue. */
    method Enqueue(p: Process)
      requires Queued() && p !in ring && p.next == p && forall q :: q in ring ==> q.index != p.index
      modifies this`runQueue, this`ring, ring`next, p`next
      ensures Queued()
      ensures ring == if old(ring) == [] then [p] else [old(ring)[0], p] + old(ring)[1..]
      ensures forall i :: 0 <= i < |ring| ==> ring[i] == p || ring[i] in old(ring)
    {
      var anchor := runQueue;
      if anchor == null {
        runQueue := p;
        ring := [p];
      } else {
        p.next := anchor.next;
        anchor.next := p;
        ring := [ring[0], p] + ring[1..];
        assert forall i :: 2 <= i < |ring| ==> ring[i] == old(ring)[i - 1];
      }
    }

    /** spawn */
    method Spawn(index: nat) returns (p: Process)
      requires Valid() && current == null && forall q :: q in ring ==> q.index != index
      modifies this`memory, this`suspended, this`runQueue, this`ring, ring`next
      ensures Valid() && fresh(p) && p.index == index
      ensures ring == if old(ring) == [] then [p] else [old(ring)[0], p] + old(ring)[1..]
      ensures suspended == old(suspended)[index := Fresh(index)]
    {
      p := NewProcess(index);
      EnqueueWaiting(p);
    }

    method EnqueueWaiting(p: Process)
      requires Queued() && p !in ring && p.next == p && forall q :: q in ring ==> q.index != p.index
      requires OthersWait(ring, null) && Waits(p)
      modifies this`runQueue, this`ring, ring`next, p`next
      ensures Queued() && OthersWait(ring, null)
      ensures ring == if old(ring) == [] then [p] else [old(ring)[0], p] + old(ring)[1..]
    {
      Enqueue(p);
      OneMoreWaits(old(ring), ring, p);
    }

    /** The first part of spawn: a process that waits, outside the queue. */
    method NewProcess(index: nat) returns (p: Process)
      requires |fpuDefault| == 64 && OthersWait(ring, null) && forall q :: q in ring ==> q.index != index
      modifies this`memory, this`suspended
      ensures fresh(p) && p.index == index && p.next == p && Waits(p) && OthersWait(ring, null)
      ensures suspended == old(suspended)[index := Fresh(index)]
    {
      var base := PrepareStack(index);
      p := new Process(index, base);
    }

    lemma OneMoreWaits(before: seq<Process>, after: seq<Process>, p: Process)
      requires OthersWait(before, null) && Waits(p)
      requires forall i :: 0 <= i < |after| ==> after[i] == p || after[i] in before
      ensures OthersWait(after, null)
    {
    }

    /** A frame written to one stack leaves the frames on the others alone. */
    lemma StillThere(m: Memory, base: nat, c: Context, i: nat, j: nat, other: nat)
      requires i != j && InStack(area, i, base) && InStack(area, j, other) && Complete(c)
      ensures Load(Save(m, base, c), other) == Load(m, other)
    {
      StacksApart(area, i, j);
      forall a: nat | other - FX_ROOM <= a < other + FRAME
        ensures Word(Save(m, base, c), a) == Word(m, a)
      {
        SaveElsewhere(m, base, c, a);
      }
      LoadDepends(Save(m, base, c), m, other);
    }

    /** process_scheduler_start: the queue is left in the order 0, n-1, ..., 1. */
    method Start()
      requires Valid() && ring == [] && current == null
      modifies this`memory, this`suspended, this`runQueue, this`ring
      ensures Valid() && |ring| == PROCESS_COUNT && forall k :: 0 <= k < |ring| ==> fresh(ring[k])
      ensures forall k :: 0 <= k < PROCESS_COUNT ==> ring[k].index == if k == 0 then 0 else PROCESS_COUNT - k
      ensures suspended == FreshFor(old(suspended), PROCESS_COUNT)
    {
      for i := 0 to PROCESS_COUNT
        invariant Valid() && current == null && |ring| == i && forall k :: 0 <= k < i ==> fresh(ring[k])
        invariant forall k :: 0 <= k < i ==> ring[k].index == if k == 0 then 0 else i - k
        invariant suspended == FreshFor(old(suspended), i)
      {
        SpawnNext(i);
      }
    }

    /** One round of process_scheduler_start. */
    method SpawnNext(i: nat)
      requires Valid() && current == null && |ring| == i
      requires forall k :: 0 <= k < i ==> ring[k].index == if k == 0 then 0 else i - k
      modifies this`memory, this`suspended, this`runQueue, this`ring, ring`next
      ensures Valid() && |ring| == i + 1 && forall k :: 0 <= k <= i ==> ring[k] in old(ring) || fresh(ring[k])
      ensures forall k :: 0 <= k <= i ==> ring[k].index == if k == 0 then 0 else i + 1 - k
      ensures suspended == old(suspended)[i := Fresh(i)]
    {
      assert forall q :: q in ring ==> q.index != i;
      var p := Spawn(i);
      InsertedOrder(old(ring), p, i);
    }

    /** A cell inserted behind the first one puts the numbers in the order 0, i, ..., 1. */
    lemma InsertedOrder(before: seq<Process>, p: Process, i: nat)
      requires |before| == i && p.index == i
      requires forall k :: 0 <= k < i ==> before[k].index == if k == 0 then 0 else i - k
      ensures var after := if before == [] then [p] else [before[0], p] + before[1..];
              && |after| == i + 1 && (forall k :: 0 <= k <= i ==> after[k].index == if k == 0 then 0 else i + 1 - k)
              && (forall q :: q in after ==> q == p || q in before)
    {
      if i > 0 {
        var after := [before[0], p] + before[1..];
        assert forall k :: 2 <= k <= i ==> after[k] == before[k - 1];
      }
    }

    /** The contexts of the processes 0 to n - 1 as spawn leaves them. */
    function FreshFor(others: map<nat, Context>, n: nat): map<nat, Context> {
      if n == 0 then others else FreshFor(others, n - 1)[n - 1 := Fresh(n - 1)]
    }

    /** Addresses outside the stack of process `i`. */
    ghost predicate Outside(i: nat, a: nat) {
      !(StackLow(area, i) <= a < StackLow(area, i) + STACK_SIZE)
    }

    /** Where the timer may interrupt: with room for the frame on the running process's own
        stack or, before the first switch, on a stack that is no process's. `scratch` is what
        c_timer_switch itself writes below the frame. */
    ghost predicate MayTick(base: nat, scratch: Memory)
      reads this, ring
    {
      base >= FX_ROOM &&
      if current != null then
        && InStack(area, current.index, base)
        && forall a :: a in scratch ==> StackLow(area, current.index) <= a < base - FX_ROOM
      else
        forall p :: p in ring ==>
          && (forall a: nat :: base - FX_ROOM <= a < base + FRAME ==> Outside(p.index, a))
          && (forall a :: a in scratch ==> Outside(p.index, a))
    }

    /** What the handler leaves on the outgoing stack does not reach a waiting process. */
    lemma StillWaits(base: nat, scratch: Memory, p: Process)
      requires Valid() && MayTick(base, scratch) && p in ring && p != current
      ensures Load(Save(memory, base, cpu) + scratch, p.savedRsp) == suspended[p.index]
    {
      assert Waits(p);
      if current != null { StacksApart(area, current.index, p.index); }
      var after := Save(memory, base, cpu) + scratch;
      forall a: nat | p.savedRsp - FX_ROOM <= a < p.savedRsp + FRAME
        ensures Word(after, a) == Word(memory, a)
      {
        assert !Outside(p.index, a);
        SaveElsewhere(memory, base, cpu, a);
      }
      LoadDepends(after, memory, p.savedRsp);
    }

    lemma OutgoingWaits(base: nat, scratch: Memory)
      requires base >= FX_ROOM && Complete(cpu) && forall a :: a in scratch ==> a < base - FX_ROOM
      ensures Load(Save(memory, base, cpu) + scratch, base) == cpu
    {
      SavedIsLoaded(memory, base, cpu);
      LoadDepends(Save(memory, base, cpu), Save(memory, base, cpu) + scratch, base);
    }

    /** The pushes and fxsave of the handler, and the first half of c_timer_switch: the stack
        pointer goes into the PCB of the running process, if there is one. */
    method Suspend(base: nat, scratch: Memory)
      requires Valid() && MayTick(base, scratch)
      modifies this`memory, this`suspended, ring`savedRsp
      ensures forall p :: p in ring ==> Waits(p)
      ensures suspended == if current != null then old(suspended)[current.index := cpu] else old(suspended)
    {
      forall p | p in ring && p != current
        ensures Load(Save(memory, base, cpu) + scratch, p.savedRsp) == suspended[p.index] && p.index in suspended
      {
        StillWaits(base, scratch, p);
      }
      if current != null { OutgoingWaits(base, scratch); }
      memory := Save(memory, base, cpu) + scratch;
      if current != null {
        current.savedRsp := base;
        suspended := suspended[current.index := cpu];
      }
      forall p | p in ring ensures Waits(p) {
        if p != current { assert old(Waits(p)); }
      }
    }

    /** One timer interrupt: asm_timer_handler around c_timer_switch. The next process of the
        cycle goes on exactly as it was when it was last suspended, and the running one is
        suspended as it is. */
    method Tick(scratch: Memory)
      requires Valid() && ring != [] && FrameBase(cpu.rsp) >= FX_ROOM && MayTick(FrameBase(cpu.rsp), scratch)
      modifies this`memory, this`cpu, this`current, this`suspended, ring`savedRsp
      ensures Valid() && current != null
      ensures current == old(if current == null then ring[0] else current.next)
      ensures suspended == if old(current) != null then old(suspended)[old(current).index := old(cpu)]
              else old(suspended)
      ensures current.index in suspended && cpu == suspended[current.index]
    {
      Suspend(FrameBase(cpu.rsp), scratch);
      var next := runQueue;
      if current != null { next := current.next; }
      NextInRing();
      Resume(next);
    }

    /** The second half: the stack pointer of the next process is taken from its PCB. */
    method Resume(next: Process)
      requires |fpuDefault| == 64 && Queued() && next in ring && forall p :: p in ring ==> Waits(p)
      modifies this`current, this`cpu
      ensures Valid() && current == next && next.index in suspended && cpu == suspended[next.index]
    {
      assert Waits(next);
      current := next;
      cpu := Load(memory, next.savedRsp);
      forall i | 0 <= i < |ring| ensures Waits(ring[i]) {
        assert ring[i] in ring;
      }
    }

    lemma NextInRing()
      requires Queued() && ring != []
      ensures runQueue in ring && forall p :: p in ring ==> p.next in ring
    {
      forall p | p in ring ensures p.next in ring {
        var i :| 0 <= i < |ring| && ring[i] == p;
        if i < |ring| - 1 { assert ring[i + 1] in ring; } else { assert ring[0] in ring; }
      }
    }

    /** The running process computes: it may change the processor and all memory but the
        stacks of the others. */
    method Compute(state: Context, writes: Memory)
      requires Valid() && current != null && Complete(state)
      requires forall p, a :: p in ring && p != current && a in writes ==> Outside(p.index, a)
      modifies this`memory, this`cpu
      ensures Valid() && cpu == state
    {
      forall p | p in ring && p != current
        ensures Load(memory + writes, p.savedRsp) == suspended[p.index]
      {
        assert Waits(p);
        forall a: nat | p.savedRsp - FX_ROOM <= a < p.savedRsp + FRAME
          ensures Word(memory + writes, a) == Word(memory, a)
        {
          assert !Outside(p.index, a);
        }
        LoadDepends(memory + writes, memory, p.savedRsp);
      }
      assert forall p :: p in ring && p != current ==> old(Waits(p));
      memory := memory + writes;
      cpu := state;
    }

    /** A stretch of computation of process `p` up to the next timer interrupt. */
    ghost predicate Possible(p: Process, turn: Turn)
      reads this`ring
    {
      && Complete(turn.state) && FrameBase(turn.state.rsp) >= FX_ROOM
         && InStack(area, p.index, FrameBase(turn.state.rsp))
      && (forall a :: a in turn.scratch ==> StackLow(area, p.index) <= a < FrameBase(turn.state.rsp) - FX_ROOM)
      && (forall q, a :: q in ring && q != p && a in turn.writes ==> Outside(q.index, a))
    }

    method TakeTurn(turn: Turn)
      requires Valid() && current != null && Possible(current, turn)
      modifies this`memory, this`cpu, this`current, this`suspended, ring`savedRsp
      ensures Valid() && current == old(current.next)
      ensures suspended == old(suspended)[old(current).index := turn.state]
      ensures current.index in suspended && cpu == suspended[current.index]
    {
      Compute(turn.state, turn.writes);
      Tick(turn.scratch);
    }

    method TakeTurnNumber(turns: seq<Turn>, m: nat, ghost k: nat, ghost before: map<nat, Context>)
      requires Valid() && k < |ring| && m < |turns| && current == ring[Place(|ring|, k, m)]
               && Possible(current, turns[m])
      requires Left(Indices(ring), k, turns, before, suspended, m)
      modifies this`memory, this`cpu, this`current, this`suspended, ring`savedRsp
      ensures Valid() && current == ring[Place(|ring|, k, m + 1)]
      ensures Left(Indices(ring), k, turns, before, suspended, m + 1)
      ensures ResumesWith(Indices(ring), k, turns, before, m, cpu)
    {
      NextPlace(ring, Place(|ring|, k, m));
      LeftStep(Indices(ring), k, turns, before, suspended, m);
      TakeTurn(turns[m]);
    }

    method RecordTurn(turns: seq<Turn>, m: nat, ghost k: nat, ghost before: map<nat, Context>,
                      resumed0: seq<Process>, ghost contexts0: seq<Context>)
      returns (resumed: seq<Process>, ghost contexts: seq<Context>)
      requires Valid() && k < |ring| && m < |turns| && current == ring[Place(|ring|, k, m)]
               && Possible(current, turns[m])
      requires Left(Indices(ring), k, turns, before, suspended, m) && |resumed0| == |contexts0| == m
      requires InOrder(ring, k, resumed0) && AllResume(Indices(ring), k, turns, before, contexts0)
      modifies this`memory, this`cpu, this`current, this`suspended, ring`savedRsp
      ensures Valid() && current == ring[Place(|ring|, k, m + 1)]
      ensures Left(Indices(ring), k, turns, before, suspended, m + 1)
      ensures |resumed| == |contexts| == m + 1 && contexts[m] == cpu
      ensures InOrder(ring, k, resumed) && AllResume(Indices(ring), k, turns, before, contexts)
    {
      TakeTurnNumber(turns, m, k, before);
      var now: Process := current;
      NextTurn(ring, k, turns, before, resumed0, contexts0, now, cpu);
      resumed, contexts := resumed0 + [now], contexts0 + [cpu];
    }

    ghost predicate AllPossible(turns: seq<Turn>, k: nat)
      requires k < |ring|
      reads this`ring
    {
      forall t {:trigger Possible(ring[Place(|ring|, k, t)], turns[t])} :: 0 <= t < |turns| ==>
        Possible(ring[Place(|ring|, k, t)], turns[t])
    }

    /** The first m turns: the processes run in the order of the cycle, and each resumes with what it
        had when its own last turn ended, or with what it was waiting with before. */
    method TakeTurns(turns: seq<Turn>, m: nat, ghost k: nat)
      returns (resumed: seq<Process>, ghost contexts: seq<Context>)
      requires Valid() && k < |ring| && current == ring[k] && m <= |turns| && AllPossible(turns, k)
      modifies this`memory, this`cpu, this`current, this`suspended, ring`savedRsp
      ensures Valid() && current == ring[Place(|ring|, k, m)] && |resumed| == |contexts| == m
      ensures InOrder(ring, k, resumed) && AllResume(Indices(ring), k, turns, old(suspended), contexts)
      ensures Left(Indices(ring), k, turns, old(suspended), suspended, m)
      ensures cpu == if m > 0 then contexts[m - 1] else old(cpu)
      decreases m
    {
      if m == 0 {
        AllWait(k);
        return [], [];
      }
      resumed, contexts := TakeTurns(turns, m - 1, k);
      assert Possible(ring[Place(|ring|, k, m - 1)], turns[m - 1]);
      resumed, contexts := RecordTurn(turns, m - 1, k, old(suspended), resumed, contexts);
    }

    /** What the process with number `i` may do in one turn, whatever the queue. */
    ghost predicate PossibleFor(i: nat, turn: Turn) {
      && Complete(turn.state) && FrameBase(turn.state.rsp) >= FX_ROOM
         && InStack(area, i, FrameBase(turn.state.rsp))
      && (forall a :: a in turn.scratch ==> StackLow(area, i) <= a < FrameBase(turn.state.rsp) - FX_ROOM)
      && (forall j: nat, a :: j < PROCESS_COUNT && j != i && a in turn.writes ==> Outside(j, a))
    }

    /** Where the first tick may come: on a stack that is no process's. */
    ghost predicate MayStart(scratch: Memory)
      reads this`cpu
    {
      && FrameBase(cpu.rsp) >= FX_ROOM
      && (forall i: nat, a: nat :: i < PROCESS_COUNT && FrameBase(cpu.rsp) - FX_ROOM <= a < FrameBase(cpu.rsp) + FRAME
            ==> Outside(i, a))
      && (forall i: nat, a :: i < PROCESS_COUNT && a in scratch ==> Outside(i, a))
    }

    lemma TurnsPossible(turns: seq<Turn>)
      requires InStartOrder(ring) && forall t :: 0 <= t < |turns| ==> PossibleFor(Numbered(t), turns[t])
      ensures AllPossible(turns, 0)
    {
      forall t | 0 <= t < |turns| ensures Possible(ring[Place(|ring|, 0, t)], turns[t]) {
        AllNumbered(ring, t);
        var p := ring[Place(|ring|, 0, t)];
        assert PossibleFor(p.index, turns[t]);
        forall q, a | q in ring && q != p && a in turns[t].writes ensures Outside(q.index, a) {
          assert q.index != p.index && q.index < PROCESS_COUNT;
        }
      }
    }

    lemma {:induction false} FreshAt(others: map<nat, Context>, n: nat, i: nat)
      requires i < n
      ensures i in FreshFor(others, n) && FreshFor(others, n)[i] == Fresh(i)
    {
      if i < n - 1 { FreshAt(others, n - 1, i); }
    }

    /** Everything from process_scheduler_start on: tick by tick the processes 0, n-1, ..., 1 run in
        turn, each first with its start context and then with what its last turn ended with. */
    method Boot(first: Memory, turns: seq<Turn>) returns (order: seq<nat>, ghost contexts: seq<Context>)
      requires Valid() && ring == [] && current == null && MayStart(first)
      requires forall t :: 0 <= t < |turns| ==> PossibleFor(Numbered(t), turns[t])
      modifies this`memory, this`cpu, this`current, this`suspended, this`runQueue, this`ring
      ensures Valid() && |order| == |contexts| == |turns| + 1
      ensures forall t :: 0 <= t <= |turns| ==>
                order[t] == Numbered(t) && contexts[t] == Resumed(StartContexts(), turns, t)
      ensures current != null && current.index == order[|turns|] && cpu == contexts[|turns|]
    {
      FirstTick(first);
      TurnsPossible(turns);
      order, contexts := TurnsFromStart(turns);
    }

    method TurnsFromStart(turns: seq<Turn>) returns (order: seq<nat>, ghost contexts: seq<Context>)
      requires Valid() && InStartOrder(ring) && current == ring[0] && cpu == Fresh(0) && AllPossible(turns, 0)
      requires forall i :: 0 <= i < PROCESS_COUNT ==> i in suspended && suspended[i] == Fresh(i)
      modifies this`memory, this`cpu, this`current, this`suspended, ring`savedRsp
      ensures Valid() && |order| == |contexts| == |turns| + 1
      ensures forall t :: 0 <= t <= |turns| ==>
                order[t] == Numbered(t) && contexts[t] == Resumed(StartContexts(), turns, t)
      ensures current != null && current.index == order[|turns|] && cpu == contexts[|turns|]
    {
      ghost var before, start := suspended, cpu;
      var resumed: seq<Process>;
      ghost var later;
      resumed, later := TakeTurns(turns, |turns|, 0);
      order, contexts := [0] + Indices(resumed), [start] + later;
      WholeRun(ring, StartContexts(), turns, before, resumed, later);
      AllNumbered(ring, |turns|);
    }

    function StartContexts(): (starts: seq<Context>)
      ensures |starts| == PROCESS_COUNT
    {
      seq(PROCESS_COUNT, i requires 0 <= i < PROCESS_COUNT => Fresh(i))
    }

    method FirstTick(first: Memory)
      requires Valid() && ring == [] && current == null && MayStart(first)
      modifies this`memory, this`cpu, this`current, this`suspended, this`runQueue, this`ring
      ensures Valid() && InStartOrder(ring) && current == ring[0] && cpu == Fresh(0)
      ensures forall k :: 0 <= k < |ring| ==> fresh(ring[k])
      ensures forall i :: 0 <= i < PROCESS_COUNT ==> i in suspended && suspended[i] == Fresh(i)
    {
      Start();
      forall i | 0 <= i < PROCESS_COUNT ensures i in suspended && suspended[i] == Fresh(i) {
        FreshAt(old(suspended), PROCESS_COUNT, i);
      }
      Tick(first);
    }

    lemma AllWait(k: nat)
      requires Valid() && k < |ring| && current == ring[k]
      ensures forall u: nat :: 0 < u < |ring| ==> Indices(ring)[Place(|ring|, k, u)] in suspended
    {
      forall u: nat | 0 < u < |ring|
        ensures Indices(ring)[Place(|ring|, k, u)] in suspended
      {
        PlaceIs(|ring|, k, u);
        assert Waits(ring[Place(|ring|, k, u)]);
      }
    }
  }

  /** The number of the process that the t-th tick resumes: 0, n-1, ..., 1 and again. */
  function Numbered(t: nat): (i: nat)
    ensures i < PROCESS_COUNT
  {
    if t % PROCESS_COUNT == 0 then 0 else PROCESS_COUNT - t % PROCESS_COUNT
  }

  lemma {:induction false} PlaceFromFirst(t: nat)
    ensures Place(PROCESS_COUNT, 0, t) == t % PROCESS_COUNT
  {
    if t > 0 { PlaceFromFirst(t - 1); }
  }

  /** The cells in the order in which process_scheduler_start leaves them. */
  ghost predicate InStartOrder(ring: seq<Process>) {
    && |ring| == PROCESS_COUNT
    && forall k :: 0 <= k < PROCESS_COUNT ==> ring[k].index == if k == 0 then 0 else PROCESS_COUNT - k
  }

  lemma AllNumbered(ring: seq<Process>, t: nat)
    requires InStartOrder(ring)
    ensures ring[Place(|ring|, 0, t)].index == Numbered(t)
  {
    PlaceFromFirst(t);
  }

  /** What tick `t` resumes with: the start context in the first round, then what the last turn of the
      same process ended with. */
  function Resumed(starts: seq<Context>, turns: seq<Turn>, t: nat): Context
    requires |starts| == PROCESS_COUNT && t <= |turns|
  {
    if t < PROCESS_COUNT then starts[Numbered(t)] else turns[t - PROCESS_COUNT].state
  }

  lemma ResumedNext(ring: seq<Process>, starts: seq<Context>, turns: seq<Turn>, before: map<nat, Context>, t: nat,
          c: Context)
    requires InStartOrder(ring) && |starts| == PROCESS_COUNT && t < |turns|
    requires forall i :: 0 <= i < PROCESS_COUNT ==> i in before && before[i] == starts[i]
    requires ResumesWith(Indices(ring), 0, turns, before, t, c)
    ensures c == Resumed(starts, turns, t + 1)
  {
    AllNumbered(ring, t + 1);
  }

  lemma WholeRun(ring: seq<Process>, starts: seq<Context>, turns: seq<Turn>, before: map<nat, Context>,
          resumed: seq<Process>, later: seq<Context>)
    requires InStartOrder(ring) && |starts| == PROCESS_COUNT && |resumed| == |later| == |turns|
    requires forall i :: 0 <= i < PROCESS_COUNT ==> i in before && before[i] == starts[i]
    requires InOrder(ring, 0, resumed) && AllResume(Indices(ring), 0, turns, before, later)
    ensures forall t :: 0 <= t <= |turns| ==>
              ([0] + Indices(resumed))[t] == Numbered(t) && ([starts[0]] + later)[t] == Resumed(starts, turns, t)
  {
    forall t | 0 <= t <= |turns|
      ensures ([0] + Indices(resumed))[t] == Numbered(t) && ([starts[0]] + later)[t] == Resumed(starts, turns, t)
    {
      AllNumbered(ring, t);
      if t > 0 {
        assert resumed[t - 1] == ring[Place(|ring|, 0, t)];
        ResumedNext(ring, starts, turns, before, t - 1, later[t - 1]);
      }
    }
  }

  function Indices(ring: seq<Process>): (ids: seq<nat>)
    ensures |ids| == |ring| && forall i :: 0 <= i < |ring| ==> ids[i] == ring[i].index
  {
    seq(|ring|, i requires 0 <= i < |ring| => ring[i].index)
  }

  /** What the process that turn `t` ends with resumes from: the end of its own last turn, or what it
      had waited with. */
  ghost predicate ResumesWith(ids: seq<nat>, k: nat, turns: seq<Turn>, before: map<nat, Context>, t: nat, c: Context)
    requires k < |ids| && t < |turns|
  {
    if t + 1 >= |ids| then c == turns[t + 1 - |ids|].state
    else ids[Place(|ids|, k, t + 1)] in before && c == before[ids[Place(|ids|, k, t + 1)]]
  }

  ghost predicate InOrder(ring: seq<Process>, k: nat, resumed: seq<Process>)
    requires k < |ring|
  {
    forall t :: 0 <= t < |resumed| ==> resumed[t] == ring[Place(|ring|, k, t + 1)]
  }

  ghost predicate AllResume(ids: seq<nat>, k: nat, turns: seq<Turn>, before: map<nat, Context>, contexts: seq<Context>)
    requires k < |ids| && |contexts| <= |turns|
  {
    forall t :: 0 <= t < |contexts| ==> ResumesWith(ids, k, turns, before, t, contexts[t])
  }

  lemma NextTurn(ring: seq<Process>, k: nat, turns: seq<Turn>, before: map<nat, Context>, resumed: seq<Process>,
          contexts: seq<Context>, p: Process, c: Context)
    requires k < |ring| && |resumed| == |contexts| < |turns| && p == ring[Place(|ring|, k, |resumed| + 1)]
    requires InOrder(ring, k, resumed) && AllResume(Indices(ring), k, turns, before, contexts)
    requires ResumesWith(Indices(ring), k, turns, before, |contexts|, c)
    ensures InOrder(ring, k, resumed + [p]) && AllResume(Indices(ring), k, turns, before, contexts + [c])
  {
  }

  /** Before turn `t`: the last turns of all processes, or what they waited with. */
  ghost predicate Left(ids: seq<nat>, k: nat, turns: seq<Turn>, before: map<nat, Context>, now: map<nat, Context>,
          t: nat)
    requires k < |ids| && t <= |turns|
  {
    && (forall u: nat :: u < t < u + |ids| ==>
          ids[Place(|ids|, k, u)] in now && now[ids[Place(|ids|, k, u)]] == turns[u].state)
    && (forall u: nat :: t < u < |ids| ==>
          ids[Place(|ids|, k, u)] in before && ids[Place(|ids|, k, u)] in now
          && now[ids[Place(|ids|, k, u)]] == before[ids[Place(|ids|, k, u)]])
  }

  lemma LeftStep(ids: seq<nat>, k: nat, turns: seq<Turn>, before: map<nat, Context>, now: map<nat, Context>, t: nat)
    requires k < |ids| && t < |turns| && Left(ids, k, turns, before, now, t)
    requires forall i, j :: 0 <= i < j < |ids| ==> ids[i] != ids[j]
    ensures var after := now[ids[Place(|ids|, k, t)] := turns[t].state];
            && Left(ids, k, turns, before, after, t + 1)
            && ids[Place(|ids|, k, t + 1)] in after
            && ResumesWith(ids, k, turns, before, t, after[ids[Place(|ids|, k, t + 1)]])
  {
    forall u: nat | u != t && u < t + |ids| && t < u + |ids|
      ensures ids[Place(|ids|, k, u)] != ids[Place(|ids|, k, t)]
    {
      PlacesDiffer(|ids|, k, u, t);
    }
    if t + 1 >= |ids| { SamePlace(|ids|, k, t + 1 - |ids|); }
  }

  datatype Turn = Turn(state: Context, writes: Memory, scratch: Memory)

  /** No saved frame and no FXSAVE area touches a guard page. */
  lemma FramesAreMapped(page: nat, i: nat, base: nat, a: nat)
    requires i < PROCESS_COUNT && InStack(page * StackGuards.PAGE, i, base) && base - FX_ROOM <= a < base + FRAME
    ensures !StackGuards.InGuard(page, a / StackGuards.PAGE)
  {
    StackGuards.GuardsAndStacks(page, a / StackGuards.PAGE);
    var low := StackGuards.StackBase(page, i);
    assert StackLow(page * StackGuards.PAGE, i) == low * StackGuards.PAGE;
    assert low <= a / StackGuards.PAGE < low + StackGuards.STACK_PAGES;
  }

  /** The place in the cycle after `t` ticks from place `k`. */
  function Place(n: nat, k: nat, t: nat): (i: nat)
    requires k < n
    ensures i < n
  {
    if t == 0 then k
    else
      var i := Place(n, k, t - 1);
      if i + 1 < n then i + 1 else 0
  }

  /** The successor in the cycle is the next place. */
  lemma NextPlace(ring: seq<Process>, i: nat)
    requires Cycle(ring) && i < |ring|
    ensures ring[i].next == ring[if i + 1 < |ring| then i + 1 else 0]
  {
  }

  lemma {:induction false} PlaceIs(n: nat, k: nat, t: nat)
    requires k < n && t <= n
    ensures Place(n, k, t) == if k + t < n then k + t else k + t - n
  {
    if t > 0 { PlaceIs(n, k, t - 1); }
  }

  lemma {:induction false} PlaceAdd(n: nat, k: nat, s: nat, t: nat)
    requires k < n
    ensures Place(n, k, s + t) == Place(n, Place(n, k, s), t)
  {
    if t > 0 { PlaceAdd(n, k, s, t - 1); }
  }

  /** After a whole round the same process runs again, and not before. */
  lemma SamePlace(n: nat, k: nat, t: nat)
    requires k < n
    ensures Place(n, k, t + n) == Place(n, k, t)
  {
    PlaceAdd(n, k, t, n);
    PlaceIs(n, Place(n, k, t), n);
  }

  lemma PlacesDiffer(n: nat, k: nat, u: nat, t: nat)
    requires k < n && u != t && u < t + n && t < u + n
    ensures Place(n, k, u) != Place(n, k, t)
  {
    var first, d := if u < t then u else t, if u < t then t - u else u - t;
    PlaceAdd(n, k, first, d);
    PlaceIs(n, Place(n, k, first), d);
  }

  /** Any n consecutive ticks reach each of the n places exactly once. */
  lemma EachOnce(n: nat, k: nat, t: nat, i: nat) returns (u: nat)
    requires k < n && i < n
    ensures t <= u < t + n && Place(n, k, u) == i
    ensures forall v: nat :: t <= v < t + n && Place(n, k, v) == i ==> v == u
  {
    var j := Place(n, k, t);
    var d := if i >= j then i - j else i + n - j;
    u := t + d;
    PlaceAdd(n, k, t, d);
    PlaceIs(n, j, d);
    forall v: nat | t <= v < t + n && v != u
      ensures Place(n, k, v) != i
    {
      PlacesDiffer(n, k, u, v);
    }
  }

  // ---------------------------------------------------------------- where a process starts

  datatype Register =
    | Rax | Rbx | Rcx | Rdx | Rbp | Rdi | Rsi | R8 | R9 | R10 | R11 | R12 | R13 | R14 | R15

  /** The timer handler pushes the registers in this order and pops them in the opposite one. */
  const PUSHED: seq<Register> := [Rax, Rbx, Rcx, Rdx, Rbp, Rdi, Rsi, R8, R9, R10, R11, R12, R13, R14, R15]

  function TurnOf(r: Register): nat {
    match r
    case Rax => 0
    case Rbx => 1
    case Rcx => 2
    case Rdx => 3
    case Rbp => 4
    case Rdi => 5
    case Rsi => 6
    case R8 => 7
    case R9 => 8
    case R10 => 9
    case R11 => 10
    case R12 => 11
    case R13 => 12
    case R14 => 13
    case R15 => 14
  }

  lemma TurnIsPlace(k: nat)
    requires k < 15
    ensures TurnOf(PUSHED[k]) == k
  {
  }

  /** The first n registers pushed, after popping them one after another. */
  function Pops(m: Memory, sp: nat, n: nat): map<Register, nat>
    requires n <= 15
    decreases n
  {
    if n == 0 then map[] else Pops(m, sp + 8, n - 1)[PUSHED[n - 1] := Word(m, sp)]
  }

  lemma {:induction false} PopsAre(m: Memory, sp: nat, n: nat, k: nat)
    requires k < n <= 15
    ensures PUSHED[k] in Pops(m, sp, n) && Pops(m, sp, n)[PUSHED[k]] == Word(m, sp + 8 * (n - 1 - k))
    decreases n
  {
    if k < n - 1 {
      TurnIsPlace(k);
      TurnIsPlace(n - 1);
      PopsAre(m, sp + 8, n - 1, k);
    }
  }

  /** A process starts with its number in rdi and 0 in the other registers. */
  lemma StartRegisters(machine: Machine, m: Memory, base: nat, index: nat, k: nat)
    requires base >= FX_ROOM && Load(m, base) == machine.Fresh(index) && k < 15
    ensures PUSHED[k] in Pops(m, base, 15)
    ensures Pops(m, base, 15)[PUSHED[k]] == if PUSHED[k] == Rdi then index else 0
  {
    PopsAre(m, base, 15, k);
    TurnIsPlace(k);
    assert Load(m, base).gpr[14 - k] == Word(m, base + 8 * (14 - k));
  }

  /** What iretq takes off the stack behind the registers: the trampoline, interrupts on, and a stack
      pointer in the process's own stack. */
  lemma StartsAtTrampoline(machine: Machine, m: Memory, base: nat, index: nat)
    requires base >= FX_ROOM && Load(m, base) == machine.Fresh(index)
    ensures var frame := Get(m, base + 8 * 15, 5);
            && frame[0] == machine.trampoline && frame[1] == 0x08 && frame[2] / 0x200 % 2 == 1 && frame[4] == 0x10
            && StackLow(machine.area, index) <= frame[3] < StackLow(machine.area, index) + STACK_SIZE
  {
    var w, frame := Get(m, base, 20), Get(m, base + 8 * 15, 5);
    assert forall i :: 0 <= i < 5 ==> frame[i] == w[15 + i];
  }
}
