/** The virtqueue of src/c/drivers/virtqueue.c, in one block of memory shared with a device. */
module Virtqueue {
  type Byte = x: int | 0 <= x < 256
  type Word16 = x: int | 0 <= x < 0x1_0000
  type Word32 = x: int | 0 <= x < 0x1_0000_0000
  type Word64 = x: int | 0 <= x < 0x1_0000_0000_0000_0000

  const MAX_SIZE: nat := 128
  const DESC_BYTES: nat := 16
  const PAGE: nat := 4096
  const F_NEXT: Word16 := 1
  const F_WRITE: Word16 := 2
  const SPIN_LIMIT: nat := 100000000

  // ---------------------------------------------------------------- the layout

  function AlignUp(n: nat): nat { (n + (PAGE - 1)) / PAGE * PAGE }

  function AvailBase(size: nat): nat { DESC_BYTES * size }

  function AvailBytes(size: nat): nat { 6 + 2 * size }

  function UsedBase(size: nat): nat { AlignUp(AvailBase(size) + AvailBytes(size)) }

  function UsedBytes(size: nat): nat { 6 + 8 * size }

  function Total(size: nat): nat { UsedBase(size) + UsedBytes(size) }

  predicate Sound(size: nat) { 0 < size <= MAX_SIZE }

  /** The three parts follow one another, and the used ring starts the second page. */
  lemma PartsAreDisjoint(size: nat)
    requires Sound(size)
    ensures DESC_BYTES * size <= AvailBase(size) && AvailBase(size) + AvailBytes(size) <= UsedBase(size)
    ensures UsedBase(size) == PAGE && UsedBase(size) + UsedBytes(size) == Total(size)
  {
    var n := AvailBase(size) + AvailBytes(size);
    assert 0 < n <= PAGE;
    assert (n + (PAGE - 1)) / PAGE == 1;
  }

  /** A request takes two descriptors. A queue of one is accepted too, and there the second one lies
      over the index of the available ring. */
  lemma ChainFitsIff(size: nat)
    requires Sound(size)
    ensures 2 * DESC_BYTES <= AvailBase(size) <==> size >= 2
    ensures size == 1 ==> DESC_BYTES <= AvailBase(size) + 2 < 2 * DESC_BYTES
  {
  }

  // ---------------------------------------------------------------- little-endian fields

  function Get16(mem: array<Byte>, off: nat): Word16
    requires off + 2 <= mem.Length
    reads mem
  {
    mem[off] as int + 0x100 * (mem[off + 1] as int)
  }

  function Get32(mem: array<Byte>, off: nat): Word32
    requires off + 4 <= mem.Length
    reads mem
  {
    Get16(mem, off) as int + 0x1_0000 * (Get16(mem, off + 2) as int)
  }

  function Get64(mem: array<Byte>, off: nat): Word64
    requires off + 8 <= mem.Length
    reads mem
  {
    Get32(mem, off) as int + 0x1_0000_0000 * (Get32(mem, off + 4) as int)
  }

  /** Nothing outside a stretch of the memory has changed. */
  twostate predicate Only(mem: array<Byte>, from: nat, count: nat)
    reads mem
  {
    forall i {:trigger mem[i]} :: 0 <= i < mem.Length && !(from <= i < from + count) ==> mem[i] == old(mem[i])
  }

  method Put16(mem: array<Byte>, off: nat, v: Word16)
    requires off + 2 <= mem.Length
    modifies mem
    ensures Get16(mem, off) == v && Only(mem, off, 2)
  {
    mem[off], mem[off + 1] := v % 0x100, v / 0x100;
  }

  method Put32(mem: array<Byte>, off: nat, v: Word32)
    requires off + 4 <= mem.Length
    modifies mem
    ensures Get32(mem, off) == v && Only(mem, off, 4)
  {
    Put16(mem, off, v % 0x1_0000);
    Put16(mem, off + 2, v / 0x1_0000);
  }

  method Put64(mem: array<Byte>, off: nat, v: Word64)
    requires off + 8 <= mem.Length
    modifies mem
    ensures Get64(mem, off) == v && Only(mem, off, 8)
  {
    Put32(mem, off, v % 0x1_0000_0000);
    Put32(mem, off + 4, v / 0x1_0000_0000);
  }

  datatype Desc = Desc(addr: Word64, len: Word32, flags: Word16, next: Word16)

  function GetDesc(mem: array<Byte>, i: nat): Desc
    requires DESC_BYTES * (i + 1) <= mem.Length
    reads mem
  {
    var off := DESC_BYTES * i;
    Desc(Get64(mem, off), Get32(mem, off + 8), Get16(mem, off + 12), Get16(mem, off + 14))
  }

  method PutDesc(mem: array<Byte>, i: nat, d: Desc)
    requires DESC_BYTES * (i + 1) <= mem.Length
    modifies mem
    ensures GetDesc(mem, i) == d && Only(mem, DESC_BYTES * i, DESC_BYTES)
  {
    var off := DESC_BYTES * i;
    Put64(mem, off, d.addr);
    Put32(mem, off + 8, d.len);
    Put16(mem, off + 12, d.flags);
    Put16(mem, off + 14, d.next);
  }

  // ---------------------------------------------------------------- requests, answers and polls

  datatype Request = Request(txAddr: Word64, txLen: Word32, rxAddr: Word64, rxCap: Word32)
  {
    function First(): Desc { Desc(txAddr, txLen, F_NEXT, 1) }
    function Second(): Desc { Desc(rxAddr, rxCap, F_WRITE, 0) }
    function Chain(): (Desc, Desc) { (First(), Second()) }
  }

  /** The buffers a device may read and those it may write, each with its length. */
  datatype Buffers = Buffers(readable: seq<(Word64, Word32)>, writable: seq<(Word64, Word32)>)

  /** A device follows a chain from descriptor `i` on: bit 0 of the flags says that another one follows,
      bit 1 that the device writes. */
  function Walk(table: seq<Desc>, i: nat, steps: nat): Buffers
    decreases steps
  {
    if steps == 0 || i >= |table| then Buffers([], [])
    else
      var d := table[i];
      var rest := if d.flags % 2 == 1 then Walk(table, d.next, steps - 1) else Buffers([], []);
      if d.flags / 2 % 2 == 1 then rest.(writable := [(d.addr, d.len)] + rest.writable)
      else rest.(readable := [(d.addr, d.len)] + rest.readable)
  }

  /** The device may read what is sent and write only the room for the answer. */
  lemma DeviceBuffers(r: Request, steps: nat)
    requires steps >= 2
    ensures Walk([r.Chain().0, r.Chain().1], 0, steps) == Buffers([(r.txAddr, r.txLen)], [(r.rxAddr, r.rxCap)])
  {
    var table := [r.Chain().0, r.Chain().1];
    assert Walk(table, 1, steps - 1) == Buffers([], [(r.rxAddr, r.rxCap)]);
  }

  datatype Option<T> = None | Some(value: T)

  /** A request is made; the device answers one with a length; the driver polls, and if no answer is
      waiting the device gives `replies` just before the check with number `after`. */
  datatype Event = Send(request: Request) | Reply(len: Word32) | Wait(after: nat, replies: seq<Word32>)

  predicate Arrives(e: Event) { e.Wait? && e.after < SPIN_LIMIT && e.replies != [] }

  /** How many answers have been taken, how many requests made and not taken, the answers that wait,
      and the request made last. */
  datatype Line = Line(over: nat, made: nat, waiting: seq<Word32>, last: Option<Request>)

  /** The answers the device gives in an event. */
  function Given(l: Line, e: Event): seq<Word32> {
    match e
    case Send(_) => []
    case Reply(len) => [len]
    case Wait(_, replies) => if l.waiting == [] && Arrives(e) then replies else []
  }

  /** What an event takes out of the line: a poll takes the oldest answer. */
  function Taken(l: Line, e: Event): seq<Word32> {
    var all := l.waiting + Given(l, e);
    if e.Wait? && all != [] then [all[0]] else []
  }

  /** The line without its oldest answer. */
  function Without(l: Line): Line {
    if l.waiting == [] || l.made == 0 then l
    else l.(over := l.over + 1, made := l.made - 1, waiting := l.waiting[1..])
  }

  function Next(l: Line, e: Event): Line {
    var answered := l.(waiting := l.waiting + Given(l, e));
    match e
    case Send(r) => l.(made := l.made + 1, last := Some(r))
    case Reply(_) => answered
    case Wait(_, _) => Without(answered)
  }

  /** Every answer belongs to a request that was made, and finds a free slot of the used ring. */
  predicate Fair(size: nat, l: Line, e: Event)
    requires 0 < size
  {
    match e
    case Send(_) => l.made + 1 < 0x1_0000
    case _ => Given(l, e) != [] ==> CanAnswer(size, l, |Given(l, e)|)
  }

  predicate CanAnswer(size: nat, l: Line, n: nat)
    requires 0 < size
  {
    && |l.waiting| + n <= l.made && l.last.Some?
    && forall c :: |l.waiting| <= c < |l.waiting| + n ==> Room(size, l.over, c)
  }

  predicate AllFair(size: nat, l: Line, events: seq<Event>)
    requires 0 < size
    decreases |events|
  {
    events == [] || (Fair(size, l, events[0]) && AllFair(size, Next(l, events[0]), events[1..]))
  }

  function Final(l: Line, events: seq<Event>): Line
    decreases |events|
  {
    if events == [] then l else Final(Next(l, events[0]), events[1..])
  }

  function AllGiven(l: Line, events: seq<Event>): seq<Word32>
    decreases |events|
  {
    if events == [] then [] else Given(l, events[0]) + AllGiven(Next(l, events[0]), events[1..])
  }

  function AllTaken(l: Line, events: seq<Event>): seq<Word32>
    decreases |events|
  {
    if events == [] then [] else Taken(l, events[0]) + AllTaken(Next(l, events[0]), events[1..])
  }

  /** What the device reads for each answer: the descriptors of the request made last. */
  function Read(l: Line, e: Event): seq<(Desc, Desc)> {
    if l.last.None? then [] else seq(|Given(l, e)|, _ => l.last.value.Chain())
  }

  function AllRead(l: Line, events: seq<Event>): seq<(Desc, Desc)>
    decreases |events|
  {
    if events == [] then [] else Read(l, events[0]) + AllRead(Next(l, events[0]), events[1..])
  }

  /** First in, first out: whatever happens in between, the answers taken and those that still wait
      are the ones that waited and those given, in this order. */
  lemma {:induction false} FirstInFirstOut(size: nat, l: Line, events: seq<Event>)
    requires 0 < size && |l.waiting| <= l.made && AllFair(size, l, events)
    ensures AllTaken(l, events) + Final(l, events).waiting == l.waiting + AllGiven(l, events)
    decreases |events|
  {
    if events != [] {
      var next := Next(l, events[0]);
      OneInOneOut(size, l, events[0]);
      FirstInFirstOut(size, next, events[1..]);
      Regroup(Taken(l, events[0]), AllTaken(next, events[1..]), Final(next, events[1..]).waiting,
              next.waiting, AllGiven(next, events[1..]));
      assert l.waiting + Given(l, events[0]) + AllGiven(next, events[1..]) == l.waiting + AllGiven(l, events);
    }
  }

  lemma OneInOneOut(size: nat, l: Line, e: Event)
    requires 0 < size && |l.waiting| <= l.made && Fair(size, l, e)
    ensures Taken(l, e) + Next(l, e).waiting == l.waiting + Given(l, e) && |Next(l, e).waiting| <= Next(l, e).made
  {
  }

  lemma OneMore<T>(before: seq<T>, added: seq<T>, k: nat)
    requires k < |added|
    ensures before + added[..k] + [added[k]] == before + added[..k + 1]
  {
  }

  lemma Regroup<T>(taken: seq<T>, later: seq<T>, left: seq<T>, waiting: seq<T>, given: seq<T>)
    requires later + left == waiting + given
    ensures (taken + later) + left == (taken + waiting) + given
  {
    assert (taken + later) + left == taken + (later + left);
    assert (taken + waiting) + given == taken + (waiting + given);
  }

  /** A request and the poll for its answer, which comes before the check `after`. */
  datatype Round = Round(request: Request, after: nat, len: Word32)
  {
    predicate Answered() { after < SPIN_LIMIT }
  }

  function Script(rounds: seq<Round>): seq<Event> {
    if rounds == [] then []
    else [Send(rounds[0].request), Wait(rounds[0].after, [rounds[0].len])] + Script(rounds[1..])
  }

  function AnsweredOnes(rounds: seq<Round>): seq<Round> {
    if rounds == [] then []
    else (if rounds[0].Answered() then [rounds[0]] else []) + AnsweredOnes(rounds[1..])
  }

  /** Round after round: as long as no answer comes after its poll was given up, each answered round
      gets its own answer and the device reads its own request, and a round given up leaves one
      request behind for good. */
  lemma {:induction false} RoundsMatch(size: nat, l: Line, rounds: seq<Round>)
    requires 0 < size && l.waiting == [] && l.made + |rounds| < 0x1_0000
    ensures Matches(size, l, Script(rounds), |rounds|, AnsweredOnes(rounds))
    decreases |rounds|
  {
    if rounds != [] {
      RoundsMatch(size, After(l, rounds[0]), rounds[1..]);
      RoundOnwards(size, l, rounds[0], Script(rounds[1..]), |rounds| - 1, AnsweredOnes(rounds[1..]));
    }
  }

  function After(l: Line, round: Round): (next: Line)
    ensures l.waiting == [] ==> next.waiting == [] && next.made <= l.made + 1
  {
    Next(Next(l, Send(round.request)), Wait(round.after, [round.len]))
  }

  /** Of n requests those of `answered` have been taken, each with its own answer. */
  predicate Matches(size: nat, l: Line, events: seq<Event>, n: nat, answered: seq<Round>)
    requires 0 < size
  {
    var end := Final(l, events);
    && AllFair(size, l, events) && AllTaken(l, events) == Lens(answered) && AllRead(l, events) == Chains(answered)
    && end.waiting == [] && end.made == l.made + n - |answered| && end.over == l.over + |answered|
  }

  lemma RoundOnwards(size: nat, l: Line, round: Round, rest: seq<Event>, n: nat, later: seq<Round>)
    requires 0 < size && l.waiting == [] && l.made + 1 < 0x1_0000 && Matches(size, After(l, round), rest, n, later)
    ensures Matches(size, l, [Send(round.request), Wait(round.after, [round.len])] + rest, n + 1,
                    (if round.Answered() then [round] else []) + later)
  {
    var first := AnsweredOnes([round]);
    OneRound(size, l, round);
    TwoEvents(size, l, Send(round.request), Wait(round.after, [round.len]), rest);
    Together(first, later);
    assert first == if round.Answered() then [round] else [];
  }

  lemma Together(a: seq<Round>, b: seq<Round>)
    ensures Lens(a + b) == Lens(a) + Lens(b) && Chains(a + b) == Chains(a) + Chains(b)
  {
  }

  lemma OneRound(size: nat, l: Line, round: Round)
    requires 0 < size && l.waiting == [] && l.made + 1 < 0x1_0000
    ensures var send, wait, mine := Send(round.request), Wait(round.after, [round.len]), AnsweredOnes([round]);
            var sent := Next(l, send);
            && Fair(size, l, send) && Fair(size, sent, wait)
            && Taken(sent, wait) == Lens(mine) && Read(sent, wait) == Chains(mine)
            && Next(sent, wait).waiting == []
            && Next(sent, wait).made == l.made + 1 - |mine| && Next(sent, wait).over == l.over + |mine|
  {
  }

  lemma TwoEvents(size: nat, l: Line, a: Event, b: Event, rest: seq<Event>)
    requires 0 < size && a.Send?
    ensures var mid, events := Next(l, a), [a, b] + rest;
            && AllFair(size, l, events) ==
               (Fair(size, l, a) && Fair(size, mid, b) && AllFair(size, Next(mid, b), rest))
            && AllTaken(l, events) == Taken(mid, b) + AllTaken(Next(mid, b), rest)
            && AllRead(l, events) == Read(mid, b) + AllRead(Next(mid, b), rest)
            && Final(l, events) == Final(Next(mid, b), rest)
  {
    var mid, events := Next(l, a), [a, b] + rest;
    assert events[1..] == [b] + rest && ([b] + rest)[1..] == rest;
    assert AllTaken(mid, [b] + rest) == Taken(mid, b) + AllTaken(Next(mid, b), rest);
    assert AllRead(mid, [b] + rest) == Read(mid, b) + AllRead(Next(mid, b), rest);
  }

  /** What a request given up can do: its answer, if it comes before the next request is made, is what
      the poll for that one takes, whatever the device answers then. */
  lemma AnswerComesLate(size: nat, l: Line, len: Word32, r: Request, after: nat, replies: seq<Word32>)
    requires 0 < size && l.waiting == [] && 0 < l.made && l.made + 1 < 0x1_0000 && l.last.Some?
    ensures var events := [Reply(len), Send(r), Wait(after, replies)];
            && AllFair(size, l, events) && AllTaken(l, events) == [len]
            && AllRead(l, events) == [l.last.value.Chain()]
            && Final(l, events) == l.(over := l.over + 1, last := Some(r))
  {
    var late := Next(l, Reply(len));
    var sent := Next(late, Send(r));
    var events := [Reply(len), Send(r), Wait(after, replies)];
    assert events[1..] == [Send(r), Wait(after, replies)] && events[1..][1..] == [Wait(after, replies)];
    assert late.waiting == sent.waiting == [len] && Next(sent, Wait(after, replies)).waiting == [];
    assert AllFair(size, sent, events[1..][1..]) && AllFair(size, late, events[1..]);
    assert Final(sent, events[1..][1..]) == Next(sent, Wait(after, replies)) == Final(late, events[1..]);
    assert AllRead(sent, events[1..][1..]) == [] && AllRead(late, events[1..]) == [];
    assert AllTaken(sent, events[1..][1..]) == [len] && AllTaken(late, events[1..]) == [len];
  }

  function Lens(rounds: seq<Round>): seq<Word32> {
    seq(|rounds|, i requires 0 <= i < |rounds| => rounds[i].len)
  }

  function Chains(rounds: seq<Round>): seq<(Desc, Desc)> {
    seq(|rounds|, i requires 0 <= i < |rounds| => rounds[i].request.Chain())
  }

  /** A 16-bit index: the remainder, by repeated subtraction. */
  function Index(n: nat): Word16 {
    if n < 0x1_0000 then n else Index(n - 0x1_0000)
  }

  lemma {:induction false} IndexIs(n: nat)
    ensures Index(n) == n % 0x1_0000
  {
    if n >= 0x1_0000 { IndexIs(n - 0x1_0000); }
  }

  lemma IndexDiffers(n: nat, d: nat)
    requires 0 < d < 0x1_0000
    ensures Index(n + d) != Index(n)
  {
    IndexIs(n);
    IndexIs(n + d);
  }

  lemma IndexMoves(n: nat)
    ensures Index(n + 1) == (Index(n) + 1) % 0x1_0000
  {
    IndexIs(n);
    IndexIs(n + 1);
  }

  function Slot(index: Word16, size: nat): (i: nat)
    requires 0 < size
    ensures i < size
    decreases index
  {
    if index < size then index else Slot(index - size, size)
  }

  lemma {:induction false} SlotIs(index: Word16, size: nat)
    requires 0 < size
    ensures Slot(index, size) == index % size
    decreases index
  {
    Division(index, size);
    if index < size {
      RemainderIs(size, 0, index);
    } else {
      SlotIs(index - size, size);
      Division(index - size, size);
      var q := (index - size) / size;
      assert size * (q + 1) == size * q + size;
      RemainderIs(size, q + 1, (index - size) % size);
    }
  }

  /** The slot of answer `i` behind those taken. */
  function AnswerSlot(size: nat, over: nat, i: nat): (slot: nat)
    requires 0 < size
    ensures slot < size
  {
    Slot(Index(over + i), size)
  }

  /** The slot behind `c` waiting answers is none of theirs. */
  predicate Room(size: nat, over: nat, c: nat)
    requires 0 < size
  {
    forall i :: 0 <= i < c ==> AnswerSlot(size, over, i) != AnswerSlot(size, over, c)
  }

  ghost predicate AnswersIn(lens: seq<Word32>, over: nat, waiting: seq<Word32>)
    requires 0 < |lens|
  {
    forall i :: 0 <= i < |waiting| ==> lens[AnswerSlot(|lens|, over, i)] == waiting[i]
  }

  lemma WithAnswer(lens: seq<Word32>, over: nat, waiting: seq<Word32>, len: Word32)
    requires 0 < |lens| && AnswersIn(lens, over, waiting) && Room(|lens|, over, |waiting|)
    ensures AnswersIn(lens[AnswerSlot(|lens|, over, |waiting|) := len], over, waiting + [len])
  {
  }

  lemma WithoutAnswer(lens: seq<Word32>, over: nat, waiting: seq<Word32>)
    requires 0 < |lens| && AnswersIn(lens, over, waiting) && waiting != []
    ensures AnswersIn(lens, over + 1, waiting[1..])
  {
    forall i | 0 <= i < |waiting[1..]| ensures lens[AnswerSlot(|lens|, over + 1, i)] == waiting[1..][i] {
      assert AnswerSlot(|lens|, over + 1, i) == AnswerSlot(|lens|, over, i + 1);
    }
  }

  /** When the 16-bit index runs over a whole number of rings there is room exactly while fewer
      answers wait than there are slots, also where the index wraps. */
  lemma RoomIff(size: nat, over: nat, c: nat)
    requires 0 < size && 0x1_0000 % size == 0
    ensures Room(size, over, c) <==> c < size
  {
    TurnIs(size, over + c);
    if c >= size {
      TurnIs(size, over + c - size);
      TurnsBy(size, over + c - size, size);
      assert AnswerSlot(size, over, c - size) == AnswerSlot(size, over, c);
    } else {
      forall i | 0 <= i < c ensures AnswerSlot(size, over, i) != AnswerSlot(size, over, c) {
        TurnIs(size, over + i);
        TurnsBy(size, over + i, c - i);
      }
    }
  }

  lemma TurnIs(size: nat, n: nat)
    requires 0 < size && 0x1_0000 % size == 0
    ensures Slot(Index(n), size) == n % size
  {
    var rings, a, b := 0x1_0000 / size, n / 0x1_0000, n % 0x1_0000;
    IndexIs(n);
    SlotIs(b, size);
    Division(0x1_0000, size);
    Division(b, size);
    assert size * (rings * a + b / size) == size * rings * a + size * (b / size);
    RemainderIs(size, rings * a + b / size, b % size);
  }

  /** Moving on by at most one whole turn. */
  lemma TurnsBy(size: nat, n: nat, d: nat)
    requires 0 < d <= size
    ensures (n + d) % size == n % size <==> d == size
  {
    var q, r := n / size, n % size;
    Division(n, size);
    assert size * (q + 1) == size * q + size;
    if r + d < size { RemainderIs(size, q, r + d); } else { RemainderIs(size, q + 1, r + d - size); }
  }

  lemma Division(x: nat, size: nat)
    requires 0 < size
    ensures size * (x / size) + x % size == x
  {
  }

  lemma RemainderIs(size: nat, q: nat, r: nat)
    requires r < size
    ensures (size * q + r) % size == r
  {
    var x := size * q + r;
    Division(x, size);
    OneRemainder(size, q, r, x / size, x % size);
  }

  lemma OneRemainder(size: nat, q: nat, r: nat, p: nat, t: nat)
    requires size * q + r == size * p + t && r < size && t < size
    ensures r == t
  {
    if q < p {
      assert size * (q + 1) == size * q + size;
      MulMono(size, q + 1, p);
    } else if p < q {
      assert size * (p + 1) == size * p + size;
      MulMono(size, p + 1, q);
    }
  }

  lemma MulMono(s: nat, a: nat, b: nat)
    requires a <= b
    ensures s * a <= s * b
  {
  }

  class Queue {
    const mem: array<Byte>
    const size: nat
    const usedBase: nat
    var lastUsed: Word16
    /** the device's own count of requests taken */
    var seen: Word16
    /** What the memory holds: the two indices, the lengths in the used ring, and the chain. */
    ghost var availIdx: Word16
    ghost var usedIdx: Word16
    ghost var usedLens: seq<Word32>
    ghost var chain: (Desc, Desc)

    ghost predicate Shape() {
      2 <= size && AvailBase(size) + AvailBytes(size) <= usedBase && usedBase + UsedBytes(size) <= mem.Length
    }

    function AvailIdx(): Word16
      requires Shape()
      reads mem
    {
      Get16(mem, AvailBase(size) + 2)
    }

    function UsedIdx(): Word16
      requires Shape()
      reads mem
    {
      Get16(mem, usedBase + 2)
    }

    function AvailSlot(i: nat): Word16
      requires Shape() && i < size
      reads mem
    {
      Get16(mem, AvailBase(size) + 4 + 2 * i)
    }

    function UsedLen(i: nat): Word32
      requires Shape() && i < size
      reads mem
    {
      Get32(mem, usedBase + 4 + 8 * i + 4)
    }

    /** Every entry of the available ring names descriptor 0. */
    ghost predicate RingIsZero()
      requires Shape()
      reads mem
    {
      forall b :: AvailBase(size) + 4 <= b < AvailBase(size) + 4 + 2 * size ==> mem[b] == 0
    }

    ghost predicate Valid()
      reads this`availIdx, this`usedIdx, this`usedLens, this`chain, mem
    {
      && Shape() && RingIsZero() && AvailIdx() == availIdx && UsedIdx() == usedIdx
      && |usedLens| == size && (forall k :: 0 <= k < size ==> UsedLen(k) == usedLens[k])
      && chain.0 == GetDesc(mem, 0) && chain.1 == GetDesc(mem, 1)
    }

    /** The rings hold the line. */
    ghost predicate Holding(l: Line)
      reads this, mem
    {
      && Valid() && |l.waiting| <= l.made < 0x1_0000
      && availIdx == Index(l.over + l.made) && lastUsed == Index(l.over)
      && usedIdx == seen == Index(l.over + |l.waiting|)
      && AnswersIn(usedLens, l.over, l.waiting) && (l.last.Some? ==> chain == l.last.value.Chain())
    }

    /** The rest of os_virtqueue_init: the whole layout is zeroed. */
    constructor (mem: array<Byte>, size: nat)
      requires Sound(size) && Total(size) <= mem.Length
      modifies mem
      ensures this.mem == mem && this.size == size && usedBase == UsedBase(size)
      ensures (forall k :: 0 <= k < Total(size) ==> mem[k] == 0) && Only(mem, 0, Total(size))
      ensures lastUsed == seen == 0 && (2 <= size ==> Holding(Line(0, 0, [], None)))
    {
      PartsAreDisjoint(size);
      this.mem, this.size, usedBase, lastUsed, seen := mem, size, UsedBase(size), 0, 0;
      availIdx, usedIdx, usedLens := 0, 0, seq(size, _ => 0);
      chain := (Desc(0, 0, 0, 0), Desc(0, 0, 0, 0));
      new;
      for i := 0 to Total(size)
        invariant forall k :: 0 <= k < i ==> mem[k] == 0
        invariant Only(mem, 0, i)
        modifies mem
      {
        mem[i] := 0;
      }
    }

    /** The two descriptors of a request */
    method PutChain(r: Request)
      requires Valid()
      modifies mem, this`chain
      ensures Valid() && chain == r.Chain()
    {
      PutDesc(mem, 0, r.First());
      PutDesc(mem, 1, r.Second());
      chain := r.Chain();
    }

    method PutAvail(index: Word16)
      requires Valid()
      modifies mem, this`availIdx
      ensures Valid() && availIdx == index
    {
      Put16(mem, AvailBase(size) + 4 + 2 * (AvailIdx() % size), 0);
      Put16(mem, AvailBase(size) + 2, index);
      availIdx := index;
    }

    method PutElem(index: Word16, id: Word32, len: Word32)
      requires Valid()
      modifies mem, this`usedLens
      ensures Valid() && usedLens == old(usedLens)[Slot(index, size) := len]
    {
      SlotIs(index, size);
      PutId(index % size, id);
      PutLen(index % size, len);
    }

    method PutId(i: nat, id: Word32)
      requires Valid() && i < size
      modifies mem
      ensures Valid()
    {
      Put32(mem, usedBase + 4 + 8 * i, id);
    }

    method PutLen(i: nat, len: Word32)
      requires Valid() && i < size
      modifies mem, this`usedLens
      ensures Valid() && usedLens == old(usedLens)[i := len]
    {
      Put32(mem, usedBase + 4 + 8 * i + 4, len);
      usedLens := usedLens[i := len];
    }

    method PutUsed(index: Word16)
      requires Valid()
      modifies mem, this`usedIdx
      ensures Valid() && usedIdx == index
    {
      Put16(mem, usedBase + 2, index);
      usedIdx := index;
    }

    /** The device follows an entry of the available ring. */
    method Fetch(index: Word16) returns (head: Word16, read: (Desc, Desc))
      requires Valid()
      ensures head == 0 && read == chain
    {
      head := AvailSlot(index % size);
      read := (GetDesc(mem, head), GetDesc(mem, 1));
    }

    /** os_virtqueue_submit */
    method Submit(r: Request, ghost l: Line)
      requires Holding(l) && l.made + 1 < 0x1_0000
      modifies mem, this`chain, this`availIdx
      ensures Holding(Next(l, Send(r)))
    {
      PutChain(r);
      IndexMoves(l.over + l.made);
      PutAvail((AvailIdx() + 1) % 0x1_0000);
    }

    /** The device takes the next request and answers it. */
    method Answer(len: Word32, ghost l: Line) returns (read: (Desc, Desc))
      requires Holding(l) && |l.waiting| < l.made && Room(size, l.over, |l.waiting|)
      modifies mem, this`seen, this`usedIdx, this`usedLens
      ensures Holding(l.(waiting := l.waiting + [len]))
      ensures l.last.Some? ==> read == l.last.value.Chain()
    {
      read := PutAnswer(len, l);
      Count(l.over, l.waiting, len);
    }

    /** The device counts an answer and shows its count. */
    method Count(ghost over: nat, ghost waiting: seq<Word32>, ghost len: Word32)
      requires Valid() && seen == Index(over + |waiting|)
      modifies mem, this`seen, this`usedIdx
      ensures Valid() && usedIdx == seen == Index(over + |waiting + [len]|)
    {
      IndexMoves(over + |waiting|);
      assert over + |waiting| + 1 == over + |waiting + [len]|;
      seen := (seen + 1) % 0x1_0000;
      PutUsed(seen);
    }

    method PutAnswer(len: Word32, ghost l: Line) returns (read: (Desc, Desc))
      requires Holding(l) && Room(size, l.over, |l.waiting|)
      modifies mem, this`usedLens
      ensures Valid() && AnswersIn(usedLens, l.over, l.waiting + [len]) && read == chain
    {
      WithAnswer(usedLens, l.over, l.waiting, len);
      var head;
      head, read := Fetch(seen);
      PutElem(seen, head, len);
    }

    method AnswerAll(lens: seq<Word32>, ghost l: Line) returns (ghost read: seq<(Desc, Desc)>)
      requires Holding(l) && CanAnswer(size, l, |lens|)
      modifies mem, this`seen, this`usedIdx, this`usedLens
      ensures Holding(l.(waiting := l.waiting + lens))
      ensures read == seq(|lens|, _ => l.last.value.Chain())
    {
      read := [];
      for k := 0 to |lens|
        invariant Holding(l.(waiting := l.waiting + lens[..k]))
        invariant read == seq(k, _ => l.last.value.Chain())
      {
        OneMore(l.waiting, lens, k);
        var one := Answer(lens[k], l.(waiting := l.waiting + lens[..k]));
        read := read + [one];
      }
      assert lens[..|lens|] == lens;
    }

    lemma AnswersShow(l: Line)
      requires Holding(l)
      ensures UsedIdx() == lastUsed <==> l.waiting == []
    {
      if l.waiting != [] { IndexDiffers(l.over, |l.waiting|); }
    }

    /** Answers arrive while the driver polls. */
    method Arrive(e: Event, ghost l: Line) returns (ghost read: seq<(Desc, Desc)>)
      requires Holding(l) && l.waiting == [] && Arrives(e) && Fair(size, l, e)
      modifies mem, this`seen, this`usedIdx, this`usedLens
      ensures Holding(l.(waiting := l.waiting + Given(l, e))) && UsedIdx() != lastUsed
      ensures read == Read(l, e)
    {
      read := AnswerAll(e.replies, l);
      AnswersShow(l.(waiting := l.waiting + e.replies));
    }

    /** The loop of os_virtqueue_poll */
    method Spin(after: nat, replies: seq<Word32>, ghost l: Line) returns (ok: bool, ghost read: seq<(Desc, Desc)>)
      requires Holding(l) && Fair(size, l, Wait(after, replies))
      modifies mem, this`seen, this`usedIdx, this`usedLens
      ensures ok <==> l.waiting + Given(l, Wait(after, replies)) != []
      ensures Holding(l.(waiting := l.waiting + Given(l, Wait(after, replies))))
      ensures read == Read(l, Wait(after, replies))
    {
      ghost var e := Wait(after, replies);
      ghost var now, full := l, l.(waiting := l.waiting + Given(l, e));
      read := [];
      var spin := 0;
      AnswersShow(l);
      if after == 0 && UsedIdx() == lastUsed && replies != [] {
        read := Arrive(Wait(after, replies), l);
        now := full;
      }
      while UsedIdx() == lastUsed
        invariant spin < SPIN_LIMIT
        invariant Holding(now)
        invariant if UsedIdx() == lastUsed
                  then now == l && l.waiting == [] && read == [] && !(Arrives(e) && after <= spin)
                  else now == full && full.waiting != [] && read == Read(l, e)
        decreases SPIN_LIMIT - spin
      {
        spin := spin + 1;
        if spin >= SPIN_LIMIT { return false, read; }
        if spin == after && replies != [] {
          read := Arrive(Wait(after, replies), l);
          now := full;
        }
      }
      ok := true;
    }

    method MoveOn(ghost over: nat)
      requires lastUsed == Index(over)
      modifies this`lastUsed
      ensures lastUsed == Index(over + 1)
    {
      IndexMoves(over);
      lastUsed := (lastUsed + 1) % 0x1_0000;
    }

    /** The oldest answer is taken. */
    method Take(ghost l: Line) returns (len: Word32)
      requires Holding(l) && l.waiting != []
      modifies this`lastUsed
      ensures len == l.waiting[0] && Holding(Without(l))
    {
      SlotIs(lastUsed, size);
      assert AnswerSlot(size, l.over, 0) == Slot(lastUsed, size);
      len := UsedLen(lastUsed % size);
      assert l.over + 1 + (l.made - 1) == l.over + l.made && l.over + 1 + |l.waiting[1..]| == l.over + |l.waiting|;
      MoveOn(l.over);
      WithoutAnswer(usedLens, l.over, l.waiting);
    }

    /** os_virtqueue_poll */
    method Poll(after: nat, replies: seq<Word32>, ghost l: Line)
      returns (ok: bool, outLen: Word32, ghost read: seq<(Desc, Desc)>)
      requires Holding(l) && Fair(size, l, Wait(after, replies))
      modifies mem, this`seen, this`lastUsed, this`usedIdx, this`usedLens
      ensures Holding(Next(l, Wait(after, replies)))
      ensures Taken(l, Wait(after, replies)) == if ok then [outLen] else []
      ensures read == Read(l, Wait(after, replies))
    {
      ghost var full := l.(waiting := l.waiting + Given(l, Wait(after, replies)));
      assert Next(l, Wait(after, replies)) == Without(full);
      outLen := 0;
      ok, read := Spin(after, replies, l);
      if ok { outLen := Take(full); }
    }

    method Do(e: Event, ghost l: Line) returns (lens: seq<Word32>, ghost read: seq<(Desc, Desc)>)
      requires Holding(l) && Fair(size, l, e)
      modifies this, mem
      ensures Holding(Next(l, e)) && lens == Taken(l, e) && read == Read(l, e)
    {
      lens, read := [], [];
      match e
      case Send(r) => Submit(r, l);
      case Reply(len) => read := AnswerAll([len], l);
      case Wait(after, replies) =>
        var ok, outLen;
        ok, outLen, read := Poll(after, replies, l);
        if ok { lens := [outLen]; }
    }

    /** Requests, answers and polls in any order, through every wrap of the 16-bit indices: the rings
        do what the line does. */
    method Run(events: seq<Event>, ghost l: Line) returns (lens: seq<Word32>, ghost read: seq<(Desc, Desc)>)
      requires Holding(l) && AllFair(size, l, events)
      modifies this, mem
      ensures Holding(Final(l, events)) && lens == AllTaken(l, events) && read == AllRead(l, events)
      decreases |events|
    {
      lens, read := [], [];
      if events != [] {
        lens, read := Do(events[0], l);
        var later;
        ghost var laterRead;
        later, laterRead := Run(events[1..], Next(l, events[0]));
        lens, read := lens + later, read + laterRead;
      }
    }
  }

  /** os_virtqueue_init, given the size that the device reports */
  method Init(mem: array<Byte>, size: nat) returns (queue: Queue?)
    modifies mem
    ensures queue != null <==> Sound(size) && Total(size) <= mem.Length
    ensures queue != null ==>
              && fresh(queue) && queue.mem == mem && queue.size == size && queue.usedBase == UsedBase(size)
              && (forall k :: 0 <= k < Total(size) ==> mem[k] == 0) && Only(mem, 0, Total(size))
              && queue.lastUsed == 0 && (2 <= size ==> queue.Holding(Line(0, 0, [], None)))
    ensures queue == null ==> mem[..] == old(mem[..])
  {
    queue := null;
    if size == 0 || size > MAX_SIZE { return; }
    if Total(size) > mem.Length { return; }
    queue := new Queue(mem, size);
  }
}
