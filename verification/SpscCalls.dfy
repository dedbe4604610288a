/**
 What a whole call of an operation of the lock-free queue does, from its first step to its last,
 whatever the other thread does in the meantime.
 */
module SpscCalls {
  import opened BlockRing
  import opened Options
  import opened SpscQueue

  // ----- enqueue

  /** The producer sees that the block after the full tail block is the front block. */
  ghost predicate SeesFront<T>(s: State<T>, a: Action<T>) {
    a.ProducerMove? && s.p.PLoadFrontBlock? && s.p.nx == s.m.frontBlock
  }

  /** The allocation of a new block fails. */
  ghost predicate DeniedMemory<T>(s: State<T>, a: Action<T>) {
    s.p.PAllocate? && a.ProducerMove? && a.mem.None?
  }

  /** A call of enqueue: the value, whether it may allocate, the values enqueued before it, how many
      blocks there were and how large the next was to be, and which of the two has happened in it. */
  datatype Call<T> = Call(v: T, alloc: bool, before: seq<T>, blocks: nat, size: nat, sawFront: bool, denied: bool)

  function Started<T>(s: State<T>, v: T, alloc: bool): Call<T> {
    Call(v, alloc, s.enq, |s.m.blocks|, if s.largest < s.maxBlock then 2 * s.largest else s.largest, false, false)
  }

  ghost function Noted<T>(c: Call<T>, s: State<T>, a: Action<T>): Call<T> {
    c.(sawFront := c.sawFront || SeesFront(s, a), denied := c.denied || DeniedMemory(s, a))
  }

  /** The value a call in progress is to enqueue. */
  ghost predicate Carries<T>(p: Producer<T>, v: T) {
    !p.PIdle? && !p.PDone? && p.v == v
  }

  /** Whether a block has been added for the call already. */
  ghost predicate HasNewBlock<T>(p: Producer<T>, c: Call<T>) {
    c.sawFront && c.alloc && !c.denied && (p.PLinkNew? || p.PStoreTailBlock? || p.PDone?)
  }

  /** How far the call has come. */
  ghost predicate During<T>(s: State<T>, c: Call<T>) {
    && (if s.p.PDone? then
          && s.enq == c.before + (if s.p.ok then [c.v] else [])
          && (s.p.ok <==> !c.sawFront || (c.alloc && !c.denied))
        else Carries(s.p, c.v) && s.enq == c.before && !c.denied)
    && (if HasNewBlock(s.p, c) then
          |s.m.blocks| == c.blocks + 1 && |s.m.blocks[c.blocks].data| == s.largest == c.size
        else |s.m.blocks| == c.blocks && NewBlockSize(s.largest, s.maxBlock) == c.size)
    && match s.p
       case PLoadTailBlock(_, alloc) => alloc == c.alloc && !c.sawFront
       case PLoadTail(_, alloc, _) => alloc == c.alloc && !c.sawFront
       case PLoadFront(_, alloc, _, _, _) => alloc == c.alloc && !c.sawFront
       case PLoadNext(_, alloc, _) => alloc == c.alloc && !c.sawFront
       case PLoadFrontBlock(_, alloc, _, _) => alloc == c.alloc && !c.sawFront
       case PAllocate(_, _) => c.alloc && c.sawFront
       case PLinkNew(_, _, _) => c.alloc && c.sawFront
       case PStoreTailBlock(_, _) => c.sawFront ==> c.alloc
       case PDone(_) => true
       case _ => !c.sawFront
  }

  lemma AllocateDuring<T>(s: State<T>, mem: Option<seq<T>>, c: Call<T>)
    requires MemTyped(s.m) && s.p.PAllocate? && s.p.tb < |s.m.next|
    requires mem.Some? ==> 2 <= |mem.value| == NewBlockSize(s.largest, s.maxBlock)
    requires During(s, c)
    ensures During(AtAllocate(s, mem), Noted(c, s, ProducerMove(mem)))
  {
    hide MemTyped;
  }

  lemma ProducerDuring<T>(s: State<T>, mem: Option<seq<T>>, c: Call<T>)
    requires MemTyped(s.m) && ProducerTyped(s.m, s.p) && !s.p.PIdle? && !s.p.PDone?
    requires mem.Some? ==> 2 <= |mem.value| == NewBlockSize(s.largest, s.maxBlock)
    requires During(s, c)
    ensures During(ProducerStep(s, mem), Noted(c, s, ProducerMove(mem)))
  {
    if s.p.PAllocate? {
      AllocateDuring(s, mem, c);
    } else {
      hide MemTyped, AtAllocate, NewBlockSize;
    }
  }

  lemma ConsumerDuring<T>(s: State<T>, c: Call<T>)
    requires MemTyped(s.m) && ConsumerTyped(s.m, s.c) && !s.c.CIdle? && !s.c.CDone?
    requires During(s, c)
    ensures During(ConsumerStep(s), c)
  {
    hide MemTyped, Contents;
  }

  /** A step of either thread inside the call. */
  lemma EnqueueStep<T>(s: State<T>, a: Action<T>, s': State<T>, c: Call<T>)
    requires Next(s, a, s') && During(s, c) && !s'.p.PIdle?
    ensures During(s', Noted(c, s, a))
  {
    hide MemTyped, ProducerTyped, ConsumerTyped, ProducerStep, ConsumerStep;
    match a
    case ProducerMove(mem) => ProducerDuring(s, mem, c);
    case ConsumerMove => ConsumerDuring(s, c);
    case _ =>
  }

  /** The call of enqueue that step b begins is not over at state i. */
  ghost predicate EnqueueCall<T>(ss: seq<State<T>>, acts: seq<Action<T>>, b: nat, i: nat) {
    && |ss| == |acts| + 1 && b < i < |ss|
    && acts[b].BeginEnqueue?
    && forall k :: b < k <= i ==> !ss[k].p.PIdle?
  }

  ghost predicate SawFront<T>(ss: seq<State<T>>, acts: seq<Action<T>>, b: nat, i: nat)
    requires i < |ss| == |acts| + 1
  {
    exists j :: b < j < i && SeesFront(ss[j], acts[j])
  }

  ghost predicate WasDenied<T>(ss: seq<State<T>>, acts: seq<Action<T>>, b: nat, i: nat)
    requires i < |ss| == |acts| + 1
  {
    exists j :: b < j < i && DeniedMemory(ss[j], acts[j])
  }

  lemma EnqueueBegins<T>(s: State<T>, a: Action<T>, s': State<T>)
    requires a.BeginEnqueue? && Next(s, a, s')
    ensures During(s', Started(s, a.v, a.alloc))
  {
  }

  /** The call that step b began, as it stands at state i. */
  ghost function CallAt<T>(ss: seq<State<T>>, acts: seq<Action<T>>, b: nat, i: nat): Call<T>
    requires EnqueueCall(ss, acts, b, i)
  {
    Started(ss[b], acts[b].v, acts[b].alloc).(sawFront := SawFront(ss, acts, b, i), denied := WasDenied(ss, acts, b, i))
  }

  lemma CallNext<T>(ss: seq<State<T>>, acts: seq<Action<T>>, b: nat, i: nat)
    requires EnqueueCall(ss, acts, b, i) && i < |acts| && !ss[i + 1].p.PIdle?
    ensures CallAt(ss, acts, b, i + 1) == Noted(CallAt(ss, acts, b, i), ss[i], acts[i])
  {
    hide SeesFront, DeniedMemory;
    assert SawFront(ss, acts, b, i + 1) <==> SawFront(ss, acts, b, i) || SeesFront(ss[i], acts[i]);
    assert WasDenied(ss, acts, b, i + 1) <==> WasDenied(ss, acts, b, i) || DeniedMemory(ss[i], acts[i]);
  }

  lemma {:induction false} EnqueueSoFar<T>(ss: seq<State<T>>, acts: seq<Action<T>>, b: nat, i: nat)
    requires Run(ss, acts) && EnqueueCall(ss, acts, b, i)
    ensures During(ss[i], CallAt(ss, acts, b, i))
  {
    hide Init, Next, SeesFront, DeniedMemory, During, Noted;
    if i == b + 1 {
      EnqueueBegins(ss[b], acts[b], ss[i]);
    } else {
      EnqueueSoFar(ss, acts, b, i - 1);
      CallNext(ss, acts, b, i - 1);
      EnqueueStep(ss[i - 1], acts[i - 1], ss[i], CallAt(ss, acts, b, i - 1));
    }
  }

  /** An enqueue is refused exactly when it found the next block to be the front block and could not
      have a new one: it was not allowed to allocate, or there was no memory.  It appends its value
      exactly when it is not refused, and nothing else; and it adds a block, twice as large as the largest
      one unless that is maximal, exactly when it succeeds after finding the next block to be the front
      block. */
  lemma EnqueueOutcome<T>(ss: seq<State<T>>, acts: seq<Action<T>>, b: nat, i: nat)
    requires Run(ss, acts) && EnqueueCall(ss, acts, b, i) && ss[i].p.PDone?
    ensures !ss[i].p.ok <==> SawFront(ss, acts, b, i) && (!acts[b].alloc || WasDenied(ss, acts, b, i))
    ensures ss[i].enq == ss[b].enq + (if ss[i].p.ok then [acts[b].v] else [])
    ensures var n, s, s' := |ss[b].m.blocks|, ss[b], ss[i];
      if s'.p.ok && SawFront(ss, acts, b, i) then
        && |s'.m.blocks| == n + 1
        && |s'.m.blocks[n].data| == s'.largest == if s.largest < s.maxBlock then 2 * s.largest else s.largest
      else |s'.m.blocks| == n
  {
    hide Init, Next, SawFront, WasDenied;
    EnqueueSoFar(ss, acts, b, i);
  }

  // ----- dequeue and peek

  /** The call of dequeue or peek that step b begins is not over at state i. */
  ghost predicate DequeueCall<T>(ss: seq<State<T>>, acts: seq<Action<T>>, b: nat, i: nat) {
    && |ss| == |acts| + 1 && b < i < |ss|
    && acts[b].BeginDequeue?
    && forall k :: b < k <= i ==> !ss[k].c.CIdle?
  }

  lemma DequeueStep<T>(s: State<T>, a: Action<T>, s': State<T>)
    requires Next(s, a, s') && !s.c.CIdle? && !s'.c.CIdle?
    ensures InPeek(s'.c) == InPeek(s.c)
    ensures s'.deq == s.deq || (s'.c.CDone? && !s.c.CDone?)
    ensures s'.c.CDone? ==>
      if s.c.CDone? then s'.c == s.c && s'.deq == s.deq
      else s'.deq == s.deq + if !InPeek(s'.c) && s'.c.res.Some? then [s'.c.res.value] else []
  {
    hide Contents, MemTyped, ProducerTyped, ConsumerTyped;
  }

  lemma {:induction false} DequeueSoFar<T>(ss: seq<State<T>>, acts: seq<Action<T>>, b: nat, i: nat)
    requires Run(ss, acts) && DequeueCall(ss, acts, b, i)
    ensures InPeek(ss[i].c) == acts[b].peeks
    ensures ss[i].deq == ss[b].deq
      + if !acts[b].peeks && ss[i].c.CDone? && ss[i].c.res.Some? then [ss[i].c.res.value] else []
  {
    hide Init, InPeek;
    assert Next(ss[b], acts[b], ss[b + 1]);
    if i == b + 1 {
      Begun(ss[b], acts[b], ss[i]);
    } else {
      hide Next;
      DequeueSoFar(ss, acts, b, i - 1);
      DequeueStep(ss[i - 1], acts[i - 1], ss[i]);
    }
  }

  lemma Begun<T>(s: State<T>, a: Action<T>, s': State<T>)
    requires Next(s, a, s') && a.BeginDequeue?
    ensures InPeek(s'.c) == a.peeks && s'.deq == s.deq && !s'.c.CDone?
  {
  }

  /** A dequeue removes what it returns and nothing else, and what it returns is the value enqueued
      after those removed before; a peek removes nothing. */
  lemma DequeueOutcome<T>(ss: seq<State<T>>, acts: seq<Action<T>>, b: nat, i: nat)
    requires Run(ss, acts) && DequeueCall(ss, acts, b, i) && ss[i].c.CDone?
    ensures ss[i].c.peeks == acts[b].peeks
    ensures ss[i].deq == ss[b].deq + if !acts[b].peeks && ss[i].c.res.Some? then [ss[i].c.res.value] else []
    ensures ss[i].c.res.Some? ==> |ss[b].deq| < |ss[i].enq| && ss[i].c.res.value == ss[i].enq[|ss[b].deq|]
  {
    hide Init, Next, Contents;
    DequeueSoFar(ss, acts, b, i);
    if acts[b].peeks && ss[i].c.res.Some? {
      PeekIsOldest(ss, acts, i);
    }
    Fifo(ss, acts, i);
  }
}
