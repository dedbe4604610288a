/**
 The capacity guarantee against a running consumer: in every interleaving a refused enqueue has seen
 the queue hold at least as many elements as it was built for.
 */
module SpscCapacity {
  import B = BitTricks
  import opened BlockRing
  import opened Options
  import opened RingCapacity
  import opened SpscQueue

  /** Every block takes at least w elements, also those still to be linked in or made, and there are
      enough of them for `size` elements even when the consumer's block takes none. */
  ghost predicate Wide<T>(s: State<T>, w: nat, size: nat) {
    && (forall b :: 0 <= b < |s.m.blocks| ==> w < |s.m.blocks[b].data|)
    && w < s.largest
    && size <= w * (if |s.m.ring| <= 1 then 1 else |s.m.ring| - 1)
  }

  /** What ReaderWriterQueue.InitialBlocks reserves is enough. */
  lemma BuiltWide<T>(s: State<T>, blockSize: nat, size: nat)
    requires Init(s) && s.largest == blockSize
    requires forall b :: 0 <= b < |s.m.blocks| ==> |s.m.blocks[b].data| == blockSize
    requires size <= (blockSize - 1) * (if |s.m.blocks| <= 1 then 1 else |s.m.blocks| - 1)
    ensures Wide(s, blockSize - 1, size)
  {
  }

  lemma WideServes<T>(s: State<T>, w: nat, size: nat)
    requires Wide(s, w, size) && MemTyped(s.m)
    ensures Serves(View(s.m), w, size)
  {
  }

  /** No block has become narrower, no new one is narrower than the largest, the ring no shorter. */
  ghost predicate Widens<T>(s: State<T>, s': State<T>) {
    && |s.m.blocks| <= |s'.m.blocks| && |s.m.ring| <= |s'.m.ring| && s.largest <= s'.largest
    && (forall b :: 0 <= b < |s.m.blocks| ==> |s'.m.blocks[b].data| == |s.m.blocks[b].data|)
    && (forall b :: |s.m.blocks| <= b < |s'.m.blocks| ==> s.largest <= |s'.m.blocks[b].data|)
  }

  lemma ProducerWidens<T>(s: State<T>, mem: Option<seq<T>>)
    requires MemTyped(s.m) && ProducerTyped(s.m, s.p) && !s.p.PIdle? && !s.p.PDone?
    requires mem.Some? ==> 2 <= |mem.value| == NewBlockSize(s.largest, s.maxBlock)
    ensures Widens(s, ProducerStep(s, mem))
  {
    hide Contents, View;
  }

  lemma ConsumerWidens<T>(s: State<T>)
    requires MemTyped(s.m) && ConsumerTyped(s.m, s.c) && !s.c.CIdle? && !s.c.CDone?
    ensures Widens(s, ConsumerStep(s))
  {
    hide Contents, View;
  }

  lemma StepWidens<T>(s: State<T>, a: Action<T>, s': State<T>)
    requires Next(s, a, s')
    ensures Widens(s, s')
  {
    hide MemTyped, ProducerTyped, ConsumerTyped, ProducerStep, ConsumerStep;
    match a
    case ProducerMove(mem) => ProducerWidens(s, mem);
    case ConsumerMove => ConsumerWidens(s);
    case _ =>
  }

  lemma NextWide<T>(s: State<T>, a: Action<T>, s': State<T>, w: nat, size: nat)
    requires Next(s, a, s') && Wide(s, w, size)
    ensures Wide(s', w, size)
  {
    hide Next;
    StepWidens(s, a, s');
    B.MulMono(if |s.m.ring| <= 1 then 1 else |s.m.ring| - 1, if |s'.m.ring| <= 1 then 1 else |s'.m.ring| - 1, w);
  }

  lemma {:induction false} RunWide<T>(ss: seq<State<T>>, acts: seq<Action<T>>, i: nat, w: nat, size: nat)
    requires Run(ss, acts) && i < |ss| && Wide(ss[0], w, size)
    ensures Wide(ss[i], w, size)
  {
    hide Wide, Next, Init;
    if i != 0 {
      RunWide(ss, acts, i - 1, w, size);
      NextWide(ss[i - 1], acts[i - 1], ss[i], w, size);
    }
  }

  lemma {:induction false} RingGrows<T>(ss: seq<State<T>>, acts: seq<Action<T>>, i: nat, j: nat)
    requires Run(ss, acts) && i <= j < |ss|
    ensures |ss[i].m.ring| <= |ss[j].m.ring|
    decreases j
  {
    hide Next, Init;
    if i < j {
      RingGrows(ss, acts, i, j - 1);
      StepWidens(ss[j - 1], acts[j - 1], ss[j]);
    }
  }

  /** The producer has found the next block to be the front block. */
  predicate Decided<T>(p: Producer<T>) {
    p.PAllocate? || (p.PDone? && !p.ok)
  }

  lemma DecidedCameFrom<T>(s: State<T>, a: Action<T>, s': State<T>)
    requires Next(s, a, s') && Decided(s'.p)
    ensures Decided(s.p) || (s.p.PLoadFrontBlock? && s.p.nx == s.m.frontBlock)
  {
    hide Contents, MemTyped;
  }

  /** The moment at which the producer decided. */
  lemma {:induction false} DecidedAt<T>(ss: seq<State<T>>, acts: seq<Action<T>>, i: nat) returns (j: nat)
    requires Run(ss, acts) && i < |ss| && Decided(ss[i].p)
    ensures j < i && ss[j].p.PLoadFrontBlock? && ss[j].p.nx == ss[j].m.frontBlock
    ensures forall k :: j < k <= i ==> Refusing(ss[k].p)
  {
    hide Next;
    if i == 0 {
      assert false;
    } else {
      DecidedCameFrom(ss[i - 1], acts[i - 1], ss[i]);
      if Decided(ss[i - 1].p) {
        j := DecidedAt(ss, acts, i - 1);
      } else {
        j := i - 1;
      }
    }
  }

  /** Where the next block is the front block, the tail block is the last of the ring. */
  lemma LastOfRing<T>(s: State<T>)
    requires Inv(s) && s.p.PLoadFrontBlock? && s.p.nx == s.m.frontBlock
    ensures s.m.t + 1 == |s.m.ring| && RingOk(View(s.m), s.m.t, false)
    ensures 0 < s.m.t ==> Full(View(s.m)[s.m.t])
  {
    hide Contents, ConsumerOk, RingOk, Full;
    assert s.m.ring[Inc(s.m.t, |s.m.ring|)] == s.m.ring[0];
  }

  lemma OneBlock<T>(m: Mem<T>, w: nat, size: nat)
    requires MemTyped(m) && |m.ring| <= 1 && Full(View(m)[m.t]) && Serves(View(m), w, size)
    ensures size <= |Contents(View(m), m.t)|
  {
    FullElems(View(m)[m.t]);
    ContentsLast(View(m), m.t);
  }

  /** A queue built for `size` elements refuses an enqueue, in any interleaving, only after holding at
      least that many at some moment j of the call. */
  lemma RefusedSawEnough<T>(ss: seq<State<T>>, acts: seq<Action<T>>, i: nat, w: nat, size: nat) returns (j: nat)
    requires Run(ss, acts) && i < |ss| && ss[i].p == PDone(false) && Wide(ss[0], w, size)
    ensures j < i && forall k :: j < k <= i ==> Refusing(ss[k].p)
    ensures MemTyped(ss[j].m) && size <= |Contents(View(ss[j].m), ss[j].m.t)|
  {
    hide Contents, Inv, Next, Init, MemTyped, RingOk, Full, Wide, Serves;
    j := DecidedAt(ss, acts, i);
    RunInv(ss, acts, j);
    InvTyped(ss[j]);
    LastOfRing(ss[j]);
    RunWide(ss, acts, j, w, size);
    WideServes(ss[j], w, size);
    if 0 < ss[j].m.t {
      RefusedIffNoSlot(View(ss[j].m), ss[j].m.t);
      RefusalMeansEnough(View(ss[j].m), ss[j].m.t, w, size);
    } else {
      var j0 := RefusedSawFull(ss, acts, j);
      RingGrows(ss, acts, j0, j);
      RunWide(ss, acts, j0, w, size);
      WideServes(ss[j0], w, size);
      OneBlock(ss[j0].m, w, size);
      j := j0;
    }
  }
}
