/**
 The lock-free queue as a step machine: one producer runs the enqueue operation and one
 consumer the dequeue and peek operations, one access to shared memory a step, in any
 interleaving (sequential consistency).

 Blocks have numbers; `next[b]` is the link out of block b.  `ring`, `t`, `enq` and `deq`
 are history variables: no guard and no register reads them.  `ring` lists the linked
 blocks from frontBlock on, `t` is the place of tailBlock in it, `enq` collects the values
 whose enqueue took effect and `deq` those whose dequeue took effect.
 */
module SpscQueue {
  import opened BlockRing
  import opened Options

  // ----- memory

  datatype Mem<T> = Mem(
    blocks: seq<Cells<T>>, next: seq<nat>, frontBlock: nat, tailBlock: nat,
    ring: seq<nat>, t: nat)

  ghost predicate Distinct(ring: seq<nat>) {
    forall i, j :: 0 <= i < j < |ring| ==> ring[i] != ring[j]
  }

  /** The links of the listed blocks lead around the list. */
  ghost predicate Circular(ring: seq<nat>, next: seq<nat>) {
    && (forall i :: 0 <= i < |ring| ==> ring[i] < |next|)
    && (forall i :: 0 <= i < |ring| ==> next[ring[i]] == ring[Inc(i, |ring|)])
  }

  ghost predicate Linked<T>(m: Mem<T>) {
    && |m.next| == |m.blocks|
    && (forall b :: 0 <= b < |m.blocks| ==> m.next[b] < |m.blocks|)
    && m.t < |m.ring|
    && Distinct(m.ring) && Circular(m.ring, m.next)
    && m.ring[0] == m.frontBlock
    && m.ring[m.t] == m.tailBlock
  }

  ghost function View<T>(m: Mem<T>): (cs: seq<Cells<T>>)
    requires forall i :: 0 <= i < |m.ring| ==> m.ring[i] < |m.blocks|
    ensures |cs| == |m.ring|
    ensures forall i :: 0 <= i < |cs| ==> cs[i] == m.blocks[m.ring[i]]
  {
    seq(|m.ring|, i requires 0 <= i < |m.ring| => m.blocks[m.ring[i]])
  }

  function SetBlock<T>(m: Mem<T>, b: nat, c: Cells<T>): Mem<T>
    requires b < |m.blocks|
  {
    m.(blocks := m.blocks[b := c])
  }

  function StoreTailBlock<T>(m: Mem<T>, b: nat): Mem<T> {
    m.(tailBlock := b, t := m.t + 1)
  }

  function StoreFrontBlock<T>(m: Mem<T>, b: nat): Mem<T>
    requires 0 < |m.ring|
  {
    m.(frontBlock := b, ring := m.ring[1..] + [m.ring[0]], t := if m.t == 0 then 0 else m.t - 1)
  }

  /** A new block, its link already copied from block `after`; not yet reachable. */
  function AddBlock<T>(m: Mem<T>, after: nat, c: Cells<T>): Mem<T>
    requires after < |m.next|
  {
    m.(blocks := m.blocks + [c], next := m.next + [m.next[after]])
  }

  function LinkAfterTail<T>(m: Mem<T>, after: nat, b: nat): Mem<T>
    requires after < |m.next| && m.t < |m.ring|
  {
    m.(next := m.next[after := b], ring := m.ring[..m.t + 1] + [b] + m.ring[m.t + 1..])
  }

  // ----- the two threads

  /** Where the producer is in `inner_enqueue`, with its registers: the value v, whether a
      block may be allocated, the tail block tb, its tail bt, the next tail nt. */
  datatype Producer<T> =
    | PIdle
    | PDone(ok: bool)
    | PLoadTailBlock(v: T, alloc: bool)
    | PLoadTail(v: T, alloc: bool, tb: nat)
    | PLoadFront(v: T, alloc: bool, tb: nat, bt: nat, nt: nat)
    | PWriteData(v: T, tb: nat, bt: nat, nt: nat)
    | PStoreTail(v: T, tb: nat, nt: nat)
    | PLoadNext(v: T, alloc: bool, tb: nat)
    | PLoadFrontBlock(v: T, alloc: bool, tb: nat, nx: nat)
    | PReloadNext(v: T, tb: nat)
    | PLoadNextFront(v: T, nb: nat)
    | PLoadNextTail(v: T, nb: nat, nf: nat)
    | PWriteNextData(v: T, nb: nat, nt: nat)
    | PStoreNextTail(v: T, nb: nat, nt: nat)
    | PAllocate(v: T, tb: nat)
    | PLinkNew(v: T, tb: nat, nb: nat)
    | PStoreTailBlock(v: T, nb: nat)

  /** Where the consumer is in `try_dequeue` (or in `peek`, when `peeks`).  `wasEmpty` is a
      history variable: whether the queue was empty at the load of the front block's tail. */
  datatype Consumer<T> =
    | CIdle
    | CDone(peeks: bool, res: Option<T>, wasEmpty: bool)
    | CLoadFrontBlock(peeks: bool)
    | CLoadFront(peeks: bool, fb: nat)
    | CLoadTail(peeks: bool, fb: nat, bf: nat)
    | CLoadTailBlock(peeks: bool, fb: nat, wasEmpty: bool)
    | CReloadFrontBlock(peeks: bool)
    | CReloadTail(peeks: bool, fb: nat)
    | CReloadFront(peeks: bool, fb: nat, bt: nat)
    | CReadData(peeks: bool, fb: nat, bf: nat)
    | CStoreFront(fb: nat, bf: nat, x: T)
    | CLoadNext(peeks: bool, fb: nat)
    | CLoadNextFront(peeks: bool, nb: nat)
    | CLoadNextTail(nb: nat, nf: nat)
    | CStoreFrontBlock(nb: nat, nf: nat)
    | CPeekNext(nb: nat, nf: nat)

  datatype State<T> = State(
    m: Mem<T>, largest: nat, maxBlock: nat, p: Producer<T>, c: Consumer<T>,
    enq: seq<T>, deq: seq<T>)

  // ----- registers in range (implied by the invariant, see InvTyped)

  ghost predicate MemTyped<T>(m: Mem<T>) {
    && |m.next| == |m.blocks|
    && (forall b :: 0 <= b < |m.blocks| ==> Wf(m.blocks[b]) && m.next[b] < |m.blocks|)
    && m.frontBlock < |m.blocks| && m.tailBlock < |m.blocks|
    && (forall i :: 0 <= i < |m.ring| ==> m.ring[i] < |m.blocks|)
    && m.t < |m.ring|
  }

  ghost predicate ProducerTyped<T>(m: Mem<T>, p: Producer<T>) {
    match p
    case PIdle => true
    case PDone(_) => true
    case PLoadTailBlock(_, _) => true
    case PLoadTail(_, _, tb) => tb < |m.blocks|
    case PLoadFront(_, _, tb, bt, nt) => tb < |m.blocks|
    case PWriteData(_, tb, bt, nt) => tb < |m.blocks| && bt < |m.blocks[tb].data|
    case PStoreTail(_, tb, nt) => tb < |m.blocks|
    case PLoadNext(_, _, tb) => tb < |m.blocks|
    case PLoadFrontBlock(_, _, tb, nx) => tb < |m.blocks|
    case PReloadNext(_, tb) => tb < |m.blocks|
    case PLoadNextFront(_, nb) => nb < |m.blocks|
    case PLoadNextTail(_, nb, nf) => nb < |m.blocks|
    case PWriteNextData(_, nb, nt) => nb < |m.blocks| && nt < |m.blocks[nb].data|
    case PStoreNextTail(_, nb, nt) => nb < |m.blocks| && nt < |m.blocks[nb].data|
    case PAllocate(_, tb) => tb < |m.blocks|
    case PLinkNew(_, tb, nb) => tb < |m.blocks|
    case PStoreTailBlock(_, nb) => true
  }

  ghost predicate ConsumerTyped<T>(m: Mem<T>, c: Consumer<T>) {
    match c
    case CIdle => true
    case CDone(_, _, _) => true
    case CLoadFrontBlock(_) => true
    case CLoadFront(_, fb) => fb < |m.blocks|
    case CLoadTail(_, fb, bf) => fb < |m.blocks|
    case CLoadTailBlock(_, fb, _) => true
    case CReloadFrontBlock(_) => true
    case CReloadTail(_, fb) => fb < |m.blocks|
    case CReloadFront(_, fb, bt) => fb < |m.blocks|
    case CReadData(_, fb, bf) => fb < |m.blocks| && bf < |m.blocks[fb].data|
    case CStoreFront(fb, bf, _) => fb < |m.blocks| && bf < |m.blocks[fb].data|
    case CLoadNext(_, fb) => fb < |m.blocks|
    case CLoadNextFront(_, nb) => nb < |m.blocks|
    case CLoadNextTail(nb, nf) => nb < |m.blocks|
    case CStoreFrontBlock(nb, nf) => true
    case CPeekNext(nb, nf) => nb < |m.blocks| && nf < |m.blocks[nb].data|
  }

  // ----- the steps of the producer that change memory

  function PutBlock<T>(s: State<T>, b: nat, c: Cells<T>, p: Producer<T>): State<T>
    requires b < |s.m.blocks|
  {
    s.(m := SetBlock(s.m, b, c), p := p)
  }

  ghost function AtLoadFront<T>(s: State<T>): State<T>
    requires s.p.PLoadFront? && s.p.tb < |s.m.blocks|
  {
    var c := s.m.blocks[s.p.tb];
    PutBlock(s, s.p.tb, c.(localFront := c.front),
             if s.p.nt != c.front then PWriteData(s.p.v, s.p.tb, s.p.bt, s.p.nt)
             else PLoadNext(s.p.v, s.p.alloc, s.p.tb))
  }

  ghost function AtWriteData<T>(s: State<T>): State<T>
    requires s.p.PWriteData? && s.p.tb < |s.m.blocks| && s.p.bt < |s.m.blocks[s.p.tb].data|
  {
    var c := s.m.blocks[s.p.tb];
    PutBlock(s, s.p.tb, c.(data := c.data[s.p.bt := s.p.v]), PStoreTail(s.p.v, s.p.tb, s.p.nt))
  }

  ghost function AtStoreTail<T>(s: State<T>): State<T>
    requires s.p.PStoreTail? && s.p.tb < |s.m.blocks|
  {
    PutBlock(s, s.p.tb, s.m.blocks[s.p.tb].(tail := s.p.nt), PDone(true)).(enq := s.enq + [s.p.v])
  }

  ghost function AtLoadNextFront<T>(s: State<T>): State<T>
    requires s.p.PLoadNextFront? && s.p.nb < |s.m.blocks|
  {
    var c := s.m.blocks[s.p.nb];
    PutBlock(s, s.p.nb, c.(localFront := c.front), PLoadNextTail(s.p.v, s.p.nb, c.front))
  }

  ghost function AtLoadNextTail<T>(s: State<T>): State<T>
    requires s.p.PLoadNextTail? && s.p.nb < |s.m.blocks|
  {
    var c := s.m.blocks[s.p.nb];
    PutBlock(s, s.p.nb, c.(localFront := s.p.nf), PWriteNextData(s.p.v, s.p.nb, c.tail))
  }

  ghost function AtWriteNextData<T>(s: State<T>): State<T>
    requires s.p.PWriteNextData? && s.p.nb < |s.m.blocks| && s.p.nt < |s.m.blocks[s.p.nb].data|
  {
    var c := s.m.blocks[s.p.nb];
    PutBlock(s, s.p.nb, c.(data := c.data[s.p.nt := s.p.v]), PStoreNextTail(s.p.v, s.p.nb, s.p.nt))
  }

  ghost function AtStoreNextTail<T>(s: State<T>): State<T>
    requires s.p.PStoreNextTail? && s.p.nb < |s.m.blocks| && s.p.nt < |s.m.blocks[s.p.nb].data|
  {
    var c := s.m.blocks[s.p.nb];
    PutBlock(s, s.p.nb, c.(tail := Inc(s.p.nt, |c.data|)), PStoreTailBlock(s.p.v, s.p.nb))
  }

  function NewBlockSize(largest: nat, maxBlock: nat): nat {
    if largest >= maxBlock then largest else largest * 2
  }

  /** `mem` is the memory the allocation returns, with arbitrary contents, or None when it
      fails.  The new block is filled and its link set before any other thread can see it. */
  ghost function AtAllocate<T>(s: State<T>, mem: Option<seq<T>>): State<T>
    requires s.p.PAllocate? && s.p.tb < |s.m.next|
    requires mem.Some? ==> 0 < |mem.value|
  {
    if mem.None? then
      s.(p := PDone(false))
    else
      s.(m := AddBlock(s.m, s.p.tb, Cells(mem.value[0 := s.p.v], 0, 1, 1, 0)),
         largest := NewBlockSize(s.largest, s.maxBlock),
         p := PLinkNew(s.p.v, s.p.tb, |s.m.blocks|))
  }

  ghost function AtLinkNew<T>(s: State<T>): State<T>
    requires s.p.PLinkNew? && s.p.tb < |s.m.next| && s.m.t < |s.m.ring|
  {
    s.(m := LinkAfterTail(s.m, s.p.tb, s.p.nb), p := PStoreTailBlock(s.p.v, s.p.nb))
  }

  ghost function AtStoreTailBlock<T>(s: State<T>): State<T>
    requires s.p.PStoreTailBlock?
  {
    s.(m := StoreTailBlock(s.m, s.p.nb), p := PDone(true), enq := s.enq + [s.p.v])
  }

  /** One step of the producer. */
  ghost function ProducerStep<T>(s: State<T>, mem: Option<seq<T>>): State<T>
    requires MemTyped(s.m) && ProducerTyped(s.m, s.p)
    requires !s.p.PIdle? && !s.p.PDone?
    requires mem.Some? ==> 0 < |mem.value|
  {
    var m := s.m;
    match s.p
    case PLoadTailBlock(v, alloc) =>
      s.(p := PLoadTail(v, alloc, m.tailBlock))
    case PLoadTail(v, alloc, tb) =>
      var bt := m.blocks[tb].tail;
      var nt := Inc(bt, |m.blocks[tb].data|);
      s.(p := if nt != m.blocks[tb].localFront then PWriteData(v, tb, bt, nt) else PLoadFront(v, alloc, tb, bt, nt))
    case PLoadFront(_, _, _, _, _) => AtLoadFront(s)
    case PWriteData(_, _, _, _) => AtWriteData(s)
    case PStoreTail(_, _, _) => AtStoreTail(s)
    case PLoadNext(v, alloc, tb) =>
      s.(p := PLoadFrontBlock(v, alloc, tb, m.next[tb]))
    case PLoadFrontBlock(v, alloc, tb, nx) =>
      s.(p := if nx != m.frontBlock then PReloadNext(v, tb)
              else if alloc then PAllocate(v, tb)
              else PDone(false))
    case PReloadNext(v, tb) =>
      s.(p := PLoadNextFront(v, m.next[tb]))
    case PLoadNextFront(_, _) => AtLoadNextFront(s)
    case PLoadNextTail(_, _, _) => AtLoadNextTail(s)
    case PWriteNextData(_, _, _) => AtWriteNextData(s)
    case PStoreNextTail(_, _, _) => AtStoreNextTail(s)
    case PAllocate(_, _) => AtAllocate(s, mem)
    case PLinkNew(_, _, _) => AtLinkNew(s)
    case PStoreTailBlock(_, _) => AtStoreTailBlock(s)
  }

  // ----- the steps of the consumer that change memory

  ghost function AtLoadTail<T>(s: State<T>): State<T>
    requires s.c.CLoadTail? && MemTyped(s.m) && s.c.fb < |s.m.blocks|
  {
    var b := s.m.blocks[s.c.fb];
    s.(m := SetBlock(s.m, s.c.fb, b.(localTail := b.tail)),
       c := if s.c.bf != b.tail then CReadData(s.c.peeks, s.c.fb, s.c.bf)
            else CLoadTailBlock(s.c.peeks, s.c.fb, Contents(View(s.m), s.m.t) == []))
  }

  ghost function AtReloadTail<T>(s: State<T>): State<T>
    requires s.c.CReloadTail? && s.c.fb < |s.m.blocks|
  {
    var b := s.m.blocks[s.c.fb];
    s.(m := SetBlock(s.m, s.c.fb, b.(localTail := b.tail)), c := CReloadFront(s.c.peeks, s.c.fb, b.tail))
  }

  ghost function AtStoreFront<T>(s: State<T>): State<T>
    requires s.c.CStoreFront? && s.c.fb < |s.m.blocks| && s.c.bf < |s.m.blocks[s.c.fb].data|
  {
    var b := s.m.blocks[s.c.fb];
    s.(m := SetBlock(s.m, s.c.fb, b.(front := Inc(s.c.bf, |b.data|))),
       c := CDone(false, Some(s.c.x), false), deq := s.deq + [s.c.x])
  }

  ghost function AtLoadNextsTail<T>(s: State<T>): State<T>
    requires s.c.CLoadNextTail? && s.c.nb < |s.m.blocks|
  {
    var b := s.m.blocks[s.c.nb];
    s.(m := SetBlock(s.m, s.c.nb, b.(localTail := b.tail)), c := CStoreFrontBlock(s.c.nb, s.c.nf))
  }

  ghost function AtStoreFrontBlock<T>(s: State<T>): State<T>
    requires s.c.CStoreFrontBlock? && 0 < |s.m.ring|
  {
    s.(m := StoreFrontBlock(s.m, s.c.nb), c := CReadData(false, s.c.nb, s.c.nf))
  }

  /** One step of the consumer. */
  ghost function ConsumerStep<T>(s: State<T>): State<T>
    requires MemTyped(s.m) && ConsumerTyped(s.m, s.c)
    requires !s.c.CIdle? && !s.c.CDone?
  {
    var m := s.m;
    match s.c
    case CLoadFrontBlock(k) =>
      s.(c := CLoadFront(k, m.frontBlock))
    case CLoadFront(k, fb) =>
      var bf := m.blocks[fb].front;
      s.(c := if bf != m.blocks[fb].localTail then CReadData(k, fb, bf) else CLoadTail(k, fb, bf))
    case CLoadTail(_, _, _) => AtLoadTail(s)
    case CLoadTailBlock(k, fb, e) =>
      s.(c := if fb != m.tailBlock then CReloadFrontBlock(k) else CDone(k, None, e))
    case CReloadFrontBlock(k) =>
      s.(c := CReloadTail(k, m.frontBlock))
    case CReloadTail(_, _) => AtReloadTail(s)
    case CReloadFront(k, fb, bt) =>
      var bf := m.blocks[fb].front;
      s.(c := if bf != bt then CReadData(k, fb, bf) else CLoadNext(k, fb))
    case CReadData(k, fb, bf) =>
      var x := m.blocks[fb].data[bf];
      s.(c := if k then CDone(true, Some(x), false) else CStoreFront(fb, bf, x))
    case CStoreFront(_, _, _) => AtStoreFront(s)
    case CLoadNext(k, fb) =>
      s.(c := CLoadNextFront(k, m.next[fb]))
    case CLoadNextFront(k, nb) =>
      var nf := m.blocks[nb].front;
      s.(c := if k then CPeekNext(nb, nf) else CLoadNextTail(nb, nf))
    case CLoadNextTail(_, _) => AtLoadNextsTail(s)
    case CStoreFrontBlock(_, _) => AtStoreFrontBlock(s)
    case CPeekNext(nb, nf) =>
      s.(c := CDone(true, Some(m.blocks[nb].data[nf]), false))
  }

  // ----- the assertions in the source

  /** The producer only reuses empty blocks. */
  ghost predicate ProducerAssert<T>(s: State<T>)
    requires MemTyped(s.m) && ProducerTyped(s.m, s.p)
  {
    s.p.PLoadNextTail? ==> s.p.nf == s.m.blocks[s.p.nb].tail
  }

  /** The consumer only moves on to filled blocks. */
  ghost predicate ConsumerAssert<T>(s: State<T>)
    requires MemTyped(s.m) && ConsumerTyped(s.m, s.c)
  {
    && (s.c.CLoadNextTail? ==> s.c.nf != s.m.blocks[s.c.nb].tail)
    && (s.c.CPeekNext? ==> s.c.nf != s.m.blocks[s.c.nb].tail)
  }

  // ----- the invariant

  ghost predicate Pending<T>(p: Producer<T>) {
    p.PStoreTailBlock?
  }

  ghost predicate LeavesFull<T>(cs: seq<Cells<T>>, t: nat)
    requires t < |cs| && Wf(cs[t])
  {
    0 < t ==> Full(cs[t])
  }

  ghost predicate ProducerOk<T>(m: Mem<T>, p: Producer<T>)
    requires Linked(m) && RingOk(View(m), m.t, Pending(p))
  {
    var cs, t := View(m), m.t;
    match p
    case PIdle => true
    case PDone(_) => true
    case PLoadTailBlock(_, _) => true
    case PLoadTail(_, _, tb) => tb == m.tailBlock
    case PLoadFront(_, _, tb, bt, nt) => tb == m.tailBlock && bt == cs[t].tail && nt == Inc(bt, |cs[t].data|)
    case PWriteData(_, tb, bt, nt) =>
      tb == m.tailBlock && bt == cs[t].tail && nt == Inc(bt, |cs[t].data|) && nt != cs[t].localFront
    case PStoreTail(v, tb, nt) =>
      tb == m.tailBlock && nt == Inc(cs[t].tail, |cs[t].data|) && nt != cs[t].localFront && cs[t].data[cs[t].tail] == v
    case PLoadNext(_, _, tb) => tb == m.tailBlock && LeavesFull(cs, t)
    case PLoadFrontBlock(_, _, tb, nx) => tb == m.tailBlock && LeavesFull(cs, t) && nx == m.next[tb]
    case PReloadNext(_, tb) => tb == m.tailBlock && LeavesFull(cs, t) && t + 1 < |cs|
    case PLoadNextFront(_, nb) => LeavesFull(cs, t) && t + 1 < |cs| && nb == m.ring[t + 1]
    case PLoadNextTail(_, nb, nf) =>
      LeavesFull(cs, t) && t + 1 < |cs| && nb == m.ring[t + 1] && nf == cs[t + 1].front
    case PWriteNextData(_, nb, nt) =>
      && LeavesFull(cs, t) && t + 1 < |cs| && nb == m.ring[t + 1]
      && nt == cs[t + 1].tail && cs[t + 1].localFront == cs[t + 1].front
    case PStoreNextTail(v, nb, nt) =>
      && LeavesFull(cs, t) && t + 1 < |cs| && nb == m.ring[t + 1]
      && nt == cs[t + 1].tail && cs[t + 1].localFront == cs[t + 1].front && cs[t + 1].data[nt] == v
    case PAllocate(_, tb) => tb == m.tailBlock && LeavesFull(cs, t)
    case PLinkNew(v, tb, nb) =>
      && tb == m.tailBlock && LeavesFull(cs, t)
      && nb !in m.ring && nb < |m.blocks| && m.next[nb] == m.next[tb]
      && Wf(m.blocks[nb]) && m.blocks[nb].front == m.blocks[nb].localFront == 0
      && m.blocks[nb].tail == 1 && m.blocks[nb].data[0] == v
    case PStoreTailBlock(v, nb) =>
      && LeavesFull(cs, t) && nb == m.ring[t + 1]
      && Elems(cs[t + 1]) == [v] && FrontBound(cs[t + 1])
  }

  ghost predicate ConsumerOk<T>(m: Mem<T>, c: Consumer<T>)
    requires Linked(m) && m.t < |m.ring| && forall i :: 0 <= i < |m.ring| ==> Wf(View(m)[i])
  {
    var cs, t := View(m), m.t;
    match c
    case CIdle => true
    case CDone(k, res, e) =>
      (res.None? ==> e) && (k && res.Some? ==> Contents(cs, t) != [] && Contents(cs, t)[0] == res.value)
    case CLoadFrontBlock(_) => true
    case CLoadFront(_, fb) => fb == m.frontBlock
    case CLoadTail(_, fb, bf) => fb == m.frontBlock && bf == cs[0].front
    case CLoadTailBlock(_, fb, e) => fb == m.frontBlock && (!e ==> 0 < t)
    case CReloadFrontBlock(_) => 0 < t
    case CReloadTail(_, fb) => 0 < t && fb == m.frontBlock
    case CReloadFront(_, fb, bt) => 0 < t && fb == m.frontBlock && bt == cs[0].tail && bt == cs[0].localTail
    case CReadData(_, fb, bf) => fb == m.frontBlock && bf == cs[0].front && cs[0].front != cs[0].localTail
    case CStoreFront(fb, bf, x) =>
      fb == m.frontBlock && bf == cs[0].front && cs[0].front != cs[0].localTail && Wf(cs[0]) && x == cs[0].data[bf]
    case CLoadNext(_, fb) => 0 < t && fb == m.frontBlock && Empty(cs[0])
    case CLoadNextFront(_, nb) => 0 < t && Empty(cs[0]) && nb == m.ring[1]
    case CLoadNextTail(nb, nf) => 0 < t && Empty(cs[0]) && nb == m.ring[1] && nf == cs[1].front
    case CStoreFrontBlock(nb, nf) =>
      && 0 < t && Empty(cs[0]) && nb == m.ring[1]
      && nf == cs[1].front && TailBound(cs[1]) && cs[1].localTail != cs[1].front
    case CPeekNext(nb, nf) => 0 < t && Empty(cs[0]) && nb == m.ring[1] && nf == cs[1].front
  }

  ghost predicate Inv<T>(s: State<T>) {
    && Linked(s.m)
    && (forall b :: 0 <= b < |s.m.blocks| ==> Wf(s.m.blocks[b]))
    && RingOk(View(s.m), s.m.t, Pending(s.p))
    && ProducerOk(s.m, s.p)
    && ConsumerOk(s.m, s.c)
    && s.enq == s.deq + Contents(View(s.m), s.m.t)
    && 2 <= s.largest
  }

  // ----- how memory changes act on the ring view

  lemma ViewSet<T>(m: Mem<T>, j: nat, c: Cells<T>)
    requires Linked(m) && j < |m.ring|
    ensures Linked(SetBlock(m, m.ring[j], c))
    ensures View(SetBlock(m, m.ring[j], c)) == View(m)[j := c]
  {
  }

  lemma RotateRing(ring: seq<nat>, next: seq<nat>)
    requires ring != [] && Distinct(ring) && Circular(ring, next)
    ensures Distinct(ring[1..] + [ring[0]]) && Circular(ring[1..] + [ring[0]], next)
  {
    var r := ring[1..] + [ring[0]];
    assert forall i :: 0 <= i < |ring| ==> r[i] == ring[Inc(i, |ring|)];
  }

  lemma ViewAdvanceFront<T>(m: Mem<T>)
    requires Linked(m) && 0 < m.t
    ensures Linked(StoreFrontBlock(m, m.ring[1]))
    ensures View(StoreFrontBlock(m, m.ring[1])) == View(m)[1..] + [View(m)[0]]
  {
    RotateRing(m.ring, m.next);
  }

  lemma ViewAdd<T>(m: Mem<T>, after: nat, c: Cells<T>)
    requires Linked(m) && after < |m.blocks|
    ensures Linked(AddBlock(m, after, c)) && View(AddBlock(m, after, c)) == View(m)
    ensures |m.blocks| !in m.ring
  {
  }

  lemma InsertDistinct(ring: seq<nat>, t: nat, b: nat)
    requires Distinct(ring) && t < |ring| && b !in ring
    ensures Distinct(ring[..t + 1] + [b] + ring[t + 1..])
  {
    var r := ring[..t + 1] + [b] + ring[t + 1..];
    forall i, j | 0 <= i < j < |r|
      ensures r[i] != r[j]
    {
      assert i == t + 1 || r[i] == ring[if i <= t then i else i - 1];
      assert j == t + 1 || r[j] == ring[if j <= t then j else j - 1];
    }
  }

  lemma InsertRingAt(ring: seq<nat>, next: seq<nat>, t: nat, b: nat, i: nat)
    requires Circular(ring, next) && t < |ring| && i <= |ring|
    requires b < |next| && next[b] == next[ring[t]]
    requires forall k :: 0 <= k < |ring| ==> ring[k] != b && (k != t ==> ring[k] != ring[t])
    ensures var r := ring[..t + 1] + [b] + ring[t + 1..];
      r[i] < |next| && next[ring[t] := b][r[i]] == r[Inc(i, |ring| + 1)]
  {
    var r, n := ring[..t + 1] + [b] + ring[t + 1..], |ring|;
    assert i <= t ==> r[i] == ring[i];
    assert t + 1 < i ==> r[i] == ring[i - 1];
    if i < t {
      assert next[ring[i]] == ring[i + 1] == r[i + 1];
    } else if i == t + 1 {
      assert next[ring[t]] == ring[Inc(t, n)] == r[Inc(i, n + 1)];
    } else if t + 1 < i {
      assert next[ring[i - 1]] == ring[Inc(i - 1, n)] == r[Inc(i, n + 1)];
    }
  }

  lemma InsertRing(ring: seq<nat>, next: seq<nat>, t: nat, b: nat)
    requires Distinct(ring) && Circular(ring, next) && t < |ring|
    requires b !in ring && b < |next| && next[b] == next[ring[t]]
    ensures Circular(ring[..t + 1] + [b] + ring[t + 1..], next[ring[t] := b])
  {
    var r := ring[..t + 1] + [b] + ring[t + 1..];
    forall k | 0 <= k < |ring|
      ensures ring[k] != b && (k != t ==> ring[k] != ring[t])
    {
      assert ring[k] in ring;
    }
    hide Distinct, Inc;
    forall i | 0 <= i < |r|
      ensures r[i] < |next| && next[ring[t] := b][r[i]] == r[Inc(i, |r|)]
    {
      InsertRingAt(ring, next, t, b, i);
    }
  }

  lemma ViewLinked<T>(m: Mem<T>, b: nat)
    requires Linked(m) && b !in m.ring && b < |m.blocks| && m.next[b] == m.next[m.tailBlock]
    ensures Linked(LinkAfterTail(m, m.tailBlock, b))
  {
    InsertDistinct(m.ring, m.t, b);
    InsertRing(m.ring, m.next, m.t, b);
    hide Distinct, Circular;
  }

  lemma ViewLink<T>(m: Mem<T>, b: nat)
    requires Linked(m) && b !in m.ring && b < |m.blocks| && m.next[b] == m.next[m.tailBlock]
    ensures var m' := LinkAfterTail(m, m.tailBlock, b);
      && Linked(m')
      && View(m') == View(m)[..m.t + 1] + [m.blocks[b]] + View(m)[m.t + 1..]
  {
    ViewLinked(m, b);
    hide Distinct;
  }

  // ----- what each thread may rely on of the other

  /** The producer only appends to a block and keeps its oldest element. */
  ghost predicate Grew<T>(c: Cells<T>, c': Cells<T>)
    requires Wf(c) && Wf(c')
  {
    && c'.front == c.front && c'.localTail == c.localTail && |c'.data| == |c.data|
    && Dist(c.front, c.tail, |c.data|) <= Dist(c'.front, c'.tail, |c.data|)
    && (!Empty(c) ==> c'.data[c.front] == c.data[c.front])
  }

  ghost predicate ProducerMoves<T>(m: Mem<T>, m': Mem<T>) {
    && Linked(m) && Linked(m')
    && (forall i :: 0 <= i < |m.ring| ==> Wf(View(m)[i]))
    && (forall i :: 0 <= i < |m'.ring| ==> Wf(View(m')[i]))
    && m'.frontBlock == m.frontBlock
    && m.t <= m'.t
    && Grew(View(m)[0], View(m')[0])
    && (0 < m.t ==>
          && View(m')[0].tail == View(m)[0].tail
          && m'.ring[1] == m.ring[1]
          && Grew(View(m)[1], View(m')[1]))
    && Contents(View(m), m.t) <= Contents(View(m'), m'.t)
  }

  lemma ConsumerStable<T>(m: Mem<T>, m': Mem<T>, c: Consumer<T>)
    requires ProducerMoves(m, m') && ConsumerOk(m, c)
    requires TailBound(View(m)[0]) && (0 < m.t ==> !Empty(View(m)[1]))
    ensures ConsumerOk(m', c)
  {
  }

  /** The consumer only takes from a block. */
  ghost predicate Shrank<T>(c: Cells<T>, c': Cells<T>)
    requires Wf(c) && Wf(c')
  {
    && c'.tail == c.tail && c'.localFront == c.localFront && c'.data == c.data
    && Dist(c'.front, c.tail, |c.data|) <= Dist(c.front, c.tail, |c.data|)
  }

  ghost predicate ConsumerMoves<T>(m: Mem<T>, m': Mem<T>) {
    && Linked(m) && Linked(m')
    && (forall i :: 0 <= i < |m.ring| ==> Wf(View(m)[i]))
    && (forall i :: 0 <= i < |m'.ring| ==> Wf(View(m')[i]))
    && m'.tailBlock == m.tailBlock
    && m'.next == m.next
    && |m'.blocks| == |m.blocks|
    && m'.t <= m.t && |m'.ring| - m'.t >= |m.ring| - m.t
    && Shrank(View(m)[m.t], View(m')[m'.t])
    && (0 < m'.t ==> View(m')[m'.t].front == View(m)[m.t].front)
    && (m.t + 1 < |m.ring| ==>
          && m'.ring[m'.t + 1] == m.ring[m.t + 1]
          && View(m')[m'.t + 1] == View(m)[m.t + 1])
    && (forall b :: 0 <= b < |m.blocks| && b !in m.ring ==> b !in m'.ring && m'.blocks[b] == m.blocks[b])
  }

  lemma ProducerStable<T>(m: Mem<T>, m': Mem<T>, p: Producer<T>)
    requires ConsumerMoves(m, m')
    requires RingOk(View(m), m.t, Pending(p)) && RingOk(View(m'), m'.t, Pending(p))
    requires ProducerOk(m, p)
    ensures ProducerOk(m', p)
  {
  }

  lemma InvTyped<T>(s: State<T>)
    requires Inv(s)
    ensures MemTyped(s.m) && ProducerTyped(s.m, s.p) && ConsumerTyped(s.m, s.c)
  {
  }

  // ----- the producer's steps keep the invariant

  /** A change the producer makes to block j of the ring, seen from the ring. */
  ghost predicate ProducerSets<T>(cs: seq<Cells<T>>, t: nat, j: nat, c: Cells<T>)
    requires RingOk(cs, t, false)
  {
    && (j == t || j == t + 1 < |cs|)
    && Wf(c) && Grew(cs[j], c)
    && (t == 0 || j == t + 1 || !Empty(c))
    && Contents(cs, t) <= Contents(cs[j := c], t)
  }

  lemma ProducerSetsBlock<T>(s: State<T>, j: nat, c: Cells<T>, p: Producer<T>, enq: seq<T>)
    requires Inv(s) && !Pending(s.p) && ProducerSets(View(s.m), s.m.t, j, c)
    requires RingOk(View(s.m)[j := c], s.m.t, Pending(p))
    requires enq == s.deq + Contents(View(s.m)[j := c], s.m.t)
    requires var m' := SetBlock(s.m, s.m.ring[j], c);
      Linked(m') && View(m') == View(s.m)[j := c] ==> ProducerOk(m', p)
    ensures Inv(s.(m := SetBlock(s.m, s.m.ring[j], c), p := p, enq := enq))
  {
    ViewSet(s.m, j, c);
    ConsumerStable(s.m, SetBlock(s.m, s.m.ring[j], c), s.c);
  }

  lemma RingLoadFront<T>(cs: seq<Cells<T>>, t: nat, j: nat)
    requires RingOk(cs, t, false) && (j == t || j == t + 1 < |cs|)
    ensures var c := cs[j].(localFront := cs[j].front);
      RingOk(cs[j := c], t, false) && ProducerSets(cs, t, j, c) && Contents(cs[j := c], t) == Contents(cs, t)
  {
    ContentsKeep(cs, t, j, cs[j].(localFront := cs[j].front));
  }

  lemma RingWrite<T>(cs: seq<Cells<T>>, t: nat, j: nat, v: T)
    requires RingOk(cs, t, false) && (j == t || j == t + 1 < |cs|) && (j == t ==> !Full(cs[j]))
    ensures var c := Written(cs[j], v);
      RingOk(cs[j := c], t, false) && ProducerSets(cs, t, j, c) && Contents(cs[j := c], t) == Contents(cs, t)
  {
    hide Contents, Elems;
    WrittenElems(cs[j], v);
    ContentsKeep(cs, t, j, Written(cs[j], v));
  }

  lemma RingStoreTail<T>(cs: seq<Cells<T>>, t: nat)
    requires RingOk(cs, t, false) && Inc(cs[t].tail, |cs[t].data|) != cs[t].localFront
    ensures var c := Pushed(cs[t]);
      && RingOk(cs[t := c], t, false) && ProducerSets(cs, t, t, c)
      && Contents(cs[t := c], t) == Contents(cs, t) + [cs[t].data[cs[t].tail]]
  {
    hide Contents, Elems;
    ContentsPush(cs, t);
  }

  lemma RingFillNext<T>(cs: seq<Cells<T>>, t: nat)
    requires RingOk(cs, t, false) && t + 1 < |cs| && cs[t + 1].localFront == cs[t + 1].front
    ensures var c := Pushed(cs[t + 1]);
      && RingOk(cs[t + 1 := c], t, true) && ProducerSets(cs, t, t + 1, c)
      && Contents(cs[t + 1 := c], t) == Contents(cs, t)
      && Elems(c) == [cs[t + 1].data[cs[t + 1].tail]] && FrontBound(c)
  {
    hide Contents, Elems;
    PushedElems(cs[t + 1]);
    assert |Elems(cs[t + 1])| == 0;
    ContentsKeep(cs, t, t + 1, Pushed(cs[t + 1]));
  }

  /** What the producer knows when it has seen no room in the tail block. */
  lemma AtFullTail<T>(s: State<T>)
    requires Inv(s) && s.p.PLoadFront?
    ensures Linked(s.m) && MemTyped(s.m) && s.p.tb == s.m.tailBlock == s.m.ring[s.m.t]
    ensures var c := View(s.m)[s.m.t];
      c == s.m.blocks[s.p.tb] && s.p.bt == c.tail && s.p.nt == Inc(c.tail, |c.data|)
    ensures RingOk(View(s.m), s.m.t, false) && s.enq == s.deq + Contents(View(s.m), s.m.t)
  {
    InvTyped(s);
    hide Contents, ConsumerOk, Elems, Distinct, RingOk;
  }

  lemma LoadedFront<T>(m: Mem<T>, m': Mem<T>, p: Producer<T>)
    requires Linked(m) && MemTyped(m) && Linked(m') && m'.ring == m.ring && m'.t == m.t && m'.tailBlock == m.tailBlock
    requires RingOk(View(m'), m.t, false)
    requires var c := View(m)[m.t]; var nt := Inc(c.tail, |c.data|);
      && View(m') == View(m)[m.t := c.(localFront := c.front)]
      && ((p.PWriteData? && p.tb == m.tailBlock && p.bt == c.tail && p.nt == nt && nt != c.front)
          || (p.PLoadNext? && p.tb == m.tailBlock && nt == c.front))
    ensures ProducerOk(m', p)
  {
    hide RingOk, Distinct, Circular;
  }

  lemma PLoadFrontKeeps<T>(s: State<T>)
    requires Inv(s) && s.p.PLoadFront?
    ensures Inv(AtLoadFront(s))
  {
    hide Inv, ProducerOk, RingOk, Contents, Elems, ProducerSets, Full, TailBound, FrontBound, Dist, Linked;
    AtFullTail(s);
    var t := s.m.t;
    var c := View(s.m)[t].(localFront := View(s.m)[t].front);
    var m', p' := SetBlock(s.m, s.p.tb, c), AtLoadFront(s).p;
    RingLoadFront(View(s.m), t, t);
    if Linked(m') && View(m') == View(s.m)[t := c] {
      LoadedFront(s.m, m', p');
    }
    ProducerSetsBlock(s, t, c, p', s.enq);
    assert AtLoadFront(s) == s.(m := m', p := p', enq := s.enq);
  }

  lemma PWriteDataKeeps<T>(s: State<T>)
    requires Inv(s) && s.p.PWriteData?
    ensures s.p.bt < |s.m.blocks[s.p.tb].data| && Inv(AtWriteData(s))
  {
    hide Contents, ConsumerOk, Elems, ProducerSets, Distinct;
    var cs, t := View(s.m), s.m.t;
    RingWrite(cs, t, t, s.p.v);
    ProducerSetsBlock(s, t, Written(cs[t], s.p.v), AtWriteData(s).p, s.enq);
  }

  lemma PStoreTailKeeps<T>(s: State<T>)
    requires Inv(s) && s.p.PStoreTail?
    ensures Inv(AtStoreTail(s))
  {
    hide Contents, ConsumerOk, Elems, ProducerSets, Distinct;
    var cs, t := View(s.m), s.m.t;
    RingStoreTail(cs, t);
    ProducerSetsBlock(s, t, Pushed(cs[t]), PDone(true), s.enq + [s.p.v]);
  }

  lemma NextBlockKnown<T>(m: Mem<T>, p: Producer<T>)
    requires Linked(m) && RingOk(View(m), m.t, Pending(p)) && ProducerOk(m, p)
    requires p.PLoadNextFront? || p.PLoadNextTail? || p.PWriteNextData?
    ensures !Pending(p) && LeavesFull(View(m), m.t) && m.t + 1 < |m.ring| && p.nb == m.ring[m.t + 1]
    ensures p.PLoadNextTail? ==> p.nf == View(m)[m.t + 1].front
    ensures p.PWriteNextData? ==> p.nt == View(m)[m.t + 1].tail && View(m)[m.t + 1].localFront == View(m)[m.t + 1].front
  {
    hide RingOk, Distinct, Circular, LeavesFull;
  }

  /** What the producer knows while it prepares the next block. */
  lemma AtEmptyNext<T>(s: State<T>)
    requires Inv(s) && (s.p.PLoadNextFront? || s.p.PLoadNextTail? || s.p.PWriteNextData?)
    ensures Linked(s.m) && MemTyped(s.m) && s.m.t + 1 < |s.m.ring| && s.p.nb == s.m.ring[s.m.t + 1] < |s.m.blocks|
    ensures var c := View(s.m)[s.m.t + 1];
      && c == s.m.blocks[s.p.nb]
      && (s.p.PLoadNextTail? ==> s.p.nf == c.front)
      && (s.p.PWriteNextData? ==> s.p.nt == c.tail < |c.data| && c.localFront == c.front)
    ensures RingOk(View(s.m), s.m.t, false) && LeavesFull(View(s.m), s.m.t)
    ensures s.enq == s.deq + Contents(View(s.m), s.m.t)
  {
    hide Contents, ConsumerOk, RingOk, LeavesFull, ProducerOk, ProducerTyped, ConsumerTyped, Linked;
    InvTyped(s);
    NextBlockKnown(s.m, s.p);
  }

  lemma NextBlockOk<T>(m: Mem<T>, m': Mem<T>, c: Cells<T>, p: Producer<T>)
    requires Linked(m) && MemTyped(m) && Linked(m') && m'.ring == m.ring && m'.t == m.t && m.t + 1 < |m.ring|
    requires View(m') == View(m)[m.t + 1 := c] && RingOk(View(m'), m.t, false) && LeavesFull(View(m), m.t)
    requires p.PLoadNextTail? || p.PWriteNextData? || p.PStoreNextTail?
    requires p.nb == m.ring[m.t + 1] && Wf(c)
    requires if p.PLoadNextTail? then p.nf == c.front else p.nt == c.tail && c.localFront == c.front
    requires p.PStoreNextTail? ==> c.data[c.tail] == p.v
    ensures ProducerOk(m', p)
  {
    hide RingOk, Distinct, Circular;
  }

  /** A change of the next block that only the producer sees. */
  lemma PreparesNext<T>(s: State<T>, c: Cells<T>, p: Producer<T>)
    requires Inv(s) && (s.p.PLoadNextFront? || s.p.PLoadNextTail? || s.p.PWriteNextData?)
    requires p.PLoadNextTail? || p.PWriteNextData? || p.PStoreNextTail?
    requires s.m.t + 1 < |s.m.ring| && p.nb == s.p.nb < |s.m.blocks| && Wf(c)
    requires RingOk(View(s.m), s.m.t, false) && ProducerSets(View(s.m), s.m.t, s.m.t + 1, c)
    requires RingOk(View(s.m)[s.m.t + 1 := c], s.m.t, false)
    requires Contents(View(s.m)[s.m.t + 1 := c], s.m.t) == Contents(View(s.m), s.m.t)
    requires if p.PLoadNextTail? then p.nf == c.front else p.nt == c.tail && c.localFront == c.front
    requires p.PStoreNextTail? ==> c.data[c.tail] == p.v
    ensures Inv(s.(m := SetBlock(s.m, s.p.nb, c), p := p))
  {
    hide Inv, ProducerOk, RingOk, Contents, Elems, ProducerSets, Full, TailBound, FrontBound, Dist, Linked, LeavesFull;
    AtEmptyNext(s);
    var m' := SetBlock(s.m, s.p.nb, c);
    if Linked(m') && View(m') == View(s.m)[s.m.t + 1 := c] {
      NextBlockOk(s.m, m', c, p);
    }
    ProducerSetsBlock(s, s.m.t + 1, c, p, s.enq);
    assert s.(m := m', p := p) == s.(m := m', p := p, enq := s.enq);
  }

  lemma PLoadNextFrontKeeps<T>(s: State<T>)
    requires Inv(s) && s.p.PLoadNextFront?
    ensures Inv(AtLoadNextFront(s))
  {
    hide Inv, RingOk, Contents, Elems, ProducerSets, Linked;
    AtEmptyNext(s);
    var c := View(s.m)[s.m.t + 1];
    RingLoadFront(View(s.m), s.m.t, s.m.t + 1);
    PreparesNext(s, c.(localFront := c.front), AtLoadNextFront(s).p);
  }

  lemma PLoadNextTailKeeps<T>(s: State<T>)
    requires Inv(s) && s.p.PLoadNextTail?
    ensures Inv(AtLoadNextTail(s))
  {
    hide Inv, RingOk, Contents, Elems, ProducerSets, Linked;
    AtEmptyNext(s);
    var c := View(s.m)[s.m.t + 1];
    RingLoadFront(View(s.m), s.m.t, s.m.t + 1);
    PreparesNext(s, c.(localFront := c.front), AtLoadNextTail(s).p);
  }

  lemma PWriteNextDataKeeps<T>(s: State<T>)
    requires Inv(s) && s.p.PWriteNextData?
    ensures s.p.nt < |s.m.blocks[s.p.nb].data| && Inv(AtWriteNextData(s))
  {
    hide Inv, RingOk, Contents, Elems, ProducerSets, Linked, Full;
    AtEmptyNext(s);
    var c := View(s.m)[s.m.t + 1];
    RingWrite(View(s.m), s.m.t, s.m.t + 1, s.p.v);
    PreparesNext(s, Written(c, s.p.v), AtWriteNextData(s).p);
  }

  /** What the producer knows just before it publishes the slot of the next block. */
  lemma AtNextSlot<T>(s: State<T>)
    requires Inv(s) && s.p.PStoreNextTail?
    ensures Linked(s.m) && MemTyped(s.m) && s.m.t + 1 < |s.m.ring| && s.p.nb == s.m.ring[s.m.t + 1] < |s.m.blocks|
    ensures var c := s.m.blocks[s.p.nb];
      c == View(s.m)[s.m.t + 1] && s.p.nt == c.tail < |c.data| && c.localFront == c.front && c.data[c.tail] == s.p.v
    ensures RingOk(View(s.m), s.m.t, false) && LeavesFull(View(s.m), s.m.t)
    ensures s.enq == s.deq + Contents(View(s.m), s.m.t)
  {
    InvTyped(s);
    hide Contents, ConsumerOk, Elems, Distinct, RingOk, LeavesFull;
  }

  lemma FilledNext<T>(m: Mem<T>, m': Mem<T>, v: T, nb: nat)
    requires Linked(m) && Linked(m') && m'.ring == m.ring && m'.t == m.t && m.t + 1 < |m.ring| && nb == m.ring[m.t + 1]
    requires RingOk(View(m), m.t, false) && LeavesFull(View(m), m.t) && Wf(View(m)[m.t + 1])
    requires View(m') == View(m)[m.t + 1 := Pushed(View(m)[m.t + 1])] && RingOk(View(m'), m.t, true)
    requires Elems(View(m')[m.t + 1]) == [v] && FrontBound(View(m')[m.t + 1])
    ensures ProducerOk(m', PStoreTailBlock(v, nb))
  {
    hide Elems, RingOk, Distinct, Circular, FrontBound, Full;
  }

  lemma PStoreNextTailKeeps<T>(s: State<T>)
    requires Inv(s) && s.p.PStoreNextTail?
    ensures s.p.nt < |s.m.blocks[s.p.nb].data| && Inv(AtStoreNextTail(s))
  {
    hide Inv, ProducerOk, RingOk, Contents, Elems, ProducerSets, Full, TailBound, FrontBound, Dist, Linked, LeavesFull;
    AtNextSlot(s);
    var t := s.m.t;
    var c := Pushed(View(s.m)[t + 1]);
    var m' := SetBlock(s.m, s.p.nb, c);
    RingFillNext(View(s.m), t);
    if Linked(m') && View(m') == View(s.m)[t + 1 := c] {
      FilledNext(s.m, m', s.p.v, s.p.nb);
    }
    ProducerSetsBlock(s, t + 1, c, PStoreTailBlock(s.p.v, s.p.nb), s.enq);
    assert AtStoreNextTail(s) == s.(m := m', p := PStoreTailBlock(s.p.v, s.p.nb), enq := s.enq);
  }

  /** What is left to show when a producer step does more than set one block. */
  lemma ProducerMovesOn<T>(s: State<T>, s': State<T>)
    requires Inv(s) && s'.c == s.c && s'.deq == s.deq && 2 <= s'.largest
    requires ProducerMoves(s.m, s'.m)
    requires forall b :: 0 <= b < |s'.m.blocks| ==> Wf(s'.m.blocks[b])
    requires RingOk(View(s'.m), s'.m.t, Pending(s'.p)) && ProducerOk(s'.m, s'.p)
    requires s'.enq == s'.deq + Contents(View(s'.m), s'.m.t)
    ensures Inv(s')
  {
    ConsumerStable(s.m, s'.m, s.c);
  }

  lemma PAllocateKeeps<T>(s: State<T>, mem: Option<seq<T>>)
    requires s.p.PAllocate? && s.p.tb < |s.m.next|
    requires Inv(s)
    requires mem.Some? ==> 2 <= |mem.value|
    ensures Inv(AtAllocate(s, mem))
  {
    hide Contents, ConsumerOk;
    if mem.Some? {
      ViewAdd(s.m, s.p.tb, Cells(mem.value[0 := s.p.v], 0, 1, 1, 0));
      ProducerMovesOn(s, AtAllocate(s, mem));
    }
  }

  lemma RingLink<T>(cs: seq<Cells<T>>, t: nat, c: Cells<T>)
    requires RingOk(cs, t, false) && Wf(c)
    ensures var cs' := cs[..t + 1] + [c] + cs[t + 1..];
      RingOk(cs', t, true) && Contents(cs', t) == Contents(cs, t)
  {
    hide Contents;
    ContentsInsert(cs, t, c);
  }

  lemma NewBlockKnown<T>(m: Mem<T>, p: Producer<T>)
    requires Linked(m) && RingOk(View(m), m.t, Pending(p)) && ProducerOk(m, p) && p.PLinkNew?
    ensures !Pending(p) && LeavesFull(View(m), m.t) && p.tb == m.tailBlock
    ensures p.nb !in m.ring && p.nb < |m.blocks| && m.next[p.nb] == m.next[p.tb]
    ensures var c := m.blocks[p.nb]; Wf(c) && Elems(c) == [p.v] && FrontBound(c)
  {
    hide RingOk, Distinct, Circular, LeavesFull;
  }

  /** What the producer knows of the block it is about to link in. */
  lemma AtNewBlock<T>(s: State<T>)
    requires Inv(s) && s.p.PLinkNew?
    ensures Linked(s.m) && MemTyped(s.m) && s.p.tb == s.m.tailBlock
    ensures s.p.nb !in s.m.ring && s.p.nb < |s.m.blocks| && s.m.next[s.p.nb] == s.m.next[s.p.tb]
    ensures var c := s.m.blocks[s.p.nb]; Elems(c) == [s.p.v] && FrontBound(c)
    ensures RingOk(View(s.m), s.m.t, false) && LeavesFull(View(s.m), s.m.t) && 2 <= s.largest
    ensures s.enq == s.deq + Contents(View(s.m), s.m.t)
  {
    hide Contents, ConsumerOk, RingOk, LeavesFull, ProducerOk, ProducerTyped, ConsumerTyped, Linked, Elems, FrontBound;
    InvTyped(s);
    NewBlockKnown(s.m, s.p);
  }

  lemma LinkedNew<T>(m: Mem<T>, m': Mem<T>, c: Cells<T>, v: T, nb: nat)
    requires Linked(m) && Linked(m') && m'.t == m.t && RingOk(View(m), m.t, false) && LeavesFull(View(m), m.t)
    requires View(m') == View(m)[..m.t + 1] + [c] + View(m)[m.t + 1..] && RingOk(View(m'), m.t, true)
    requires m'.ring[m.t + 1] == nb && Wf(c) && Elems(c) == [v] && FrontBound(c)
    ensures ProducerOk(m', PStoreTailBlock(v, nb))
  {
    hide RingOk, Distinct, Circular, Elems, FrontBound, Full;
  }

  lemma PLinkNewKeeps<T>(s: State<T>)
    requires Inv(s) && s.p.PLinkNew?
    ensures Inv(AtLinkNew(s))
  {
    hide Inv, Contents, ProducerOk, Elems, FrontBound, LeavesFull, Linked, RingOk;
    AtNewBlock(s);
    var c, s' := s.m.blocks[s.p.nb], AtLinkNew(s);
    ViewLink(s.m, s.p.nb);
    RingLink(View(s.m), s.m.t, c);
    LinkedNew(s.m, s'.m, c, s.p.v, s.p.nb);
    ProducerMovesOn(s, s');
  }

  lemma RingAdvanceTail<T>(cs: seq<Cells<T>>, t: nat)
    requires RingOk(cs, t, true) && LeavesFull(cs, t)
    requires 0 < |Elems(cs[t + 1])| && FrontBound(cs[t + 1])
    ensures RingOk(cs, t + 1, false)
    ensures Contents(cs, t + 1) == Contents(cs, t) + Elems(cs[t + 1])
  {
    hide Contents;
    ContentsAdvanceTail(cs, t);
  }

  lemma PStoreTailBlockKeeps<T>(s: State<T>)
    requires Inv(s) && s.p.PStoreTailBlock?
    ensures Inv(AtStoreTailBlock(s))
  {
    hide Contents, ConsumerOk, Elems, ProducerSets, Distinct;
    assert View(AtStoreTailBlock(s).m) == View(s.m);
    RingAdvanceTail(View(s.m), s.m.t);
    ProducerMovesOn(s, AtStoreTailBlock(s));
  }

  // ----- the consumer's steps keep the invariant

  lemma ConsumerMovesOn<T>(s: State<T>, s': State<T>)
    requires Inv(s) && s'.p == s.p && s'.enq == s.enq && s'.largest == s.largest
    requires ConsumerMoves(s.m, s'.m)
    requires forall b :: 0 <= b < |s'.m.blocks| ==> Wf(s'.m.blocks[b])
    requires RingOk(View(s'.m), s'.m.t, Pending(s.p)) && ConsumerOk(s'.m, s'.c)
    requires s.enq == s'.deq + Contents(View(s'.m), s'.m.t)
    ensures Inv(s')
  {
    ProducerStable(s.m, s'.m, s.p);
  }

  /** A change the consumer makes to block j of the ring, seen from the ring. */
  ghost predicate ConsumerSets<T>(cs: seq<Cells<T>>, t: nat, pend: bool, j: nat, c: Cells<T>)
    requires RingOk(cs, t, pend)
  {
    && (j == 0 || (j == 1 && 0 < t))
    && Wf(c) && Shrank(cs[j], c)
    && (0 < j ==> c.front == cs[j].front)
    && RingOk(cs[j := c], t, pend)
  }

  lemma ConsumerSetsBlock<T>(s: State<T>, j: nat, b: Cells<T>, c: Consumer<T>, deq: seq<T>)
    requires Inv(s) && ConsumerSets(View(s.m), s.m.t, Pending(s.p), j, b)
    requires s.enq == deq + Contents(View(s.m)[j := b], s.m.t)
    requires var m' := SetBlock(s.m, s.m.ring[j], b);
      Linked(m') && View(m') == View(s.m)[j := b] ==> ConsumerOk(m', c)
    ensures Inv(s.(m := SetBlock(s.m, s.m.ring[j], b), c := c, deq := deq))
  {
    hide Contents, ProducerOk, Elems;
    ViewSet(s.m, j, b);
    ConsumerMovesOn(s, s.(m := SetBlock(s.m, s.m.ring[j], b), c := c, deq := deq));
  }

  lemma RingLoadTail<T>(cs: seq<Cells<T>>, t: nat, pend: bool, j: nat)
    requires RingOk(cs, t, pend) && (j == 0 || (j == 1 && 0 < t))
    ensures var c := cs[j].(localTail := cs[j].tail);
      ConsumerSets(cs, t, pend, j, c) && Contents(cs[j := c], t) == Contents(cs, t) && TailBound(c)
  {
    hide Contents, Elems;
    CopiesElems(cs[j], cs[j].tail, cs[j].localFront);
    assert cs[j].(localTail := cs[j].tail, localFront := cs[j].localFront) == cs[j].(localTail := cs[j].tail);
    ContentsKeep(cs, t, j, cs[j].(localTail := cs[j].tail));
  }

  lemma RingStoreFront<T>(cs: seq<Cells<T>>, t: nat, pend: bool)
    requires RingOk(cs, t, pend) && cs[0].front != cs[0].localTail
    ensures var c := Popped(cs[0]);
      ConsumerSets(cs, t, pend, 0, c) && Contents(cs, t) == [cs[0].data[cs[0].front]] + Contents(cs[0 := c], t)
  {
    hide Contents, Elems;
    ContentsPop(cs, t);
  }

  lemma CLoadTailKeeps<T>(s: State<T>, c: Consumer<T>)
    requires Inv(s) && s.c.CLoadTail?
    requires var b := View(s.m)[0];
      || (c == CReadData(s.c.peeks, s.c.fb, s.c.bf) && s.c.bf != b.tail)
      || (c == CLoadTailBlock(s.c.peeks, s.c.fb, Contents(View(s.m), s.m.t) == []) && s.c.bf == b.tail)
    ensures var b := View(s.m)[0];
      Inv(s.(m := SetBlock(s.m, s.m.frontBlock, b.(localTail := b.tail)), c := c))
  {
    hide Contents, ProducerOk, Elems, ConsumerSets, Distinct;
    var cs, t := View(s.m), s.m.t;
    RingLoadTail(cs, t, Pending(s.p), 0);
    ContentsEmpty(cs, t);
    ConsumerSetsBlock(s, 0, cs[0].(localTail := cs[0].tail), c, s.deq);
  }

  lemma AtLoadTailKeeps<T>(s: State<T>)
    requires Inv(s) && s.c.CLoadTail? && MemTyped(s.m)
    ensures Inv(AtLoadTail(s))
  {
    hide Contents, ProducerOk, Elems, Distinct, RingOk, Wf;
    CLoadTailKeeps(s, AtLoadTail(s).c);
  }

  lemma CReloadTailKeeps<T>(s: State<T>)
    requires Inv(s) && s.c.CReloadTail?
    ensures Inv(AtReloadTail(s))
  {
    hide Contents, ProducerOk, Elems, ConsumerSets, Distinct;
    var cs, t := View(s.m), s.m.t;
    RingLoadTail(cs, t, Pending(s.p), 0);
    ConsumerSetsBlock(s, 0, cs[0].(localTail := cs[0].tail), AtReloadTail(s).c, s.deq);
  }

  lemma CStoreFrontKeeps<T>(s: State<T>)
    requires Inv(s) && s.c.CStoreFront?
    ensures Inv(AtStoreFront(s))
  {
    hide Contents, ProducerOk, Elems, ConsumerSets, Distinct;
    var cs, t := View(s.m), s.m.t;
    RingStoreFront(cs, t, Pending(s.p));
    ConsumerSetsBlock(s, 0, Popped(cs[0]), AtStoreFront(s).c, s.deq + [s.c.x]);
  }

  lemma NextNotEmpty<T>(cs: seq<Cells<T>>, t: nat, pend: bool)
    requires RingOk(cs, t, pend) && 0 < t
    ensures !Empty(cs[1])
  {
    if 1 < t {
      FullElems(cs[1]);
    }
  }

  /** What the consumer knows when it is about to read the next block's tail. */
  lemma AtNextBlock<T>(s: State<T>)
    requires Inv(s) && s.c.CLoadNextTail?
    ensures Linked(s.m) && MemTyped(s.m) && 0 < s.m.t && s.c.nb == s.m.ring[1]
    ensures var c := View(s.m)[1]; c == s.m.blocks[s.c.nb] && s.c.nf == c.front && !Empty(c)
    ensures Empty(View(s.m)[0])
    ensures RingOk(View(s.m), s.m.t, Pending(s.p)) && s.enq == s.deq + Contents(View(s.m), s.m.t)
  {
    InvTyped(s);
    hide Contents, ProducerOk, Elems, Distinct, RingOk;
    NextNotEmpty(View(s.m), s.m.t, Pending(s.p));
  }

  lemma LoadedNextTail<T>(m: Mem<T>, m': Mem<T>, nb: nat, nf: nat)
    requires Linked(m) && MemTyped(m) && Linked(m') && m'.ring == m.ring && m'.t == m.t && 0 < m.t && nb == m.ring[1]
    requires forall i :: 0 <= i < |m'.ring| ==> Wf(View(m')[i])
    requires var c := View(m)[1]; nf == c.front && !Empty(c) && View(m') == View(m)[1 := c.(localTail := c.tail)]
    requires Empty(View(m)[0]) && TailBound(View(m')[1])
    ensures ConsumerOk(m', CStoreFrontBlock(nb, nf))
  {
    hide Distinct, Circular, Contents;
  }

  lemma CLoadNextTailKeeps<T>(s: State<T>)
    requires Inv(s) && s.c.CLoadNextTail?
    ensures Inv(AtLoadNextsTail(s))
  {
    hide Inv, ConsumerOk, RingOk, Contents, Elems, ConsumerSets, Full, TailBound, FrontBound, Dist, Linked;
    AtNextBlock(s);
    var t, pend := s.m.t, Pending(s.p);
    var c := View(s.m)[1].(localTail := View(s.m)[1].tail);
    var m' := SetBlock(s.m, s.c.nb, c);
    RingLoadTail(View(s.m), t, pend, 1);
    if Linked(m') && View(m') == View(s.m)[1 := c] {
      LoadedNextTail(s.m, m', s.c.nb, s.c.nf);
    }
    ConsumerSetsBlock(s, 1, c, CStoreFrontBlock(s.c.nb, s.c.nf), s.deq);
    assert AtLoadNextsTail(s) == s.(m := m', c := CStoreFrontBlock(s.c.nb, s.c.nf), deq := s.deq);
  }

  lemma RingAdvanceFront<T>(cs: seq<Cells<T>>, t: nat, pend: bool)
    requires RingOk(cs, t, pend) && 0 < t && Empty(cs[0]) && TailBound(cs[1])
    ensures RingOk(cs[1..] + [cs[0]], t - 1, pend)
    ensures Contents(cs[1..] + [cs[0]], t - 1) == Contents(cs, t)
  {
    hide Contents;
    ContentsAdvanceFront(cs, t);
  }

  lemma CStoreFrontBlockKeeps<T>(s: State<T>)
    requires Inv(s) && s.c.CStoreFrontBlock?
    ensures Inv(AtStoreFrontBlock(s))
  {
    hide Contents, ProducerOk, Elems, Full, FrontBound, Distinct;
    ViewAdvanceFront(s.m);
    RingAdvanceFront(View(s.m), s.m.t, Pending(s.p));
    ConsumerMovesOn(s, AtStoreFrontBlock(s));
  }

  // ----- the steps that only set registers

  lemma ProducerRegisters<T>(s: State<T>, p: Producer<T>)
    requires Inv(s) && !Pending(s.p) && !Pending(p) && ProducerOk(s.m, p)
    ensures Inv(s.(p := p))
  {
    hide Contents, ConsumerOk, Elems, Distinct;
  }

  lemma ConsumerRegisters<T>(s: State<T>, c: Consumer<T>)
    requires Inv(s) && ConsumerOk(s.m, c)
    ensures Inv(s.(c := c))
  {
    hide Contents, ProducerOk, Elems, Distinct;
  }

  /** Looking for room in the tail block. */
  lemma PLooksHereKeeps<T>(s: State<T>, p: Producer<T>)
    requires Inv(s) && s.p.PLoadTail?
    requires var c := View(s.m)[s.m.t]; var nt := Inc(c.tail, |c.data|);
      || (nt != c.localFront && p == PWriteData(s.p.v, s.p.tb, c.tail, nt))
      || (nt == c.localFront && p == PLoadFront(s.p.v, s.p.alloc, s.p.tb, c.tail, nt))
    ensures Inv(s.(p := p))
  {
    hide Contents, ConsumerOk, Elems, Distinct;
    ProducerRegisters(s, p);
  }

  /** Looking at the block after the tail block. */
  lemma PLooksAheadKeeps<T>(s: State<T>, p: Producer<T>)
    requires Inv(s)
    requires s.p.PLoadFrontBlock? || s.p.PReloadNext?
    requires s.p.PLoadFrontBlock? ==>
      || (s.p.nx != s.m.frontBlock && p == PReloadNext(s.p.v, s.p.tb))
      || (s.p.nx == s.m.frontBlock && p == PAllocate(s.p.v, s.p.tb))
    requires s.p.PReloadNext? ==> p == PLoadNextFront(s.p.v, s.m.next[s.p.tb])
    ensures Inv(s.(p := p))
  {
    hide Contents, ConsumerOk, Elems, Distinct;
    ProducerRegisters(s, p);
  }

  lemma PRefusedKeeps<T>(s: State<T>)
    requires Inv(s) && s.p.PLoadFrontBlock?
    ensures Inv(s.(p := PDone(false)))
  {
    hide Contents, ConsumerOk, Elems, Distinct;
    ProducerRegisters(s, PDone(false));
  }

  lemma PLooksKeeps<T>(s: State<T>)
    requires Inv(s) && MemTyped(s.m) && ProducerTyped(s.m, s.p)
    requires s.p.PLoadTailBlock? || s.p.PLoadTail? || s.p.PLoadNext? || s.p.PLoadFrontBlock? || s.p.PReloadNext?
    ensures Inv(ProducerStep(s, None))
  {
    hide Contents, ConsumerOk, Elems, Distinct, RingOk, ConsumerTyped, Circular, Dist;
    var p := ProducerStep(s, None).p;
    match s.p
    case PLoadTail(_, _, _) => PLooksHereKeeps(s, p);
    case PReloadNext(_, _) => PLooksAheadKeeps(s, p);
    case PLoadFrontBlock(_, _, _, _) =>
      if p.PDone? { PRefusedKeeps(s); } else { PLooksAheadKeeps(s, p); }
    case _ => ProducerRegisters(s, p);
  }

  lemma ProducerKeeps<T>(s: State<T>, mem: Option<seq<T>>)
    requires Inv(s) && !s.p.PIdle? && !s.p.PDone?
    requires mem.Some? ==> 2 <= |mem.value|
    ensures MemTyped(s.m) && ProducerTyped(s.m, s.p) && Inv(ProducerStep(s, mem))
  {
    hide Inv, MemTyped, ProducerTyped;
    InvTyped(s);
    match s.p
    case PLoadFront(_, _, _, _, _) => PLoadFrontKeeps(s);
    case PWriteData(_, _, _, _) => PWriteDataKeeps(s);
    case PStoreTail(_, _, _) => PStoreTailKeeps(s);
    case PLoadNextFront(_, _) => PLoadNextFrontKeeps(s);
    case PLoadNextTail(_, _, _) => PLoadNextTailKeeps(s);
    case PWriteNextData(_, _, _) => PWriteNextDataKeeps(s);
    case PStoreNextTail(_, _, _) => PStoreNextTailKeeps(s);
    case PAllocate(_, _) => PAllocateKeeps(s, mem);
    case PLinkNew(_, _, _) => PLinkNewKeeps(s);
    case PStoreTailBlock(_, _) => PStoreTailBlockKeeps(s);
    case _ => PLooksKeeps(s);
  }

  /** Looking for an element in the front block. */
  lemma CLooksHereKeeps<T>(s: State<T>, c: Consumer<T>)
    requires Inv(s) && s.c.CLoadFront?
    requires var b := View(s.m)[0];
      || (b.front != b.localTail && c == CReadData(s.c.peeks, s.c.fb, b.front))
      || (b.front == b.localTail && c == CLoadTail(s.c.peeks, s.c.fb, b.front))
    ensures Inv(s.(c := c))
  {
    hide Contents, ProducerOk, Elems, Distinct;
    ConsumerRegisters(s, c);
  }

  /** The tail block is the front block exactly when the producer is at position 0, and it
      cannot come back there while the front block stays. */
  lemma CLoadTailBlockKeeps<T>(s: State<T>, c: Consumer<T>)
    requires Inv(s) && s.c.CLoadTailBlock?
    requires c == if s.c.fb != s.m.tailBlock then CReloadFrontBlock(s.c.peeks) else CDone(s.c.peeks, None, s.c.wasEmpty)
    ensures Inv(s.(c := c))
  {
    hide Contents, ProducerOk, Elems, RingOk, Circular;
    assert 0 < s.m.t ==> s.m.ring[0] != s.m.ring[s.m.t];
    ConsumerRegisters(s, c);
  }

  /** Looking again, after the tail block was seen to be another one. */
  lemma CLooksAgainKeeps<T>(s: State<T>, c: Consumer<T>)
    requires Inv(s) && s.c.CReloadFront?
    requires var b := View(s.m)[0];
      || (b.front != s.c.bt && c == CReadData(s.c.peeks, s.c.fb, b.front))
      || (b.front == s.c.bt && c == CLoadNext(s.c.peeks, s.c.fb))
    ensures Inv(s.(c := c))
  {
    hide Contents, ProducerOk, Elems, Distinct;
    ConsumerRegisters(s, c);
  }

  /** Moving on to the next block. */
  lemma CLooksAheadKeeps<T>(s: State<T>, c: Consumer<T>)
    requires Inv(s)
    requires s.c.CLoadNext? || s.c.CLoadNextFront?
    requires s.c.CLoadNext? ==> c == CLoadNextFront(s.c.peeks, s.m.next[s.c.fb])
    requires s.c.CLoadNextFront? ==>
      var nf := s.m.blocks[s.c.nb].front; c == CPeekNext(s.c.nb, nf) || c == CLoadNextTail(s.c.nb, nf)
    ensures Inv(s.(c := c))
  {
    hide Contents, ProducerOk, Elems, Distinct;
    ConsumerRegisters(s, c);
  }

  lemma CLooksKeeps<T>(s: State<T>)
    requires Inv(s) && MemTyped(s.m) && ConsumerTyped(s.m, s.c)
    requires s.c.CLoadFrontBlock? || s.c.CLoadFront? || s.c.CLoadTailBlock? || s.c.CReloadFrontBlock?
             || s.c.CReloadFront? || s.c.CLoadNext? || s.c.CLoadNextFront?
    ensures Inv(ConsumerStep(s))
  {
    hide Contents, ProducerOk, Elems, Distinct, RingOk, Circular, Dist;
    var c := ConsumerStep(s).c;
    match s.c
    case CLoadFront(_, _) => CLooksHereKeeps(s, c);
    case CReloadFront(_, _, _) => CLooksAgainKeeps(s, c);
    case CLoadNext(_, _) => CLooksAheadKeeps(s, c);
    case CLoadNextFront(_, _) => CLooksAheadKeeps(s, c);
    case CLoadTailBlock(_, _, _) => CLoadTailBlockKeeps(s, c);
    case _ => ConsumerRegisters(s, c);
  }

  lemma RingOldest<T>(cs: seq<Cells<T>>, t: nat, pend: bool)
    requires RingOk(cs, t, pend)
    ensures !Empty(cs[0]) ==> [cs[0].data[cs[0].front]] <= Contents(cs, t)
    ensures Empty(cs[0]) && 0 < t ==> !Empty(cs[1]) && [cs[1].data[cs[1].front]] <= Contents(cs, t)
  {
    hide Contents;
    if !Empty(cs[0]) {
      ContentsPop(cs, t);
    } else if 0 < t {
      ContentsAdvanceFront(cs, t);
      ContentsPop(cs[1..] + [cs[0]], t - 1);
    }
  }

  /** The element read is the oldest one, in the front block or in the one after it. */
  lemma CReadsKeeps<T>(s: State<T>, c: Consumer<T>)
    requires Inv(s)
    requires s.c.CReadData? || s.c.CPeekNext?
    requires s.c.CReadData? ==> s.c.bf < |s.m.blocks[s.c.fb].data|
    requires s.c.CReadData? ==>
      var x := s.m.blocks[s.c.fb].data[s.c.bf];
      c == if s.c.peeks then CDone(true, Some(x), false) else CStoreFront(s.c.fb, s.c.bf, x)
    requires s.c.CPeekNext? ==> s.c.nf < |s.m.blocks[s.c.nb].data|
    requires s.c.CPeekNext? ==> c == CDone(true, Some(s.m.blocks[s.c.nb].data[s.c.nf]), false)
    ensures Inv(s.(c := c))
  {
    hide Contents, ProducerOk, Elems, Distinct;
    RingOldest(View(s.m), s.m.t, Pending(s.p));
    ConsumerRegisters(s, c);
  }

  lemma ConsumerKeeps<T>(s: State<T>)
    requires Inv(s) && !s.c.CIdle? && !s.c.CDone?
    ensures MemTyped(s.m) && ConsumerTyped(s.m, s.c) && Inv(ConsumerStep(s))
  {
    hide Inv, MemTyped;
    InvTyped(s);
    match s.c
    case CLoadTail(_, _, _) => AtLoadTailKeeps(s);
    case CReloadTail(_, _) => CReloadTailKeeps(s);
    case CStoreFront(_, _, _) => CStoreFrontKeeps(s);
    case CLoadNextTail(_, _) => CLoadNextTailKeeps(s);
    case CStoreFrontBlock(_, _) => CStoreFrontBlockKeeps(s);
    case CReadData(_, _, _) => CReadsKeeps(s, ConsumerStep(s).c);
    case CPeekNext(_, _) => CReadsKeeps(s, ConsumerStep(s).c);
    case _ => CLooksKeeps(s);
  }

  // ----- whole runs

  datatype Action<T> =
    | BeginEnqueue(v: T, alloc: bool)
    | ProducerMove(mem: Option<seq<T>>)
    | ProducerReturn
    | BeginDequeue(peeks: bool)
    | ConsumerMove
    | ConsumerReturn

  /** A freshly built queue: n blocks in a circle, all empty, both threads idle. */
  ghost predicate Init<T>(s: State<T>) {
    && 0 < |s.m.blocks| == |s.m.next| == |s.m.ring|
    && (forall b :: 0 <= b < |s.m.blocks| ==>
          && 2 <= |s.m.blocks[b].data|
          && s.m.blocks[b] == Cells(s.m.blocks[b].data, 0, 0, 0, 0)
          && s.m.next[b] == Inc(b, |s.m.blocks|)
          && s.m.ring[b] == b)
    && s.m.frontBlock == s.m.tailBlock == s.m.t == 0
    && s.p == PIdle && s.c == CIdle && s.enq == [] && s.deq == []
    && 2 <= s.largest
  }

  ghost predicate Next<T>(s: State<T>, a: Action<T>, s': State<T>) {
    match a
    case BeginEnqueue(v, alloc) => s.p == PIdle && s' == s.(p := PLoadTailBlock(v, alloc))
    case ProducerMove(mem) =>
      && !s.p.PIdle? && !s.p.PDone?
      && (mem.Some? ==> 2 <= |mem.value| == NewBlockSize(s.largest, s.maxBlock))
      && MemTyped(s.m) && ProducerTyped(s.m, s.p)
      && s' == ProducerStep(s, mem)
    case ProducerReturn => s.p.PDone? && s' == s.(p := PIdle)
    case BeginDequeue(peeks) => s.c == CIdle && s' == s.(c := CLoadFrontBlock(peeks))
    case ConsumerMove =>
      && !s.c.CIdle? && !s.c.CDone?
      && MemTyped(s.m) && ConsumerTyped(s.m, s.c)
      && s' == ConsumerStep(s)
    case ConsumerReturn => s.c.CDone? && s' == s.(c := CIdle)
  }

  ghost predicate Run<T>(ss: seq<State<T>>, acts: seq<Action<T>>) {
    && |ss| == |acts| + 1
    && Init(ss[0])
    && forall i :: 0 <= i < |acts| ==> Next(ss[i], acts[i], ss[i + 1])
  }

  lemma InitInv<T>(s: State<T>)
    requires Init(s)
    ensures Inv(s) && s.p == PIdle && s.c == CIdle && s.enq == s.deq == []
  {
    hide Elems, Contents, RingOk, View;
    assert View(s.m) == s.m.blocks;
    EmptyRing(View(s.m));
  }

  lemma NextInv<T>(s: State<T>, a: Action<T>, s': State<T>)
    requires Inv(s) && Next(s, a, s')
    ensures Inv(s')
  {
    hide ProducerStep, ConsumerStep, Contents, MemTyped, ProducerTyped, ConsumerTyped, Inv;
    match a
    case BeginEnqueue(_, _) => ProducerCallsInv(s, s'.p);
    case ProducerMove(mem) => ProducerKeeps(s, mem);
    case ProducerReturn => ProducerCallsInv(s, s'.p);
    case BeginDequeue(_) => ConsumerCallsInv(s, s'.c);
    case ConsumerMove => ConsumerKeeps(s);
    case ConsumerReturn => ConsumerCallsInv(s, s'.c);
  }

  lemma ProducerCallsInv<T>(s: State<T>, p: Producer<T>)
    requires Inv(s) && (s.p.PIdle? || s.p.PDone?) && (p.PIdle? || p.PLoadTailBlock?)
    ensures Inv(s.(p := p))
  {
    hide Contents, ConsumerOk;
    ProducerRegisters(s, p);
  }

  lemma ConsumerCallsInv<T>(s: State<T>, c: Consumer<T>)
    requires Inv(s) && (c.CIdle? || c.CLoadFrontBlock?)
    ensures Inv(s.(c := c))
  {
    hide Contents, ProducerOk;
    ConsumerRegisters(s, c);
  }

  lemma {:induction false} RunInv<T>(ss: seq<State<T>>, acts: seq<Action<T>>, i: nat)
    requires Run(ss, acts) && i < |ss|
    ensures Inv(ss[i])
  {
    hide Inv, Next;
    if i == 0 {
      InitInv(ss[0]);
    } else {
      RunInv(ss, acts, i - 1);
      NextInv(ss[i - 1], acts[i - 1], ss[i]);
    }
  }

  /** First in, first out, in every interleaving: what has been dequeued is at every moment a
      prefix of what has been enqueued, and the rest is in the blocks from the front block
      to the tail block. */
  lemma Fifo<T>(ss: seq<State<T>>, acts: seq<Action<T>>, i: nat)
    requires Run(ss, acts) && i < |ss|
    ensures ss[i].deq <= ss[i].enq
    ensures MemTyped(ss[i].m) && ss[i].enq[|ss[i].deq|..] == Contents(View(ss[i].m), ss[i].m.t)
  {
    hide Contents, ProducerOk, ConsumerOk;
    RunInv(ss, acts, i);
    InvTyped(ss[i]);
  }

  lemma ProducerAssertHolds<T>(s: State<T>)
    requires Inv(s) && MemTyped(s.m) && ProducerTyped(s.m, s.p)
    ensures ProducerAssert(s)
  {
    hide Contents, Elems, Distinct, ConsumerOk, MemTyped;
  }

  lemma ConsumerAssertHolds<T>(s: State<T>)
    requires Inv(s) && MemTyped(s.m) && ConsumerTyped(s.m, s.c)
    ensures ConsumerAssert(s)
  {
    hide Contents, Elems, Distinct, ProducerOk, MemTyped;
  }

  /** The assertions of the source hold in every reachable state: the producer never reuses a
      block that still holds elements, the consumer never moves on to an empty block. */
  lemma AssertionsHold<T>(ss: seq<State<T>>, acts: seq<Action<T>>, i: nat)
    requires Run(ss, acts) && i < |ss|
    ensures MemTyped(ss[i].m) && ProducerTyped(ss[i].m, ss[i].p) && ConsumerTyped(ss[i].m, ss[i].c)
    ensures ProducerAssert(ss[i]) && ConsumerAssert(ss[i])
  {
    hide Inv, Run, ProducerAssert, ConsumerAssert;
    RunInv(ss, acts, i);
    InvTyped(ss[i]);
    ProducerAssertHolds(ss[i]);
    ConsumerAssertHolds(ss[i]);
  }

  /** What one step does to the queue as a whole: it appends the value being enqueued, or
      removes the oldest one, or changes nothing. */
  ghost predicate QueueStep<T>(s: State<T>, s': State<T>)
    requires MemTyped(s.m) && MemTyped(s'.m)
  {
    var q, q' := Contents(View(s.m), s.m.t), Contents(View(s'.m), s'.m.t);
    || (q' == q && s'.enq == s.enq && s'.deq == s.deq)
    || ((s.p.PStoreTail? || s.p.PStoreTailBlock?) && s'.p == PDone(true)
        && q' == q + [s.p.v] && s'.enq == s.enq + [s.p.v] && s'.deq == s.deq)
    || (s.c.CStoreFront? && s'.c == CDone(false, Some(s.c.x), false)
        && q == [s.c.x] + q' && s'.deq == s.deq + [s.c.x] && s'.enq == s.enq)
  }

  lemma InvHistory<T>(s: State<T>)
    requires Inv(s)
    ensures MemTyped(s.m) && s.enq == s.deq + Contents(View(s.m), s.m.t)
  {
    hide Contents, ProducerOk, ConsumerOk, RingOk, ProducerTyped, ConsumerTyped;
  }

  /** Every step of either thread acts on the queue as one atomic enqueue, one atomic dequeue,
      or nothing. */
  lemma StepRefinesQueue<T>(s: State<T>, a: Action<T>, s': State<T>)
    requires Inv(s) && Next(s, a, s')
    ensures MemTyped(s.m) && MemTyped(s'.m) && QueueStep(s, s')
  {
    hide Contents, Inv, Next;
    NextInv(s, a, s');
    InvHistory(s);
    InvHistory(s');
    HistoryStep(s, a, s');
    var q, q' := Contents(View(s.m), s.m.t), Contents(View(s'.m), s'.m.t);
    if s'.deq == s.deq {
      assert s.enq[|s.deq|..] == q && s'.enq[|s.deq|..] == q';
    } else {
      StoredIsOldest(s);
      assert s.enq[|s.deq|..] == q && s'.enq[|s'.deq|..] == q';
      assert q == [s.c.x] + q[1..] && q[1..] == s.enq[|s.deq| + 1..];
    }
  }

  /** What one step does to the two history variables. */
  lemma HistoryStep<T>(s: State<T>, a: Action<T>, s': State<T>)
    requires Next(s, a, s')
    ensures
      || (s'.enq == s.enq && s'.deq == s.deq)
      || ((s.p.PStoreTail? || s.p.PStoreTailBlock?) && s'.p == PDone(true)
          && s'.enq == s.enq + [s.p.v] && s'.deq == s.deq)
      || (s.c.CStoreFront? && s'.c == CDone(false, Some(s.c.x), false)
          && s'.deq == s.deq + [s.c.x] && s'.enq == s.enq)
  {
    hide Contents, MemTyped, ProducerTyped, ConsumerTyped;
  }

  lemma StoredIsOldest<T>(s: State<T>)
    requires Inv(s) && s.c.CStoreFront?
    ensures [s.c.x] <= Contents(View(s.m), s.m.t)
  {
    hide Contents, ProducerOk, Elems, Distinct;
    RingOldest(View(s.m), s.m.t, Pending(s.p));
  }

  /** A dequeue or peek that finds nothing read the front block's tail at a moment j of its own
      call at which the whole queue was empty. */
  lemma {:induction false} NothingMeansEmpty<T>(ss: seq<State<T>>, acts: seq<Action<T>>, i: nat) returns (j: nat)
    requires Run(ss, acts) && i < |ss|
    requires ss[i].c.CLoadTailBlock? || (ss[i].c.CDone? && ss[i].c.res == None)
    ensures j < i && ss[j].c.CLoadTail? && MemTyped(ss[j].m)
    ensures ss[i].c.wasEmpty == (Contents(View(ss[j].m), ss[j].m.t) == [])
    ensures ss[i].c.CDone? ==> Contents(View(ss[j].m), ss[j].m.t) == []
    ensures forall k :: j < k <= i ==> ss[k].c.CLoadTailBlock? || (ss[k].c.CDone? && ss[k].c.res == None)
  {
    hide Contents, Inv, Next, MemTyped;
    RunInv(ss, acts, i);
    if ss[i].c.CDone? { NothingSawEmpty(ss[i]); }
    if i == 0 {
      assert false;
    } else {
      ConsumerCameFrom(ss[i - 1], acts[i - 1], ss[i]);
      if ss[i - 1].c.CLoadTail? {
        j := i - 1;
      } else {
        j := NothingMeansEmpty(ss, acts, i - 1);
      }
    }
  }

  lemma NothingSawEmpty<T>(s: State<T>)
    requires Inv(s) && s.c.CDone? && s.c.res == None
    ensures s.c.wasEmpty
  {
    hide Contents, ProducerOk, RingOk;
  }

  lemma ConsumerCameFrom<T>(s: State<T>, a: Action<T>, s': State<T>)
    requires Next(s, a, s')
    requires s'.c.CLoadTailBlock? || (s'.c.CDone? && s'.c.res == None)
    ensures s.c == s'.c || s.c.CLoadTail? || (s.c.CLoadTailBlock? && s'.c.CDone? && s'.c.wasEmpty == s.c.wasEmpty)
    ensures s.c.CLoadTail? && s'.c != s.c ==>
      MemTyped(s.m) && s'.c.CLoadTailBlock? && s'.c.wasEmpty == (Contents(View(s.m), s.m.t) == [])
  {
    hide Contents;
  }

  /** The producer found no room in the tail block, and has not found any elsewhere yet. */
  predicate Refusing<T>(p: Producer<T>) {
    p.PLoadNext? || p.PLoadFrontBlock? || p.PAllocate? || (p.PDone? && !p.ok)
  }

  /** The producer gives up: the next block is the front block and it may not allocate, or there is no
      memory. */
  ghost predicate GivesUp<T>(s: State<T>, a: Action<T>) {
    && a.ProducerMove?
    && ((s.p.PLoadFrontBlock? && s.p.nx == s.m.frontBlock && !s.p.alloc) || (s.p.PAllocate? && a.mem.None?))
  }

  /** A refused enqueue read the tail block's front at a moment j of its own call at which that block
      was full, so that the queue was not empty then; and it was refused because, after that, it was not
      allowed to allocate or found no memory. */
  lemma {:induction false} RefusedSawFull<T>(ss: seq<State<T>>, acts: seq<Action<T>>, i: nat) returns (j: nat)
    requires Run(ss, acts) && i < |ss| && Refusing(ss[i].p)
    ensures j < i && ss[j].p.PLoadFront? && MemTyped(ss[j].m)
    ensures Full(View(ss[j].m)[ss[j].m.t]) && Contents(View(ss[j].m), ss[j].m.t) != []
    ensures forall k :: j < k <= i ==> Refusing(ss[k].p)
    ensures ss[i].p.PDone? ==> exists k :: j < k < i && GivesUp(ss[k], acts[k])
  {
    hide Contents, Inv, Next, MemTyped, Full, GivesUp;
    if i == 0 {
      assert false;
    } else {
      RunInv(ss, acts, i - 1);
      ProducerCameFrom(ss[i - 1], acts[i - 1], ss[i]);
      if ss[i - 1].p.PLoadFront? {
        j := i - 1;
        TailIsFull(ss[j]);
      } else {
        j := RefusedSawFull(ss, acts, i - 1);
        assert ss[i].p.PDone? && !ss[i - 1].p.PDone? ==> GivesUp(ss[i - 1], acts[i - 1]);
      }
    }
  }

  lemma ProducerCameFrom<T>(s: State<T>, a: Action<T>, s': State<T>)
    requires Next(s, a, s') && Refusing(s'.p)
    ensures Refusing(s.p) || (s.p.PLoadFront? && MemTyped(s.m) && ProducerTyped(s.m, s.p)
                              && s.p.nt == s.m.blocks[s.p.tb].front)
    ensures s'.p.PDone? && !s.p.PDone? ==> !s.p.PLoadFront? && GivesUp(s, a)
  {
    hide Contents, MemTyped;
  }

  lemma TailIsFull<T>(s: State<T>)
    requires Inv(s) && s.p.PLoadFront? && MemTyped(s.m) && ProducerTyped(s.m, s.p)
    requires s.p.nt == s.m.blocks[s.p.tb].front
    ensures Full(View(s.m)[s.m.t]) && Contents(View(s.m), s.m.t) != []
  {
    hide Contents, ConsumerOk, Distinct, Circular;
    FullElems(View(s.m)[s.m.t]);
    ContentsEmpty(View(s.m), s.m.t);
  }

  /** What a finished peek reports is the oldest element, and stays so until it returns. */
  lemma PeekIsOldest<T>(ss: seq<State<T>>, acts: seq<Action<T>>, i: nat)
    requires Run(ss, acts) && i < |ss| && ss[i].c.CDone? && ss[i].c.peeks && ss[i].c.res.Some?
    ensures |ss[i].deq| < |ss[i].enq| && ss[i].enq[|ss[i].deq|] == ss[i].c.res.value
  {
    hide Inv, Next;
    RunInv(ss, acts, i);
    PeekedIsOldest(ss[i]);
  }

  lemma PeekedIsOldest<T>(s: State<T>)
    requires Inv(s) && s.c.CDone? && s.c.peeks && s.c.res.Some?
    ensures |s.deq| < |s.enq| && s.enq[|s.deq|] == s.c.res.value
  {
    hide Contents, ProducerOk, RingOk;
  }

  // ----- neither thread ever waits for the other

  /** How many steps the producer's call still takes at most. */
  function ProducerRank<T>(p: Producer<T>): nat {
    match p
    case PIdle => 0
    case PDone(_) => 0
    case PLoadTailBlock(_, _) => 12
    case PLoadTail(_, _, _) => 11
    case PLoadFront(_, _, _, _, _) => 10
    case PWriteData(_, _, _, _) => 2
    case PStoreTail(_, _, _) => 1
    case PLoadNext(_, _, _) => 9
    case PLoadFrontBlock(_, _, _, _) => 8
    case PReloadNext(_, _) => 7
    case PLoadNextFront(_, _) => 6
    case PLoadNextTail(_, _, _) => 5
    case PWriteNextData(_, _, _) => 4
    case PStoreNextTail(_, _, _) => 3
    case PAllocate(_, _) => 3
    case PLinkNew(_, _, _) => 2
    case PStoreTailBlock(_, _) => 1
  }

  /** How many steps the consumer's call still takes at most. */
  function ConsumerRank<T>(c: Consumer<T>): nat {
    match c
    case CIdle => 0
    case CDone(_, _, _) => 0
    case CLoadFrontBlock(_) => 13
    case CLoadFront(_, _) => 12
    case CLoadTail(_, _, _) => 11
    case CLoadTailBlock(_, _, _) => 10
    case CReloadFrontBlock(_) => 9
    case CReloadTail(_, _) => 8
    case CReloadFront(_, _, _) => 7
    case CReadData(_, _, _) => 2
    case CStoreFront(_, _, _) => 1
    case CLoadNext(_, _) => 6
    case CLoadNextFront(_, _) => 5
    case CLoadNextTail(_, _) => 4
    case CStoreFrontBlock(_, _) => 3
    case CPeekNext(_, _) => 1
  }

  lemma ProducerAdvances<T>(s: State<T>, mem: Option<seq<T>>)
    requires MemTyped(s.m) && ProducerTyped(s.m, s.p) && !s.p.PIdle? && !s.p.PDone?
    requires mem.Some? ==> 0 < |mem.value|
    ensures ProducerRank(ProducerStep(s, mem).p) < ProducerRank(s.p) <= 12
  {
    hide MemTyped;
  }

  lemma ConsumerAdvances<T>(s: State<T>)
    requires MemTyped(s.m) && ConsumerTyped(s.m, s.c) && !s.c.CIdle? && !s.c.CDone?
    ensures ConsumerRank(ConsumerStep(s).c) < ConsumerRank(s.c) <= 13
  {
    hide MemTyped, Contents;
  }

  /** In every reachable state a thread inside an operation can take its next step whatever the
      other thread does, and at most 13 of its own steps finish the operation. */
  lemma WaitFree<T>(ss: seq<State<T>>, acts: seq<Action<T>>, i: nat, mem: Option<seq<T>>)
    requires Run(ss, acts) && i < |ss|
    requires mem.Some? ==> 2 <= |mem.value| == NewBlockSize(ss[i].largest, ss[i].maxBlock)
    ensures !ss[i].p.PIdle? && !ss[i].p.PDone? ==>
      exists s' :: Next(ss[i], ProducerMove(mem), s') && ProducerRank(s'.p) < ProducerRank(ss[i].p) <= 12
    ensures !ss[i].c.CIdle? && !ss[i].c.CDone? ==>
      exists s' :: Next(ss[i], ConsumerMove, s') && ConsumerRank(s'.c) < ConsumerRank(ss[i].c) <= 13
    ensures ss[i].p.PDone? ==> Next(ss[i], ProducerReturn, ss[i].(p := PIdle))
    ensures ss[i].c.CDone? ==> Next(ss[i], ConsumerReturn, ss[i].(c := CIdle))
  {
    hide Inv, MemTyped, ProducerTyped, ConsumerTyped, ProducerStep, ConsumerStep, ProducerRank, ConsumerRank;
    RunInv(ss, acts, i);
    var s := ss[i];
    InvTyped(s);
    if !s.p.PIdle? && !s.p.PDone? {
      ProducerAdvances(s, mem);
      assert Next(s, ProducerMove(mem), ProducerStep(s, mem));
    }
    if !s.c.CIdle? && !s.c.CDone? {
      ConsumerAdvances(s);
      assert Next(s, ConsumerMove, ConsumerStep(s));
    }
  }

  /** A thread outside an operation can begin one, whatever the other thread does. */
  lemma CanBegin<T>(s: State<T>, v: T, alloc: bool, peeks: bool)
    ensures s.p.PIdle? ==> exists s' :: Next(s, BeginEnqueue(v, alloc), s') && !s'.p.PIdle?
    ensures s.c.CIdle? ==> exists s' :: Next(s, BeginDequeue(peeks), s') && !s'.c.CIdle?
  {
    if s.p.PIdle? {
      assert Next(s, BeginEnqueue(v, alloc), s.(p := PLoadTailBlock(v, alloc)));
    }
    if s.c.CIdle? {
      assert Next(s, BeginDequeue(peeks), s.(c := CLoadFrontBlock(peeks)));
    }
  }

  // ----- what a caller sees of one step

  /** Whether the consumer is in a peek (as opposed to a dequeue). */
  predicate InPeek<T>(c: Consumer<T>) {
    match c
    case CIdle => false
    case CStoreFront(_, _, _) => false
    case CLoadNextTail(_, _) => false
    case CStoreFrontBlock(_, _) => false
    case CPeekNext(_, _) => true
    case _ => c.peeks
  }

  /** A producer's step touches neither the consumer's registers nor its results, and its
      operation succeeds exactly when a value is appended. */
  lemma ProducerMoveEffect<T>(s: State<T>, mem: Option<seq<T>>, s': State<T>)
    requires Next(s, ProducerMove(mem), s')
    ensures s'.c == s.c && s'.deq == s.deq && !s'.p.PIdle?
    ensures |s'.enq| == |s.enq| + if s'.p == PDone(true) then 1 else 0
  {
  }

  /** A consumer's step touches neither the producer's registers nor its results, and a dequeue
      delivers exactly when a value is removed. */
  lemma ConsumerMoveEffect<T>(s: State<T>, s': State<T>)
    requires Next(s, ConsumerMove, s')
    ensures s'.p == s.p && s'.enq == s.enq && !s'.c.CIdle? && InPeek(s'.c) == InPeek(s.c)
    ensures s'.deq == if s'.c.CDone? && s'.c.res.Some? && !InPeek(s.c) then s.deq + [s'.c.res.value] else s.deq
    ensures (s'.c.CDone? && s'.c.res == None) ==> s.c.CLoadTailBlock? && s'.c.wasEmpty == s.c.wasEmpty
    ensures s'.c.CLoadTailBlock? ==>
      s.c.CLoadTail? && MemTyped(s.m) && s'.c.wasEmpty == (Contents(View(s.m), s.m.t) == [])
  {
    hide Contents;
  }
}
