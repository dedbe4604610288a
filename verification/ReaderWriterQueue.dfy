/**
 The queue as the objects the code allocates, used by one thread at a time: blocks with a
 buffer array, linked in a circle, that the operations update in place.  Every operation is
 proved against the plain sequence of the elements held (`Contents`).
 */
module ReaderWriterQueue {
  import opened BlockRing
  import opened Options
  import opened RingCapacity
  import opened BitTricks
  import S = SpscQueue

  class Block<T(0)> {
    var front: nat
    var localTail: nat
    var tail: nat
    var localFront: nat
    var next: Block?<T>
    const data: array<T>
    const sizeMask: nat

    constructor (size: nat)
      requires size <= WORD
      ensures fresh(data) && data.Length == size && sizeMask == if size == 0 then WORD - 1 else size - 1
      ensures front == localTail == tail == localFront == 0 && next == null
    {
      data := new T[size];
      sizeMask := (size + WORD - 1) % WORD;
      front, localTail, tail, localFront, next := 0, 0, 0, 0, null;
    }

    ghost function View(): Cells<T>
      reads this, data
    {
      Cells(data[..], front, localTail, tail, localFront)
    }
  }

  /** Distinct blocks, each with a buffer of its own. */
  ghost predicate Apart<T(0)>(ring: seq<Block<T>>) {
    forall i, j :: 0 <= i < j < |ring| ==> ring[i] != ring[j] && ring[i].data != ring[j].data
  }

  /** The blocks are linked in a circle. */
  ghost predicate Circular<T(0)>(ring: seq<Block<T>>)
    reads ring
  {
    forall i :: 0 <= i < |ring| ==> ring[i].next == ring[Inc(i, |ring|)]
  }

  /** Empty blocks of one size. */
  ghost predicate AllEmpty<T(0)>(ring: seq<Block<T>>, blockSize: nat)
    reads ring
  {
    forall i :: 0 <= i < |ring| ==>
      && ring[i].front == ring[i].localTail == ring[i].tail == ring[i].localFront == 0
      && ring[i].data.Length == blockSize == ring[i].sizeMask + 1
  }

  lemma ApartMore<T(0)>(ring: seq<Block<T>>, block: Block<T>)
    requires Apart(ring) && forall i :: 0 <= i < |ring| ==> ring[i] != block && ring[i].data != block.data
    ensures Apart(ring + [block])
  {
  }

  lemma ApartEnd<T(0)>(ring: seq<Block<T>>, block: Block<T>)
    requires ring != [] && Apart(ring + [block])
    ensures forall k :: 0 <= k < |ring| ==> ring[k] != block
    ensures forall k :: 0 <= k < |ring| - 1 ==> ring[k] != ring[|ring| - 1]
  {
    var longer := ring + [block];
    assert longer[|ring|] == block;
    assert forall k :: 0 <= k < |ring| ==> longer[k] == ring[k];
  }

  /** Links a new block in between the last block and the first. */
  method AppendBlock<T(0)>(first: Block<T>, last: Block<T>, ghost ring: seq<Block<T>>, blockSize: nat)
    returns (block: Block<T>)
    requires 2 <= blockSize <= WORD && ring != [] && ring[0] == first && ring[|ring| - 1] == last
    requires Apart(ring) && Circular(ring) && AllEmpty(ring, blockSize)
    modifies last`next
    ensures fresh(block) && fresh(block.data)
    ensures Apart(ring + [block]) && Circular(ring + [block]) && AllEmpty(ring + [block], blockSize)
  {
    block := new Block(blockSize);
    ghost var longer, n := ring + [block], |ring|;
    ApartMore(ring, block);
    ApartEnd(ring, block);
    hide Apart;
    assert forall k :: 0 <= k < n - 1 ==> ring[k].next == ring[k + 1];
    last.next := block;
    block.next := first;
  }

  /** Links `block` in after the last block of the ring. */
  method LinkIn<T(0)>(last: Block<T>, block: Block<T>, ghost ring: seq<Block<T>>)
    requires ring != [] && ring[|ring| - 1] == last
    requires Apart(ring + [block]) && Circular(ring)
    modifies last`next, block`next
    ensures Circular(ring + [block])
    ensures block.View() == old(block.View())
    ensures forall i :: 0 <= i < |ring| ==> ring[i].View() == old(ring[i].View())
  {
    hide Apart;
    ghost var n := |ring|;
    ApartEnd(ring, block);
    assert forall k :: 0 <= k < n - 1 ==> ring[k].next == ring[k + 1];
    assert last.next == ring[0];
    block.next := last.next;
    last.next := block;
  }

  lemma RotatedRing<T(0)>(ring: seq<Block<T>>)
    requires ring != [] && Apart(ring) && Circular(ring)
    ensures Apart(ring[1..] + [ring[0]]) && Circular(ring[1..] + [ring[0]])
  {
    var r := ring[1..] + [ring[0]];
    assert forall i :: 0 <= i < |ring| ==> r[i] == ring[Inc(i, |ring|)];
  }

  /** The constructor's loop: `count` new blocks in a circle. */
  method MakeRing<T(0)>(count: nat, blockSize: nat) returns (first: Block<T>, ghost ring: seq<Block<T>>)
    requires 0 < count && 2 <= blockSize <= WORD
    ensures |ring| == count && ring[0] == first
    ensures Apart(ring) && Circular(ring) && AllEmpty(ring, blockSize)
    ensures forall b :: b in ring ==> fresh(b) && fresh(b.data)
  {
    first := new Block(blockSize);
    first.next := first;
    var last := first;
    ring := [first];
    assert Circular(ring);
    hide Apart, Circular, AllEmpty;
    var i := 1;
    while i != count
      invariant 1 <= i <= count && |ring| == i && ring[0] == first && ring[i - 1] == last
      invariant Apart(ring) && Circular(ring) && AllEmpty(ring, blockSize)
      invariant forall b :: b in ring ==> fresh(b) && fresh(b.data)
    {
      last := AppendBlock(first, last, ring, blockSize);
      ring := ring + [last];
      i := i + 1;
    }
  }

  /** The blocks the constructor starts with. */
  method FirstBlocks<T(0)>(count: nat, blockSize: nat) returns (first: Block<T>, ghost ring: seq<Block<T>>)
    requires 0 < count && blockSize <= WORD && blockSize != 1 && (blockSize == 0 ==> count == 1)
    ensures |ring| == count && ring[0] == first
    ensures blockSize != 0 ==> Apart(ring) && Circular(ring) && AllEmpty(ring, blockSize)
    ensures blockSize == 0 ==> first.data.Length == 0 && first.next == first
    ensures forall b :: b in ring ==> fresh(b) && fresh(b.data)
  {
    if blockSize != 0 {
      first, ring := MakeRing(count, blockSize);
    } else {
      first := new Block(0);
      first.next := first;
      ring := [first];
    }
  }

  /** The number of maximal blocks reserved is enough when one of them takes no element. */
  lemma BlockCount(size: nat, max: nat)
    requires 0 < size && 2 <= max && 2 * max <= size
    ensures 2 <= (size + max * 2 - 3) / (max - 1)
    ensures (max - 1) * ((size + max * 2 - 3) / (max - 1) - 2) < size
    ensures size <= (max - 1) * ((size + max * 2 - 3) / (max - 1) - 1)
  {
    var d := max - 1;
    var n := size + max * 2 - 3;
    DivBounds(n, d, 2);
    assert n == (n / d) * d + n % d;
    assert d * (n / d - 1) == (n / d) * d - d;
    assert d * (n / d - 2) == (n / d) * d - 2 * d;
  }

  lemma DoublePow2(n: nat, x: nat, r: nat)
    requires IsPow2(n) && x <= 2 * n
    requires forall e: nat :: x <= Pow2(e) ==> r <= Pow2(e)
    ensures r <= 2 * n
  {
    var k: nat :| n == Pow2(k);
    assert Pow2(k + 1) == 2 * n;
  }

  /** The one corner in which the 64-bit arithmetic leaves the constructor without a block: twice the
      maximal block size wraps around to zero. */
  ghost predicate NoBlock(size: nat, max: nat) {
    max == Pow2(63) && 3 <= size < Pow2(63)
  }

  /** `(size + MAX_BLOCK_SIZE * 2 - 3) / (MAX_BLOCK_SIZE - 1)` and `MAX_BLOCK_SIZE * 2` on words. */
  function Reserved(size: nat, max: nat): nat
    requires 2 <= max
  {
    Quotient((size + Doubled(max) + WORD - 3) % WORD, max - 1)
  }

  function Doubled(max: nat): nat {
    (max * 2) % WORD
  }

  lemma LargestMaximum(size: nat)
    requires 0 < size < Pow2(63)
    ensures Doubled(Pow2(63)) == 0 && Reserved(size, Pow2(63)) == if size < 3 then 2 else 0
  {
    SmallPow2();
    hide Pow2;
    var d := Pow2(63) - 1;
    if size < 3 {
      DivModUnique(size + WORD - 3, d, 2, size - 1);
    } else {
      DivModUnique(size - 3, d, 0, size - 3);
    }
  }

  lemma LesserMaximum(size: nat, max: nat)
    requires 0 < size < Pow2(63) && 2 <= max <= Pow2(62)
    ensures Doubled(max) == 2 * max
    ensures 2 * max <= size ==>
      2 <= Reserved(size, max) && (max - 1) * (Reserved(size, max) - 2) < size <= (max - 1) * (Reserved(size, max) - 1)
  {
    HalfOf63();
    SmallPow2();
    hide Pow2;
    if 2 * max <= size {
      assert (size + 2 * max + WORD - 3) % WORD == size + max * 2 - 3;
      BlockCount(size, max);
    }
  }

  lemma SmallerMaximum(max: nat)
    requires max <= Pow2(63) && IsPow2(max) && max != Pow2(63)
    ensures max <= Pow2(62)
  {
    var k: nat :| max == Pow2(k);
    hide Pow2;
    if 63 < k {
      Pow2Less(63, k);
    } else if k < 62 {
      Pow2Less(k, 62);
    }
  }

  /** How many blocks of which size the constructor reserves, in 64-bit arithmetic: enough for `size`
      elements below 2^63.  From there on rounding up leaves a single block of no size. */
  method InitialBlocks(size: nat, max: nat) returns (count: nat, blockSize: nat)
    requires 0 < size < WORD
    requires 2 <= max <= Pow2(63) && IsPow2(max)
    ensures count == 0 <==> NoBlock(size, max)
    ensures blockSize == 0 <==> Pow2(63) <= size
    ensures blockSize == 0 ==> count == 1
    ensures count != 0 && blockSize != 0 ==>
      && IsPow2(blockSize) && 2 <= blockSize <= WORD
      && size <= (blockSize - 1) * (if count <= 1 then 1 else count - 1)
    ensures count == 1 && blockSize != 0 ==>
      size < blockSize && forall e: nat :: size < Pow2(e) ==> blockSize <= Pow2(e)
    ensures 1 < count ==> blockSize == max && (count - 2) * (max - 1) < size
    ensures count != 1 ==> 2 * max <= size || max == Pow2(63)
  {
    SmallPow2();
    hide Pow2, IsPow2, Reserved, Doubled;
    blockSize := CeilToPow2(Add64(size, 1));
    count := 1;
    if size < Pow2(63) {
      if max == Pow2(63) {
        LargestMaximum(size);
      } else {
        SmallerMaximum(max);
        LesserMaximum(size, max);
        if size + 1 <= 2 * max { DoublePow2(max, size + 1, blockSize); }
      }
    }
    if blockSize > Doubled(max) {
      count := Reserved(size, max);
      blockSize := max;
    }
  }

  lemma HalfOf63()
    ensures 2 * Pow2(62) == Pow2(63)
  {
  }

  /** What the blocks hold. */
  ghost function Views<T(0)>(ring: seq<Block<T>>): (cs: seq<Cells<T>>)
    reads ring, set b | b in ring :: b.data
    ensures |cs| == |ring| && forall i :: 0 <= i < |ring| ==> cs[i] == ring[i].View()
  {
    seq(|ring|, i requires 0 <= i < |ring| reads ring, set b | b in ring :: b.data => ring[i].View())
  }

  lemma EmptyRingContents<T(0)>(ring: seq<Block<T>>, blockSize: nat, size: nat)
    requires ring != [] && AllEmpty(ring, blockSize) && 2 <= blockSize
    requires size <= (blockSize - 1) * (if |ring| <= 1 then 1 else |ring| - 1)
    ensures RingOk(Views(ring), 0, false) && BlockRing.Contents(Views(ring), 0) == []
    ensures Serves(Views(ring), blockSize - 1, size)
    ensures forall i :: 0 <= i < |ring| ==> ring[i].data.Length == blockSize == ring[i].sizeMask + 1
  {
    var cs := Views(ring);
    hide Views;
    EmptyRing(cs);
  }

  class Queue<T(0)> {
    const maxBlockSize: nat
    var frontBlock: Block<T>
    var tailBlock: Block<T>
    var largestBlockSize: nat

    ghost const size: nat           // the number of elements the queue was built for
    ghost var ring: seq<Block<T>>   // the blocks, from frontBlock on
    ghost var t: nat                // the place of tailBlock in it
    ghost var cells: seq<Cells<T>>  // what the blocks hold
    ghost var narrowest: nat        // every block takes at least this many elements

    /** The blocks are distinct objects with buffers of their own, linked in a circle. */
    ghost predicate Shape()
      reads this, ring, set b | b in ring :: b.data
    {
      && t < |ring| == |cells|
      && Apart(ring) && Circular(ring)
      && (forall i :: 0 <= i < |ring| ==> cells[i] == ring[i].View())
      && (forall i :: 0 <= i < |ring| ==>
            ring[i].sizeMask + 1 == ring[i].data.Length <= WORD && IsPow2(ring[i].data.Length))
      && frontBlock == ring[0]
      && tailBlock == ring[t]
    }

    ghost predicate Valid()
      reads this, ring, set b | b in ring :: b.data
    {
      && Shape()
      && RingOk(cells, t, false)
      && Serves(cells, narrowest, size)
      && 2 <= maxBlockSize && IsPow2(maxBlockSize) && maxBlockSize <= Pow2(63)
      && 2 <= largestBlockSize <= WORD && IsPow2(largestBlockSize) && narrowest < largestBlockSize
    }

    ghost function Contents(): seq<T>
      requires Valid()
      reads this, ring, set b | b in ring :: b.data
    {
      BlockRing.Contents(cells, t)
    }

    /** A queue for at least `size` elements: one block, or, when that would be larger than two
        maximal blocks, enough maximal blocks plus a spare one.  A size of 2^63 or more gives one
        block without room for any element, and no working queue. */
    constructor (size: nat, maxBlockSize: nat)
      requires 0 < size < WORD
      requires 2 <= maxBlockSize <= Pow2(63) && IsPow2(maxBlockSize) && !NoBlock(size, maxBlockSize)
      ensures size < Pow2(63) <==> Valid()
      ensures size < Pow2(63) ==> Contents() == [] && this.size == size && this.maxBlockSize == maxBlockSize
      ensures size < Pow2(63) ==> forall b :: b in ring ==> b.data.Length == largestBlockSize
      ensures Pow2(63) <= size ==> |ring| == 1 && ring[0] == frontBlock == tailBlock && frontBlock.data.Length == 0
      ensures forall b :: b in ring ==> fresh(b) && fresh(b.data)
    {
      hide Pow2, IsPow2, BlockRing.Contents, Elems, RingOk, Apart, Circular, AllEmpty, Views, Serves;
      var count, blockSize := InitialBlocks(size, maxBlockSize);
      var first, blocks := FirstBlocks<T>(count, blockSize);
      this.maxBlockSize := maxBlockSize;
      frontBlock := first;
      tailBlock := first;
      largestBlockSize := blockSize;
      this.size := size;
      ring := blocks;
      t := 0;
      cells := Views(blocks);
      narrowest := if blockSize == 0 then 0 else blockSize - 1;
      if blockSize != 0 {
        EmptyRingContents(blocks, blockSize, size);
      }
    }

    /** Whether an enqueue that may not allocate would be refused, and how many would succeed. */
    ghost function Free(): nat
      requires Valid()
      reads this, ring, set b | b in ring :: b.data
    {
      FreeSlots(cells, t)
    }

    ghost function Capacity(): nat
      requires Valid()
      reads this, ring, set b | b in ring :: b.data
    {
      TotalMask(cells)
    }

    /** An empty queue has all its slots free, and at least one. */
    lemma EmptyIsFree()
      requires Valid() && Contents() == []
      ensures Free() == Capacity() && 0 < Free()
    {
      hide BlockRing.Contents, Elems;
      EmptyFreeSlots(cells, t);
      assert TotalMask(cells) >= |cells[0].data| - 1;
    }

    // ----- counting

    /** `size_approx`, walking the circle of blocks: exact when nothing runs concurrently. */
    method SizeApprox() returns (result: nat)
      requires Valid()
      ensures result == |Contents()|
    {
      hide IsPow2, Pow2, BitAnd, Add64, BlockRing.Contents, Elems, TotalMask, CountUpTo;
      CountAll(cells, t);
      CountNone(cells);
      result := 0;
      var block := frontBlock;
      ghost var i := 0;
      while true
        invariant 0 <= i < |ring| && block == ring[i]
        invariant result == CountUpTo(cells, i)
        decreases |ring| - i
      {
        CountNext(cells, i);
        MaskCounts(block.front, block.tail, block.data.Length);
        result := result + BitAnd(Add64(block.tail, 0 - block.front), block.sizeMask);
        block := block.next;
        assert i + 1 < |ring| ==> ring[i + 1] != ring[0];
        i := i + 1;
        if block == frontBlock {
          return;
        }
      }
    }

    /** `max_capacity`, walking the circle of blocks. */
    method MaxCapacity() returns (result: nat)
      requires Valid()
      ensures result == Capacity()
      ensures size <= result
    {
      hide IsPow2, Pow2, BlockRing.Contents, Elems;
      ServesAtLeast(cells, narrowest, size);
      result := 0;
      var block := frontBlock;
      ghost var i := 0;
      assert cells[0..] == cells;
      while true
        invariant 0 <= i < |ring| && block == ring[i]
        invariant result + TotalMask(cells[i..]) == TotalMask(cells)
        decreases |ring| - i
      {
        assert cells[i..][0] == cells[i] && cells[i..][1..] == cells[i + 1..];
        result := result + block.sizeMask;
        block := block.next;
        assert i + 1 < |ring| ==> ring[i + 1] != ring[0];
        i := i + 1;
        if block == frontBlock {
          return;
        }
      }
    }

    // ----- dequeuing

    /** Removes and returns the oldest element of the block at the front. */
    method TakeFront() returns (x: T)
      requires Valid() && cells[0].front != cells[0].localTail
      modifies this`cells, frontBlock
      ensures Valid() && old(Contents()) == [x] + Contents()
      ensures Capacity() == old(Capacity())
    {
      hide IsPow2, Pow2, BlockRing.Contents, Elems, RingOk;
      S.RingStoreFront(cells, t, false);
      CapacityKept(cells, t, 0, Popped(cells[0]));
      ServesKept(cells, 0, Popped(cells[0]), narrowest, size);
      hide TotalMask, Serves, Apart, Circular;
      x := TakeOut();
    }

    /** Reads the slot at the front and moves the front on. */
    method TakeOut() returns (x: T)
      requires Shape() && Wf(cells[0])
      modifies this`cells, frontBlock`front
      ensures Shape() && x == old(cells)[0].data[old(cells)[0].front]
      ensures cells == old(cells)[0 := Popped(old(cells)[0])]
    {
      hide IsPow2, Pow2, BitAnd;
      var fb := frontBlock;
      MaskIncrements(fb.front, fb.data.Length);
      x := fb.data[fb.front];
      fb.front := BitAnd(fb.front + 1, fb.sizeMask);
      cells := cells[0 := Popped(cells[0])];
    }

    /** The consumer reads the tail of block j of the ring. */
    method CopyTail(ghost j: nat, b: Block<T>)
      requires Shape() && j < |ring| && ring[j] == b
      modifies this`cells, b`localTail
      ensures Shape() && cells == old(cells)[j := old(cells)[j].(localTail := old(cells)[j].tail)]
      ensures b.localTail == b.tail
    {
      hide IsPow2;
      b.localTail := b.tail;
      cells := cells[j := cells[j].(localTail := cells[j].tail)];
    }

    /** The producer reads the front of block j of the ring. */
    method CopyFront(ghost j: nat, b: Block<T>)
      requires Shape() && j < |ring| && ring[j] == b
      modifies this`cells, b`localFront
      ensures Shape() && cells == old(cells)[j := old(cells)[j].(localFront := old(cells)[j].front)]
      ensures b.localFront == b.front
    {
      hide IsPow2;
      b.localFront := b.front;
      cells := cells[j := cells[j].(localFront := cells[j].front)];
    }

    /** Refreshes the consumer's copy of the tail of block j of the ring. */
    method RefreshTail(ghost j: nat, b: Block<T>)
      requires Valid() && (j == 0 || (j == 1 && 0 < t)) && ring[j] == b
      modifies this`cells, b`localTail
      ensures Valid() && Contents() == old(Contents()) && Capacity() == old(Capacity())
      ensures cells == old(cells)[j := old(cells)[j].(localTail := old(cells)[j].tail)]
      ensures TailBound(cells[j]) && b.localTail == b.tail
    {
      hide IsPow2, Pow2, BlockRing.Contents, Elems, RingOk;
      ghost var c := cells[j].(localTail := cells[j].tail);
      S.RingLoadTail(cells, t, false, j);
      CapacityKept(cells, t, j, c);
      ServesKept(cells, j, c, narrowest, size);
      hide TotalMask, Serves, Apart, Circular;
      CopyTail(j, b);
    }

    /** Leaves the empty block at the front for the next one. */
    method AdvanceFront(nextBlock: Block<T>)
      requires Valid() && 0 < t && Empty(cells[0]) && TailBound(cells[1]) && nextBlock == ring[1]
      modifies this`cells, this`frontBlock, this`ring, this`t
      ensures Valid() && Contents() == old(Contents()) && Capacity() == old(Capacity())
      ensures ring == old(ring)[1..] + [old(ring)[0]] && cells == old(cells)[1..] + [old(cells)[0]]
    {
      hide IsPow2, Pow2, BlockRing.Contents, Elems, RingOk, TotalMask, Apart, Circular;
      S.RingAdvanceFront(cells, t, false);
      CapacityRotated(cells, t);
      RotatedRing(ring);
      frontBlock := nextBlock;
      cells := cells[1..] + [cells[0]];
      ring := ring[1..] + [ring[0]];
      t := t - 1;
      assert Shape();
    }

    /** Makes the block the oldest element is in, if there is one, the front block. */
    method FindFront() returns (found: bool)
      requires Valid()
      modifies this`cells, this`frontBlock, this`ring, this`t, ring
      ensures Valid() && Contents() == old(Contents()) && Capacity() == old(Capacity())
      ensures found == (Contents() != [])
      ensures found ==> cells[0].front != cells[0].localTail
      ensures forall b :: b in ring <==> b in old(ring)
    {
      hide IsPow2, Pow2, BlockRing.Contents, Elems, TotalMask, Serves, Circular;
      ContentsEmpty(cells, t);
      assert 0 < t ==> ring[0] != ring[t];
      var fb := frontBlock;
      if fb.front != fb.localTail {
        return true;
      }
      RefreshTail(0, fb);
      if fb.front != fb.localTail {
        return true;
      }
      if fb == tailBlock {
        return false;
      }
      found := true;
      NextFront();
    }

    /** Moves on from an empty front block that is not the tail block. */
    method NextFront()
      requires Valid() && 0 < t && Empty(cells[0])
      modifies this`cells, this`frontBlock, this`ring, this`t, ring
      ensures Valid() && Contents() == old(Contents()) && Capacity() == old(Capacity())
      ensures cells[0].front != cells[0].localTail
      ensures forall b :: b in ring <==> b in old(ring)
    {
      hide IsPow2, Pow2, BlockRing.Contents, Elems, TotalMask, Serves, Apart;
      var nextBlock := frontBlock.next;
      assert nextBlock == ring[1];
      FullElems(cells[1]);
      assert !Empty(cells[1]);
      hide RingOk, Circular, Full;
      RefreshTail(1, nextBlock);
      AdvanceFront(nextBlock);
    }

    /** `try_dequeue`: removes the oldest element; None exactly when there is none. */
    method TryDequeue() returns (r: Option<T>)
      requires Valid()
      modifies this`cells, this`frontBlock, this`ring, this`t, ring
      ensures Valid() && Capacity() == old(Capacity())
      ensures old(Contents()) == [] ==> r == None && Contents() == []
      ensures old(Contents()) != [] ==> r == Some(old(Contents())[0]) && Contents() == old(Contents())[1..]
      ensures forall b :: b in ring <==> b in old(ring)
    {
      hide IsPow2, BlockRing.Contents, RingOk, Serves, Apart, Circular, TotalMask;
      var found := FindFront();
      if !found {
        return None;
      }
      assert frontBlock in ring;
      var x := TakeFront();
      r := Some(x);
    }

    /** `pop`: the same without handing the element out. */
    method Pop() returns (ok: bool)
      requires Valid()
      modifies this`cells, this`frontBlock, this`ring, this`t, ring
      ensures Valid() && Capacity() == old(Capacity())
      ensures ok == (old(Contents()) != [])
      ensures Contents() == if ok then old(Contents())[1..] else []
      ensures forall b :: b in ring <==> b in old(ring)
    {
      hide IsPow2, BlockRing.Contents, RingOk, Serves, Apart, Circular, TotalMask;
      ok := FindFront();
      if ok {
        assert frontBlock in ring;
        var _ := TakeFront();
      }
    }

    /** `peek`: the oldest element, without moving to its block. */
    method Peek() returns (r: Option<T>)
      requires Valid()
      modifies this`cells, frontBlock`localTail
      ensures Valid() && Contents() == old(Contents()) && Capacity() == old(Capacity())
      ensures r == if Contents() == [] then None else Some(Contents()[0])
    {
      hide IsPow2, Pow2, BlockRing.Contents, Elems, TotalMask, Serves, Circular;
      S.RingOldest(cells, t, false);
      ContentsEmpty(cells, t);
      assert 0 < t ==> ring[0] != ring[t];
      var fb := frontBlock;
      if fb.front != fb.localTail {
        return Some(fb.data[fb.front]);
      }
      RefreshTail(0, fb);
      if fb.front != fb.localTail {
        return Some(fb.data[fb.front]);
      }
      if fb == tailBlock {
        return None;
      }
      r := PeekNext();
    }

    /** The oldest element when the front block is empty and not the tail block. */
    method PeekNext() returns (r: Option<T>)
      requires Valid() && 0 < t && Empty(cells[0])
      ensures Contents() != [] && r == Some(Contents()[0])
    {
      hide IsPow2, Pow2, BlockRing.Contents, Elems, TotalMask, Serves, Apart;
      S.RingOldest(cells, t, false);
      var nextBlock := frontBlock.next;
      assert nextBlock == ring[1];
      r := Some(nextBlock.data[nextBlock.front]);
    }

    // ----- enqueuing

    /** The size of the next block: they double until they are maximal. */
    ghost function NextSize(): nat
      reads this
    {
      if largestBlockSize >= maxBlockSize then largestBlockSize else largestBlockSize * 2
    }

    method NewBlockSize() returns (n: nat)
      requires Valid()
      ensures n == NextSize()
      ensures IsPow2(n) && largestBlockSize <= n <= WORD
    {
      n := if largestBlockSize >= maxBlockSize then largestBlockSize else largestBlockSize * 2;
      SmallPow2();
      if largestBlockSize < maxBlockSize {
        var k: nat :| largestBlockSize == Pow2(k);
        assert Pow2(k + 1) == n;
      }
    }

    /** Refreshes the producer's copy of front in block j of the ring. */
    method RefreshFront(ghost j: nat, b: Block<T>)
      requires Valid() && (j == t || j == t + 1 < |ring|) && ring[j] == b
      modifies this`cells, b`localFront
      ensures Valid() && Contents() == old(Contents())
      ensures Capacity() == old(Capacity()) && Free() == old(Free())
      ensures cells == old(cells)[j := old(cells)[j].(localFront := old(cells)[j].front)]
      ensures b.localFront == b.front
    {
      hide IsPow2, Pow2, BlockRing.Contents, Elems, RingOk, TotalMask;
      ghost var c := cells[j].(localFront := cells[j].front);
      S.RingLoadFront(cells, t, j);
      CapacityKept(cells, t, j, c);
      FreeKept(cells, t, j, c);
      ServesKept(cells, j, c, narrowest, size);
      hide FreeSlots, Serves, Apart, Circular;
      CopyFront(j, b);
    }

    /** Puts an element into a block with room for it. */
    method PutInto(ghost j: nat, b: Block<T>, v: T)
      requires Shape() && j < |ring| && ring[j] == b && Wf(cells[j])
      modifies this`cells, b`tail, b.data
      ensures Shape() && cells == old(cells)[j := Pushed(Written(old(cells)[j], v))]
    {
      hide IsPow2, Pow2, BitAnd, Elems;
      assert forall i :: 0 <= i < |ring| && i != j ==> ring[i] != b && ring[i].data != b.data;
      b.data[b.tail] := v;
      MaskIncrements(b.tail, b.data.Length);
      b.tail := BitAnd(b.tail + 1, b.sizeMask);
      cells := cells[j := Pushed(Written(cells[j], v))];
      assert cells[j] == b.View();
      assert forall i :: 0 <= i < |ring| ==> cells[i] == ring[i].View();
    }

    /** Room in the tail block. */
    method EnqueueHere(v: T)
      requires Valid() && Inc(cells[t].tail, |cells[t].data|) != cells[t].localFront
      modifies this`cells, tailBlock`tail, tailBlock.data
      ensures Valid() && Contents() == old(Contents()) + [v]
      ensures old(Free()) == Free() + 1 && Capacity() == old(Capacity())
    {
      hide IsPow2, Pow2, BlockRing.Contents, Elems, TotalMask, FreeSlots;
      ghost var c := Written(cells[t], v);
      RingPut(cells, t, v);
      hide RingOk;
      PutInto(t, tailBlock, v);
    }

    /** No room in the tail block, but the block after it is not the front block. */
    method EnqueueNext(v: T)
      requires Valid() && Full(cells[t]) && t + 1 < |ring|
      modifies this`cells, this`tailBlock, this`t, ring[t + 1], ring[t + 1].data
      ensures Valid() && Contents() == old(Contents()) + [v] && ring == old(ring)
      ensures old(Free()) == Free() + 1 && Capacity() == old(Capacity())
    {
      hide IsPow2, Pow2, BlockRing.Contents, Elems, TotalMask, FreeSlots, Serves, RingOk, Apart;
      var tailBlockNext := tailBlock.next;
      assert tailBlockNext == ring[t + 1];
      RefreshFront(t + 1, tailBlockNext);
      FillNext(tailBlockNext, v);
    }

    /** Fills the first slot of the empty block after the tail block, then publishes the block. */
    method FillNext(tailBlockNext: Block<T>, v: T)
      requires Valid() && Full(cells[t]) && t + 1 < |ring| && tailBlockNext == ring[t + 1]
      requires cells[t + 1].localFront == cells[t + 1].front
      modifies this`cells, this`tailBlock, this`t, tailBlockNext, tailBlockNext.data
      ensures Valid() && Contents() == old(Contents()) + [v] && ring == old(ring)
      ensures old(Free()) == Free() + 1 && Capacity() == old(Capacity())
    {
      hide IsPow2, Pow2, BlockRing.Contents, Elems, TotalMask, FreeSlots, Serves, Apart, Circular, Full,
        Pushed, Written, TailBound, FrontBound;
      RingPutNext(cells, t, v, narrowest, size);
      hide RingOk, Shape;
      PutInto(t + 1, tailBlockNext, v);
      Publish(tailBlockNext);
    }

    /** Makes the next block of the ring the tail block. */
    method Publish(tailBlockNext: Block<T>)
      requires Shape() && t + 1 < |ring| && tailBlockNext == ring[t + 1]
      modifies this`tailBlock, this`t
      ensures Shape() && t == old(t) + 1
    {
      hide IsPow2, Apart, Circular;
      tailBlock := tailBlockNext;
      t := t + 1;
    }

    /** The tail block is full and the next one is the front block: link a new one in. */
    method EnqueueNew(v: T)
      requires Valid() && Full(cells[t]) && t + 1 == |ring|
      modifies this`cells, this`tailBlock, this`t, this`ring, this`largestBlockSize, tailBlock`next
      ensures Valid() && Contents() == old(Contents()) + [v]
      ensures |ring| == |old(ring)| + 1 && old(ring) == ring[..|old(ring)|]
      ensures fresh(ring[|old(ring)|]) && fresh(ring[|old(ring)|].data)
      ensures largestBlockSize == old(NextSize())
      ensures var added := largestBlockSize - 1; Capacity() == old(Capacity()) + added && Free() == added - 1
    {
      hide IsPow2, Pow2, BlockRing.Contents, Elems, TotalMask, FreeSlots, Apart, Circular,
        TailBound, FrontBound, Dist, Full, RingOk;
      var newBlockSize := NewBlockSize();
      var newBlock := MakeFilled(newBlockSize, v);
      largestBlockSize := newBlockSize;
      hide Shape, Serves;
      LinkFilled(newBlock, v);
    }

    /** Links in a block that holds the one element v and makes it the tail block. */
    method LinkFilled(newBlock: Block<T>, v: T)
      requires Shape() && RingOk(cells, t, false) && Full(cells[t]) && t + 1 == |ring| && Serves(cells, narrowest, size)
      requires forall i :: 0 <= i < |ring| ==> ring[i] != newBlock && ring[i].data != newBlock.data
      requires newBlock.sizeMask + 1 == newBlock.data.Length <= WORD && IsPow2(newBlock.data.Length)
      requires 2 <= newBlock.data.Length && narrowest < newBlock.data.Length
      requires newBlock.View() == Cells(newBlock.View().data, 0, 1, 1, 0) && newBlock.View().data[0] == v
      modifies this`cells, this`tailBlock, this`t, this`ring, tailBlock`next, newBlock`next
      ensures Shape() && RingOk(cells, t, false) && Serves(cells, narrowest, size)
      ensures ring == old(ring) + [newBlock]
      ensures BlockRing.Contents(cells, t) == old(BlockRing.Contents(cells, t)) + [v]
      ensures FreeSlots(cells, t) == newBlock.data.Length - 2
      ensures TotalMask(cells) == old(TotalMask(cells)) + newBlock.data.Length - 1
    {
      hide IsPow2, Pow2, BlockRing.Contents, Elems, TotalMask, FreeSlots, Apart, Circular,
        TailBound, FrontBound, Dist, Full, RingOk, Serves;
      ghost var c := newBlock.View();
      RingGrow(cells, t, c, v);
      ServesMore(cells, c, narrowest, size);
      LinkAfterTail(newBlock);
    }

    /** Whether the tail block has room, going by the producer's copy of front. */
    method HasRoom(tb: Block<T>) returns (room: bool)
      requires Valid() && tb == tailBlock
      ensures room == (Inc(cells[t].tail, |cells[t].data|) != cells[t].localFront)
    {
      hide IsPow2, Pow2, BitAnd, Serves, Circular, Elems;
      assert tb == ring[t];
      MaskIncrements(tb.tail, tb.data.Length);
      room := BitAnd(tb.tail + 1, tb.sizeMask) != tb.localFront;
    }

    /** `inner_enqueue`: appends v; `mallocOk` is the outcome of an allocation, should it come to
        that.  Refused exactly when no slot is free and a new block cannot be had. */
    method InnerEnqueue(v: T, canAlloc: bool, mallocOk: bool) returns (ok: bool)
      requires Valid()
      modifies this`cells, this`tailBlock, this`t, this`ring, this`largestBlockSize, ring, set b | b in ring :: b.data
      ensures Valid()
      ensures ok <==> 0 < old(Free()) || (canAlloc && mallocOk)
      ensures Contents() == if ok then old(Contents()) + [v] else old(Contents())
      ensures 0 < old(Free()) ==> ring == old(ring) && Free() == old(Free()) - 1 && Capacity() == old(Capacity())
      ensures old(Free()) == 0 && ok ==>
        largestBlockSize == old(NextSize()) && Capacity() == old(Capacity()) + largestBlockSize - 1
      ensures 0 < old(Free()) || !ok ==> largestBlockSize == old(largestBlockSize)
      ensures !ok ==> ring == old(ring) && Free() == 0 && Capacity() == old(Capacity()) && size <= |Contents()|
      ensures forall b :: b in ring && b !in old(ring) ==> fresh(b) && fresh(b.data)
    {
      hide IsPow2, Pow2, BlockRing.Contents, Elems, TotalMask, FreeSlots, Serves, Apart, Circular,
        TailBound, FrontBound, Dist;
      RefusedIffNoSlot(cells, t);
      var tb := tailBlock;
      assert tb in ring;
      var room := HasRoom(tb);
      if room {
        EnqueueHere(v);
        return true;
      }
      RefreshFront(t, tb);
      room := HasRoom(tb);
      if room {
        EnqueueHere(v);
        return true;
      }
      ok := EnqueueBeyond(v, canAlloc, mallocOk);
    }

    /** An enqueue that finds the tail block full. */
    method EnqueueBeyond(v: T, canAlloc: bool, mallocOk: bool) returns (ok: bool)
      requires Valid() && Full(cells[t])
      modifies this`cells, this`tailBlock, this`t, this`ring, this`largestBlockSize, ring, set b | b in ring :: b.data
      ensures Valid()
      ensures ok <==> 0 < old(Free()) || (canAlloc && mallocOk)
      ensures Contents() == if ok then old(Contents()) + [v] else old(Contents())
      ensures 0 < old(Free()) ==> ring == old(ring) && Free() == old(Free()) - 1 && Capacity() == old(Capacity())
      ensures old(Free()) == 0 && ok ==>
        largestBlockSize == old(NextSize()) && Capacity() == old(Capacity()) + largestBlockSize - 1
      ensures 0 < old(Free()) || !ok ==> largestBlockSize == old(largestBlockSize)
      ensures !ok ==> ring == old(ring) && Free() == 0 && Capacity() == old(Capacity()) && size <= |Contents()|
      ensures forall b :: b in ring && b !in old(ring) ==> fresh(b) && fresh(b.data)
    {
      hide IsPow2, Pow2, BlockRing.Contents, Elems, TotalMask, FreeSlots, Full, TailBound, FrontBound,
        Dist, Serves, RingOk;
      RefusedIffNoSlot(cells, t);
      assert t + 1 < |ring| ==> ring[t + 1] != ring[0];
      if tailBlock.next != frontBlock {
        assert ring[t + 1] in ring;
        EnqueueNext(v);
        return true;
      }
      if canAlloc && mallocOk {
        assert ring[t] in ring;
        EnqueueNew(v);
        return true;
      }
      RefusalMeansEnough(cells, t, narrowest, size);
      ok := false;
    }

    /** Links a new block in after the tail block, which is the last of the ring, and makes it the
        tail block. */
    method LinkAfterTail(newBlock: Block<T>)
      requires Shape() && t + 1 == |ring|
      requires forall i :: 0 <= i < |ring| ==> ring[i] != newBlock && ring[i].data != newBlock.data
      requires newBlock.sizeMask + 1 == newBlock.data.Length <= WORD && IsPow2(newBlock.data.Length)
      modifies this`cells, this`tailBlock, this`t, this`ring, tailBlock`next, newBlock`next
      ensures Shape() && t == old(t) + 1
      ensures ring == old(ring) + [newBlock] && cells == old(cells) + [newBlock.View()]
    {
      hide IsPow2, Apart, Circular, Block.View;
      ApartMore(ring, newBlock);
      LinkIn(tailBlock, newBlock, ring);
      ghost var longer, more := ring + [newBlock], cells + [newBlock.View()];
      assert forall i :: 0 <= i < |longer| ==> more[i] == longer[i].View();
      assert forall i :: 0 <= i < |longer| ==>
        longer[i].sizeMask + 1 == longer[i].data.Length <= WORD && IsPow2(longer[i].data.Length);
      cells := more;
      ring := longer;
      tailBlock := newBlock;
      t := t + 1;
    }
  }

  /** A new block that already holds one element. */
  method MakeFilled<T(0)>(blockSize: nat, v: T) returns (b: Block<T>)
    requires 2 <= blockSize <= WORD
    ensures fresh(b) && fresh(b.data) && b.data.Length == blockSize == b.sizeMask + 1
    ensures b.View() == Cells(b.View().data, 0, 1, 1, 0) && b.View().data[0] == v
  {
    b := new Block<T>(blockSize);
    b.data[0] := v;
    b.tail := 1;
    b.localTail := 1;
  }

  lemma OneElem<T>(c: Cells<T>, v: T)
    requires 2 <= |c.data| && c == Cells(c.data, 0, 1, 1, 0) && c.data[0] == v
    ensures Wf(c) && Elems(c) == [v] && FrontBound(c)
  {
  }

  /** What `EnqueueNew` does to the ring. */
  lemma RingGrow<T>(cs: seq<Cells<T>>, t: nat, c: Cells<T>, v: T)
    requires RingOk(cs, t, false) && Full(cs[t]) && t + 1 == |cs|
    requires 2 <= |c.data| && c == Cells(c.data, 0, 1, 1, 0) && c.data[0] == v
    ensures RingOk(cs + [c], t + 1, false)
    ensures BlockRing.Contents(cs + [c], t + 1) == BlockRing.Contents(cs, t) + [v]
    ensures FreeSlots(cs + [c], t + 1) == |c.data| - 2
    ensures TotalMask(cs + [c]) == TotalMask(cs) + |c.data| - 1
  {
    hide BlockRing.Contents, TotalMask, FreeSlots, Elems;
    var ds := cs + [c];
    OneElem(c, v);
    NewBlockSlots(cs, t, c);
    assert cs[..t + 1] + [c] + cs[t + 1..] == ds && ds[t] == cs[t] && ds[t + 1] == c;
    S.RingLink(cs, t, c);
    hide RingOk;
    S.RingAdvanceTail(ds, t);
  }

  /** What `EnqueueHere` does to the ring. */
  lemma RingPut<T>(cs: seq<Cells<T>>, t: nat, v: T)
    requires RingOk(cs, t, false) && Inc(cs[t].tail, |cs[t].data|) != cs[t].localFront
    ensures var c := Pushed(Written(cs[t], v));
      && RingOk(cs[t := c], t, false) && |c.data| == |cs[t].data|
      && BlockRing.Contents(cs[t := c], t) == BlockRing.Contents(cs, t) + [v]
      && FreeSlots(cs, t) == FreeSlots(cs[t := c], t) + 1
      && TotalMask(cs[t := c]) == TotalMask(cs)
  {
    hide BlockRing.Contents, Elems, TotalMask, FreeSlots;
    var w := Written(cs[t], v);
    S.RingWrite(cs, t, t, v);
    S.RingStoreTail(cs[t := w], t);
    WrittenElems(cs[t], v);
    PushedElems(w);
    FreeSlotsHere(cs, t, Pushed(w));
    assert cs[t := w][t := Pushed(w)] == cs[t := Pushed(w)];
  }

  /** What `EnqueueNext` does to the ring. */
  lemma RingPutNext<T>(cs: seq<Cells<T>>, t: nat, v: T, m: nat, size: nat)
    requires Serves(cs, m, size)
    requires RingOk(cs, t, false) && t + 1 < |cs| && Full(cs[t]) && cs[t + 1].localFront == cs[t + 1].front
    ensures var c := Pushed(Written(cs[t + 1], v));
      && Serves(cs[t + 1 := c], m, size) && RingOk(cs[t + 1 := c], t + 1, false) && |c.data| == |cs[t + 1].data|
      && BlockRing.Contents(cs[t + 1 := c], t + 1) == BlockRing.Contents(cs, t) + [v]
      && FreeSlots(cs, t) == FreeSlots(cs[t + 1 := c], t + 1) + 1
      && TotalMask(cs[t + 1 := c]) == TotalMask(cs)
  {
    hide BlockRing.Contents, Elems, TotalMask, FreeSlots;
    var w := Written(cs[t + 1], v);
    S.RingWrite(cs, t, t + 1, v);
    S.RingFillNext(cs[t + 1 := w], t);
    S.RingAdvanceTail(cs[t + 1 := Pushed(w)], t);
    FreeSlotsNext(cs, t, Pushed(w));
    ServesKept(cs, t + 1, Pushed(w), m, size);
    assert cs[t + 1 := w][t + 1 := Pushed(w)] == cs[t + 1 := Pushed(w)];
  }

  /** From any empty state exactly `max_capacity` calls of `try_enqueue` in a row succeed. */
  method FillFromEmpty<T(0)>(q: Queue<T>, v: T) returns (n: nat)
    requires q.Valid() && q.Contents() == []
    modifies q, q.ring, set b | b in q.ring :: b.data
    ensures q.Valid() && n == old(q.Capacity()) == |q.Contents()|
    ensures forall k :: 0 <= k < n ==> q.Contents()[k] == v
    ensures q.Free() == 0
  {
    hide Queue.Valid, Queue.Contents, Queue.Free, Queue.Capacity;
    q.EmptyIsFree();
    n := 0;
    var ok := true;
    while ok
      invariant q.Valid() && q.ring == old(q.ring)
      invariant |q.Contents()| == n && forall k :: 0 <= k < n ==> q.Contents()[k] == v
      invariant n + q.Free() == q.Capacity() == old(q.Capacity())
      invariant !ok ==> q.Free() == 0
      decreases q.Free(), ok
    {
      ok := q.InnerEnqueue(v, false, true);
      if ok {
        n := n + 1;
      }
    }
  }
}
