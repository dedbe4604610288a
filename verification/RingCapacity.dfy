/**
 How many elements a ring of blocks can take: each block one less than its size, and none
 into the consumer's block once the producer has left it.
 */
module RingCapacity {
  import opened BlockRing
  import BitTricks

  /** The element slots of all blocks together. */
  ghost function TotalMask<T>(cs: seq<Cells<T>>): nat
    requires forall i :: 0 <= i < |cs| ==> Wf(cs[i])
  {
    if cs == [] then 0 else assert Wf(cs[0]); |cs[0].data| - 1 + TotalMask(cs[1..])
  }

  /** How many enqueues succeed from here without an allocation, if nothing is dequeued. */
  ghost function FreeSlots<T>(cs: seq<Cells<T>>, t: nat): nat
    requires t < |cs| && forall i :: 0 <= i < |cs| ==> Wf(cs[i])
  {
    |cs[t].data| - 1 - |Elems(cs[t])| + TotalMask(cs[t + 1..])
  }

  /** Blocks that are all at least m elements wide, and enough of them for `size` elements even
      when the consumer's block can take none. */
  ghost predicate Serves<T>(cs: seq<Cells<T>>, m: nat, size: nat) {
    && (forall i :: 0 <= i < |cs| ==> m < |cs[i].data|)
    && size <= m * (if |cs| <= 1 then 1 else |cs| - 1)
  }

  lemma {:induction false} TotalMaskSame<T>(cs: seq<Cells<T>>, ds: seq<Cells<T>>)
    requires |cs| == |ds|
    requires forall i :: 0 <= i < |cs| ==> Wf(cs[i]) && Wf(ds[i]) && |cs[i].data| == |ds[i].data|
    ensures TotalMask(cs) == TotalMask(ds)
  {
    if cs != [] {
      TotalMaskSame(cs[1..], ds[1..]);
    }
  }

  lemma FreeSlotsHere<T>(cs: seq<Cells<T>>, t: nat, c: Cells<T>)
    requires t < |cs| && forall i :: 0 <= i < |cs| ==> Wf(cs[i])
    requires Wf(c) && |c.data| == |cs[t].data| && |Elems(c)| == |Elems(cs[t])| + 1
    ensures FreeSlots(cs, t) == FreeSlots(cs[t := c], t) + 1
    ensures TotalMask(cs[t := c]) == TotalMask(cs)
  {
    hide Elems;
    assert cs[t := c][t + 1..] == cs[t + 1..];
    TotalMaskSame(cs, cs[t := c]);
  }

  lemma FreeSlotsNext<T>(cs: seq<Cells<T>>, t: nat, c: Cells<T>)
    requires t + 1 < |cs| && (forall i :: 0 <= i < |cs| ==> Wf(cs[i])) && Full(cs[t])
    requires Wf(c) && |c.data| == |cs[t + 1].data| && |Elems(c)| == 1
    ensures FreeSlots(cs, t) == FreeSlots(cs[t + 1 := c], t + 1) + 1
    ensures TotalMask(cs[t + 1 := c]) == TotalMask(cs)
  {
    hide Elems;
    FullElems(cs[t]);
    assert cs[t + 1..][1..] == cs[t + 2..] == cs[t + 1 := c][t + 2..];
    TotalMaskSame(cs, cs[t + 1 := c]);
  }

  /** Exactly when the producer's block is full and the next one is the consumer's, an enqueue
      without allocation is refused. */
  lemma RefusedIffNoSlot<T>(cs: seq<Cells<T>>, t: nat)
    requires RingOk(cs, t, false)
    ensures FreeSlots(cs, t) == 0 <==> Full(cs[t]) && t + 1 == |cs|
  {
    if t + 1 < |cs| {
      assert TotalMask(cs[t + 1..]) >= |cs[t + 1].data| - 1;
    }
  }

  /** In an empty queue every slot of every block is free. */
  lemma EmptyFreeSlots<T>(cs: seq<Cells<T>>, t: nat)
    requires RingOk(cs, t, false) && Contents(cs, t) == []
    ensures FreeSlots(cs, t) == TotalMask(cs)
  {
    hide Contents;
    ContentsEmpty(cs, t);
  }

  lemma {:induction false} FlattenAtLeast<A>(ps: seq<seq<A>>, m: nat)
    requires forall i :: 0 <= i < |ps| ==> m <= |ps[i]|
    ensures m * |ps| <= |Flatten(ps)|
  {
    if ps != [] {
      FlattenAtLeast(ps[1..], m);
      BitTricks.MulStep(m, |ps| - 1);
    }
  }

  /** A ring built for `size` elements that refuses holds at least that many. */
  lemma RefusalMeansEnough<T>(cs: seq<Cells<T>>, t: nat, m: nat, size: nat)
    requires RingOk(cs, t, false) && Serves(cs, m, size) && FreeSlots(cs, t) == 0
    ensures size <= |Contents(cs, t)|
  {
    hide Elems, FreeSlots;
    RefusedIffNoSlot(cs, t);
    var ps := Parts(cs);
    assert ps[..t + 1] == ps;
    forall i | 0 < i < |ps| || i == t
      ensures m <= |ps[i]|
    {
      FullElems(cs[i]);
    }
    if t == 0 {
      FlattenAtLeast(ps, m);
    } else {
      FlattenAtLeast(ps[1..], m);
    }
  }

  /** The elements of the blocks up to i, counted block by block. */
  ghost function CountUpTo<T>(cs: seq<Cells<T>>, i: nat): nat
    requires i <= |cs| && forall j :: 0 <= j < |cs| ==> Wf(cs[j])
  {
    |Flatten(Parts(cs)[..i])|
  }

  lemma CountNext<T>(cs: seq<Cells<T>>, i: nat)
    requires i < |cs| && forall j :: 0 <= j < |cs| ==> Wf(cs[j])
    ensures CountUpTo(cs, i + 1) == CountUpTo(cs, i) + Dist(cs[i].front, cs[i].tail, |cs[i].data|)
  {
    hide Elems, Dist;
    var ps := Parts(cs);
    assert ps[..i + 1] == ps[..i] + [ps[i]];
    FlattenLast(ps[..i], ps[i]);
  }

  /** Counting all blocks counts the contents. */
  lemma CountAll<T>(cs: seq<Cells<T>>, t: nat)
    requires RingOk(cs, t, false)
    ensures CountUpTo(cs, |cs|) == |Contents(cs, t)|
  {
    var ps := Parts(cs);
    assert ps[..|cs|] == ps[..t + 1] + ps[t + 1..];
    FlattenSplit(ps[..t + 1], ps[t + 1..]);
    FlattenEmpties(ps[t + 1..]);
  }

  lemma {:induction false} TotalMaskSplit<T>(xs: seq<Cells<T>>, ys: seq<Cells<T>>)
    requires forall i :: 0 <= i < |xs| ==> Wf(xs[i])
    requires forall i :: 0 <= i < |ys| ==> Wf(ys[i])
    ensures TotalMask(xs + ys) == TotalMask(xs) + TotalMask(ys)
  {
    if xs == [] {
      assert xs + ys == ys;
    } else {
      TotalMaskSplit(xs[1..], ys);
      assert (xs + ys)[1..] == xs[1..] + ys;
    }
  }

  /** A new block after the producer's, holding one element, leaves the rest free. */
  lemma NewBlockSlots<T>(cs: seq<Cells<T>>, t: nat, c: Cells<T>)
    requires t + 1 == |cs| && (forall i :: 0 <= i < |cs| ==> Wf(cs[i]))
    requires Wf(c) && |Elems(c)| == 1
    ensures FreeSlots(cs + [c], t + 1) == |c.data| - 2
    ensures TotalMask(cs + [c]) == TotalMask(cs) + |c.data| - 1
  {
    hide Elems;
    TotalMaskSplit(cs, [c]);
    assert TotalMask([c]) == |c.data| - 1 + TotalMask([c][1..]);
    assert (cs + [c])[t + 2..] == [];
  }

  /** An update of a block keeps the capacity. */
  lemma CapacityKept<T>(cs: seq<Cells<T>>, t: nat, j: nat, c: Cells<T>)
    requires RingOk(cs, t, false) && j < |cs| && Wf(c) && |c.data| == |cs[j].data|
    ensures TotalMask(cs[j := c]) == TotalMask(cs)
  {
    TotalMaskSame(cs, cs[j := c]);
  }

  /** So does moving on to the next front block. */
  lemma CapacityRotated<T>(cs: seq<Cells<T>>, t: nat)
    requires RingOk(cs, t, false)
    ensures TotalMask(cs[1..] + [cs[0]]) == TotalMask(cs)
  {
    hide TotalMask;
    TotalMaskSplit(cs[..1], cs[1..]);
    TotalMaskSplit(cs[1..], cs[..1]);
    assert cs == cs[..1] + cs[1..] && cs[1..] + [cs[0]] == cs[1..] + cs[..1];
  }

  /** An update that keeps a block's elements keeps the free slots. */
  lemma FreeKept<T>(cs: seq<Cells<T>>, t: nat, j: nat, c: Cells<T>)
    requires RingOk(cs, t, false) && t <= j < |cs|
    requires Wf(c) && |c.data| == |cs[j].data| && |Elems(c)| == |Elems(cs[j])|
    ensures FreeSlots(cs[j := c], t) == FreeSlots(cs, t)
  {
    hide Elems;
    TotalMaskSame(cs[t + 1..], cs[j := c][t + 1..]);
  }

  lemma ServesKept<T>(cs: seq<Cells<T>>, j: nat, c: Cells<T>, m: nat, size: nat)
    requires j < |cs| && Serves(cs, m, size) && |c.data| == |cs[j].data|
    ensures Serves(cs[j := c], m, size)
  {
  }

  /** One more block that is wide enough serves at least as well. */
  lemma ServesMore<T>(cs: seq<Cells<T>>, c: Cells<T>, m: nat, size: nat)
    requires cs != [] && Serves(cs, m, size) && m < |c.data|
    ensures Serves(cs + [c], m, size)
  {
    var k := if |cs| <= 1 then 1 else |cs| - 1;
    assert m * k <= m * |cs|;
  }

  lemma CountNone<T>(cs: seq<Cells<T>>)
    requires forall i :: 0 <= i < |cs| ==> Wf(cs[i])
    ensures CountUpTo(cs, 0) == 0
  {
  }

  lemma {:induction false} TotalMaskAtLeast<T>(cs: seq<Cells<T>>, m: nat)
    requires forall i :: 0 <= i < |cs| ==> Wf(cs[i]) && m < |cs[i].data|
    ensures m * |cs| <= TotalMask(cs)
  {
    if cs != [] {
      TotalMaskAtLeast(cs[1..], m);
      BitTricks.MulStep(m, |cs| - 1);
    }
  }

  /** A ring that serves `size` elements has at least that many slots. */
  lemma ServesAtLeast<T>(cs: seq<Cells<T>>, m: nat, size: nat)
    requires cs != [] && Serves(cs, m, size) && forall i :: 0 <= i < |cs| ==> Wf(cs[i])
    ensures size <= TotalMask(cs)
  {
    hide TotalMask;
    TotalMaskAtLeast(cs, m);
    BitTricks.MulMono(if |cs| <= 1 then 1 else |cs| - 1, |cs|, m);
  }
}
