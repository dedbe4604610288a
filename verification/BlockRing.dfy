/**
 The storage of the single-producer single-consumer queue as plain values: circular
 blocks (`Cells`) and the circular list of blocks seen from the block the consumer is at.

 A block of size n holds at most n - 1 elements: front == tail means empty.  In a ring
 view `cs`, cs[0] is the consumer's block and cs[t] the producer's; the queue's contents
 are the segments of cs[0], ..., cs[t] in that order.
 */
module BlockRing {
  import BitTricks

  /** One block: its buffer, the two published indices, and the stale copy that each
      thread keeps of the other thread's index. */
  datatype Cells<T> = Cells(data: seq<T>, front: nat, localTail: nat, tail: nat, localFront: nat)

  ghost predicate Wf<T>(c: Cells<T>) {
    && 2 <= |c.data|
    && c.front < |c.data| && c.tail < |c.data|
    && c.localTail < |c.data| && c.localFront < |c.data|
  }

  /** The next index in a buffer of size n (what `(i + 1) & sizeMask` computes). */
  function Inc(i: nat, n: nat): (r: nat)
    requires i < n
    ensures r < n
    ensures r == (i + 1) % n
  {
    if i + 1 == n then 0 else (BitTricks.ModSmall(i + 1, n); i + 1)
  }

  /** How many increments lead from index f to index t. */
  function Dist(f: nat, t: nat, n: nat): (d: nat)
    requires f < n && t < n
    ensures d < n
    ensures d == 0 <==> f == t
  {
    if f <= t then t - f else t + n - f
  }

  /** The elements a block holds, oldest first. */
  function Elems<T>(c: Cells<T>): (es: seq<T>)
    requires Wf(c)
    ensures |es| == Dist(c.front, c.tail, |c.data|)
  {
    if c.front <= c.tail then c.data[c.front..c.tail] else c.data[c.front..] + c.data[..c.tail]
  }

  predicate Empty<T>(c: Cells<T>) {
    c.front == c.tail
  }

  ghost predicate Full<T>(c: Cells<T>)
    requires Wf(c)
  {
    Inc(c.tail, |c.data|) == c.front
  }

  /** The consumer's copy of tail lies between front and the real tail. */
  ghost predicate TailBound<T>(c: Cells<T>)
    requires Wf(c)
  {
    Dist(c.front, c.localTail, |c.data|) <= Dist(c.front, c.tail, |c.data|)
  }

  /** The producer's copy of front is a front index the consumer has already passed. */
  ghost predicate FrontBound<T>(c: Cells<T>)
    requires Wf(c)
  {
    Dist(c.front, c.tail, |c.data|) <= Dist(c.localFront, c.tail, |c.data|)
  }

  function Written<T>(c: Cells<T>, v: T): Cells<T>
    requires Wf(c)
  {
    c.(data := c.data[c.tail := v])
  }

  function Pushed<T>(c: Cells<T>): Cells<T>
    requires Wf(c)
  {
    c.(tail := Inc(c.tail, |c.data|))
  }

  function Popped<T>(c: Cells<T>): Cells<T>
    requires Wf(c)
  {
    c.(front := Inc(c.front, |c.data|))
  }

  /** The stale copies play no part in what a block holds. */
  lemma CopiesElems<T>(c: Cells<T>, lt: nat, lf: nat)
    requires Wf(c) && lt < |c.data| && lf < |c.data|
    ensures Wf(c.(localTail := lt, localFront := lf)) && Elems(c.(localTail := lt, localFront := lf)) == Elems(c)
  {
  }

  lemma WrittenElems<T>(c: Cells<T>, v: T)
    requires Wf(c)
    ensures Wf(Written(c, v)) && Elems(Written(c, v)) == Elems(c)
  {
  }

  lemma PushedElems<T>(c: Cells<T>)
    requires Wf(c) && !Full(c)
    ensures Wf(Pushed(c)) && Elems(Pushed(c)) == Elems(c) + [c.data[c.tail]]
  {
  }

  lemma PoppedElems<T>(c: Cells<T>)
    requires Wf(c) && !Empty(c)
    ensures Wf(Popped(c)) && Elems(c) == [c.data[c.front]] + Elems(Popped(c))
  {
  }

  function Flatten<A>(parts: seq<seq<A>>): seq<A> {
    if parts == [] then [] else parts[0] + Flatten(parts[1..])
  }

  lemma FlattenFirst<A>(ps: seq<seq<A>>)
    requires ps != []
    ensures Flatten(ps) == ps[0] + Flatten(ps[1..])
  {
  }

  lemma Assoc<A>(a: seq<A>, b: seq<A>, c: seq<A>)
    ensures (a + b) + c == a + (b + c)
  {
  }

  lemma {:induction false} FlattenSplit<A>(xs: seq<seq<A>>, ys: seq<seq<A>>)
    ensures Flatten(xs + ys) == Flatten(xs) + Flatten(ys)
  {
    if xs == [] {
      assert xs + ys == ys;
    } else {
      hide Flatten;
      assert (xs + ys)[1..] == xs[1..] + ys;
      FlattenSplit(xs[1..], ys);
      FlattenFirst(xs);
      FlattenFirst(xs + ys);
      Assoc(xs[0], Flatten(xs[1..]), Flatten(ys));
    }
  }

  lemma FlattenLast<A>(xs: seq<seq<A>>, x: seq<A>)
    ensures Flatten(xs + [x]) == Flatten(xs) + x
  {
    FlattenSplit(xs, [x]);
    assert Flatten([x]) == x + Flatten([x][1..]);
  }

  lemma {:induction false} FlattenEmpties<A>(ps: seq<seq<A>>)
    requires forall i :: 0 <= i < |ps| ==> ps[i] == []
    ensures Flatten(ps) == []
  {
    if ps != [] {
      FlattenEmpties(ps[1..]);
    }
  }

  /** The elements of each block of a ring. */
  ghost function Parts<T>(cs: seq<Cells<T>>): (ps: seq<seq<T>>)
    requires forall i :: 0 <= i < |cs| ==> Wf(cs[i])
    ensures |ps| == |cs|
    ensures forall i :: 0 <= i < |cs| ==> ps[i] == Elems(cs[i])
  {
    seq(|cs|, i requires 0 <= i < |cs| => Elems(cs[i]))
  }

  /** The shape every ring keeps.  `pend` says that the block after the producer's block
      has already been filled but is not published yet. */
  ghost predicate RingOk<T>(cs: seq<Cells<T>>, t: nat, pend: bool) {
    && t + (if pend then 1 else 0) < |cs|
    && (forall i :: 0 <= i < |cs| ==> Wf(cs[i]))
    && (forall i :: 0 < i < t ==> Full(cs[i]))
    && (0 < t ==> !Empty(cs[t]))
    && (forall i :: (if pend then t + 1 else t) < i < |cs| ==> Empty(cs[i]))
    && TailBound(cs[0])
    && FrontBound(cs[t])
  }

  /** What the queue holds. */
  ghost function Contents<T>(cs: seq<Cells<T>>, t: nat): seq<T>
    requires t < |cs| && forall i :: 0 <= i < |cs| ==> Wf(cs[i])
  {
    Flatten(Parts(cs)[..t + 1])
  }

  // ----- the changes of a ring, and what they do to its contents

  lemma FullElems<T>(c: Cells<T>)
    requires Wf(c)
    ensures Full(c) <==> |Elems(c)| == |c.data| - 1
    ensures Full(c) ==> !Empty(c)
  {
  }

  /** Publishing one more slot of the producer's block appends that slot. */
  lemma ContentsPush<T>(cs: seq<Cells<T>>, t: nat)
    requires t < |cs| && forall i :: 0 <= i < |cs| ==> Wf(cs[i])
    requires !Full(cs[t])
    ensures Wf(Pushed(cs[t]))
    ensures Contents(cs[t := Pushed(cs[t])], t) == Contents(cs, t) + [cs[t].data[cs[t].tail]]
  {
    hide Elems, Flatten, Full, Dist;
    PushedElems(cs[t]);
    var ps, qs := Parts(cs), Parts(cs[t := Pushed(cs[t])]);
    assert ps[..t + 1] == ps[..t] + [ps[t]];
    assert qs[..t + 1] == ps[..t] + [qs[t]];
    FlattenLast(ps[..t], ps[t]);
    FlattenLast(ps[..t], qs[t]);
  }

  /** Advancing front of the consumer's block removes the oldest element. */
  lemma ContentsPop<T>(cs: seq<Cells<T>>, t: nat)
    requires t < |cs| && forall i :: 0 <= i < |cs| ==> Wf(cs[i])
    requires !Empty(cs[0])
    ensures Wf(Popped(cs[0]))
    ensures Contents(cs, t) == [cs[0].data[cs[0].front]] + Contents(cs[0 := Popped(cs[0])], t)
  {
    hide Elems, Flatten, Dist;
    PoppedElems(cs[0]);
    var ps, qs := Parts(cs)[..t + 1], Parts(cs[0 := Popped(cs[0])])[..t + 1];
    FlattenFirst(ps);
    FlattenFirst(qs);
    assert ps[1..] == qs[1..];
    assert ps[0] == [cs[0].data[cs[0].front]] + qs[0];
  }

  /** Publishing the next block appends that block's elements. */
  lemma ContentsAdvanceTail<T>(cs: seq<Cells<T>>, t: nat)
    requires t + 1 < |cs| && forall i :: 0 <= i < |cs| ==> Wf(cs[i])
    ensures Contents(cs, t + 1) == Contents(cs, t) + Elems(cs[t + 1])
  {
    hide Elems, Flatten;
    var ps := Parts(cs);
    assert ps[..t + 2] == ps[..t + 1] + [ps[t + 1]];
    FlattenLast(ps[..t + 1], ps[t + 1]);
  }

  /** Leaving an empty front block keeps the contents. */
  lemma ContentsAdvanceFront<T>(cs: seq<Cells<T>>, t: nat)
    requires 0 < t < |cs| && forall i :: 0 <= i < |cs| ==> Wf(cs[i])
    requires Empty(cs[0])
    ensures Contents(cs[1..] + [cs[0]], t - 1) == Contents(cs, t)
  {
    var ps, qs := Parts(cs), Parts(cs[1..] + [cs[0]]);
    assert ps[..t + 1][0] == [];
    hide Elems;
    FlattenFirst(ps[..t + 1]);
    hide Flatten;
    assert qs[..t] == ps[..t + 1][1..];
  }

  /** A change of one block that keeps that block's elements keeps the contents. */
  lemma ContentsKeep<T>(cs: seq<Cells<T>>, t: nat, j: nat, c: Cells<T>)
    requires t < |cs| && j < |cs| && forall i :: 0 <= i < |cs| ==> Wf(cs[i])
    requires Wf(c) && (j <= t ==> Elems(c) == Elems(cs[j]))
    ensures Contents(cs[j := c], t) == Contents(cs, t)
  {
    hide Elems, Flatten;
    assert Parts(cs)[..t + 1] == Parts(cs[j := c])[..t + 1];
  }

  /** Linking a new block in after the producer's block keeps the contents. */
  lemma ContentsInsert<T>(cs: seq<Cells<T>>, t: nat, c: Cells<T>)
    requires t < |cs| && Wf(c) && forall i :: 0 <= i < |cs| ==> Wf(cs[i])
    ensures Contents(cs[..t + 1] + [c] + cs[t + 1..], t) == Contents(cs, t)
  {
    hide Elems, Flatten;
    assert Parts(cs)[..t + 1] == Parts(cs[..t + 1] + [c] + cs[t + 1..])[..t + 1];
  }

  lemma ContentsLast<T>(cs: seq<Cells<T>>, t: nat)
    requires t < |cs| && forall i :: 0 <= i < |cs| ==> Wf(cs[i])
    ensures Contents(cs, t) == Flatten(Parts(cs)[..t]) + Elems(cs[t])
  {
    hide Elems, Flatten;
    var ps := Parts(cs);
    assert ps[..t + 1] == ps[..t] + [ps[t]];
    FlattenLast(ps[..t], ps[t]);
  }

  /** The queue is empty exactly when both threads are at the same, empty block. */
  lemma ContentsEmpty<T>(cs: seq<Cells<T>>, t: nat)
    requires t < |cs| && forall i :: 0 <= i < |cs| ==> Wf(cs[i])
    requires 0 < t ==> !Empty(cs[t])
    ensures Contents(cs, t) == [] <==> t == 0 && Empty(cs[0])
  {
    hide Elems, Contents;
    ContentsLast(cs, t);
    assert |Elems(cs[t])| == 0 <==> Empty(cs[t]);
  }

  /** A ring of untouched blocks is in shape and holds nothing. */
  lemma EmptyRing<T>(cs: seq<Cells<T>>)
    requires cs != []
    requires forall i :: 0 <= i < |cs| ==> 2 <= |cs[i].data| && cs[i] == Cells(cs[i].data, 0, 0, 0, 0)
    ensures RingOk(cs, 0, false) && Contents(cs, 0) == []
  {
    FlattenEmpties(Parts(cs)[..1]);
  }
}
