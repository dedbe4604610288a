/**
 What whole calls of the blocking queue do, and what all of them together return.
 */
module BlockingCalls {
  import Q = SpscQueue
  import S = Semaphore
  import W = SemaphoreCalls
  import C = SpscCalls
  import opened BlockingQueue
  import opened BlockRing
  import opened Options

  // ----- enqueue

  ghost predicate SeesFront<T>(s: State<T>, a: Action<T>) {
    a.InnerEnqueue? && C.SeesFront(s.q, Q.ProducerMove(a.mem))
  }

  ghost predicate DeniedMemory<T>(s: State<T>, a: Action<T>) {
    a.InnerEnqueue? && C.DeniedMemory(s.q, Q.ProducerMove(a.mem))
  }

  ghost function Noted<T>(c: C.Call<T>, s: State<T>, a: Action<T>): C.Call<T> {
    c.(sawFront := c.sawFront || SeesFront(s, a), denied := c.denied || DeniedMemory(s, a))
  }

  /** Whether a call that has come to its end was refused. */
  predicate Refused<T>(c: C.Call<T>) {
    c.sawFront && (!c.alloc || c.denied)
  }

  /** How far the call has come. */
  ghost predicate During<T>(s: State<T>, c: C.Call<T>) {
    match s.pm
    case PRest => false
    case PInner => C.During(s.q, c)
    case PSignal => !Refused(c) && s.q.enq == c.before + [c.v]
    case PReturn(ok) => (ok <==> !Refused(c)) && s.q.enq == c.before + if ok then [c.v] else []
  }

  lemma EnqueueBegins<T>(s: State<T>, a: Action<T>, s': State<T>)
    requires a.BeginEnqueue? && Next(s, a, s')
    ensures During(s', C.Started(s.q, a.v, a.alloc))
  {
    hide Q.Next, C.During;
    C.EnqueueBegins(s.q, Q.BeginEnqueue(a.v, a.alloc), s'.q);
  }

  /** A step of the producer's thread. */
  lemma ProducerStep<T>(s: State<T>, a: Action<T>, s': State<T>, c: C.Call<T>)
    requires Modes(s) && Next(s, a, s') && During(s, c) && s'.pm != PRest
    requires a.InnerEnqueue? || a.AfterEnqueue? || a.Signal? || a.AfterSignal? || a.EndEnqueue?
    ensures During(s', Noted(c, s, a))
  {
    hide Contents, S.Next;
    if a.InnerEnqueue? {
      InnerStep(s, Q.ProducerMove(a.mem), s'.q, c);
    }
  }

  lemma InnerStep<T>(s: State<T>, a: Q.Action<T>, q': Q.State<T>, c: C.Call<T>)
    requires s.pm.PInner? && C.During(s.q, c) && Q.Next(s.q, a, q') && !a.ProducerReturn?
    ensures C.During(q', C.Noted(c, s.q, a)) && !q'.p.PIdle?
  {
    hide Contents, Q.MemTyped, Q.ProducerTyped, Q.ConsumerTyped;
    if a.ProducerMove? {
      Q.ProducerMoveEffect(s.q, a.mem, q');
    }
    hide C.During;
    C.EnqueueStep(s.q, a, q', c);
  }

  /** The step of the inner queue in a step of the consumer's thread. */
  function ConsumersInner<T>(a: Action<T>): Q.Action<T> {
    match a
    case AfterWait => Q.BeginDequeue(false)
    case BeginPeek => Q.BeginDequeue(true)
    case AfterDequeue => Q.ConsumerReturn
    case EndPeek => Q.ConsumerReturn
    case _ => Q.ConsumerMove
  }

  predicate ByConsumer<T>(a: Action<T>) {
    || a.BeginDequeue? || a.WaitForToken? || a.AfterWait? || a.InnerDequeue? || a.AfterDequeue? || a.EndDequeue?
    || a.BeginPeek? || a.InnerPeek? || a.EndPeek?
  }

  lemma ConsumerInside<T>(s: State<T>, a: Action<T>, s': State<T>)
    requires Next(s, a, s') && ByConsumer(a)
    ensures s'.pm == s.pm && s'.q.enq == s.q.enq
    ensures s'.q == s.q || Q.Next(s.q, ConsumersInner(a), s'.q)
  {
    hide Contents, S.Next, Q.MemTyped, Q.ProducerTyped, Q.ConsumerTyped, Q.ConsumerStep;
    if a.InnerDequeue? || a.InnerPeek? {
      Q.ConsumerMoveEffect(s.q, s'.q);
    }
  }

  /** A step of the consumer's thread does not touch the producer's call. */
  lemma ConsumerStep<T>(s: State<T>, a: Action<T>, s': State<T>, c: C.Call<T>)
    requires Next(s, a, s') && During(s, c) && ByConsumer(a)
    ensures During(s', c) && s'.pm != PRest
  {
    hide Next, Q.Next, C.During;
    ConsumerInside(s, a, s');
    if s.pm.PInner? && s'.q != s.q {
      InnerStep(s, ConsumersInner(a), s'.q, c);
    }
  }

  /** The call of enqueue that step b begins is not over at state i. */
  ghost predicate EnqueueCall<T>(ss: seq<State<T>>, acts: seq<Action<T>>, b: nat, i: nat) {
    && |ss| == |acts| + 1 && b < i < |ss|
    && acts[b].BeginEnqueue?
    && forall k :: b < k <= i ==> ss[k].pm != PRest
  }

  ghost predicate SawFront<T>(ss: seq<State<T>>, acts: seq<Action<T>>, b: nat, i: nat)
    requires i < |ss| == |acts| + 1
  {
    exists j :: b < j < i && SeesFront(ss[j], acts[j])
  }

  ghost predicate WasDenied<T>(ss: seq<State<T>>, acts: seq<Action<T>>, b: nat, i: nat)
    requires i < |ss| == |acts| + 1
  {
    exists j :: b < j < i && DeniedMemory(ss[j], acts[j])
  }

  /** The call that step b began, as it stands at state i. */
  ghost function CallAt<T>(ss: seq<State<T>>, acts: seq<Action<T>>, b: nat, i: nat): C.Call<T>
    requires EnqueueCall(ss, acts, b, i)
  {
    C.Started(ss[b].q, acts[b].v, acts[b].alloc).(sawFront := SawFront(ss, acts, b, i),
                                                  denied := WasDenied(ss, acts, b, i))
  }

  lemma CallNext<T>(ss: seq<State<T>>, acts: seq<Action<T>>, b: nat, i: nat)
    requires EnqueueCall(ss, acts, b, i) && i < |acts| && ss[i + 1].pm != PRest
    ensures CallAt(ss, acts, b, i + 1) == Noted(CallAt(ss, acts, b, i), ss[i], acts[i])
  {
    hide SeesFront, DeniedMemory;
    assert SawFront(ss, acts, b, i + 1) <==> SawFront(ss, acts, b, i) || SeesFront(ss[i], acts[i]);
    assert WasDenied(ss, acts, b, i + 1) <==> WasDenied(ss, acts, b, i) || DeniedMemory(ss[i], acts[i]);
  }

  lemma NoSecondCall<T>(s: State<T>, a: Action<T>, s': State<T>, c: C.Call<T>)
    requires Next(s, a, s') && During(s, c)
    ensures !a.BeginEnqueue?
  {
    hide Q.Next, S.Next, C.During;
  }

  lemma EnqueueStep<T>(s: State<T>, a: Action<T>, s': State<T>, c: C.Call<T>)
    requires Inv(s) && Next(s, a, s') && During(s, c) && s'.pm != PRest
    ensures During(s', Noted(c, s, a))
  {
    hide Next, Inv, During, Modes, Finds;
    InvModes(s);
    NoSecondCall(s, a, s', c);
    if ByConsumer(a) {
      ConsumerStep(s, a, s', c);
    } else {
      ProducerStep(s, a, s', c);
    }
  }

  lemma InvModes<T>(s: State<T>)
    requires Inv(s)
    ensures Modes(s) && Finds(s)
  {
    hide Modes, Finds, Q.Inv, S.Inv, Accounts;
  }

  lemma {:induction false} EnqueueSoFar<T>(ss: seq<State<T>>, acts: seq<Action<T>>, b: nat, i: nat)
    requires Run(ss, acts) && EnqueueCall(ss, acts, b, i)
    ensures During(ss[i], CallAt(ss, acts, b, i))
  {
    hide Init, Next, SeesFront, DeniedMemory, During, Noted, Inv;
    if i == b + 1 {
      EnqueueBegins(ss[b], acts[b], ss[i]);
    } else {
      EnqueueSoFar(ss, acts, b, i - 1);
      CallNext(ss, acts, b, i - 1);
      RunInv(ss, acts, i - 1);
      EnqueueStep(ss[i - 1], acts[i - 1], ss[i], CallAt(ss, acts, b, i - 1));
    }
  }

  /** What an enqueue reports is whether its value is in the queue.  It reports a failure exactly when
      it found the next block to be the front block and could not have a new one: it was not allowed
      to allocate, or there was no memory. */
  lemma EnqueueOutcome<T>(ss: seq<State<T>>, acts: seq<Action<T>>, b: nat, i: nat)
    requires Run(ss, acts) && EnqueueCall(ss, acts, b, i) && ss[i].pm.PReturn?
    ensures ss[i].q.enq == ss[b].q.enq + if ss[i].pm.ok then [acts[b].v] else []
    ensures !ss[i].pm.ok <==> SawFront(ss, acts, b, i) && (!acts[b].alloc || WasDenied(ss, acts, b, i))
  {
    hide Init, Next, SawFront, WasDenied;
    EnqueueSoFar(ss, acts, b, i);
  }

  // ----- dequeue

  /** The call of a dequeue that step b begins is not over at state i. */
  ghost predicate DequeueCall<T>(ss: seq<State<T>>, acts: seq<Action<T>>, b: nat, i: nat) {
    && |ss| == |acts| + 1 && b < i < |ss|
    && acts[b].BeginDequeue?
    && forall k :: b < k <= i ==> ss[k].cm != CRest
  }

  /** What has been taken out of the queue for a call that has not returned it yet. */
  function Due<T>(s: State<T>): seq<T> {
    if s.cm.CReturn? && s.cm.res.Some? then [s.cm.res.value]
    else if s.cm.CInner? && s.q.c.CDone? && s.q.c.res.Some? then [s.q.c.res.value]
    else []
  }

  predicate Dequeues<T>(cm: ConsumerMode<T>) {
    cm.CWait? || cm.CInner? || cm.CReturn?
  }

  lemma ProducerSide<T>(s: State<T>, a: Action<T>, s': State<T>)
    requires Next(s, a, s') && !ByConsumer(a)
    ensures s'.cm == s.cm && s'.q.c == s.q.c && s'.q.deq == s.q.deq
  {
    hide Contents, S.Next, Q.MemTyped, Q.ProducerTyped, Q.ConsumerTyped, Q.ProducerStep;
    if a.InnerEnqueue? {
      Q.ProducerMoveEffect(s.q, a.mem, s'.q);
    }
  }

  /** A step of the inner dequeue, or of the inner peek. */
  lemma InnerDue<T>(s: State<T>, a: Action<T>, s': State<T>)
    requires Modes(s) && Next(s, a, s') && (a.InnerDequeue? || a.InnerPeek?)
    ensures s'.cm == s.cm && Due(s) == [] && s'.q.deq == s.q.deq + Due(s')
  {
    hide Contents, S.Next, Q.MemTyped, Q.ProducerTyped, Q.ConsumerTyped, Q.ConsumerStep;
    Q.ConsumerMoveEffect(s.q, s'.q);
  }

  /** Any other step of the consumer. */
  lemma OuterDue<T>(s: State<T>, a: Action<T>, s': State<T>)
    requires Modes(s) && Next(s, a, s') && ByConsumer(a) && !a.InnerDequeue? && !a.InnerPeek?
    ensures s'.q.deq == s.q.deq && Due(s') == if a.EndDequeue? then [] else Due(s)
    ensures Dequeues(s.cm) && s'.cm != CRest ==> Dequeues(s'.cm) && s'.cm.op == s.cm.op
  {
    hide Contents, S.Next, Q.InPeek;
  }

  /** One step: nothing is taken out but for the call, and only what is due is returned. */
  lemma DueStep<T>(s: State<T>, a: Action<T>, s': State<T>)
    requires Inv(s) && Next(s, a, s')
    ensures if a.EndDequeue? then Due(s') == [] && s'.q.deq == s.q.deq
            else exists x :: Due(s') == Due(s) + x && s'.q.deq == s.q.deq + x
    ensures Dequeues(s.cm) && s'.cm != CRest ==> Dequeues(s'.cm) && s'.cm.op == s.cm.op
  {
    hide Inv, Next, Modes, Finds;
    InvModes(s);
    if !ByConsumer(a) {
      ProducerSide(s, a, s');
    } else if a.InnerDequeue? || a.InnerPeek? {
      InnerDue(s, a, s');
    } else {
      OuterDue(s, a, s');
    }
    if !a.EndDequeue? {
      var x := if a.InnerDequeue? || a.InnerPeek? then Due(s') else [];
      assert Due(s') == Due(s) + x && s'.q.deq == s.q.deq + x;
    }
  }

  lemma {:induction false} DequeueSoFar<T>(ss: seq<State<T>>, acts: seq<Action<T>>, b: nat, i: nat)
    requires Run(ss, acts) && DequeueCall(ss, acts, b, i)
    ensures Dequeues(ss[i].cm) && ss[i].cm.op == acts[b].op
    ensures ss[i].q.deq == ss[b].q.deq + Due(ss[i])
  {
    hide Init, Inv, Due, Q.Next, S.Next;
    RunInv(ss, acts, i - 1);
    assert Next(ss[i - 1], acts[i - 1], ss[i]);
    if i == b + 1 {
      DequeueBegins(ss[b], acts[b], ss[i]);
    } else {
      DequeueSoFar(ss, acts, b, i - 1);
      assert !acts[i - 1].EndDequeue?;
      DueStep(ss[i - 1], acts[i - 1], ss[i]);
    }
  }

  lemma DequeueBegins<T>(s: State<T>, a: Action<T>, s': State<T>)
    requires a.BeginDequeue? && Next(s, a, s')
    ensures s'.cm == CWait(a.op) && s'.q == s.q && Due(s') == []
  {
  }

  /** The wait that ended the waiting of a call: the last one to come back. */
  lemma {:induction false} WaitEnded<T>(ss: seq<State<T>>, acts: seq<Action<T>>, b: nat, i: nat) returns (j: nat)
    requires Run(ss, acts) && DequeueCall(ss, acts, b, i) && !ss[i].cm.CWait?
    ensures b < j < i && acts[j].AfterWait? && ss[j].sem.w.WDone?
    ensures forall k :: j < k <= i ==> !ss[k].cm.CWait?
    ensures ss[i].cm.CInner? ==> ss[j].sem.w.ok
    ensures ss[i].cm.CReturn? ==> (ss[i].cm.res.Some? <==> ss[j].sem.w.ok)
  {
    hide Init, Next, Inv;
    DequeueSoFar(ss, acts, b, i);
    if i == b + 1 {
      DequeueBegins(ss[b], acts[b], ss[i]);
    } else {
      DequeueSoFar(ss, acts, b, i - 1);
      RunInv(ss, acts, i - 1);
      AfterWaiting(ss[i - 1], acts[i - 1], ss[i]);
      if ss[i - 1].cm.CWait? {
        j := i - 1;
      } else {
        j := WaitEnded(ss, acts, b, i - 1);
      }
    }
  }

  lemma AfterWaiting<T>(s: State<T>, a: Action<T>, s': State<T>)
    requires Inv(s) && Next(s, a, s') && Dequeues(s.cm) && Dequeues(s'.cm) && !s'.cm.CWait?
    ensures s.cm.CWait? ==>
      && a.AfterWait? && s.sem.w.WDone?
      && (s'.cm.CInner? ==> s.sem.w.ok) && (s'.cm.CReturn? ==> !s.sem.w.ok && s'.cm.res.None?)
    ensures s.cm.CInner? && s'.cm.CReturn? ==> s'.cm.res.Some?
    ensures s.cm.CReturn? ==> s'.cm == s.cm
  {
    InvModes(s);
    hide Inv, Q.Next, S.Next;
  }

  /** What a call of a dequeue does: it returns the element it has taken out, and takes out nothing
      else.  It comes back empty-handed, with nothing taken out, exactly when its last wait failed; and
      an untimed `wait_dequeue` never does. */
  lemma DequeueOutcome<T>(ss: seq<State<T>>, acts: seq<Action<T>>, b: nat, i: nat) returns (j: nat)
    requires Run(ss, acts) && DequeueCall(ss, acts, b, i) && ss[i].cm.CReturn?
    ensures ss[i].cm.op == acts[b].op
    ensures ss[i].q.deq == ss[b].q.deq + if ss[i].cm.res.Some? then [ss[i].cm.res.value] else []
    ensures b < j < i && acts[j].AfterWait? && ss[j].sem.w.WDone? && forall k :: j < k <= i ==> !ss[k].cm.CWait?
    ensures ss[i].cm.res.Some? <==> ss[j].sem.w.ok
    ensures acts[b].op.WaitDequeue? ==> ss[i].cm.res.Some?
  {
    hide Init, Next, Inv;
    DequeueSoFar(ss, acts, b, i);
    j := WaitEnded(ss, acts, b, i);
    WaitDequeueDelivers(ss, acts, i);
  }

  lemma WaitingFits<T>(s: State<T>, a: Action<T>, s': State<T>)
    requires Next(s, a, s') && s'.cm.CWait?
    requires s.cm.CWait? ==> W.Fits(s.sem.w, CallOf(s.cm.op))
    ensures W.Fits(s'.sem.w, CallOf(s'.cm.op))
  {
    hide Q.Next;
  }

  lemma {:induction false} RunFits<T>(ss: seq<State<T>>, acts: seq<Action<T>>, i: nat)
    requires Run(ss, acts) && i < |ss| && ss[i].cm.CWait?
    ensures W.Fits(ss[i].sem.w, CallOf(ss[i].cm.op))
  {
    hide Next, CallOf, W.Fits;
    if i != 0 {
      if ss[i - 1].cm.CWait? {
        RunFits(ss, acts, i - 1);
      }
      WaitingFits(ss[i - 1], acts[i - 1], ss[i]);
    }
  }

  /** A `try_dequeue` neither spins nor sleeps; a timed one sleeps with the timeout it was given, and not
      at all when that is zero; an untimed one sleeps without a limit. */
  lemma SleepsAsAsked<T>(ss: seq<State<T>>, acts: seq<Action<T>>, i: nat)
    requires Run(ss, acts) && i < |ss| && ss[i].cm.CWait?
    ensures ss[i].cm.op.TryDequeue? ==> ss[i].sem.w.WLoad? || ss[i].sem.w.WTake? || ss[i].sem.w.WDone?
    ensures ss[i].sem.w.WKernel? ==>
      match ss[i].cm.op
      case TryDequeue => false
      case WaitDequeue => ss[i].sem.w.timeout < 0
      case WaitDequeueTimed(timeout) => ss[i].sem.w.timeout == timeout != 0
  {
    hide Run;
    RunFits(ss, acts, i);
  }

  /** What the dequeues that have ended before state i returned, in order. */
  ghost function Returned<T>(ss: seq<State<T>>, acts: seq<Action<T>>, i: nat): seq<T>
    requires i < |ss| == |acts| + 1
  {
    if i == 0 then []
    else
      var cm := ss[i - 1].cm;
      Returned(ss, acts, i - 1)
      + if acts[i - 1].EndDequeue? && cm.CReturn? && cm.res.Some? then [cm.res.value] else []
  }

  /** In order, the calls return what was enqueued: every value once, none skipped, except for one that
      has been taken out for a call that is about to return it. */
  lemma {:induction false} ReturnedInOrder<T>(ss: seq<State<T>>, acts: seq<Action<T>>, i: nat)
    requires Run(ss, acts) && i < |ss|
    ensures Returned(ss, acts, i) + Due(ss[i]) == ss[i].q.deq <= ss[i].q.enq
  {
    hide Init, Next, Inv, Due;
    RunInv(ss, acts, i);
    InOrder(ss[i]);
    if i == 0 {
      AtFirst(ss[0]);
    } else {
      ReturnedInOrder(ss, acts, i - 1);
      RunInv(ss, acts, i - 1);
      DueStep(ss[i - 1], acts[i - 1], ss[i]);
      if acts[i - 1].EndDequeue? {
        DueReturned(ss[i - 1], ss[i]);
      }
    }
  }

  lemma InOrder<T>(s: State<T>)
    requires Inv(s)
    ensures s.q.deq <= s.q.enq
  {
    hide Q.Inv, S.Inv, Accounts, Modes, Finds;
    Q.InvHistory(s.q);
  }

  lemma AtFirst<T>(s: State<T>)
    requires Init(s)
    ensures Due(s) == [] && s.q.deq == []
  {
  }

  lemma DueReturned<T>(s: State<T>, s': State<T>)
    requires Next(s, EndDequeue, s')
    ensures s.cm.CReturn? && Due(s) == if s.cm.res.Some? then [s.cm.res.value] else []
  {
  }
}
