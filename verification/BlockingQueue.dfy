/**
 The blocking queue as a step machine: the lock-free queue and the lightweight semaphore
 composed.  The producer enqueues and then signals; the consumer waits for a token and then
 dequeues, and asserts that it found an element.
 */
module BlockingQueue {
  import Q = SpscQueue
  import S = Semaphore
  import opened BlockRing
  import opened Options

  /** The consumer's operations; a timed wait has a limit in microseconds.  `pop` takes the same
      steps as `try_dequeue`. */
  datatype Operation = TryDequeue | WaitDequeue | WaitDequeueTimed(timeout: int)

  datatype ProducerMode = PRest | PInner | PSignal | PReturn(ok: bool)

  datatype ConsumerMode<T> =
    | CRest
    | CWait(op: Operation)
    | CInner(op: Operation)
    | CPeek
    | CReturn(op: Operation, res: Option<T>)

  datatype State<T> = State(q: Q.State<T>, sem: S.State, pm: ProducerMode, cm: ConsumerMode<T>)

  function CallOf(op: Operation): S.Call {
    match op
    case TryDequeue => S.TryWait
    case WaitDequeue => S.Wait(-1)
    case WaitDequeueTimed(timeout) => S.Wait(timeout)
  }

  datatype Action<T> =
    | BeginEnqueue(v: T, alloc: bool)
    | InnerEnqueue(mem: Option<seq<T>>)
    | AfterEnqueue
    | Signal
    | AfterSignal
    | EndEnqueue
    | BeginDequeue(op: Operation)
    | WaitForToken(got: bool)
    | AfterWait
    | InnerDequeue
    | AfterDequeue
    | EndDequeue
    | BeginPeek
    | InnerPeek
    | EndPeek

  ghost predicate Init<T>(s: State<T>) {
    && Q.Init(s.q) && S.Init(s.sem) && s.sem.count == 0
    && s.pm == PRest && s.cm == CRest
  }

  ghost predicate Next<T>(s: State<T>, a: Action<T>, s': State<T>) {
    match a
    case BeginEnqueue(v, alloc) =>
      && s.pm == PRest
      && Q.Next(s.q, Q.BeginEnqueue(v, alloc), s'.q)
      && s' == s.(q := s'.q, pm := PInner)
    case InnerEnqueue(mem) =>
      && s.pm == PInner
      && Q.Next(s.q, Q.ProducerMove(mem), s'.q)
      && s' == s.(q := s'.q)
    case AfterEnqueue =>
      && s.pm == PInner && s.q.p.PDone?
      && Q.Next(s.q, Q.ProducerReturn, s'.q)
      && (if s.q.p.ok then
            S.Next(s.sem, S.BeginSignal(1), s'.sem) && s' == s.(q := s'.q, sem := s'.sem, pm := PSignal)
          else
            s' == s.(q := s'.q, pm := PReturn(false)))
    case Signal =>
      && s.pm == PSignal
      && S.Next(s.sem, S.SignallerMove, s'.sem)
      && s' == s.(sem := s'.sem)
    case AfterSignal =>
      && s.pm == PSignal
      && S.Next(s.sem, S.SignallerReturn, s'.sem)
      && s' == s.(sem := s'.sem, pm := PReturn(true))
    case EndEnqueue =>
      s.pm.PReturn? && s' == s.(pm := PRest)
    case BeginDequeue(op) =>
      && s.cm == CRest
      && S.Next(s.sem, S.BeginWait(CallOf(op)), s'.sem)
      && s' == s.(sem := s'.sem, cm := CWait(op))
    case WaitForToken(got) =>
      && s.cm.CWait?
      && S.Next(s.sem, S.WaiterMove(got), s'.sem)
      && s' == s.(sem := s'.sem)
    case AfterWait =>
      && s.cm.CWait? && s.sem.w.WDone?
      && (if s.sem.w.ok then
            && S.Next(s.sem, S.WaiterReturn, s'.sem)
            && Q.Next(s.q, Q.BeginDequeue(false), s'.q)
            && s' == s.(q := s'.q, sem := s'.sem, cm := CInner(s.cm.op))
          else if s.cm.op.WaitDequeue? then
            // an untimed wait that fails starts over
            s' == s.(sem := s.sem.(w := S.WLoad(CallOf(s.cm.op))))
          else
            && S.Next(s.sem, S.WaiterReturn, s'.sem)
            && s' == s.(sem := s'.sem, cm := CReturn(s.cm.op, None)))
    case InnerDequeue =>
      && s.cm.CInner?
      && Q.Next(s.q, Q.ConsumerMove, s'.q)
      && s' == s.(q := s'.q)
    case AfterDequeue =>
      && s.cm.CInner? && s.q.c.CDone?
      && Q.Next(s.q, Q.ConsumerReturn, s'.q)
      && s' == s.(q := s'.q, cm := CReturn(s.cm.op, s.q.c.res))
    case EndDequeue =>
      s.cm.CReturn? && s' == s.(cm := CRest)
    case BeginPeek =>
      && s.cm == CRest
      && Q.Next(s.q, Q.BeginDequeue(true), s'.q)
      && s' == s.(q := s'.q, cm := CPeek)
    case InnerPeek =>
      && s.cm == CPeek
      && Q.Next(s.q, Q.ConsumerMove, s'.q)
      && s' == s.(q := s'.q)
    case EndPeek =>
      && s.cm == CPeek && s.q.c.CDone?
      && Q.Next(s.q, Q.ConsumerReturn, s'.q)
      && s' == s.(q := s'.q, cm := CRest)
  }

  ghost predicate Run<T>(ss: seq<State<T>>, acts: seq<Action<T>>) {
    && |ss| == |acts| + 1
    && Init(ss[0])
    && forall i :: 0 <= i < |acts| ==> Next(ss[i], acts[i], ss[i + 1])
  }

  // ----- the accounting

  /** Elements in the queue whose signal has not reached the counter yet. */
  function Unsignalled<T>(s: State<T>): nat {
    if (s.pm == PInner && s.q.p == Q.PDone(true)) || (s.pm == PSignal && s.sem.g.GAdd?) then 1 else 0
  }

  /** Tokens the consumer has taken whose element it has not removed yet. */
  function Credit<T>(s: State<T>): nat {
    if (s.cm.CWait? && s.sem.w == S.WDone(true)) || (s.cm.CInner? && !s.q.c.CDone?) then 1 else 0
  }

  ghost predicate Accounts<T>(s: State<T>) {
    && |s.q.enq| == s.sem.granted + Unsignalled(s)
    && |s.q.deq| + Credit(s) == s.sem.taken
  }

  /** Which inner operation is running in which mode. */
  ghost predicate Modes<T>(s: State<T>) {
    && (s.pm == PInner <==> s.q.p != Q.PIdle)
    && (s.pm == PSignal <==> s.sem.g != S.GIdle)
    && (s.sem.g.GAdd? ==> s.sem.g.n == 1)
    && (s.cm.CWait? <==> s.sem.w != S.WIdle)
    && (s.cm.CInner? || s.cm.CPeek? <==> s.q.c != Q.CIdle)
    && (s.cm.CInner? ==> !Q.InPeek(s.q.c))
    && (s.cm.CPeek? ==> Q.InPeek(s.q.c))
  }

  /** An inner dequeue has not seen an empty queue and cannot come back empty-handed. */
  ghost predicate Finds<T>(s: State<T>) {
    && (s.cm.CInner? && s.q.c.CLoadTailBlock? ==> !s.q.c.wasEmpty)
    && (s.cm.CInner? && s.q.c.CDone? ==>
          s.q.c.res.Some? && s.q.deq != [] && s.q.c.res.value == s.q.deq[|s.q.deq| - 1])
    && (s.cm.CReturn? && s.cm.op.WaitDequeue? ==> s.cm.res.Some?)
    && (s.cm.CReturn? && s.cm.res.Some? ==> s.q.deq != [] && s.cm.res.value == s.q.deq[|s.q.deq| - 1])
  }

  ghost predicate Inv<T>(s: State<T>) {
    Q.Inv(s.q) && S.Inv(s.sem) && Accounts(s) && Modes(s) && Finds(s)
  }

  /** While the consumer holds a token the queue is not empty. */
  lemma CreditMeansElement<T>(s: State<T>)
    requires Q.Inv(s.q) && S.Inv(s.sem) && Accounts(s) && Credit(s) == 1
    ensures Q.MemTyped(s.q.m) && Contents(Q.View(s.q.m), s.q.m.t) != []
  {
    hide Q.Inv, Contents;
    Q.InvHistory(s.q);
    assert |s.q.enq| == |s.q.deq| + |Contents(Q.View(s.q.m), s.q.m.t)|;
  }

  lemma EnqueueStepInv<T>(s: State<T>, a: Action<T>, s': State<T>)
    requires Inv(s) && Next(s, a, s')
    requires a.BeginEnqueue? || a.InnerEnqueue? || a.AfterEnqueue?
    ensures Inv(s')
  {
    hide Q.Inv, Contents, S.Inv;
    match a
    case BeginEnqueue(v, alloc) => Q.NextInv(s.q, Q.BeginEnqueue(v, alloc), s'.q);
    case InnerEnqueue(mem) =>
      Q.NextInv(s.q, Q.ProducerMove(mem), s'.q);
      Q.ProducerMoveEffect(s.q, mem, s'.q);
    case AfterEnqueue =>
      Q.NextInv(s.q, Q.ProducerReturn, s'.q);
      if s.q.p.ok { S.NextInv(s.sem, S.BeginSignal(1), s'.sem); }
  }

  lemma SignalStepInv<T>(s: State<T>, a: Action<T>, s': State<T>)
    requires Inv(s) && Next(s, a, s')
    requires a.Signal? || a.AfterSignal? || a.EndEnqueue?
    ensures Inv(s')
  {
    hide Q.Inv, Contents;
    match a
    case Signal => S.NextInv(s.sem, S.SignallerMove, s'.sem);
    case AfterSignal => S.NextInv(s.sem, S.SignallerReturn, s'.sem);
    case EndEnqueue =>
  }

  lemma WaitAgain(sem: S.State, call: S.Call)
    requires S.Inv(sem) && sem.w == S.WDone(false)
    ensures S.Inv(sem.(w := S.WLoad(call)))
  {
  }

  lemma WaitStepInv<T>(s: State<T>, a: Action<T>, s': State<T>)
    requires Inv(s) && Next(s, a, s')
    requires a.BeginDequeue? || a.WaitForToken? || a.AfterWait?
    ensures Inv(s')
  {
    hide Q.Inv, Contents, S.Inv;
    match a
    case BeginDequeue(op) => S.NextInv(s.sem, S.BeginWait(CallOf(op)), s'.sem);
    case WaitForToken(got) => S.NextInv(s.sem, S.WaiterMove(got), s'.sem);
    case AfterWait =>
      if s.sem.w.ok {
        S.NextInv(s.sem, S.WaiterReturn, s'.sem);
        Q.NextInv(s.q, Q.BeginDequeue(false), s'.q);
      } else if s.cm.op.WaitDequeue? {
        WaitAgain(s.sem, CallOf(s.cm.op));
      } else {
        S.NextInv(s.sem, S.WaiterReturn, s'.sem);
      }
  }

  lemma DequeueStepInv<T>(s: State<T>, a: Action<T>, s': State<T>)
    requires Inv(s) && Next(s, a, s')
    requires a.InnerDequeue? || a.AfterDequeue? || a.EndDequeue?
    ensures Inv(s')
  {
    hide Q.Inv, Contents, S.Inv;
    match a
    case InnerDequeue =>
      Q.NextInv(s.q, Q.ConsumerMove, s'.q);
      Q.ConsumerMoveEffect(s.q, s'.q);
      CreditMeansElement(s);
      if s'.q.c.CDone? && s'.q.c.res == None { Q.NothingSawEmpty(s'.q); }
    case AfterDequeue => Q.NextInv(s.q, Q.ConsumerReturn, s'.q);
    case EndDequeue =>
  }

  lemma PeekStepInv<T>(s: State<T>, a: Action<T>, s': State<T>)
    requires Inv(s) && Next(s, a, s')
    requires a.BeginPeek? || a.InnerPeek? || a.EndPeek?
    ensures Inv(s')
  {
    hide Q.Inv, Contents, S.Inv;
    match a
    case BeginPeek => Q.NextInv(s.q, Q.BeginDequeue(true), s'.q);
    case InnerPeek =>
      Q.NextInv(s.q, Q.ConsumerMove, s'.q);
      Q.ConsumerMoveEffect(s.q, s'.q);
    case EndPeek => Q.NextInv(s.q, Q.ConsumerReturn, s'.q);
  }

  lemma NextInv<T>(s: State<T>, a: Action<T>, s': State<T>)
    requires Inv(s) && Next(s, a, s')
    ensures Inv(s')
  {
    hide Inv, Next;
    match a
    case BeginEnqueue(_, _) => EnqueueStepInv(s, a, s');
    case InnerEnqueue(_) => EnqueueStepInv(s, a, s');
    case AfterEnqueue => EnqueueStepInv(s, a, s');
    case Signal => SignalStepInv(s, a, s');
    case AfterSignal => SignalStepInv(s, a, s');
    case EndEnqueue => SignalStepInv(s, a, s');
    case BeginDequeue(_) => WaitStepInv(s, a, s');
    case WaitForToken(_) => WaitStepInv(s, a, s');
    case AfterWait => WaitStepInv(s, a, s');
    case InnerDequeue => DequeueStepInv(s, a, s');
    case AfterDequeue => DequeueStepInv(s, a, s');
    case EndDequeue => DequeueStepInv(s, a, s');
    case BeginPeek => PeekStepInv(s, a, s');
    case InnerPeek => PeekStepInv(s, a, s');
    case EndPeek => PeekStepInv(s, a, s');
  }

  lemma InitInv<T>(s: State<T>)
    requires Init(s)
    ensures Inv(s)
  {
    hide Contents, Q.Inv, Q.Init, S.Inv, Q.InPeek;
    Q.InitInv(s.q);
    S.InitInv(s.sem);
    assert Modes(s);
    assert Finds(s);
    assert Accounts(s);
  }

  lemma {:induction false} RunInv<T>(ss: seq<State<T>>, acts: seq<Action<T>>, i: nat)
    requires Run(ss, acts) && i < |ss|
    ensures Inv(ss[i])
  {
    hide Inv, Init, Next;
    if i == 0 {
      InitInv(ss[0]);
    } else {
      RunInv(ss, acts, i - 1);
      NextInv(ss[i - 1], acts[i - 1], ss[i]);
    }
  }

  // ----- what every run keeps

  /** The assertions after each credited wait hold: the inner dequeue always succeeds, and
      delivers the next element in order. */
  lemma CreditedDequeueSucceeds<T>(ss: seq<State<T>>, acts: seq<Action<T>>, i: nat)
    requires Run(ss, acts) && i < |ss| && ss[i].cm.CInner? && ss[i].q.c.CDone?
    ensures ss[i].q.c.res.Some?
    ensures 0 < |ss[i].q.deq| <= |ss[i].q.enq|
    ensures ss[i].q.c.res.value == ss[i].q.enq[|ss[i].q.deq| - 1]
  {
    hide Q.Inv, S.Inv, Contents, Next, Q.Init;
    RunInv(ss, acts, i);
    Q.InvHistory(ss[i].q);
  }

  /** An untimed `wait_dequeue` always returns with an element; and the element any dequeue returns is
      the one it has just removed. */
  lemma WaitDequeueDelivers<T>(ss: seq<State<T>>, acts: seq<Action<T>>, i: nat)
    requires Run(ss, acts) && i < |ss| && ss[i].cm.CReturn?
    ensures ss[i].cm.op.WaitDequeue? ==> ss[i].cm.res.Some?
    ensures ss[i].cm.res.Some? ==>
      && 0 < |ss[i].q.deq| <= |ss[i].q.enq|
      && ss[i].cm.res.value == ss[i].q.enq[|ss[i].q.deq| - 1]
  {
    hide Q.Inv, S.Inv, Contents, Next, Q.Init;
    RunInv(ss, acts, i);
    Q.InvHistory(ss[i].q);
  }

  /** What a finished peek reports is the element the next dequeue removes. */
  lemma PeekIsOldest<T>(ss: seq<State<T>>, acts: seq<Action<T>>, i: nat)
    requires Run(ss, acts) && i < |ss| && ss[i].cm.CPeek? && ss[i].q.c.CDone? && ss[i].q.c.res.Some?
    ensures |ss[i].q.deq| < |ss[i].q.enq| && ss[i].q.enq[|ss[i].q.deq|] == ss[i].q.c.res.value
  {
    hide Q.Inv, S.Inv, Contents, Next, Q.Init;
    RunInv(ss, acts, i);
    Q.PeekedIsOldest(ss[i].q);
  }

  /** What the queue holds, in terms of the semaphore: its free tokens, the token the consumer
      has taken for the element it is about to remove, and the element whose signal is due. */
  lemma TokensCountElements<T>(ss: seq<State<T>>, acts: seq<Action<T>>, i: nat)
    requires Run(ss, acts) && i < |ss|
    ensures Q.MemTyped(ss[i].q.m)
    ensures |Contents(Q.View(ss[i].q.m), ss[i].q.m.t)| == S.Available(ss[i].sem) + Credit(ss[i]) + Unsignalled(ss[i])
  {
    hide Q.Inv, Contents, Next, Q.Init;
    RunInv(ss, acts, i);
    Q.InvHistory(ss[i].q);
  }

  /** A wait gives up, timed out or not willing to wait, only at a moment at which the queue holds
      nothing but possibly the one element whose enqueue has not signalled yet. */
  lemma GivesUpOnlyWhenEmpty<T>(ss: seq<State<T>>, acts: seq<Action<T>>, i: nat)
    requires Run(ss, acts) && i < |acts|
    requires ss[i].cm.CWait? && ss[i].sem.w != S.WDone(false) && ss[i + 1].sem.w == S.WDone(false)
    ensures Q.MemTyped(ss[i].q.m)
    ensures |Contents(Q.View(ss[i].q.m), ss[i].q.m.t)| == Unsignalled(ss[i])
  {
    hide Q.Inv, Contents, Q.Init, Q.Next;
    RunInv(ss, acts, i);
    Q.InvHistory(ss[i].q);
    assert Next(ss[i], acts[i], ss[i + 1]);
    GivesUpStep(ss[i], acts[i], ss[i + 1]);
  }

  lemma GivesUpStep<T>(s: State<T>, a: Action<T>, s': State<T>)
    requires S.Inv(s.sem) && Modes(s) && Next(s, a, s')
    requires s.cm.CWait? && s.sem.w != S.WDone(false) && s'.sem.w == S.WDone(false)
    ensures s.sem.granted == s.sem.taken && Credit(s) == 0
  {
    hide Q.Next, Contents;
  }

  /** `size_approx`, read while neither thread is inside an operation, is the exact length. */
  lemma SizeApproxExact<T>(ss: seq<State<T>>, acts: seq<Action<T>>, i: nat)
    requires Run(ss, acts) && i < |ss| && ss[i].pm == PRest && ss[i].cm == CRest
    ensures Q.MemTyped(ss[i].q.m)
    ensures SizeApprox(ss[i].sem) == |Contents(Q.View(ss[i].q.m), ss[i].q.m.t)|
  {
    hide Q.Inv, Contents, Q.Init, Next;
    RunInv(ss, acts, i);
    Q.InvHistory(ss[i].q);
  }

  function SizeApprox(sem: S.State): nat {
    if sem.count > 0 then sem.count else 0
  }
}
