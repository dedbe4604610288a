/**
 When the calls of the blocking queue come back.  The producer's always do; the consumer's do without
 the producer's help exactly when they do not have to wait for an element.
 */
module BlockingProgress {
  import Q = SpscQueue
  import S = Semaphore
  import W = SemaphoreCalls
  import C = SpscCalls
  import opened BlockingCalls
  import opened BlockingQueue
  import opened BlockRing
  import opened Options

  /** One more step. */
  lemma ExtendRun<T>(ss: seq<State<T>>, acts: seq<Action<T>>, a: Action<T>, s': State<T>)
    returns (more: seq<State<T>>, moreActs: seq<Action<T>>)
    requires Run(ss, acts) && Next(ss[|ss| - 1], a, s')
    ensures Run(more, moreActs) && more == ss + [s'] && moreActs == acts + [a]
  {
    more, moreActs := ss + [s'], acts + [a];
    hide Next, Init;
  }

  // ----- the consumer

  /** A run that begins with another and in which only the consumer steps further. */
  ghost predicate ConsumerExtends<T>(ss: seq<State<T>>, acts: seq<Action<T>>,
                                     more: seq<State<T>>, moreActs: seq<Action<T>>) {
    && Run(more, moreActs) && ss <= more && acts <= moreActs
    && forall k :: |acts| <= k < |moreActs| ==> ByConsumer(moreActs[k])
  }

  /** The call under way does not have to wait for an element. */
  ghost predicate NeedNotWait<T>(s: State<T>) {
    s.cm.CWait? && s.cm.op.WaitDequeue? ==> 0 < S.Available(s.sem) + Credit(s)
  }

  /** How many steps it takes at most to come back. */
  function ConsumerRank<T>(s: State<T>): nat {
    match s.cm
    case CRest => 0
    case CReturn(_, _) => 1
    case CInner(_) => 2 + Q.ConsumerRank(s.q.c)
    case CPeek => 2 + Q.ConsumerRank(s.q.c)
    case CWait(op) =>
      if s.sem.w == S.WDone(false) && op.WaitDequeue? then 18 + W.StepsLeft(S.WLoad(S.Wait(-1)))
      else 17 + W.StepsLeft(s.sem.w)
  }

  lemma WaiterAdvances<T>(s: State<T>) returns (s': State<T>)
    requires Inv(s) && s.pm == PRest && s.cm.CWait? && !s.sem.w.WDone? && NeedNotWait(s)
    ensures Next(s, WaitForToken(true), s')
    ensures ConsumerRank(s') < ConsumerRank(s) && s'.pm == PRest && NeedNotWait(s')
  {
    hide Q.Inv, Contents, Q.ConsumerRank, Q.InPeek;
    W.StepTowards(s.sem);
    s' := s.(sem := S.WaiterStep(s.sem, true));
  }

  lemma WaitAdvances<T>(s: State<T>) returns (s': State<T>)
    requires Inv(s) && s.pm == PRest && s.cm.CWait? && s.sem.w.WDone? && NeedNotWait(s)
    ensures Next(s, AfterWait, s')
    ensures ConsumerRank(s') < ConsumerRank(s) && s'.pm == PRest && NeedNotWait(s')
  {
    hide Q.Inv, Contents, Q.InPeek;
    if s.sem.w.ok {
      s' := s.(sem := s.sem.(w := S.WIdle), q := s.q.(c := Q.CLoadFrontBlock(false)), cm := CInner(s.cm.op));
    } else if s.cm.op.WaitDequeue? {
      s' := s.(sem := s.sem.(w := S.WLoad(CallOf(s.cm.op))));
    } else {
      s' := s.(sem := s.sem.(w := S.WIdle), cm := CReturn(s.cm.op, None));
    }
  }

  lemma InnerAdvances<T>(s: State<T>) returns (a: Action<T>, s': State<T>)
    requires Inv(s) && s.pm == PRest && (s.cm.CInner? || s.cm.CPeek?)
    ensures ByConsumer(a) && Next(s, a, s')
    ensures ConsumerRank(s') < ConsumerRank(s) && s'.pm == PRest && NeedNotWait(s')
  {
    hide Q.Inv, Contents, Q.MemTyped, Q.ProducerTyped, Q.ConsumerTyped, Q.ConsumerStep, Q.ConsumerRank, S.Inv, Accounts;
    Q.InvTyped(s.q);
    if s.q.c.CDone? {
      var q := s.q.(c := Q.CIdle);
      if s.cm.CPeek? {
        a, s' := EndPeek, s.(q := q, cm := CRest);
      } else {
        a, s' := AfterDequeue, s.(q := q, cm := CReturn(s.cm.op, s.q.c.res));
      }
    } else {
      Q.ConsumerAdvances(s.q);
      s' := s.(q := Q.ConsumerStep(s.q));
      a := if s.cm.CPeek? then InnerPeek else InnerDequeue;
    }
  }

  /** The consumer's next step. */
  lemma ConsumerAdvances<T>(s: State<T>) returns (a: Action<T>, s': State<T>)
    requires Inv(s) && s.pm == PRest && s.cm != CRest && NeedNotWait(s)
    ensures ByConsumer(a) && Next(s, a, s')
    ensures ConsumerRank(s') < ConsumerRank(s) && s'.pm == PRest && NeedNotWait(s')
  {
    match s.cm
    case CWait(_) =>
      hide Inv, Next, ConsumerRank, NeedNotWait;
      if s.sem.w.WDone? {
        a := AfterWait;
        s' := WaitAdvances(s);
      } else {
        a := WaitForToken(true);
        s' := WaiterAdvances(s);
      }
    case CReturn(_, _) =>
      a, s' := EndDequeue, s.(cm := CRest);
    case _ =>
      hide Inv, Next, ConsumerRank, NeedNotWait;
      a, s' := InnerAdvances(s);
  }

  lemma {:induction false} ConsumerComesBack<T>(ss: seq<State<T>>, acts: seq<Action<T>>)
    returns (more: seq<State<T>>, moreActs: seq<Action<T>>)
    requires Run(ss, acts) && ss[|ss| - 1].pm == PRest && NeedNotWait(ss[|ss| - 1])
    ensures ConsumerExtends(ss, acts, more, moreActs) && more[|more| - 1].cm == CRest
    decreases ConsumerRank(ss[|ss| - 1])
  {
    hide Inv, Init, Next, NeedNotWait, ConsumerRank, ByConsumer;
    more, moreActs := ss, acts;
    if ss[|ss| - 1].cm != CRest {
      RunInv(ss, acts, |ss| - 1);
      var a, s' := ConsumerAdvances(ss[|ss| - 1]);
      more, moreActs := ExtendRun(ss, acts, a, s');
      more, moreActs := ConsumerComesBack(more, moreActs);
    }
  }

  /** The consumer's call can come back without the producer doing anything. */
  ghost predicate CanComeBack<T(!new)>(ss: seq<State<T>>, acts: seq<Action<T>>)
    requires ss != []
  {
    exists more: seq<State<T>>, moreActs: seq<Action<T>> ::
      ConsumerExtends(ss, acts, more, moreActs) && more[|more| - 1].cm == CRest
  }

  lemma StillWaits<T>(s: State<T>, a: Action<T>, s': State<T>)
    requires Inv(s) && Next(s, a, s') && ByConsumer(a) && s.pm == PRest
    requires s.cm == CWait(WaitDequeue) && |s.q.deq| == |s.q.enq|
    ensures s'.cm == s.cm && s'.pm == PRest && s'.q == s.q
  {
    hide Q.Inv, Q.Next, Contents;
  }

  lemma {:induction false} WaitsOn<T>(ss: seq<State<T>>, acts: seq<Action<T>>, i: nat, j: nat)
    requires Run(ss, acts) && i <= j < |ss| && forall k :: i <= k < |acts| ==> ByConsumer(acts[k])
    requires ss[i].pm == PRest && ss[i].cm == CWait(WaitDequeue) && |ss[i].q.deq| == |ss[i].q.enq|
    ensures ss[j].pm == PRest && ss[j].cm == CWait(WaitDequeue) && ss[j].q == ss[i].q
    decreases j
  {
    hide Inv, Init, Next, ByConsumer;
    if i < j {
      WaitsOn(ss, acts, i, j - 1);
      RunInv(ss, acts, j - 1);
      StillWaits(ss[j - 1], acts[j - 1], ss[j]);
    }
  }

  lemma WaitsFor<T>(s: State<T>)
    requires Inv(s) && s.pm == PRest
    ensures |s.q.deq| <= |s.q.enq|
    ensures NeedNotWait(s) <==> !(s.cm == CWait(WaitDequeue) && |s.q.deq| == |s.q.enq|)
  {
    hide Q.Inv, Contents, Q.InPeek;
  }

  /** While no enqueue is under way, a call of the consumer can come back without one if and only if it is
      not an untimed `wait_dequeue` that waits at an empty queue.  So an element that is there is never
      waited for in vain, and `try_dequeue`, a timed wait and a peek never block. */
  lemma ComesBackIff<T(!new)>(ss: seq<State<T>>, acts: seq<Action<T>>)
    requires Run(ss, acts) && ss[|ss| - 1].pm == PRest
    ensures var s := ss[|ss| - 1];
      CanComeBack(ss, acts) <==> !(s.cm == CWait(WaitDequeue) && |s.q.deq| == |s.q.enq|)
  {
    hide Inv, Init, Next, NeedNotWait;
    var s := ss[|ss| - 1];
    RunInv(ss, acts, |ss| - 1);
    WaitsFor(s);
    if NeedNotWait(s) {
      var more, moreActs := ConsumerComesBack(ss, acts);
    } else {
      forall more: seq<State<T>>, moreActs: seq<Action<T>> | ConsumerExtends(ss, acts, more, moreActs)
        ensures more[|more| - 1].cm != CRest
      {
        assert more[|ss| - 1] == s;
        WaitsOn(more, moreActs, |ss| - 1, |more| - 1);
      }
    }
  }

  lemma BeginsDequeue<T>(s: State<T>, op: Operation)
    requires Modes(s) && s.cm == CRest
    ensures exists s' :: Next(s, BeginDequeue(op), s') && s'.cm == CWait(op)
  {
    hide Q.Next, Q.InPeek;
    assert Next(s, BeginDequeue(op), s.(sem := s.sem.(w := S.WLoad(CallOf(op))), cm := CWait(op)));
  }

  lemma BeginsPeek<T>(s: State<T>)
    requires Modes(s) && s.cm == CRest
    ensures exists s' :: Next(s, BeginPeek, s') && s'.cm == CPeek
  {
    hide S.Next, Q.InPeek;
    assert Next(s, BeginPeek, s.(q := s.q.(c := Q.CLoadFrontBlock(true)), cm := CPeek));
  }

  /** From every state of every run in which it rests, the consumer can begin any operation. */
  lemma CanBegin<T>(ss: seq<State<T>>, acts: seq<Action<T>>, i: nat, op: Operation)
    requires Run(ss, acts) && i < |ss| && ss[i].cm == CRest
    ensures exists s' :: Next(ss[i], BeginDequeue(op), s') && s'.cm == CWait(op)
    ensures exists s' :: Next(ss[i], BeginPeek, s') && s'.cm == CPeek
  {
    hide Inv, Next, Run, Modes, Finds;
    RunInv(ss, acts, i);
    InvModes(ss[i]);
    BeginsDequeue(ss[i], op);
    BeginsPeek(ss[i]);
  }

  // ----- the producer

  predicate ByProducer<T>(a: Action<T>) {
    a.InnerEnqueue? || a.AfterEnqueue? || a.Signal? || a.AfterSignal? || a.EndEnqueue?
  }

  /** A run that begins with another, in which only the producer steps further and no allocation
      fails. */
  ghost predicate ProducerExtends<T>(ss: seq<State<T>>, acts: seq<Action<T>>,
                                     more: seq<State<T>>, moreActs: seq<Action<T>>) {
    && Run(more, moreActs) && ss <= more && acts <= moreActs
    && forall k :: |acts| <= k < |moreActs| ==>
         ByProducer(moreActs[k]) && (moreActs[k].InnerEnqueue? ==> moreActs[k].mem.Some?)
  }

  function ProducerRank<T>(s: State<T>): nat {
    match s.pm
    case PRest => 0
    case PReturn(_) => 0
    case PSignal =>
      (match s.sem.g
       case GIdle => 0
       case GDone => 1
       case GPost => 2
       case GAdd(_) => 3)
    case PInner => 4 + Q.ProducerRank(s.q.p)
  }

  lemma EnqueueAdvances<T>(s: State<T>, x: T) returns (a: Action<T>, s': State<T>)
    requires Inv(s) && s.pm == PInner
    ensures ByProducer(a) && (a.InnerEnqueue? ==> a.mem.Some?) && Next(s, a, s')
    ensures ProducerRank(s') < ProducerRank(s) && s'.pm != PRest
  {
    hide Q.Inv, Contents, Q.MemTyped, Q.ProducerTyped, Q.ConsumerTyped, Q.ProducerStep, Q.ProducerRank, S.Inv;
    Q.InvTyped(s.q);
    if s.q.p.PDone? {
      a := AfterEnqueue;
      var q := s.q.(p := Q.PIdle);
      s' := if s.q.p.ok then s.(q := q, sem := s.sem.(g := S.GAdd(1)), pm := PSignal)
            else s.(q := q, pm := PReturn(false));
    } else {
      LargeEnough(s.q);
      var mem := Some(seq(Q.NewBlockSize(s.q.largest, s.q.maxBlock), i => x));
      Q.ProducerAdvances(s.q, mem);
      a, s' := InnerEnqueue(mem), s.(q := Q.ProducerStep(s.q, mem));
    }
  }

  lemma LargeEnough<T>(s: Q.State<T>)
    requires Q.Inv(s)
    ensures 2 <= Q.NewBlockSize(s.largest, s.maxBlock)
  {
    hide Contents, Q.ProducerOk, Q.ConsumerOk, RingOk;
  }

  lemma SignalAdvances<T>(s: State<T>) returns (a: Action<T>, s': State<T>)
    requires Inv(s) && s.pm == PSignal
    ensures ByProducer(a) && !a.InnerEnqueue? && Next(s, a, s')
    ensures ProducerRank(s') < ProducerRank(s) && s'.pm != PRest
  {
    hide Q.Inv, Contents, Q.InPeek;
    if s.sem.g.GDone? {
      a, s' := AfterSignal, s.(sem := s.sem.(g := S.GIdle), pm := PReturn(true));
    } else {
      a, s' := Signal, s.(sem := S.SignallerStep(s.sem));
    }
  }

  /** An enqueue always comes back, by the producer's steps alone. */
  lemma {:induction false} EnqueueComesBack<T>(ss: seq<State<T>>, acts: seq<Action<T>>, x: T)
    returns (more: seq<State<T>>, moreActs: seq<Action<T>>)
    requires Run(ss, acts) && ss[|ss| - 1].pm != PRest
    ensures ProducerExtends(ss, acts, more, moreActs) && more[|more| - 1].pm.PReturn?
    ensures forall k :: |ss| <= k < |more| ==> more[k].pm != PRest
    decreases ProducerRank(ss[|ss| - 1])
  {
    hide Inv, Init, Next, ProducerRank;
    more, moreActs := ss, acts;
    if !ss[|ss| - 1].pm.PReturn? {
      RunInv(ss, acts, |ss| - 1);
      var a: Action<T>, s': State<T>;
      if ss[|ss| - 1].pm == PInner {
        a, s' := EnqueueAdvances(ss[|ss| - 1], x);
      } else {
        a, s' := SignalAdvances(ss[|ss| - 1]);
      }
      more, moreActs := ExtendRun(ss, acts, a, s');
      more, moreActs := EnqueueComesBack(more, moreActs, x);
    }
  }

  lemma BeginsEnqueue<T>(s: State<T>, v: T) returns (s': State<T>)
    requires Inv(s) && s.pm == PRest
    ensures Next(s, BeginEnqueue(v, true), s') && s'.pm != PRest && s'.q.enq == s.q.enq
  {
    hide Q.Inv, Contents, S.Inv;
    s' := s.(q := s.q.(p := Q.PLoadTailBlock(v, true)), pm := PInner);
  }

  /** From every state of every run in which the producer rests, given memory, it can enqueue any value
      without the consumer doing anything. */
  lemma CanEnqueue<T>(ss: seq<State<T>>, acts: seq<Action<T>>, v: T)
    returns (more: seq<State<T>>, moreActs: seq<Action<T>>)
    requires Run(ss, acts) && ss[|ss| - 1].pm == PRest
    ensures Run(more, moreActs) && ss <= more && acts + [BeginEnqueue(v, true)] <= moreActs
    ensures forall k :: |acts| < k < |moreActs| ==> ByProducer(moreActs[k])
    ensures more[|more| - 1].pm == PReturn(true) && more[|more| - 1].q.enq == ss[|ss| - 1].q.enq + [v]
  {
    hide Inv, Init, Next, SeesFront;
    RunInv(ss, acts, |ss| - 1);
    var s' := BeginsEnqueue(ss[|ss| - 1], v);
    more, moreActs := ExtendRun(ss, acts, BeginEnqueue(v, true), s');
    more, moreActs := EnqueueComesBack(more, moreActs, v);
    assert moreActs[|acts|] == BeginEnqueue(v, true) && more[|acts|] == ss[|acts|];
    assert more[|acts| + 1] == s';
    assert EnqueueCall(more, moreActs, |acts|, |moreActs|);
    EnqueueOutcome(more, moreActs, |acts|, |moreActs|);
  }
}
