/**
 What whole calls of the semaphore do, and when a wait ends.
 */
module SemaphoreCalls {
  import opened Semaphore

  // ----- signals

  /** The call of signal that step b begins is not over at state i. */
  ghost predicate SignalCall(ss: seq<State>, acts: seq<Action>, b: nat, i: nat) {
    && |ss| == |acts| + 1 && b < i < |ss|
    && acts[b].BeginSignal?
    && forall k :: b < k <= i ==> ss[k].g != GIdle
  }

  /** A call of signal grants as many tokens as it was asked to, all at once. */
  lemma {:induction false} SignalOutcome(ss: seq<State>, acts: seq<Action>, b: nat, i: nat)
    requires Run(ss, acts) && SignalCall(ss, acts, b, i)
    ensures ss[i].g.GAdd? ==> ss[i].g.n == acts[b].n
    ensures ss[i].granted == ss[b].granted + if ss[i].g.GAdd? then 0 else acts[b].n
  {
    assert Next(ss[i - 1], acts[i - 1], ss[i]);
    if b + 1 < i {
      SignalOutcome(ss, acts, b, i - 1);
    }
  }

  // ----- waits

  /** The call of a wait that step b begins is not over at state i. */
  ghost predicate WaitCall(ss: seq<State>, acts: seq<Action>, b: nat, i: nat) {
    && |ss| == |acts| + 1 && b < i < |ss|
    && acts[b].BeginWait?
    && forall k :: b < k <= i ==> ss[k].w != WIdle
  }

  /** What a waiter in a call may be doing: `tryWait` neither spins nor sleeps, and a wait without time
      to wait does not sleep. */
  predicate Fits(w: Waiter, call: Call) {
    match w
    case WIdle => false
    case WDone(_) => true
    case WTake => true
    case WLoad(c) => c == call
    case WSpin(timeout, _) => call == Wait(timeout)
    case WDecrement(timeout) => call == Wait(timeout)
    case WKernel(timeout) => call == Wait(timeout) && timeout != 0
    case _ => call.Wait?
  }

  /** A call of a wait takes one token when it succeeds, and none when it fails. */
  lemma {:induction false} WaitOutcome(ss: seq<State>, acts: seq<Action>, b: nat, i: nat)
    requires Run(ss, acts) && WaitCall(ss, acts, b, i)
    ensures Fits(ss[i].w, acts[b].call)
    ensures ss[i].taken == ss[b].taken + if ss[i].w == WDone(true) then 1 else 0
  {
    assert Next(ss[i - 1], acts[i - 1], ss[i]);
    if b + 1 < i {
      WaitOutcome(ss, acts, b, i - 1);
    }
  }

  /** How many steps a wait takes at most while the signaller rests. */
  function StepsLeft(w: Waiter): nat {
    match w
    case WIdle => 0
    case WDone(_) => 0
    case WTake => 1
    case WTryKernel => 1
    case WRedecrement => 2
    case WRestore => 3
    case WKernel(_) => 4
    case WDecrement(_) => 5
    case WSpin(_, spin) => 6 + spin
    case WLoad(call) => if call.TryWait? then 2 else 7 + SPIN_COUNT
  }

  /** The outcome of a wait in progress, when it depends on the waiter alone. */
  ghost predicate Succeeds(s: State) {
    if s.w.WDone? then s.w.ok else 0 < Available(s)
  }

  lemma StepTowards(s: State)
    requires Inv(s) && !s.g.GPost? && !s.w.WIdle? && !s.w.WDone?
    ensures var s' := WaiterStep(s, true);
      && Inv(s') && s'.g == s.g && !s'.w.WIdle?
      && StepsLeft(s'.w) < StepsLeft(s.w) && (Succeeds(s') <==> Succeeds(s))
  {
  }

  lemma {:induction false} StepsEnd(s: State, n: nat)
    requires Inv(s) && !s.g.GPost? && !s.w.WIdle? && StepsLeft(s.w) <= n
    ensures WaiterSteps(s, n).w == WDone(Succeeds(s))
    decreases n
  {
    if !s.w.WDone? {
      StepTowards(s);
      StepsEnd(WaiterStep(s, true), n - 1);
    }
  }

  /** From any moment of any run at which no post is under way, a wait ends within a bounded number of its
      own steps, the kernel granting what it has: with a token if and only if one is to be had.  For
      `tryWait` the bound is two. */
  lemma WaitEndsIff(ss: seq<State>, acts: seq<Action>, i: nat, n: nat)
    requires Run(ss, acts) && i < |ss| && !ss[i].g.GPost? && !ss[i].w.WIdle?
    requires StepsLeft(ss[i].w) <= n
    ensures WaiterSteps(ss[i], n).w == WDone(true)
      <==> if ss[i].w.WDone? then ss[i].w.ok else ss[i].taken < ss[i].granted
    ensures WaiterSteps(ss[i], n).w.WDone?
  {
    RunInv(ss, acts, i);
    StepsEnd(ss[i], n);
  }

  /** A wait can time out at any moment of its sleep, with the counter and the kernel as they are; and
      unless a post is under way three more steps bring it back, with the token if one had been granted
      that nobody took. */
  lemma TimeoutRepaired(ss: seq<State>, acts: seq<Action>, i: nat)
    requires Run(ss, acts) && i < |ss| && ss[i].w.WKernel?
    ensures var s := WaiterStep(ss[i], false);
      && s == ss[i].(w := WRestore) && Next(ss[i], WaiterMove(false), s)
      && (!s.g.GPost? ==> WaiterSteps(s, 3).w == WDone(s.taken < s.granted))
  {
    RunInv(ss, acts, i);
    var s := WaiterStep(ss[i], false);
    if !s.g.GPost? {
      StepsEnd(s, 3);
    }
  }
}
