/**
 The lightweight semaphore as a step machine: one waiter and one signaller, each update of
 the shared counter and each call of the kernel semaphore one step, in any interleaving.

 The counter drops to -1 when the waiter goes to sleep in the kernel; a signaller that finds
 it there posts the kernel semaphore once.  A wait that times out has to take its -1 back,
 unless a signal got in between, in which case it has to collect the post instead.
 `granted` and `taken` are history variables: the tokens signalled and the waits that succeeded.
 */
module Semaphore {

  /** What the waiter called: `tryWait()`, or `wait(timeout)` in microseconds, where a negative
      timeout waits without a limit. */
  datatype Call = TryWait | Wait(timeout: int)

  datatype Waiter =
    | WIdle
    | WDone(ok: bool)
    | WLoad(call: Call)             // tryWait: read the counter
    | WTake                         // take a token seen to be there
    | WSpin(timeout: int, spin: nat)
    | WDecrement(timeout: int)
    | WKernel(timeout: int)         // asleep, or timing out, in the kernel semaphore
    | WRestore                      // take the -1 back
    | WRedecrement                  // a signal got in between: try again
    | WTryKernel

  datatype Signaller =
    | GIdle
    | GDone
    | GAdd(n: nat)
    | GPost

  datatype State = State(count: int, kernel: nat, w: Waiter, g: Signaller, granted: nat, taken: nat)

  const SPIN_COUNT: nat := 1024

  function Succeed(s: State): State {
    s.(w := WDone(true), taken := s.taken + 1)
  }

  /** The wait on the kernel semaphore: `got` says whether it succeeded. */
  function KernelWait(s: State, got: bool): State {
    if got && 0 < s.kernel then Succeed(s.(kernel := s.kernel - 1)) else s.(w := WRestore)
  }

  /** One step of the waiter. */
  function WaiterStep(s: State, got: bool): State
    requires !s.w.WIdle? && !s.w.WDone?
  {
    match s.w
    case WLoad(call) =>
      if s.count > 0 then s.(w := WTake)
      else if call.TryWait? then s.(w := WDone(false))
      else s.(w := WSpin(call.timeout, SPIN_COUNT))
    case WTake =>
      Succeed(s.(count := s.count - 1))
    case WSpin(timeout, spin) =>
      if spin == 0 then s.(w := WDecrement(timeout))
      else if s.count > 0 then s.(w := WTake)
      else s.(w := WSpin(timeout, spin - 1))
    case WDecrement(timeout) =>
      var s' := s.(count := s.count - 1);
      if s.count > 0 then Succeed(s')
      else if timeout == 0 then s'.(w := WRestore)
      else s'.(w := WKernel(timeout))
    case WKernel(_) =>
      KernelWait(s, got)
    case WRestore =>
      s.(count := s.count + 1, w := if s.count < 0 then WDone(false) else WRedecrement)
    case WRedecrement =>
      s.(count := s.count - 1, w := if s.count > 0 then WTryKernel else WRestore)
    case WTryKernel =>
      KernelWait(s, got)
  }

  /** One step of the signaller. */
  function SignallerStep(s: State): State
    requires !s.g.GIdle? && !s.g.GDone?
  {
    match s.g
    case GAdd(n) =>
      s.(count := s.count + n, granted := s.granted + n, g := if s.count < 0 then GPost else GDone)
    case GPost =>
      s.(kernel := s.kernel + 1, g := GDone)
  }

  datatype Action =
    | BeginWait(call: Call)
    | WaiterMove(got: bool)
    | WaiterReturn
    | BeginSignal(n: nat)
    | SignallerMove
    | SignallerReturn

  ghost predicate Init(s: State) {
    0 <= s.count && s == State(s.count, 0, WIdle, GIdle, s.count, 0)
  }

  ghost predicate Next(s: State, a: Action, s': State) {
    match a
    case BeginWait(call) => s.w == WIdle && s' == s.(w := WLoad(call))
    case WaiterMove(got) => !s.w.WIdle? && !s.w.WDone? && s' == WaiterStep(s, got)
    case WaiterReturn => s.w.WDone? && s' == s.(w := WIdle)
    case BeginSignal(n) => s.g == GIdle && 1 <= n && s' == s.(g := GAdd(n))
    case SignallerMove => !s.g.GIdle? && !s.g.GDone? && s' == SignallerStep(s)
    case SignallerReturn => s.g.GDone? && s' == s.(g := GIdle)
  }

  ghost predicate Run(ss: seq<State>, acts: seq<Action>) {
    && |ss| == |acts| + 1
    && Init(ss[0])
    && forall i :: 0 <= i < |acts| ==> Next(ss[i], acts[i], ss[i + 1])
  }

  // ----- the invariant

  /** Whether the waiter has a -1 in the counter that it has not accounted for yet. */
  predicate Sleeps(w: Waiter) {
    w.WKernel? || w.WTryKernel? || w.WRestore?
  }

  /** Kernel tokens, counting a post the signaller is about to make. */
  function Posts(s: State): nat {
    s.kernel + if s.g.GPost? then 1 else 0
  }

  /** Tokens that a wait can still take. */
  function Available(s: State): int {
    s.count + if Sleeps(s.w) then 1 else 0
  }

  ghost predicate Inv(s: State) {
    && s.granted == s.taken + Available(s)
    && (s.g.GAdd? ==> 1 <= s.g.n)
    && match s.w
       case WTake => 1 <= s.count && Posts(s) == 0
       case WKernel(_) => (s.count == -1 && Posts(s) == 0) || (0 <= s.count && Posts(s) == 1)
       case WRestore => (s.count == -1 && Posts(s) == 0) || (0 <= s.count && Posts(s) == 1)
       case WRedecrement => 1 <= s.count && Posts(s) == 1
       case WTryKernel => 0 <= s.count && Posts(s) == 1
       case _ => 0 <= s.count && Posts(s) == 0
  }

  lemma InitInv(s: State)
    requires Init(s)
    ensures Inv(s)
  {
  }

  lemma NextInv(s: State, a: Action, s': State)
    requires Inv(s) && Next(s, a, s')
    ensures Inv(s')
  {
  }

  lemma {:induction false} RunInv(ss: seq<State>, acts: seq<Action>, i: nat)
    requires Run(ss, acts) && i < |ss|
    ensures Inv(ss[i])
  {
    if i == 0 {
      InitInv(ss[0]);
    } else {
      RunInv(ss, acts, i - 1);
      NextInv(ss[i - 1], acts[i - 1], ss[i]);
    }
  }

  /** In every run the counter never drops below -1, so the signaller's assertion holds. */
  lemma CounterAtLeastMinusOne(ss: seq<State>, acts: seq<Action>, i: nat)
    requires Run(ss, acts) && i < |ss|
    ensures -1 <= ss[i].count
  {
    RunInv(ss, acts, i);
  }

  /** Tokens are conserved: no timeout loses one or invents one. */
  lemma TokensConserved(ss: seq<State>, acts: seq<Action>, i: nat)
    requires Run(ss, acts) && i < |ss|
    ensures ss[i].granted == ss[i].taken + Available(ss[i])
    ensures 0 <= Available(ss[i])
    ensures !Sleeps(ss[i].w) ==> ss[i].granted - ss[i].taken == ss[i].count
  {
    RunInv(ss, acts, i);
  }

  /** There is never more than one kernel token, posted or about to be, and none at all while the
      waiter is outside the kernel phase of its wait. */
  lemma AtMostOnePost(ss: seq<State>, acts: seq<Action>, i: nat)
    requires Run(ss, acts) && i < |ss|
    ensures Posts(ss[i]) <= 1
    ensures !Sleeps(ss[i].w) && ss[i].w != WRedecrement ==> Posts(ss[i]) == 0
  {
    RunInv(ss, acts, i);
  }

  /** A wait reports failure only at a moment at which no token is there to be taken. */
  lemma FailureMeansNoToken(ss: seq<State>, acts: seq<Action>, i: nat)
    requires Run(ss, acts) && i < |acts|
    requires ss[i].w != WDone(false) && ss[i + 1].w == WDone(false)
    ensures ss[i].granted == ss[i].taken
  {
    RunInv(ss, acts, i);
    assert Next(ss[i], acts[i], ss[i + 1]);
  }

  /** The waiter is never left asleep: in the kernel it finds a token there or on its way
      exactly when a token has been granted that no wait has taken. */
  lemma NoLostWakeup(ss: seq<State>, acts: seq<Action>, i: nat)
    requires Run(ss, acts) && i < |ss| && ss[i].w.WKernel?
    ensures ss[i].taken < ss[i].granted <==> Posts(ss[i]) == 1
  {
    RunInv(ss, acts, i);
  }

  /** The waiter's next n steps, or as many as its call still takes, with the kernel granting what it
      has and the signaller at rest. */
  function WaiterSteps(s: State, n: nat): State
    decreases n
  {
    if n == 0 || s.w.WIdle? || s.w.WDone? then s else WaiterSteps(WaiterStep(s, true), n - 1)
  }

  /** The repair loop after a timeout goes round only while the signaller is between its addition and
      its post: once the post is there, two steps end it, with the token. */
  lemma RepairWaitsForPost(ss: seq<State>, acts: seq<Action>, i: nat)
    requires Run(ss, acts) && i < |ss| && (ss[i].w.WRedecrement? || ss[i].w.WTryKernel?)
    ensures ss[i].taken < ss[i].granted
    ensures ss[i].kernel == 1 <==> !ss[i].g.GPost?
    ensures !ss[i].g.GPost? ==>
      WaiterSteps(ss[i], 2).w == WDone(true) && WaiterSteps(ss[i], 2).taken == ss[i].taken + 1
  {
    RunInv(ss, acts, i);
    var s := ss[i];
    if !s.g.GPost? {
      var s1 := WaiterStep(s, true);
      assert WaiterSteps(s, 2) == WaiterSteps(s1, 1);
      if s.w.WRedecrement? {
        assert WaiterSteps(s1, 1) == WaiterSteps(WaiterStep(s1, true), 0);
      }
    }
  }
}
