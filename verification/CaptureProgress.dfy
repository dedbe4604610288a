/**
 When the hand-over of module CaptureHandover goes on: what the control thread and the consumers wait
 for, and exactly when a wait for a camera, and a whole cycle, can end.
 */
module CaptureProgress {
  import opened Options
  import opened CaptureHandover
  import Playback = PlaybackSync

  // ----- what the control thread waits for

  /** The control thread waits for a camera of which no cloud will come. */
  ghost predicate Lost<F, P>(s: State<F, P>) {
    s.ctl.CWaitCamera? && s.ctl.i < |s.cams| && Barren(s.cams[s.ctl.i])
  }

  /** It waits for a camera that has this cycle's frameset and is working on it. */
  ghost predicate AwaitsWork<F, P>(s: State<F, P>) {
    && s.ctl.CWaitCamera? && s.ctl.i < |s.cams| && s.ctl.i < |s.frames|
    && Working(s.cams[s.ctl.i], s.frames[s.ctl.i])
  }

  /** The control thread is held up only by a missing request, by a camera that is still working on
      this cycle's frameset, or by one of which no cloud will come. */
  lemma ControlHeldUp<F, P>(g: Generator<F, P>, ss: seq<State<F, P>>, acts: seq<Action<F>>, i: nat, c: Captured<F>)
    requires Run(g, ss, acts) && i < |ss| && CaptureFits(ss[i], c) && !ControlReady(ss[i], c)
    ensures ss[i].ctl.CStopped? || (ss[i].ctl.CWant? && !ss[i].wantNew) || Lost(ss[i]) || AwaitsWork(ss[i])
  {
    RunInv(g, ss, acts, i);
    var s := ss[i];
    if s.ctl.CWaitCamera? && s.ctl.i < |s.cams| {
      assert CameraOk(g, s.ctl, s.ctl.i, s.cams[s.ctl.i], s.frames);
    }
  }

  // ----- what makes a camera barren

  /** Camera k's thread ends its work on a frameset without a cloud. */
  predicate FailsNow<F, P>(s: State<F, P>, a: Action<F>, k: nat) {
    a.WorkerMove? && a.i == k && a.fails && k < |s.cams| && s.cams[k].worker.WBusy?
  }

  /** Camera k is given what it captured. */
  predicate DispatchesNow<F, P>(s: State<F, P>, a: Action<F>, k: nat) {
    a.ControlMove? && s.ctl.CProcess? && s.ctl.i == k
  }

  /** Whether camera k's thread has failed since the last dispatch to it, before state i. */
  predicate FailedSince<F, P>(ss: seq<State<F, P>>, acts: seq<Action<F>>, i: nat, k: nat)
    requires |ss| == |acts| + 1 && i < |ss|
  {
    && 0 < i
    && !DispatchesNow(ss[i - 1], acts[i - 1], k)
    && (FailsNow(ss[i - 1], acts[i - 1], k) || FailedSince(ss, acts, i - 1, k))
  }

  lemma ControlKeepsCount<F, P>(s: State<F, P>, c: Captured<F>, refused: bool)
    requires ControlReady(s, c)
    ensures |ControlStep(s, c, refused).cams| == |s.cams|
    ensures s.ctl.CCapture? ==> ControlStep(s, c, refused).ctl.CCreate? || ControlStep(s, c, refused).ctl.CWant?
    ensures !s.ctl.CCapture? ==> ControlStep(s, c, refused).frames == s.frames
  {
  }

  lemma ControlBarren<F, P>(g: Generator<F, P>, s: State<F, P>, c: Captured<F>, refused: bool, k: nat)
    requires CamerasOk(g, s) && ControlReady(s, c) && k < |s.cams| && Dispatched(ControlStep(s, c, refused).ctl, k)
    ensures var s' := ControlStep(s, c, refused);
      && |s'.cams| == |s.cams| && s'.frames == s.frames && k < |s.frames|
      && if Dispatched(s.ctl, k) then !DispatchesNow(s, ControlMove(c, refused), k) && s'.cams[k] == s.cams[k]
         else DispatchesNow(s, ControlMove(c, refused), k) && (Barren(s'.cams[k]) <==> s.frames[k].None?)
  {
    hide Capture, Concat, Working;
    ControlKeepsCount(s, c, refused);
    assert CameraOk(g, s.ctl, k, s.cams[k], s.frames);
  }

  lemma WorkerBarren<F, P>(g: Generator<F, P>, s: State<F, P>, i: nat, fails: bool, k: nat)
    requires CamerasOk(g, s) && k < |s.cams| && Dispatched(s.ctl, k) && i < |s.cams| && !s.cams[i].worker.WExit?
    ensures var s' := s.(cams := s.cams[i := WorkerStep(g, i, s.cams[i], fails)]);
      Barren(s'.cams[k]) <==> FailsNow(s, WorkerMove(i, fails), k) || Barren(s.cams[k])
  {
    assert CameraOk(g, s.ctl, k, s.cams[k], s.frames);
  }

  lemma BarrenStep<F, P>(g: Generator<F, P>, s: State<F, P>, a: Action<F>, s': State<F, P>, k: nat)
    requires Inv(g, s) && Next(g, s, a, s') && k < |s'.cams| && Dispatched(s'.ctl, k)
    ensures |s.cams| == |s'.cams| && s'.frames == s.frames && k < |s.frames|
    ensures !Dispatched(s.ctl, k) ==> DispatchesNow(s, a, k) && (Barren(s'.cams[k]) <==> s.frames[k].None?)
    ensures Dispatched(s.ctl, k) ==>
      !DispatchesNow(s, a, k) && (Barren(s'.cams[k]) <==> FailsNow(s, a, k) || Barren(s.cams[k]))
  {
    assert HasCloud(s.ctl) ==> |s.frames| == |s.cams|;
    hide FlagsOk, IdsOk, RequestsOk, SourcesOk, CamerasOk, ControlStep, Barren, WorkerStep;
    match a
    case ControlMove(c, refused) =>
      ControlKeepsCount(s, c, refused);
      ControlBarren(g, s, c, refused, k);
    case WorkerMove(i, fails) => WorkerBarren(g, s, i, fails, k);
    case _ =>
  }

  /** No cloud comes of a dispatch exactly when it passed no frameset on or its camera's thread has
      failed since. */
  lemma {:induction false} BarrenIff<F, P>(g: Generator<F, P>, ss: seq<State<F, P>>, acts: seq<Action<F>>, i: nat,
                                           k: nat)
    requires Run(g, ss, acts) && i < |ss| && k < |ss[i].cams| && Dispatched(ss[i].ctl, k)
    ensures k < |ss[i].frames|
    ensures Barren(ss[i].cams[k]) <==> ss[i].frames[k].None? || FailedSince(ss, acts, i, k)
  {
    hide Next, Inv, Barren;
    if i != 0 {
      RunInv(g, ss, acts, i - 1);
      BarrenStep(g, ss[i - 1], acts[i - 1], ss[i], k);
      if Dispatched(ss[i - 1].ctl, k) {
        BarrenIff(g, ss, acts, i - 1, k);
      }
    }
  }

  // ----- a barren camera ends the session

  lemma BarrenStays<F, P>(g: Generator<F, P>, s: State<F, P>, a: Action<F>, s': State<F, P>, k: nat)
    requires Inv(g, s) && Next(g, s, a, s')
    requires k < |s.cams| && Dispatched(s.ctl, k) && Barren(s.cams[k])
    ensures |s'.cams| == |s.cams| && Dispatched(s'.ctl, k) && Barren(s'.cams[k])
    ensures s.ctl == CWaitCamera(k) ==> s'.ctl == s.ctl
    ensures s'.completed == s.completed && s'.delivered == s.delivered
    ensures |s'.consumers| == |s.consumers|
    ensures forall j :: 0 <= j < |s.consumers| && s.consumers[j].GWait? ==> s'.consumers[j].GWait?
  {
    assert CameraOk(g, s.ctl, k, s.cams[k], s.frames);
    hide IdsOk, RequestsOk, SourcesOk, Concat, Capture, CameraOk;
  }

  /** A camera of whose dispatch no cloud comes ends the session: the control thread does not get past
      the wait for it, where it keeps the mutex, nothing more is completed, and no consumer gets
      another cloud. */
  lemma {:induction false} BarrenStalls<F, P>(g: Generator<F, P>, ss: seq<State<F, P>>, acts: seq<Action<F>>, i: nat,
                                              j: nat, k: nat)
    requires Run(g, ss, acts) && i <= j < |ss|
    requires k < |ss[i].cams| && Dispatched(ss[i].ctl, k) && Barren(ss[i].cams[k])
    ensures k < |ss[j].cams| && Dispatched(ss[j].ctl, k) && Barren(ss[j].cams[k])
    ensures ss[i].ctl == CWaitCamera(k) ==> ss[j].ctl == ss[i].ctl
    ensures ss[j].completed == ss[i].completed && ss[j].delivered == ss[i].delivered
    ensures |ss[j].consumers| == |ss[i].consumers|
    ensures forall m :: 0 <= m < |ss[i].consumers| && ss[i].consumers[m].GWait? ==> ss[j].consumers[m].GWait?
    decreases j
  {
    hide Inv, Next, Init, Barren, Dispatched;
    if i < j {
      BarrenStalls(g, ss, acts, i, j - 1, k);
      RunInv(g, ss, acts, j - 1);
      BarrenStays(g, ss[j - 1], acts[j - 1], ss[j], k);
    }
  }

  // ----- continuations

  /** A run that begins with another. */
  ghost predicate Extends<F, P>(g: Generator<F, P>, ss: seq<State<F, P>>, acts: seq<Action<F>>,
                                more: seq<State<F, P>>, moreActs: seq<Action<F>>) {
    Run(g, more, moreActs) && ss <= more && acts <= moreActs
  }

  lemma ExtendRun<F, P>(g: Generator<F, P>, ss: seq<State<F, P>>, acts: seq<Action<F>>, a: Action<F>, s': State<F, P>)
    requires Run(g, ss, acts) && Next(g, ss[|ss| - 1], a, s')
    ensures Run(g, ss + [s'], acts + [a])
  {
    hide Next, Init;
  }

  /** Only the control thread and the cameras' threads step in the continuation. */
  ghost predicate Alone<F>(acts: seq<Action<F>>, moreActs: seq<Action<F>>) {
    forall k :: |acts| <= k < |moreActs| ==> moreActs[k].ControlMove? || moreActs[k].WorkerMove?
  }

  /** One more step of the control thread. */
  lemma ControlMoves<F, P>(g: Generator<F, P>, ss: seq<State<F, P>>, acts: seq<Action<F>>, c: Captured<F>,
                           s': State<F, P>)
    returns (more: seq<State<F, P>>, moreActs: seq<Action<F>>)
    requires Run(g, ss, acts) && ControlReady(ss[|ss| - 1], c) && s' == ControlStep(ss[|ss| - 1], c, false)
    ensures Extends(g, ss, acts, more, moreActs) && more[|more| - 1] == s'
    ensures moreActs == acts + [ControlMove(c, false)] && Alone(acts, moreActs)
  {
    more, moreActs := ss + [s'], acts + [ControlMove(c, false)];
    ExtendRun(g, ss, acts, ControlMove(c, false), s');
  }

  /** Steps a camera's thread needs, when it does not fail, to raise the done flag. */
  function WorkLeft<F, P>(cam: Camera<F, P>): nat {
    if cam.done then 0 else if cam.worker.WBusy? then 1 else 2
  }

  lemma WorkStep<F, P>(g: Generator<F, P>, s: State<F, P>, k: nat, s': State<F, P>)
    requires Inv(g, s) && s.ctl == CWaitCamera(k) && k < |s.cams| && !Barren(s.cams[k]) && !s.cams[k].done
    requires !s.cams[k].worker.WExit? ==> s' == s.(cams := s.cams[k := WorkerStep(g, k, s.cams[k], false)])
    ensures !s.cams[k].worker.WExit? && Next(g, s, WorkerMove(k, false), s')
    ensures !Barren(s'.cams[k]) && WorkLeft(s'.cams[k]) < WorkLeft(s.cams[k])
  {
    assert CameraOk(g, s.ctl, k, s.cams[k], s.frames);
  }

  lemma DoneOpens<F, P>(g: Generator<F, P>, s: State<F, P>, k: nat, c: Captured<F>)
    requires Inv(g, s) && s.ctl == CWaitCamera(k) && k < |s.cams| && !Barren(s.cams[k])
    ensures !s.cams[k].worker.WExit?
    ensures s.cams[k].done ==>
      && ControlReady(s, c)
      && ControlStep(s, c, false) == s.(cams := s.cams[k := s.cams[k].(done := false)], ctl := CWaitCamera(k + 1))
  {
    assert CameraOk(g, s.ctl, k, s.cams[k], s.frames);
  }

  /** A wait for a camera of which a cloud can come ends: at most two steps of its thread, neither of
      them failing, and the control thread goes on.  The other cameras are left as they are. */
  lemma {:induction false} WaitEnds<F, P>(g: Generator<F, P>, ss: seq<State<F, P>>, acts: seq<Action<F>>, k: nat)
    returns (more: seq<State<F, P>>, moreActs: seq<Action<F>>)
    requires Run(g, ss, acts)
    requires var s := ss[|ss| - 1]; s.ctl == CWaitCamera(k) && k < |s.cams| && !Barren(s.cams[k])
    ensures Extends(g, ss, acts, more, moreActs) && Alone(acts, moreActs)
    ensures var s, s', left := ss[|ss| - 1], more[|more| - 1], WorkLeft(ss[|ss| - 1].cams[k]);
      && |moreActs| == |acts| + left + 1
      && (forall j :: |acts| <= j < |acts| + left ==> moreActs[j] == WorkerMove(k, false))
      && s' == s.(ctl := CWaitCamera(k + 1), cams := s'.cams) && |s'.cams| == |s.cams|
      && forall i :: 0 <= i < |s.cams| && i != k ==> s'.cams[i] == s.cams[i]
    decreases WorkLeft(ss[|ss| - 1].cams[k])
  {
    hide Inv, Next, Init, Barren;
    var s := ss[|ss| - 1];
    var c := Captured(false, [], []);
    RunInv(g, ss, acts, |ss| - 1);
    DoneOpens(g, s, k, c);
    if s.cams[k].done {
      more, moreActs := ControlMoves(g, ss, acts, c, ControlStep(s, c, false));
    } else {
      var s' := s.(cams := s.cams[k := WorkerStep(g, k, s.cams[k], false)]);
      WorkStep(g, s, k, s');
      ExtendRun(g, ss, acts, WorkerMove(k, false), s');
      more, moreActs := WaitEnds(g, ss + [s'], acts + [WorkerMove(k, false)], k);
    }
  }

  /** This cycle's dispatch gave camera k a frameset, and its thread has not failed since. */
  predicate Fruitful<F, P>(ss: seq<State<F, P>>, acts: seq<Action<F>>, k: nat)
    requires |ss| == |acts| + 1 && k < |ss[|acts|].frames|
  {
    ss[|acts|].frames[k].Some? && !FailedSince(ss, acts, |acts|, k)
  }

  /** Some continuation takes the control thread past its present wait. */
  ghost predicate CanGoOn<F(!new), P(!new)>(g: Generator<F, P>, ss: seq<State<F, P>>, acts: seq<Action<F>>)
    requires ss != []
  {
    exists more: seq<State<F, P>>, moreActs: seq<Action<F>> ::
      Extends(g, ss, acts, more, moreActs) && more[|more| - 1].ctl != ss[|ss| - 1].ctl
  }

  /** The wait for camera k can end if and only if this cycle's dispatch gave that camera a frameset
      and its thread has not failed since. */
  lemma WaitEndsIff<F(!new), P(!new)>(g: Generator<F, P>, ss: seq<State<F, P>>, acts: seq<Action<F>>, k: nat)
    requires Run(g, ss, acts)
    requires ss[|ss| - 1].ctl == CWaitCamera(k) && k < |ss[|ss| - 1].cams|
    ensures k < |ss[|ss| - 1].frames|
    ensures CanGoOn(g, ss, acts) <==> Fruitful(ss, acts, k)
    ensures !CanGoOn(g, ss, acts) <==> Lost(ss[|ss| - 1])
  {
    hide Next, Init, Barren;
    BarrenIff(g, ss, acts, |acts|, k);
    if Barren(ss[|ss| - 1].cams[k]) {
      forall more: seq<State<F, P>>, moreActs: seq<Action<F>> | Extends(g, ss, acts, more, moreActs)
        ensures more[|more| - 1].ctl == ss[|ss| - 1].ctl
      {
        assert more[|ss| - 1] == ss[|ss| - 1];
        BarrenStalls(g, more, moreActs, |ss| - 1, |more| - 1, k);
      }
    } else {
      var more, moreActs := WaitEnds(g, ss, acts, k);
    }
  }

  // ----- a whole cycle

  /** From the wait for camera k on, when a cloud can come of every camera still to be waited for. */
  lemma {:induction false} WaitsEnd<F, P>(g: Generator<F, P>, ss: seq<State<F, P>>, acts: seq<Action<F>>, k: nat)
    returns (more: seq<State<F, P>>, moreActs: seq<Action<F>>)
    requires Run(g, ss, acts)
    requires var s := ss[|ss| - 1];
      s.ctl == CWaitCamera(k) && k <= |s.cams| && forall i :: k <= i < |s.cams| ==> !Barren(s.cams[i])
    ensures Extends(g, ss, acts, more, moreActs) && Alone(acts, moreActs)
    ensures var s, s' := ss[|ss| - 1], more[|more| - 1];
      s'.ctl == CMerge && s'.completed == s.completed && s'.merged == s.merged
    decreases |ss[|ss| - 1].cams| - k
  {
    hide Inv, Next, Init, Barren;
    var s := ss[|ss| - 1];
    if k < |s.cams| {
      more, moreActs := WaitEnds(g, ss, acts, k);
      more, moreActs := WaitsEnd(g, more, moreActs, k + 1);
    } else {
      var c := Captured(false, [], []);
      more, moreActs := ControlMoves(g, ss, acts, c, ControlStep(s, c, false));
    }
  }

  /** From the lock on, when a cloud can come of every camera: the cycle's cloud is published. */
  lemma CyclePublishes<F, P>(g: Generator<F, P>, ss: seq<State<F, P>>, acts: seq<Action<F>>)
    returns (more: seq<State<F, P>>, moreActs: seq<Action<F>>)
    requires Run(g, ss, acts)
    requires var s := ss[|ss| - 1]; s.ctl.CLock? && forall i :: 0 <= i < |s.cams| ==> !Barren(s.cams[i])
    ensures Extends(g, ss, acts, more, moreActs) && Alone(acts, moreActs)
    ensures |more[|more| - 1].completed| == |ss[|ss| - 1].completed| + 1 && more[|more| - 1].isFresh
  {
    hide Inv, Next, Init, Barren, Concat;
    var s := ss[|ss| - 1];
    var c := Captured(false, [], []);
    more, moreActs := ControlMoves(g, ss, acts, c, ControlStep(s, c, false));
    more, moreActs := WaitsEnd(g, more, moreActs, 0);
    more, moreActs := ControlMoves(g, more, moreActs, c, ControlStep(more[|more| - 1], c, false));
    more, moreActs := ControlMoves(g, more, moreActs, c, ControlStep(more[|more| - 1], c, false));
  }

  /** Some continuation publishes a cloud. */
  ghost predicate CanPublish<F(!new), P(!new)>(g: Generator<F, P>, ss: seq<State<F, P>>, acts: seq<Action<F>>)
    requires ss != []
  {
    exists more: seq<State<F, P>>, moreActs: seq<Action<F>> ::
      Extends(g, ss, acts, more, moreActs) && |more[|more| - 1].completed| > |ss[|ss| - 1].completed|
  }

  /** Once all cameras have been given what was captured, the cycle can publish its cloud if and only
      if each of them was given a frameset and no camera's thread has failed since. */
  lemma CyclePublishesIff<F(!new), P(!new)>(g: Generator<F, P>, ss: seq<State<F, P>>, acts: seq<Action<F>>)
    requires Run(g, ss, acts) && ss[|acts|].ctl.CLock?
    ensures |ss[|acts|].frames| == |ss[|acts|].cams|
    ensures CanPublish(g, ss, acts) <==> forall k :: 0 <= k < |ss[|acts|].frames| ==> Fruitful(ss, acts, k)
  {
    RunInv(g, ss, acts, |acts|);
    var s := ss[|acts|];
    assert |s.frames| == |s.cams|;
    forall k | 0 <= k < |s.cams|
      ensures Barren(s.cams[k]) <==> !Fruitful(ss, acts, k)
    {
      BarrenIff(g, ss, acts, |acts|, k);
    }
    hide Next, Init, Barren, Inv, Fruitful;
    if k :| 0 <= k < |s.cams| && Barren(s.cams[k]) {
      assert !Fruitful(ss, acts, k);
      forall more: seq<State<F, P>>, moreActs: seq<Action<F>> | Extends(g, ss, acts, more, moreActs)
        ensures more[|more| - 1].completed == s.completed
      {
        assert more[|acts|] == s;
        BarrenStalls(g, more, moreActs, |acts|, |more| - 1, k);
      }
    } else {
      var more, moreActs := CyclePublishes(g, ss, acts);
    }
  }

  // ----- runs that stall

  /** One camera and one waiting consumer, up to the wait for the camera, which captured h. */
  lemma FirstDispatch<F, P>(g: Generator<F, P>, h: Option<F>)
    returns (ss: seq<State<F, P>>, acts: seq<Action<F>>, s: State<F, P>)
    ensures Run(g, ss, acts) && s == ss[|ss| - 1]
    ensures s == State(true, false, Some(Cloud(0, [])), CWaitCamera(0), [Camera(None, [h], WWait, false, None, false)],
                       [GWait], [h], [[h]], 1, [], [], [])
  {
    hide Run;
    var none: Captured<F> := Captured(false, [], []);
    ss, acts, s := FirstCapture(g, h);
    assert [] + [h] == [h];
    s := s.(made := 1, ctl := CProcess(0, 0));
    ss, acts := ControlMoves(g, ss, acts, none, s);
    s := s.(cams := [Camera(None, [h], WWait, false, None, false)], ctl := CProcess(0, 1));
    ss, acts := ControlMoves(g, ss, acts, none, s);
    s := s.(ctl := CLock(0));
    ss, acts := ControlMoves(g, ss, acts, none, s);
    s := s.(merged := Some(Cloud(0, [])), ctl := CWaitCamera(0));
    ss, acts := ControlMoves(g, ss, acts, none, s);
  }

  lemma FirstCapture<F, P>(g: Generator<F, P>, h: Option<F>)
    returns (ss: seq<State<F, P>>, acts: seq<Action<F>>, s: State<F, P>)
    ensures Run(g, ss, acts) && s == ss[|ss| - 1]
    ensures s == State(true, false, None, CCreate, [Camera(h, [], WWait, false, None, false)], [GWait],
                       [h], [[h]], 0, [], [], [])
  {
    hide Run;
    var none: Captured<F> := Captured(false, [], []);
    var c: Captured<F> := Captured(true, [h], [false]);
    var cam: Camera<F, P> := Camera(None, [], WWait, false, None, false);
    assert [] + [[h]] == [[h]];
    s := State(true, false, None, CWant, [cam], [GWait], [], [], 0, [], [], []);
    ss, acts := RequestPosted(g, cam);
    s := s.(ctl := CEof);
    ss, acts := ControlMoves(g, ss, acts, none, s);
    s := s.(ctl := CCapture);
    ss, acts := ControlMoves(g, ss, acts, none, s);
    assert Capture(s, c).cams == [cam.(held := h)];
    s := s.(cams := [cam.(held := h)], ctl := CCreate, frames := [h], captured := [[h]]);
    ss, acts := ControlMoves(g, ss, acts, c, s);
  }

  lemma RequestPosted<F, P>(g: Generator<F, P>, cam: Camera<F, P>)
    returns (ss: seq<State<F, P>>, acts: seq<Action<F>>)
    requires cam == Camera(None, [], WWait, false, None, false)
    ensures Run(g, ss, acts)
    ensures ss[|ss| - 1] == State(true, false, None, CWant, [cam], [GWait], [], [], 0, [], [], [])
  {
    var s0: State<F, P> := State(false, false, None, CWant, [cam], [GIdle], [], [], 0, [], [], []);
    var s1 := s0.(consumers := [GRequest]);
    var s2 := s0.(wantNew := true, consumers := [GWait]);
    assert Run(g, [s0], []);
    ExtendRun(g, [s0], [], BeginGet(0), s1);
    ExtendRun(g, [s0] + [s1], [] + [BeginGet(0)], ConsumerMove(0), s2);
    ss, acts := [s0] + [s1] + [s2], [] + [BeginGet(0)] + [ConsumerMove(0)];
  }

  /** One input that shows it: the first frameset fails. */
  lemma StallHappens<F, P>(g: Generator<F, P>, f: F) returns (ss: seq<State<F, P>>, acts: seq<Action<F>>)
    ensures Run(g, ss, acts)
    ensures Lost(ss[|ss| - 1]) && ss[|ss| - 1].consumers == [GWait] && ss[|ss| - 1].completed == []
  {
    hide Run;
    var s: State<F, P>;
    ss, acts, s := FirstDispatch(g, Some(f));
    var cam := s.cams[0];
    assert [Some(f)][1..] == [];
    var busy, barren := s.(cams := [cam.(queue := [], worker := WBusy(f))]), s.(cams := [cam.(queue := [])]);
    ExtendRun(g, ss, acts, WorkerMove(0, false), busy);
    ExtendRun(g, ss + [busy], acts + [WorkerMove(0, false)], WorkerMove(0, true), barren);
    ss, acts := ss + [busy] + [barren], acts + [WorkerMove(0, false)] + [WorkerMove(0, true)];
  }

  /** The other: a successful capture left the camera without a frameset. */
  lemma NullFramesetStalls<F, P>(g: Generator<F, P>) returns (ss: seq<State<F, P>>, acts: seq<Action<F>>)
    ensures Run(g, ss, acts)
    ensures Lost(ss[|ss| - 1]) && ss[|ss| - 1].consumers == [GWait] && ss[|ss| - 1].completed == []
  {
    var s: State<F, P>;
    ss, acts, s := FirstDispatch(g, None);
  }

  // ----- playback

  /** What a capture of recordings leaves behind, with a frameset named by its place. */
  function Outcome(o: Playback.Outcome): Captured<nat> {
    Captured(o.ok, seq(|o.cams|, i requires 0 <= i < |o.cams| => o.cams[i].held),
             seq(|o.cams|, i requires 0 <= i < |o.cams| => o.cams[i].eos))
  }

  /** A capture of recordings is one of the captures of the hand-over.  When it succeeds every camera
      is given a frameset if and only if no camera but the reference is a sync master. */
  lemma PlaybackFits<P>(s: State<nat, P>, cams: seq<Playback.Cam>)
    requires |cams| == |s.cams| && Playback.AllValid(cams) && cams != []
    requires forall i :: 0 <= i < |cams| ==> !cams[i].eos && (cams[i].master ==> cams[i].held.None?)
    ensures CaptureFits(s, Outcome(Playback.CaptureAll(cams)))
    ensures Playback.CaptureAll(cams).ok ==>
      (AllGiven(Outcome(Playback.CaptureAll(cams)).held)
       <==> forall i :: 0 <= i < |cams| && cams[i].master ==> i == Playback.Reference(cams))
  {
    hide Playback.CaptureAll, Playback.Reference;
    var held := Outcome(Playback.CaptureAll(cams)).held;
    if Playback.CaptureAll(cams).ok {
      Playback.CaptureLeaves(cams);
      forall i | 0 <= i < |cams|
        ensures held[i].None? <==> cams[i].master && i != Playback.Reference(cams)
      {
      }
    }
  }

  // ----- the end of a stream

  /** Some camera has met the end of its stream. */
  ghost predicate Ended<F, P>(s: State<F, P>) {
    exists k :: 0 <= k < |s.cams| && s.cams[k].eos
  }

  lemma EndedStays<F, P>(g: Generator<F, P>, s: State<F, P>, a: Action<F>, s': State<F, P>)
    requires Next(g, s, a, s') && Ended(s)
    ensures Ended(s')
  {
    hide Concat;
    var k :| 0 <= k < |s.cams| && s.cams[k].eos;
    assert k < |s'.cams| && s'.cams[k].eos;
  }

  lemma StopsAtEnd<F, P>(g: Generator<F, P>, s: State<F, P>, a: Action<F>, s': State<F, P>)
    requires Next(g, s, a, s') && s'.ctl.CStopped? && !s.ctl.CStopped?
    ensures Ended(s')
  {
    hide Concat;
    var k :| 0 <= k < |s.cams| && s.cams[k].eos;
    assert s'.cams[k].eos;
  }

  /** The control thread stops of its own accord only at the end of a stream. */
  lemma {:induction false} StoppedAtEnd<F, P>(g: Generator<F, P>, ss: seq<State<F, P>>, acts: seq<Action<F>>, i: nat)
    requires Run(g, ss, acts) && i < |ss| && ss[i].ctl.CStopped?
    ensures Ended(ss[i])
  {
    hide Next;
    if i != 0 {
      if ss[i - 1].ctl.CStopped? {
        StoppedAtEnd(g, ss, acts, i - 1);
        EndedStays(g, ss[i - 1], acts[i - 1], ss[i]);
      } else {
        StopsAtEnd(g, ss[i - 1], acts[i - 1], ss[i]);
      }
    }
  }

  // ----- when a waiting consumer is served

  /** What a consumer that waits in `get_pointcloud` waits for: nothing, it can take a fresh cloud; or
      another consumer's trailing request, which can be made; or the control thread, which has seen
      the request, unless a stream has ended or no cloud will come of a camera. */
  lemma WaitingConsumer<F, P>(g: Generator<F, P>, ss: seq<State<F, P>>, acts: seq<Action<F>>, i: nat, j: nat,
                              c: Captured<F>)
    requires Run(g, ss, acts) && i < |ss| && j < |ss[i].consumers| && ss[i].consumers[j].GWait?
    requires CaptureFits(ss[i], c)
    ensures ss[i].isFresh ==>
      ConsumerReady(ss[i], j) && ConsumerStep(ss[i], j).delivered == ss[i].delivered + [ss[i].merged.value]
    ensures !ss[i].isFresh && !ss[i].wantNew ==>
      exists k :: 0 <= k < |ss[i].consumers| && ss[i].consumers[k].GTrailing?
                  && ConsumerReady(ss[i], k) && ConsumerStep(ss[i], k).wantNew
    ensures !ss[i].isFresh && ss[i].wantNew ==>
      ControlReady(ss[i], c) || AwaitsWork(ss[i]) || Lost(ss[i])
      || (ss[i].ctl.CStopped? && Ended(ss[i]))
  {
    RunInv(g, ss, acts, i);
    var s := ss[i];
    assert Answered(s);
    if !s.isFresh && !s.wantNew {
      var k :| 0 <= k < |s.consumers| && s.consumers[k].GTrailing?;
      assert ConsumerReady(s, k) && ConsumerStep(s, k).wantNew;
    }
    if !s.isFresh && s.wantNew && !ControlReady(s, c) {
      ControlHeldUp(g, ss, acts, i, c);
      if s.ctl.CStopped? {
        StoppedAtEnd(g, ss, acts, i);
      }
    }
  }

  /** Once the control thread has seen the end of a stream, a waiting consumer waits until `stop`:
      its posted request is never answered. */
  lemma {:induction false} EndedStreamStarves<F, P>(g: Generator<F, P>, ss: seq<State<F, P>>, acts: seq<Action<F>>,
                                                    i: nat, j: nat)
    requires Run(g, ss, acts) && i <= j < |ss| && ss[i].ctl.CStopped?
    ensures ss[j].ctl.CStopped? && ss[j].delivered == ss[i].delivered
    ensures |ss[j].consumers| == |ss[i].consumers|
    ensures forall k :: 0 <= k < |ss[i].consumers| && ss[i].consumers[k].GWait? ==> ss[j].consumers[k].GWait?
    decreases j
  {
    if i < j {
      EndedStreamStarves(g, ss, acts, i, j - 1);
      RunInv(g, ss, acts, j - 1);
      assert FlagsOk(ss[j - 1]);
      hide Inv, FlagsOk;
      assert Next(g, ss[j - 1], acts[j - 1], ss[j]);
    }
  }
}
