/**
 What a posted request leads to, for any number of cameras, and what the calls of the capturer's
 threads do.
 */
module CaptureRequests {
  import opened Options
  import opened CaptureHandover
  import opened CaptureProgress

  // ----- from a request to a cloud

  /** The control thread is about to capture for a posted request. */
  ghost predicate Asking<F, P>(s: State<F, P>) {
    (s.ctl.CWant? && s.wantNew) || s.ctl.CEof? || s.ctl.CCapture?
  }

  /** Every camera still to be given its frameset has one, and the others are at work on theirs. */
  ghost predicate Dispatching<F, P>(s: State<F, P>, k: nat) {
    && AllGiven(s.frames) && k <= |s.cams|
    && forall i :: 0 <= i < k ==> !Barren(s.cams[i])
  }

  lemma DispatchStep<F, P>(g: Generator<F, P>, s: State<F, P>, id: nat, k: nat, c: Captured<F>)
    requires Inv(g, s) && s.ctl == CProcess(id, k) && Dispatching(s, k) && k < |s.cams|
    ensures ControlReady(s, c)
    ensures var s' := ControlStep(s, c, false);
      s'.ctl == CProcess(id, k + 1) && Dispatching(s', k + 1) && |s'.cams| == |s.cams| && s'.completed == s.completed
  {
    assert CameraOk(g, s.ctl, k, s.cams[k], s.frames);
    hide Concat, Capture;
  }

  lemma {:induction false} DispatchAll<F, P>(g: Generator<F, P>, ss: seq<State<F, P>>, acts: seq<Action<F>>,
                                             id: nat, k: nat)
    returns (more: seq<State<F, P>>, moreActs: seq<Action<F>>)
    requires Run(g, ss, acts) && ss[|ss| - 1].ctl == CProcess(id, k) && Dispatching(ss[|ss| - 1], k)
    ensures Extends(g, ss, acts, more, moreActs) && Alone(acts, moreActs)
    ensures var s, s' := ss[|ss| - 1], more[|more| - 1];
      && s'.ctl.CLock? && s'.completed == s.completed
      && forall i :: 0 <= i < |s'.cams| ==> !Barren(s'.cams[i])
    decreases |ss[|ss| - 1].cams| - k
  {
    hide Inv, Next, Init, Barren, AllGiven;
    var s := ss[|ss| - 1];
    var c := Captured(false, [], []);
    if k < |s.cams| {
      RunInv(g, ss, acts, |ss| - 1);
      DispatchStep(g, s, id, k, c);
      more, moreActs := ControlMoves(g, ss, acts, c, ControlStep(s, c, false));
      more, moreActs := DispatchAll(g, more, moreActs, id, k + 1);
    } else {
      more, moreActs := ControlMoves(g, ss, acts, c, ControlStep(s, c, false));
    }
  }

  /** A capture that gives every camera the frameset f. */
  function Given<F>(n: nat, f: F): Captured<F> {
    Captured(true, seq(n, i => Some(f)), seq(n, i => false))
  }

  /** From the capture on. */
  lemma CapturePublishes<F, P>(g: Generator<F, P>, ss: seq<State<F, P>>, acts: seq<Action<F>>, f: F)
    returns (more: seq<State<F, P>>, moreActs: seq<Action<F>>)
    requires Run(g, ss, acts) && ss[|ss| - 1].ctl.CCapture?
    ensures Extends(g, ss, acts, more, moreActs) && Alone(acts, moreActs)
    ensures |more[|more| - 1].completed| == |ss[|ss| - 1].completed| + 1 && more[|more| - 1].isFresh
  {
    hide Inv, Next, Init, Barren, Concat;
    var s := ss[|ss| - 1];
    var c := Given(|s.cams|, f);
    more, moreActs := ControlMoves(g, ss, acts, c, ControlStep(s, c, false));
    more, moreActs := ControlMoves(g, more, moreActs, c, ControlStep(more[|more| - 1], c, false));
    more, moreActs := DispatchAll(g, more, moreActs, more[|more| - 1].ctl.id, 0);
    more, moreActs := CyclePublishes(g, more, moreActs);
  }

  /** From the posted request on, when no stream has ended. */
  lemma RequestPublishes<F, P>(g: Generator<F, P>, ss: seq<State<F, P>>, acts: seq<Action<F>>, f: F)
    returns (more: seq<State<F, P>>, moreActs: seq<Action<F>>)
    requires Run(g, ss, acts) && Asking(ss[|ss| - 1]) && !Ended(ss[|ss| - 1])
    ensures Extends(g, ss, acts, more, moreActs) && Alone(acts, moreActs)
    ensures |more[|more| - 1].completed| == |ss[|ss| - 1].completed| + 1 && more[|more| - 1].isFresh
  {
    hide Inv, Next, Init, Capture, Concat;
    var c := Captured(false, [], []);
    more, moreActs := ss, acts;
    if more[|more| - 1].ctl.CWant? {
      more, moreActs := ControlMoves(g, more, moreActs, c, ControlStep(more[|more| - 1], c, false));
    }
    if more[|more| - 1].ctl.CEof? {
      more, moreActs := ControlMoves(g, more, moreActs, c, ControlStep(more[|more| - 1], c, false));
    }
    more, moreActs := CapturePublishes(g, more, moreActs, f);
  }

  /** Until a request leads to a capture. */
  predicate Before<F, P>(s: State<F, P>) {
    s.ctl.CWant? || s.ctl.CEof? || s.ctl.CStopped?
  }

  lemma EndedStep<F, P>(g: Generator<F, P>, s: State<F, P>, a: Action<F>, s': State<F, P>)
    requires Next(g, s, a, s') && Ended(s) && Before(s)
    ensures Before(s') && s'.completed == s.completed
  {
    hide Concat, Capture;
  }

  lemma {:induction false} EndedPublishesNothing<F, P>(g: Generator<F, P>, ss: seq<State<F, P>>, acts: seq<Action<F>>,
                                                       i: nat, j: nat)
    requires Run(g, ss, acts) && i <= j < |ss| && Ended(ss[i]) && Before(ss[i])
    ensures Ended(ss[j]) && Before(ss[j]) && ss[j].completed == ss[i].completed
    decreases j
  {
    hide Next, Init, Ended, Before;
    if i < j {
      EndedPublishesNothing(g, ss, acts, i, j - 1);
      EndedStays(g, ss[j - 1], acts[j - 1], ss[j]);
      EndedStep(g, ss[j - 1], acts[j - 1], ss[j]);
    }
  }

  lemma CapturesUnended<F, P>(g: Generator<F, P>, s: State<F, P>)
    requires Inv(g, s) && s.ctl.CCapture?
    ensures !Ended(s)
  {
    hide FlagsOk, IdsOk, RequestsOk, SourcesOk;
    forall i | 0 <= i < |s.cams|
      ensures !s.cams[i].eos
    {
      assert CameraOk(g, s.ctl, i, s.cams[i], s.frames);
    }
  }

  /** A posted request can lead to a published cloud, with any number of cameras, if and only if no
      camera has met the end of its stream. */
  lemma RequestPublishesIff<F(!new), P(!new)>(g: Generator<F, P>, ss: seq<State<F, P>>, acts: seq<Action<F>>, f: F)
    requires Run(g, ss, acts) && Asking(ss[|ss| - 1])
    ensures CanPublish(g, ss, acts) <==> !Ended(ss[|ss| - 1])
  {
    hide Next, Init, Ended, Inv;
    var s := ss[|ss| - 1];
    if Ended(s) {
      RunInv(g, ss, acts, |ss| - 1);
      if s.ctl.CCapture? {
        CapturesUnended(g, s);
      }
      forall more: seq<State<F, P>>, moreActs: seq<Action<F>> | Extends(g, ss, acts, more, moreActs)
        ensures more[|more| - 1].completed == s.completed
      {
        assert more[|ss| - 1] == s;
        EndedPublishesNothing(g, more, moreActs, |ss| - 1, |more| - 1);
      }
    } else {
      var more, moreActs := RequestPublishes(g, ss, acts, f);
    }
  }

  lemma CaptureEnds<F, P>(g: Generator<F, P>, s: State<F, P>, c: Captured<F>, refused: bool, s': State<F, P>)
    requires Next(g, s, ControlMove(c, refused), s') && s.ctl.CCapture? && exists k :: 0 <= k < |c.ended| && c.ended[k]
    ensures Ended(s') && Before(s') && s'.completed == s.completed
  {
    var k :| 0 <= k < |c.ended| && c.ended[k];
    assert s'.cams[k].eos;
  }

  /** A capture that meets the end of a stream is the last one: nothing is published from then on. */
  lemma EndOfStreamEnds<F, P>(g: Generator<F, P>, ss: seq<State<F, P>>, acts: seq<Action<F>>, i: nat, j: nat)
    requires Run(g, ss, acts) && i < j < |ss| && ss[i].ctl.CCapture? && acts[i].ControlMove?
    requires exists k :: 0 <= k < |acts[i].c.ended| && acts[i].c.ended[k]
    ensures Ended(ss[j]) && Before(ss[j]) && ss[j].completed == ss[i].completed
  {
    CaptureEnds(g, ss[i], acts[i].c, acts[i].refused, ss[i + 1]);
    hide Next, Init, Ended, Before;
    EndedPublishesNothing(g, ss, acts, i + 1, j);
  }

  // ----- up to the consumer

  lemma AloneStep<F, P>(g: Generator<F, P>, s: State<F, P>, a: Action<F>, s': State<F, P>)
    requires Next(g, s, a, s') && (a.ControlMove? || a.WorkerMove?)
    ensures s'.consumers == s.consumers && s'.delivered == s.delivered
  {
    hide Concat;
  }

  lemma {:induction false} ConsumersWait<F, P>(g: Generator<F, P>, ss: seq<State<F, P>>, acts: seq<Action<F>>,
                                               i: nat, j: nat)
    requires Run(g, ss, acts) && i <= j < |ss|
    requires forall k :: i <= k < |acts| ==> acts[k].ControlMove? || acts[k].WorkerMove?
    ensures ss[j].consumers == ss[i].consumers && ss[j].delivered == ss[i].delivered
    decreases j
  {
    hide Next, Init;
    if i < j {
      ConsumersWait(g, ss, acts, i, j - 1);
      AloneStep(g, ss[j - 1], acts[j - 1], ss[j]);
    }
  }

  lemma TakesFresh<F, P>(g: Generator<F, P>, s: State<F, P>, j: nat) returns (s': State<F, P>)
    requires Inv(g, s) && s.isFresh && j < |s.consumers| && s.consumers[j].GWait?
    ensures Next(g, s, ConsumerMove(j), s') && |s'.delivered| == |s.delivered| + 1 && s'.consumers[j].GTrailing?
  {
    hide IdsOk, RequestsOk, CamerasOk, SourcesOk;
    s' := ConsumerStep(s, j);
  }

  /** Some continuation delivers a cloud to consumer j. */
  ghost predicate CanServe<F(!new), P(!new)>(g: Generator<F, P>, ss: seq<State<F, P>>, acts: seq<Action<F>>, j: nat)
    requires ss != []
  {
    exists more: seq<State<F, P>>, moreActs: seq<Action<F>> ::
      && Extends(g, ss, acts, more, moreActs)
      && |more[|more| - 1].delivered| > |ss[|ss| - 1].delivered|
      && j < |more[|more| - 1].consumers| && more[|more| - 1].consumers[j].GTrailing?
  }

  lemma ServedOnce<F, P>(g: Generator<F, P>, ss: seq<State<F, P>>, acts: seq<Action<F>>, j: nat)
    returns (more: seq<State<F, P>>, moreActs: seq<Action<F>>)
    requires Run(g, ss, acts) && ss[|ss| - 1].isFresh
    requires j < |ss[|ss| - 1].consumers| && ss[|ss| - 1].consumers[j].GWait?
    ensures Extends(g, ss, acts, more, moreActs)
    ensures |more[|more| - 1].delivered| == |ss[|ss| - 1].delivered| + 1
    ensures j < |more[|more| - 1].consumers| && more[|more| - 1].consumers[j].GTrailing?
  {
    RunInv(g, ss, acts, |ss| - 1);
    hide Inv, Next, Init;
    var s' := TakesFresh(g, ss[|ss| - 1], j);
    ExtendRun(g, ss, acts, ConsumerMove(j), s');
    more, moreActs := ss + [s'], acts + [ConsumerMove(j)];
    hide Run;
    Consumes(g, ss[|ss| - 1], j, s');
  }

  lemma Consumes<F, P>(g: Generator<F, P>, s: State<F, P>, j: nat, s': State<F, P>)
    requires Next(g, s, ConsumerMove(j), s')
    ensures j < |s.consumers| == |s'.consumers|
  {
  }

  /** So a consumer that waits on a posted request can be served if and only if no camera has met the
      end of its stream. */
  lemma WaitingServedIff<F(!new), P(!new)>(g: Generator<F, P>, ss: seq<State<F, P>>, acts: seq<Action<F>>, j: nat, f: F)
    requires Run(g, ss, acts) && Asking(ss[|ss| - 1])
    requires j < |ss[|ss| - 1].consumers| && ss[|ss| - 1].consumers[j].GWait?
    ensures CanServe(g, ss, acts, j) <==> !Ended(ss[|ss| - 1])
  {
    hide Next, Init, Ended, Inv;
    var s := ss[|ss| - 1];
    RunInv(g, ss, acts, |ss| - 1);
    if Ended(s) {
      if s.ctl.CCapture? {
        CapturesUnended(g, s);
      }
      NothingFresh(g, s);
      forall more: seq<State<F, P>>, moreActs: seq<Action<F>> | Extends(g, ss, acts, more, moreActs)
        ensures |more[|more| - 1].delivered| <= |s.delivered|
      {
        assert more[|ss| - 1] == s;
        EndedPublishesNothing(g, more, moreActs, |ss| - 1, |more| - 1);
        RunInv(g, more, moreActs, |more| - 1);
        NothingFresh(g, more[|more| - 1]);
      }
    } else {
      var more, moreActs := RequestPublishes(g, ss, acts, f);
      assert more[|ss| - 1] == s;
      ConsumersWait(g, more, moreActs, |ss| - 1, |more| - 1);
      var served, servedActs := ServedOnce(g, more, moreActs, j);
      assert Extends(g, ss, acts, served, servedActs);
      assert |served[|served| - 1].delivered| == |s.delivered| + 1;
    }
  }

  lemma NothingFresh<F, P>(g: Generator<F, P>, s: State<F, P>)
    requires Inv(g, s)
    ensures |s.delivered| <= |s.completed|
    ensures Asking(s) ==> |s.delivered| == |s.completed|
  {
    hide IdsOk, RequestsOk, CamerasOk, SourcesOk;
  }

  // ----- what single steps do

  /** Both calls of a consumer post a request unless one is posted, or a cloud is fresh, already. */
  lemma CallsRequest<F, P>(g: Generator<F, P>, ss: seq<State<F, P>>, acts: seq<Action<F>>, i: nat, j: nat)
    requires Run(g, ss, acts) && i < |acts| && acts[i] == ConsumerMove(j)
    ensures j < |ss[i].consumers|
    ensures ss[i].consumers[j].GRequest? || ss[i].consumers[j].ARequest? || ss[i].consumers[j].GTrailing? ==>
      ss[i + 1].wantNew || ss[i + 1].isFresh
  {
    assert Next(g, ss[i], acts[i], ss[i + 1]);
  }

  /** A consumer outside a call can begin either of them; inside one it can take its next step whenever the
      mutex is free, except that in `get_pointcloud` it waits for a fresh cloud. */
  lemma ConsumerProceeds<F, P>(g: Generator<F, P>, ss: seq<State<F, P>>, acts: seq<Action<F>>, i: nat, j: nat)
    requires Run(g, ss, acts) && i < |ss| && j < |ss[i].consumers|
    ensures var s := ss[i];
      if s.consumers[j].GIdle? then
        && (exists s' :: Next(g, s, BeginGet(j), s') && s'.consumers == s.consumers[j := GRequest])
        && (exists s' :: Next(g, s, BeginAvailable(j), s') && s'.consumers == s.consumers[j := ARequest])
      else (exists s' :: Next(g, s, ConsumerMove(j), s'))
           <==> MutexFree(s.ctl) && (s.consumers[j].GWait? ==> s.isFresh)
  {
    FlagsExclude(g, ss, acts, i);
    hide Run;
    var s := ss[i];
    if s.consumers[j].GIdle? {
      assert Next(g, s, BeginGet(j), s.(consumers := s.consumers[j := GRequest]));
      assert Next(g, s, BeginAvailable(j), s.(consumers := s.consumers[j := ARequest]));
    } else if ConsumerReady(s, j) {
      assert Next(g, s, ConsumerMove(j), ConsumerStep(s, j));
    }
  }

  /** The framesets of the captures that succeeded before state i, in order. */
  function Captures<F, P>(ss: seq<State<F, P>>, acts: seq<Action<F>>, i: nat): seq<seq<Option<F>>>
    requires i < |ss| == |acts| + 1
  {
    if i == 0 then []
    else
      Captures(ss, acts, i - 1)
      + if ss[i - 1].ctl.CCapture? && acts[i - 1].ControlMove? && acts[i - 1].c.ok then [acts[i - 1].c.held] else []
  }

  lemma CapturedStep<F, P>(g: Generator<F, P>, s: State<F, P>, a: Action<F>, s': State<F, P>)
    requires Next(g, s, a, s')
    ensures s'.captured == s.captured + if s.ctl.CCapture? && a.ControlMove? && a.c.ok then [a.c.held] else []
  {
    hide Concat;
  }

  /** Nothing goes into a cloud but what was captured: delivered cloud k is made of the framesets of
      the k-th capture that succeeded. */
  lemma CloudsOfCaptures<F, P>(g: Generator<F, P>, ss: seq<State<F, P>>, acts: seq<Action<F>>, i: nat, k: nat)
    requires Run(g, ss, acts) && i < |ss| && k < |ss[i].delivered|
    ensures k < |Captures(ss, acts, i)| && AllGiven(Captures(ss, acts, i)[k])
    ensures ss[i].delivered[k].points == Concat(FrameClouds(g, Captures(ss, acts, i)[k]))
  {
    hide Next, Init, Concat;
    CloudsOfTheirCycle(g, ss, acts, i, k);
    CapturedUsedOnce(g, ss, acts, i);
    CapturedAre(g, ss, acts, i);
    assert ss[i].captured[k] == ss[i].sources[k];
  }

  lemma {:induction false} CapturedAre<F, P>(g: Generator<F, P>, ss: seq<State<F, P>>, acts: seq<Action<F>>, i: nat)
    requires Run(g, ss, acts) && i < |ss|
    ensures ss[i].captured == Captures(ss, acts, i)
  {
    hide Next;
    if i != 0 {
      CapturedAre(g, ss, acts, i - 1);
      CapturedStep(g, ss[i - 1], acts[i - 1], ss[i]);
    }
  }

  // ----- a camera's thread at a null frameset

  lemma ControlKeepsThread<F, P>(s: State<F, P>, c: Captured<F>, refused: bool, i: nat)
    requires ControlReady(s, c) && i < |s.cams|
    ensures var s' := ControlStep(s, c, refused);
      |s'.cams| == |s.cams| && s'.cams[i].worker == s.cams[i].worker && (s.cams[i].eos ==> s'.cams[i].eos)
  {
    hide Concat;
  }

  lemma ExitStays<F, P>(g: Generator<F, P>, s: State<F, P>, a: Action<F>, s': State<F, P>, k: nat)
    requires Next(g, s, a, s') && k < |s.cams| && s.cams[k].worker.WExit?
    ensures k < |s'.cams| && s'.cams[k].worker.WExit?
  {
    hide ControlStep;
    if a.ControlMove? {
      ControlKeepsThread(s, a.c, a.refused, k);
    }
  }

  /** A camera's thread that takes a null frameset has left for good. */
  lemma {:induction false} NullFramesetLeaves<F, P>(g: Generator<F, P>, ss: seq<State<F, P>>, acts: seq<Action<F>>,
                                                    i: nat, j: nat, k: nat)
    requires Run(g, ss, acts) && i < j < |ss| && k < |ss[i].cams|
    requires acts[i].WorkerMove? && acts[i].i == k
    requires ss[i].cams[k].worker.WWait? && ss[i].cams[k].queue != [] && ss[i].cams[k].queue[0].None?
    ensures k < |ss[j].cams| && ss[j].cams[k].worker.WExit?
    decreases j
  {
    hide Init;
    if j == i + 1 {
      assert Next(g, ss[i], acts[i], ss[j]);
    } else {
      hide Next;
      NullFramesetLeaves(g, ss, acts, i, j - 1, k);
      ExitStays(g, ss[j - 1], acts[j - 1], ss[j], k);
    }
  }

  // ----- a camera's thread at the end of its stream

  function MovesOf<F>(acts: seq<Action<F>>, i: nat): nat {
    if acts == [] then 0
    else
      var a := acts[|acts| - 1];
      MovesOf(acts[..|acts| - 1], i) + if a.WorkerMove? && a.i == i then 1 else 0
  }

  function MovesLeft<F>(w: Worker<F>): nat {
    match w
    case WWait => 1
    case WBusy(_) => 2
    case WExit => 0
  }

  lemma EndedMoves<F, P>(g: Generator<F, P>, s: State<F, P>, a: Action<F>, s': State<F, P>, i: nat)
    requires Next(g, s, a, s') && i < |s.cams| && s.cams[i].eos
    ensures i < |s'.cams| && s'.cams[i].eos
    ensures MovesLeft(s'.cams[i].worker) + (if a.WorkerMove? && a.i == i then 1 else 0) <= MovesLeft(s.cams[i].worker)
  {
    hide ControlStep;
    if a.ControlMove? {
      ControlKeepsThread(s, a.c, a.refused, i);
    }
  }

  /** A camera's thread leaves at the end of its stream: it takes at most two more steps, one to finish
      what it is working on and one to leave. */
  lemma {:induction false} EndedThreadLeaves<F, P>(g: Generator<F, P>, ss: seq<State<F, P>>, acts: seq<Action<F>>,
                                                   i: nat, j: nat, k: nat)
    requires Run(g, ss, acts) && i <= j < |ss| && k < |ss[i].cams| && ss[i].cams[k].eos
    ensures k < |ss[j].cams| && ss[j].cams[k].eos
    ensures MovesOf(acts[i..j], k) + MovesLeft(ss[j].cams[k].worker) <= MovesLeft(ss[i].cams[k].worker) <= 2
    decreases j
  {
    hide Next, Init;
    if i < j {
      EndedThreadLeaves(g, ss, acts, i, j - 1, k);
      EndedMoves(g, ss[j - 1], acts[j - 1], ss[j], k);
      var moves := acts[i..j];
      assert moves[..|moves| - 1] == acts[i..j - 1] && moves[|moves| - 1] == acts[j - 1];
    }
  }
}
