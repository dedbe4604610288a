/**
 The Kinect capturer as a step machine, for one session from `start` until `stop`: a control
 thread that captures, dispatches, waits and merges; one processing thread per camera, behind a
 one-slot queue and a done flag; and any number of consumers.  A critical section on the merged
 cloud's mutex is one step, except that the control thread keeps the mutex while it waits for the
 cameras and merges.

 `frames`, `captured`, `made`, `completed`, `sources` and `delivered` are history variables: the
 framesets of the current cycle, those of every successful capture, the clouds created so far (a
 cloud's number is its identity), the clouds published, the framesets each was made from, and the
 clouds handed to consumers.
 */
module CaptureHandover {
  import opened Options

  /** The points a camera's thread makes of a frameset. */
  datatype Generator<!F, !P> = Generator(points: (nat, F) -> seq<P>)

  datatype Cloud<P> = Cloud(id: nat, points: seq<P>)

  datatype Worker<F> = WWait | WBusy(frame: F) | WExit

  datatype Camera<F, P> = Camera(
    held: Option<F>,        // current_captured_frameset
    queue: seq<Option<F>>,  // processing_frame_queue; None is a null frameset
    worker: Worker<F>,
    done: bool,             // processing_done
    cloud: Option<seq<P>>,  // current_pcl_pointcloud
    eos: bool)              // end_of_stream_reached

  datatype Control =
    | CWant
    | CEof
    | CCapture
    | CCreate
    | CProcess(id: nat, i: nat)
    | CLock(id: nat)
    | CWaitCamera(i: nat)   // from here on it holds the mutex
    | CMerge
    | CPublish
    | CStopped

  datatype Consumer =
    | GIdle
    | GRequest | GWait | GTrailing          // get_pointcloud
    | ARequest | ACheck         // pointcloud_available

  datatype State<F, P> = State(
    wantNew: bool, isFresh: bool, merged: Option<Cloud<P>>,
    ctl: Control, cams: seq<Camera<F, P>>, consumers: seq<Consumer>,
    frames: seq<Option<F>>, captured: seq<seq<Option<F>>>, made: nat,
    completed: seq<Cloud<P>>, sources: seq<seq<Option<F>>>, delivered: seq<Cloud<P>>)

  predicate MutexFree(ctl: Control) {
    !ctl.CWaitCamera? && !ctl.CMerge? && !ctl.CPublish?
  }

  // ----- merging

  /** All cameras' points in camera order; a camera without a cloud adds none. */
  function Concat<P>(clouds: seq<Option<seq<P>>>): seq<P> {
    if clouds == [] then []
    else Concat(clouds[..|clouds| - 1]) + match clouds[|clouds| - 1] case None => [] case Some(ps) => ps
  }

  class MergedCloud<P> {
    var points: seq<P>

    constructor ()
      ensures points == []
    {
      points := [];
    }

    /** `_merge_camera_pointclouds`: clears the cloud and appends every camera's points; the final
        size is the one that was reserved. */
    method Merge(clouds: seq<Option<seq<P>>>) returns (reserved: nat)
      modifies this
      ensures points == Concat(clouds) && reserved == |points|
    {
      points := [];
      reserved := 0;
      for i := 0 to |clouds|
        invariant reserved == |Concat(clouds[..i])|
      {
        assert clouds[..i + 1][..i] == clouds[..i];
        if clouds[i].Some? {
          reserved := reserved + |clouds[i].value|;
        }
      }
      for i := 0 to |clouds|
        invariant points == Concat(clouds[..i])
      {
        assert clouds[..i + 1][..i] == clouds[..i];
        if clouds[i].Some? {
          points := points + clouds[i].value;
        }
      }
      assert clouds[..|clouds|] == clouds;
    }
  }

  /** What the merged cloud of a cycle has to be: every camera's cloud of this cycle's frameset. */
  function FrameClouds<F, P>(g: Generator<F, P>, frames: seq<Option<F>>): (cs: seq<Option<seq<P>>>)
    ensures |cs| == |frames|
    ensures forall i :: 0 <= i < |cs| ==>
      cs[i] == if frames[i].Some? then Some(g.points(i, frames[i].value)) else None
  {
    seq(|frames|, i requires 0 <= i < |frames| =>
      if frames[i].Some? then Some(g.points(i, frames[i].value)) else None)
  }

  function CurrentClouds<F, P>(cams: seq<Camera<F, P>>): (cs: seq<Option<seq<P>>>)
    ensures |cs| == |cams| && forall i :: 0 <= i < |cs| ==> cs[i] == cams[i].cloud
  {
    seq(|cams|, i requires 0 <= i < |cams| => cams[i].cloud)
  }

  // ----- the control thread

  /** What `_capture_all_cameras` leaves behind: the framesets the cameras hold.  End-of-stream flags
      are raised only by a capture that fails.  One that succeeds can leave a camera without a
      frameset (PlaybackSync.CaptureLeaves says which). */
  datatype Captured<F> = Captured(ok: bool, held: seq<Option<F>>, ended: seq<bool>)

  ghost predicate CaptureFits<F, P>(s: State<F, P>, c: Captured<F>) {
    && |c.held| == |c.ended| == |s.cams|
    && (c.ok ==> forall i :: 0 <= i < |c.ended| ==> !c.ended[i])
  }

  function Capture<F, P>(s: State<F, P>, c: Captured<F>): State<F, P>
    requires CaptureFits(s, c)
  {
    var cams := seq(|s.cams|, i requires 0 <= i < |s.cams| =>
      s.cams[i].(held := c.held[i], eos := s.cams[i].eos || c.ended[i]));
    if c.ok then s.(cams := cams, ctl := CCreate, frames := c.held, captured := s.captured + [c.held])
    else s.(cams := cams, ctl := CWant)
  }

  /** `process_pointcloud_from_frameset`, with its assertion compiled out: a null frameset is passed
      on like any other.  A refused one is dropped; only a queue that is not empty refuses. */
  function Process<F, P>(cam: Camera<F, P>, refused: bool): Camera<F, P> {
    if refused && cam.queue != [] then cam.(held := None)
    else cam.(held := None, queue := cam.queue + [cam.held])
  }

  ghost predicate ControlReady<F, P>(s: State<F, P>, c: Captured<F>) {
    match s.ctl
    case CWant => s.wantNew
    case CCapture => CaptureFits(s, c)
    case CWaitCamera(i) => i < |s.cams| ==> s.cams[i].done && !s.cams[i].worker.WBusy?
    case CMerge => s.merged.Some?
    case CPublish => s.merged.Some?
    case CStopped => false
    case _ => true
  }

  ghost function ControlStep<F, P>(s: State<F, P>, c: Captured<F>, refused: bool): State<F, P>
    requires ControlReady(s, c)
  {
    match s.ctl
    case CWant => s.(ctl := CEof)
    case CEof => s.(ctl := if exists i :: 0 <= i < |s.cams| && s.cams[i].eos then CStopped else CCapture)
    case CCapture => Capture(s, c)
    case CCreate => s.(made := s.made + 1, ctl := CProcess(s.made, 0))
    case CProcess(id, i) =>
      if i < |s.cams| then s.(cams := s.cams[i := Process(s.cams[i], refused)], ctl := CProcess(id, i + 1))
      else s.(ctl := CLock(id))
    case CLock(id) =>
      s.(merged := Some(Cloud(id, [])), ctl := CWaitCamera(0))
    case CWaitCamera(i) =>
      if i < |s.cams| then s.(cams := s.cams[i := s.cams[i].(done := false)], ctl := CWaitCamera(i + 1))
      else s.(ctl := CMerge)
    case CMerge =>
      s.(merged := Some(s.merged.value.(points := Concat(CurrentClouds(s.cams)))), ctl := CPublish)
    case CPublish =>
      s.(isFresh := true, wantNew := false, ctl := CWant,
         completed := s.completed + [s.merged.value], sources := s.sources + [s.frames])
  }

  // ----- the camera threads

  /** One step of camera i's processing thread; `fails` says that no cloud came out. */
  function WorkerStep<F, P>(g: Generator<F, P>, i: nat, cam: Camera<F, P>, fails: bool): Camera<F, P>
    requires !cam.worker.WExit?
  {
    match cam.worker
    case WWait =>
      if cam.eos then cam.(worker := WExit, queue := if cam.queue == [] then [] else cam.queue[1..])
      else if cam.queue == [] then cam  // timed out
      else if cam.queue[0].None? then cam.(worker := WExit, queue := cam.queue[1..])
      else cam.(worker := WBusy(cam.queue[0].value), queue := cam.queue[1..])
    case WBusy(frame) =>
      if fails then cam.(worker := WWait)
      else cam.(worker := WWait, cloud := Some(g.points(i, frame)), done := true)
  }

  // ----- the consumers

  function Request<F, P>(s: State<F, P>): State<F, P> {
    if !s.wantNew && !s.isFresh then s.(wantNew := true) else s
  }

  predicate ConsumerReady<F, P>(s: State<F, P>, j: nat)
    requires j < |s.consumers|
  {
    && !s.consumers[j].GIdle?
    && MutexFree(s.ctl)
    && (s.consumers[j].GWait? ==> s.isFresh && s.merged.Some?)
  }

  /** One step of consumer j.  A check of `available` may come at any time: when a cloud is fresh,
      or when the wait has timed out. */
  function ConsumerStep<F, P>(s: State<F, P>, j: nat): State<F, P>
    requires j < |s.consumers| && ConsumerReady(s, j)
  {
    match s.consumers[j]
    case GRequest => Request(s).(consumers := s.consumers[j := GWait])
    case GWait =>
      s.(isFresh := false, delivered := s.delivered + [s.merged.value], merged := None,
         consumers := s.consumers[j := GTrailing])
    case GTrailing => Request(s).(consumers := s.consumers[j := GIdle])
    case ARequest => Request(s).(consumers := s.consumers[j := ACheck])
    case ACheck => s.(consumers := s.consumers[j := GIdle])
  }

  // ----- runs

  datatype Action<F> =
    | ControlMove(c: Captured<F>, refused: bool)
    | WorkerMove(i: nat, fails: bool)
    | BeginGet(j: nat)
    | BeginAvailable(j: nat)
    | ConsumerMove(j: nat)

  ghost predicate Init<F, P>(s: State<F, P>) {
    && s == State(false, false, None, CWant, s.cams, s.consumers, [], [], 0, [], [], [])
    && (forall i :: 0 <= i < |s.cams| ==> s.cams[i] == Camera(None, [], WWait, false, None, false))
    && (forall j :: 0 <= j < |s.consumers| ==> s.consumers[j] == GIdle)
  }

  ghost predicate Next<F, P>(g: Generator<F, P>, s: State<F, P>, a: Action<F>, s': State<F, P>) {
    match a
    case ControlMove(c, refused) => ControlReady(s, c) && s' == ControlStep(s, c, refused)
    case WorkerMove(i, fails) =>
      && i < |s.cams| && !s.cams[i].worker.WExit?
      && s' == s.(cams := s.cams[i := WorkerStep(g, i, s.cams[i], fails)])
    case BeginGet(j) =>
      j < |s.consumers| && s.consumers[j].GIdle? && s' == s.(consumers := s.consumers[j := GRequest])
    case BeginAvailable(j) =>
      j < |s.consumers| && s.consumers[j].GIdle? && s' == s.(consumers := s.consumers[j := ARequest])
    case ConsumerMove(j) => j < |s.consumers| && ConsumerReady(s, j) && s' == ConsumerStep(s, j)
  }

  ghost predicate Run<F, P>(g: Generator<F, P>, ss: seq<State<F, P>>, acts: seq<Action<F>>) {
    && |ss| == |acts| + 1
    && Init(ss[0])
    && forall i :: 0 <= i < |acts| ==> Next(g, ss[i], acts[i], ss[i + 1])
  }

  // ----- the flags

  /** The control thread is between seeing a request and publishing. */
  predicate InCycle(ctl: Control) {
    !ctl.CWant? && !ctl.CStopped?
  }

  /** A cloud is being filled. */
  predicate Filling(ctl: Control) {
    !MutexFree(ctl)
  }

  ghost predicate FlagsOk<F, P>(s: State<F, P>) {
    && !(s.wantNew && s.isFresh)
    && (InCycle(s.ctl) || s.ctl.CStopped? ==> s.wantNew)
    && (s.merged.Some? <==> s.isFresh || Filling(s.ctl))
    && (s.isFresh ==> !Filling(s.ctl))
    && s.completed == s.delivered + (if s.isFresh then [s.merged.value] else [])
  }

  /** Clouds are numbered as they are created; the one in the making is the newest. */
  ghost predicate IdsOk<F, P>(s: State<F, P>) {
    && (forall i :: 0 <= i < |s.completed| ==>
          s.completed[i].id < s.made - (if InCycle(s.ctl) && HasCloud(s.ctl) then 1 else 0))
    && (forall i, j :: 0 <= i < j < |s.completed| ==> s.completed[i].id < s.completed[j].id)
    && (s.ctl.CProcess? || s.ctl.CLock? ==> s.ctl.id + 1 == s.made)
    && (Filling(s.ctl) && s.merged.Some? ==> s.merged.value.id + 1 == s.made)
  }

  predicate HasCloud(ctl: Control) {
    ctl.CProcess? || ctl.CLock? || Filling(ctl)
  }

  /** A waiting consumer's request is on its way: it is posted, or answered, or the consumer that
      took the answer is about to request again. */
  ghost predicate Answered<F, P>(s: State<F, P>) {
    || s.isFresh || s.wantNew
    || exists k :: 0 <= k < |s.consumers| && s.consumers[k].GTrailing?
  }

  ghost predicate RequestsOk<F, P>(s: State<F, P>) {
    forall j :: 0 <= j < |s.consumers| && s.consumers[j].GWait? ==> Answered(s)
  }

  // ----- the cameras

  /** Whether camera i has this cycle's frameset to process, and whether its result has been
      waited for. */
  predicate Dispatched(ctl: Control, i: nat) {
    (ctl.CProcess? && i < ctl.i) || ctl.CLock? || (ctl.CWaitCamera? && ctl.i <= i)
  }

  predicate Collected(ctl: Control, i: nat) {
    (ctl.CWaitCamera? && i < ctl.i) || ctl.CMerge? || ctl.CPublish?
  }

  /** The frameset is in the slot, or being processed. */
  predicate Working<F(==), P>(cam: Camera<F, P>, frame: Option<F>) {
    && frame.Some? && !cam.done
    && ((cam.queue == [frame] && cam.worker == WWait) || (cam.queue == [] && cam.worker == WBusy(frame.value)))
  }

  /** The cloud of the frameset is there. */
  ghost predicate Finished<F, P>(g: Generator<F, P>, i: nat, cam: Camera<F, P>, frame: Option<F>) {
    && frame.Some? && cam.done
    && cam.queue == [] && cam.worker.WWait? && cam.cloud == Some(g.points(i, frame.value))
  }

  /** No cloud will come: there is no frameset left, but for a null one, and the done flag is down. */
  predicate Barren<F, P>(cam: Camera<F, P>) {
    && !cam.done && !cam.worker.WBusy?
    && (|cam.queue| == 0 || (|cam.queue| == 1 && cam.queue[0].None?))
  }

  /** This cycle's frameset is in one place: in the slot, being processed, processed; or no cloud
      comes of it.  No stream has ended while a cycle is under way. */
  ghost predicate CameraOk<F, P>(g: Generator<F, P>, ctl: Control, i: nat, cam: Camera<F, P>, frames: seq<Option<F>>) {
    && (ctl.CCreate? || HasCloud(ctl) ==> i < |frames|)
    && (ctl.CCreate? || (ctl.CProcess? && ctl.i <= i) ==> cam.held == frames[i])
    && (cam.worker.WExit? ==> cam.eos || (Dispatched(ctl, i) && frames[i].None?))
    && (InCycle(ctl) && !ctl.CEof? ==> !cam.eos)
    && (Dispatched(ctl, i) ==>
          && (Working(cam, frames[i]) || Finished(g, i, cam, frames[i]) || Barren(cam))
          && (if frames[i].None? then Barren(cam) else Barren(cam) ==> cam.queue == []))
    && (!Dispatched(ctl, i) ==> cam.queue == [] && !cam.worker.WBusy? && !cam.done)
    && (Collected(ctl, i) ==> frames[i].Some? && cam.cloud == Some(g.points(i, frames[i].value)))
  }

  predicate AllGiven<F>(frames: seq<Option<F>>) {
    forall i :: 0 <= i < |frames| ==> frames[i].Some?
  }

  ghost predicate CamerasOk<F, P>(g: Generator<F, P>, s: State<F, P>) {
    && (s.ctl.CCreate? || HasCloud(s.ctl) ==> |s.frames| == |s.cams|)
    && (s.ctl.CProcess? || s.ctl.CWaitCamera? ==> s.ctl.i <= |s.cams|)
    && forall i :: 0 <= i < |s.cams| ==> CameraOk(g, s.ctl, i, s.cams[i], s.frames)
  }

  ghost predicate SourcesOk<F, P>(g: Generator<F, P>, s: State<F, P>) {
    && |s.sources| == |s.completed|
    && s.captured == s.sources + (if s.ctl.CCreate? || HasCloud(s.ctl) then [s.frames] else [])
    && (forall k :: 0 <= k < |s.completed| ==>
          && |s.sources[k]| == |s.cams| && AllGiven(s.sources[k])
          && s.completed[k].points == Concat(FrameClouds(g, s.sources[k])))
    && (s.ctl.CPublish? && s.merged.Some? ==>
          AllGiven(s.frames) && s.merged.value.points == Concat(FrameClouds(g, s.frames)))
  }

  ghost predicate Inv<F, P>(g: Generator<F, P>, s: State<F, P>) {
    FlagsOk(s) && IdsOk(s) && RequestsOk(s) && CamerasOk(g, s) && SourcesOk(g, s)
  }

  lemma InitInv<F, P>(g: Generator<F, P>, s: State<F, P>)
    requires Init(s)
    ensures Inv(g, s)
  {
    hide Concat, Answered;
    assert CamerasOk(g, s);
    hide CameraOk, CamerasOk;
    assert SourcesOk(g, s);
  }

  lemma CaptureKeepsCameras<F, P>(g: Generator<F, P>, s: State<F, P>, c: Captured<F>)
    requires CamerasOk(g, s) && s.ctl == CCapture && CaptureFits(s, c)
    ensures CamerasOk(g, Capture(s, c))
  {
    forall i | 0 <= i < |s.cams|
      ensures CameraOk(g, Capture(s, c).ctl, i, Capture(s, c).cams[i], Capture(s, c).frames)
    {
      assert CameraOk(g, s.ctl, i, s.cams[i], s.frames);
    }
  }

  lemma ControlKeepsCamera<F, P>(g: Generator<F, P>, s: State<F, P>, c: Captured<F>, refused: bool, i: nat)
    requires ControlReady(s, c) && !s.ctl.CCapture? && i < |s.cams|
    requires CameraOk(g, s.ctl, i, s.cams[i], s.frames)
    requires s.ctl.CProcess? || s.ctl.CWaitCamera? ==> s.ctl.i <= |s.cams|
    ensures var s' := ControlStep(s, c, refused);
      s'.frames == s.frames && |s'.cams| == |s.cams| && CameraOk(g, s'.ctl, i, s'.cams[i], s'.frames)
  {
    hide Concat, Capture;
  }

  lemma ControlKeepsCameras<F, P>(g: Generator<F, P>, s: State<F, P>, c: Captured<F>, refused: bool)
    requires CamerasOk(g, s) && ControlReady(s, c)
    ensures CamerasOk(g, ControlStep(s, c, refused))
  {
    hide Concat, Capture, CameraOk;
    var s' := ControlStep(s, c, refused);
    if s.ctl.CCapture? {
      CaptureKeepsCameras(g, s, c);
      return;
    }
    forall i | 0 <= i < |s.cams|
      ensures CameraOk(g, s'.ctl, i, s'.cams[i], s'.frames)
    {
      ControlKeepsCamera(g, s, c, refused, i);
    }
  }

  lemma WorkerKeepsCameras<F, P>(g: Generator<F, P>, s: State<F, P>, i: nat, fails: bool)
    requires CamerasOk(g, s) && i < |s.cams| && !s.cams[i].worker.WExit?
    ensures CamerasOk(g, s.(cams := s.cams[i := WorkerStep(g, i, s.cams[i], fails)]))
  {
    assert CameraOk(g, s.ctl, i, s.cams[i], s.frames);
    assert CameraOk(g, s.ctl, i, WorkerStep(g, i, s.cams[i], fails), s.frames);
    hide CameraOk;
  }

  lemma ControlKeepsSources<F, P>(g: Generator<F, P>, s: State<F, P>, c: Captured<F>, refused: bool)
    requires Inv(g, s) && ControlReady(s, c)
    ensures SourcesOk(g, ControlStep(s, c, refused))
  {
    if s.ctl.CMerge? {
      assert CurrentClouds(s.cams) == FrameClouds(g, s.frames);
    }
    hide Concat;
  }

  lemma NextFlags<F, P>(g: Generator<F, P>, s: State<F, P>, a: Action<F>, s': State<F, P>)
    requires FlagsOk(s) && Next(g, s, a, s')
    ensures FlagsOk(s')
  {
    hide Concat;
  }

  lemma ControlKeepsIds<F, P>(s: State<F, P>, c: Captured<F>, refused: bool)
    requires FlagsOk(s) && IdsOk(s) && ControlReady(s, c)
    ensures IdsOk(ControlStep(s, c, refused))
  {
    hide Concat;
  }

  lemma OthersKeepIds<F, P>(s: State<F, P>, s': State<F, P>)
    requires IdsOk(s) && s'.ctl == s.ctl && s'.completed == s.completed && s'.made == s.made
    requires s'.merged == s.merged || MutexFree(s.ctl)
    ensures IdsOk(s')
  {
  }

  lemma NextIds<F, P>(g: Generator<F, P>, s: State<F, P>, a: Action<F>, s': State<F, P>)
    requires FlagsOk(s) && IdsOk(s) && Next(g, s, a, s')
    ensures IdsOk(s')
  {
    hide IdsOk, FlagsOk, Concat;
    match a
    case ControlMove(c, refused) => ControlKeepsIds(s, c, refused);
    case _ => OthersKeepIds(s, s');
  }

  lemma NextRequests<F, P>(g: Generator<F, P>, s: State<F, P>, a: Action<F>, s': State<F, P>)
    requires FlagsOk(s) && RequestsOk(s) && Next(g, s, a, s')
    ensures RequestsOk(s')
  {
    if a.ConsumerMove? {
      ConsumerKeepsRequests(s, a.j);
    } else if exists j :: 0 <= j < |s'.consumers| && s'.consumers[j].GWait? {
      assert exists j :: 0 <= j < |s.consumers| && s.consumers[j].GWait?;
      assert Answered(s);
      if !s.isFresh && !s.wantNew {
        var k :| 0 <= k < |s.consumers| && s.consumers[k].GTrailing?;
        assert s'.consumers[k].GTrailing?;
      }
    }
  }

  lemma ConsumerKeepsRequests<F, P>(s: State<F, P>, j: nat)
    requires FlagsOk(s) && RequestsOk(s) && j < |s.consumers| && ConsumerReady(s, j)
    ensures RequestsOk(ConsumerStep(s, j))
  {
    var s' := ConsumerStep(s, j);
    if s.consumers[j].GWait? {
      assert s'.consumers[j].GTrailing?;
    } else if s'.isFresh || s'.wantNew {
    } else {
      assert s.consumers[j].ACheck?;
      if k :| 0 <= k < |s'.consumers| && s'.consumers[k].GWait? {
        assert s.consumers[k].GWait?;
        var m :| 0 <= m < |s.consumers| && s.consumers[m].GTrailing?;
        assert s'.consumers[m].GTrailing?;
      }
    }
  }

  lemma ConsumerKeepsRest<F, P>(g: Generator<F, P>, s: State<F, P>, j: nat)
    requires CamerasOk(g, s) && SourcesOk(g, s) && j < |s.consumers| && ConsumerReady(s, j)
    ensures CamerasOk(g, ConsumerStep(s, j)) && SourcesOk(g, ConsumerStep(s, j))
  {
    hide CameraOk, Concat;
  }

  lemma NextInv<F, P>(g: Generator<F, P>, s: State<F, P>, a: Action<F>, s': State<F, P>)
    requires Inv(g, s) && Next(g, s, a, s')
    ensures Inv(g, s')
  {
    NextFlags(g, s, a, s');
    NextIds(g, s, a, s');
    NextRequests(g, s, a, s');
    hide FlagsOk, IdsOk, RequestsOk, CameraOk, Concat, ControlStep, ConsumerStep;
    match a
    case ControlMove(c, refused) =>
      ControlKeepsCameras(g, s, c, refused);
      ControlKeepsSources(g, s, c, refused);
    case WorkerMove(i, fails) => WorkerKeepsCameras(g, s, i, fails);
    case ConsumerMove(j) => ConsumerKeepsRest(g, s, j);
    case _ =>
  }

  lemma {:induction false} RunInv<F, P>(g: Generator<F, P>, ss: seq<State<F, P>>, acts: seq<Action<F>>, i: nat)
    requires Run(g, ss, acts) && i < |ss|
    ensures Inv(g, ss[i])
  {
    hide Inv, Init, Next;
    if i == 0 {
      InitInv(g, ss[0]);
    } else {
      RunInv(g, ss, acts, i - 1);
      NextInv(g, ss[i - 1], acts[i - 1], ss[i]);
    }
  }

  // ----- the theorems

  /** At most one of the two flags is up, and a fresh cloud is there to be taken. */
  lemma FlagsExclude<F, P>(g: Generator<F, P>, ss: seq<State<F, P>>, acts: seq<Action<F>>, i: nat)
    requires Run(g, ss, acts) && i < |ss|
    ensures !(ss[i].wantNew && ss[i].isFresh)
    ensures ss[i].isFresh ==> ss[i].merged.Some?
  {
    RunInv(g, ss, acts, i);
  }

  /** Exactly-once hand-over: the clouds completed are those delivered, in order, plus the fresh
      one; and no cloud is completed, or delivered, twice. */
  lemma HandedOverOnce<F, P>(g: Generator<F, P>, ss: seq<State<F, P>>, acts: seq<Action<F>>, i: nat)
    requires Run(g, ss, acts) && i < |ss|
    ensures ss[i].isFresh ==> ss[i].merged.Some?
    ensures ss[i].completed == ss[i].delivered + (if ss[i].isFresh then [ss[i].merged.value] else [])
    ensures forall j, k :: 0 <= j < k < |ss[i].completed| ==> ss[i].completed[j].id != ss[i].completed[k].id
    ensures forall j, k :: 0 <= j < k < |ss[i].delivered| ==> ss[i].delivered[j].id != ss[i].delivered[k].id
  {
    RunInv(g, ss, acts, i);
    var s := ss[i];
    forall j, k | 0 <= j < k < |s.delivered|
      ensures s.delivered[j].id != s.delivered[k].id
    {
      assert s.delivered[j] == s.completed[j] && s.delivered[k] == s.completed[k];
    }
  }

  /** When the control thread stores the cloud it is about to fill, there is none to overwrite:
      nothing leaks there, and nothing fresh is thrown away. */
  lemma NothingOverwritten<F, P>(g: Generator<F, P>, ss: seq<State<F, P>>, acts: seq<Action<F>>, i: nat)
    requires Run(g, ss, acts) && i < |ss| && ss[i].ctl.CLock?
    ensures ss[i].merged.None?
  {
    RunInv(g, ss, acts, i);
  }

  /** Whenever a consumer waits in `get_pointcloud`, its request is posted or answered, or another
      consumer has its trailing request still to make. */
  lemma RequestNeverLost<F, P>(g: Generator<F, P>, ss: seq<State<F, P>>, acts: seq<Action<F>>, i: nat, j: nat)
    requires Run(g, ss, acts) && i < |ss| && j < |ss[i].consumers| && ss[i].consumers[j].GWait?
    ensures ss[i].isFresh || ss[i].wantNew
            || exists k :: 0 <= k < |ss[i].consumers| && k != j && ss[i].consumers[k].GTrailing?
  {
    RunInv(g, ss, acts, i);
    assert Answered(ss[i]);
  }

  /** The processing queue is empty whenever a frameset is put into it, so none is dropped; and the camera
      gives it up. */
  lemma NoFrameDropped<F, P>(g: Generator<F, P>, ss: seq<State<F, P>>, acts: seq<Action<F>>, i: nat, c: Captured<F>)
    requires Run(g, ss, acts) && i < |ss|
    requires ss[i].ctl.CProcess? && ss[i].ctl.i < |ss[i].cams|
    ensures var k := ss[i].ctl.i;
      k < |ss[i].frames| && ss[i].cams[k].held == ss[i].frames[k] && ss[i].cams[k].queue == []
    ensures var k, s' := ss[i].ctl.i, ControlStep(ss[i], c, true);
      k < |s'.cams| && s'.cams[k].queue == [ss[i].frames[k]] && s'.cams[k].held == None
    ensures ControlStep(ss[i], c, true) == ControlStep(ss[i], c, false)
  {
    RunInv(g, ss, acts, i);
    assert CameraOk(g, ss[i].ctl, ss[i].ctl.i, ss[i].cams[ss[i].ctl.i], ss[i].frames);
  }

  /** A delivered cloud is never stale or partial: cloud k is the concatenation, in camera order, of
      the clouds every camera made of its frameset of cycle k, and every camera had one. */
  lemma CloudsOfTheirCycle<F, P>(g: Generator<F, P>, ss: seq<State<F, P>>, acts: seq<Action<F>>, i: nat, k: nat)
    requires Run(g, ss, acts) && i < |ss| && k < |ss[i].delivered|
    ensures k < |ss[i].sources| && |ss[i].sources[k]| == |ss[i].cams| && AllGiven(ss[i].sources[k])
    ensures ss[i].delivered[k].points == Concat(FrameClouds(g, ss[i].sources[k]))
  {
    RunInv(g, ss, acts, i);
    assert ss[i].delivered[k] == ss[i].completed[k];
  }

  /** Every successful capture goes into exactly one cloud, in order: only the one of the cycle under
      way has not got there yet. */
  lemma CapturedUsedOnce<F, P>(g: Generator<F, P>, ss: seq<State<F, P>>, acts: seq<Action<F>>, i: nat)
    requires Run(g, ss, acts) && i < |ss|
    ensures var s := ss[i];
      && |s.sources| == |s.completed|
      && s.captured == s.sources + (if s.ctl.CCreate? || HasCloud(s.ctl) then [s.frames] else [])
  {
    RunInv(g, ss, acts, i);
  }
}
