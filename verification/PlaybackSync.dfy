/**
 Playing recordings back in step: each camera reads its own recording forward, and a capture
 takes the next frame of the reference camera and then, for every other camera, a frame that is
 later.

 The code's name for the search says "no earlier than", but it looks for a strictly later frame,
 and so does the model.
 */
module PlaybackSync {
  import opened Options

  /** What one read of a recording gives: a frame, which may lack its colour or its depth image,
      or an error.  After the last one the recording is at its end. */
  datatype Read = Frame(color: Option<nat>, depth: bool) | Failed

  /** A frame with both images; its timestamp is that of the colour image. */
  predicate Good(r: Read) {
    r.Frame? && r.color.Some? && r.depth
  }

  /** The state of a playback camera; a captured frameset is named by its place in the recording. */
  datatype Cam = Cam(
    recording: seq<Read>, master: bool,
    cursor: nat, held: Option<nat>, timestamp: nat, eos: bool, stopped: bool)

  /** A held frameset is the last one read, and the timestamp is its own. */
  predicate ValidCam(c: Cam) {
    && c.cursor <= |c.recording|
    && (c.held.Some? ==>
          && c.held.value + 1 == c.cursor
          && Good(c.recording[c.held.value])
          && c.timestamp == c.recording[c.held.value].color.value)
  }

  // ----- what the operations compute

  /** `_capture_next_valid_frame`: reads on until a good frame, the end, or an error. */
  function NextValid(c: Cam): (r: (Cam, bool))
    requires ValidCam(c)
    ensures ValidCam(r.0) && r.0.recording == c.recording && r.0.master == c.master && r.0.stopped == c.stopped
    ensures r.1 ==> c.cursor < r.0.cursor
    decreases |c.recording| - c.cursor
  {
    if c.stopped then (c, false)
    else if c.cursor == |c.recording| then (c.(held := None, eos := true), false)
    else
      var read := c.recording[c.cursor];
      var moved := c.(held := None, cursor := c.cursor + 1);
      if read.Failed? then (moved, false)
      else if Good(read) then (moved.(held := Some(c.cursor), timestamp := read.color.value), true)
      else NextValid(moved)
  }

  /** `_capture_frame_no_earlier_than_timestamp`: keeps a held frame that is later than t, or reads
      on until one is. */
  function LaterFrame(c: Cam, t: nat): (r: (Cam, bool))
    requires ValidCam(c)
    ensures ValidCam(r.0) && r.0.recording == c.recording && r.0.master == c.master && r.0.stopped == c.stopped
    decreases |c.recording| - c.cursor
  {
    if c.held.Some? && c.timestamp > t then (c, true) else SearchLater(c, t)
  }

  function SearchLater(c: Cam, t: nat): (r: (Cam, bool))
    requires ValidCam(c)
    ensures ValidCam(r.0) && r.0.recording == c.recording && r.0.master == c.master && r.0.stopped == c.stopped
    decreases |c.recording| - c.cursor
  {
    var (c', ok) := NextValid(c);
    if !ok then (c', false)
    else if c'.timestamp > t then (c', true)
    else SearchLater(c', t)
  }

  /** `wait_for_captured_frameset`: zero stands for failure. */
  function Wait(c: Cam, earliest: nat): (r: (Cam, nat))
    requires ValidCam(c)
    ensures ValidCam(r.0) && r.0.recording == c.recording && r.0.master == c.master && r.0.stopped == c.stopped
  {
    if c.stopped then (c, 0)
    else
      var (c', ok) := if earliest > 0 then LaterFrame(c, earliest) else NextValid(c);
      (c', if ok then c'.timestamp else 0)
  }

  datatype Outcome = Outcome(cams: seq<Cam>, timestamp: nat, ok: bool)

  predicate AllValid(cams: seq<Cam>) {
    forall i :: 0 <= i < |cams| ==> ValidCam(cams[i])
  }

  /** The first camera from i on that is the sync master, or the number of cameras. */
  function FirstMaster(cams: seq<Cam>, i: nat): (m: nat)
    requires i <= |cams|
    ensures i <= m <= |cams|
    ensures m < |cams| ==> cams[m].master
    ensures forall j :: i <= j < m ==> !cams[j].master
    decreases |cams| - i
  {
    if i == |cams| || cams[i].master then i else FirstMaster(cams, i + 1)
  }

  /** The second loop of `_capture_all_cameras`, from camera i on. */
  function CaptureOthers(cams: seq<Cam>, i: nat, t: nat): (o: Outcome)
    requires AllValid(cams) && i <= |cams|
    ensures |o.cams| == |cams| && AllValid(o.cams)
    ensures forall j :: 0 <= j < i ==> o.cams[j] == cams[j]
    decreases |cams| - i
  {
    if i == |cams| then Outcome(cams, t, true)
    else if cams[i].master then CaptureOthers(cams, i + 1, t)
    else
      var (c, t') := Wait(cams[i], t);
      if t' == 0 then Outcome(cams[i := c], t, false)
      else CaptureOthers(cams[i := c], i + 1, if t == 0 then t' else t)
  }

  /** `_capture_all_cameras`. */
  function CaptureAll(cams: seq<Cam>): (o: Outcome)
    requires AllValid(cams)
    ensures |o.cams| == |cams| && AllValid(o.cams)
  {
    var m := FirstMaster(cams, 0);
    if m < |cams| then
      var (c, t) := Wait(cams[m], 0);
      if t == 0 then Outcome(cams[m := c], 0, false) else CaptureOthers(cams[m := c], 0, t)
    else CaptureOthers(cams, 0, 0)
  }

  // ----- what that means

  /** A good frame later than `after`; -1 asks for any. */
  predicate Wanted(r: Read, after: int) {
    Good(r) && r.color.value > after
  }

  /** Frame k is the first wanted one from i on, and no read before it fails. */
  ghost predicate IsFirst(rec: seq<Read>, i: nat, after: int, k: nat) {
    && i <= k < |rec| && Wanted(rec[k], after)
    && forall j :: i <= j < k ==> rec[j].Frame? && !Wanted(rec[j], after)
  }

  /** A frame was taken: the first wanted one in what was left of the recording. */
  ghost predicate Took(c: Cam, c': Cam, after: int) {
    && c'.held.Some? && IsFirst(c.recording, c.cursor, after, c'.held.value)
    && c' == c.(cursor := c'.held.value + 1, held := c'.held, timestamp := c.recording[c'.held.value].color.value)
  }

  /** No frame is to be had: the camera is stopped, or its recording ends or fails first. */
  ghost predicate Lacks(c: Cam, after: int) {
    c.stopped || forall k: nat :: !IsFirst(c.recording, c.cursor, after, k)
  }

  /** No frame was taken: a stopped camera is left alone; otherwise the recording was read, and the held
      frame given up, past a read that failed or up to the end, which raises the end flag.  None of the
      frames before was wanted. */
  ghost predicate Missed(c: Cam, c': Cam, after: int) {
    if c.stopped then c' == c
    else
      && c' == c.(cursor := c'.cursor, held := None, timestamp := c'.timestamp, eos := c'.eos)
      && c.cursor <= c'.cursor <= |c.recording|
      && var n := if Fails(c, c') then c'.cursor - 1 else c'.cursor;
         && (forall j :: c.cursor <= j < n ==> c.recording[j].Frame? && !Wanted(c.recording[j], after))
         && (if Fails(c, c') then c'.eos == c.eos else c'.cursor == |c.recording| && c'.eos)
  }

  /** The last read was a failed one. */
  predicate Fails(c: Cam, c': Cam) {
    c.cursor < c'.cursor <= |c.recording| && c.recording[c'.cursor - 1].Failed?
  }

  lemma FirstFromNext(rec: seq<Read>, i: nat, after: int)
    requires i < |rec| && rec[i].Frame? && !Wanted(rec[i], after)
    ensures forall k: nat :: IsFirst(rec, i, after, k) <==> IsFirst(rec, i + 1, after, k)
  {
  }

  lemma MissedLacks(c: Cam, c': Cam, after: int)
    requires Missed(c, c', after)
    ensures Lacks(c, after)
  {
  }

  lemma MissesNext(c: Cam, c': Cam)
    requires !c.stopped && c.cursor < |c.recording| && c.recording[c.cursor].Frame? && !Good(c.recording[c.cursor])
    requires Missed(c.(held := None, cursor := c.cursor + 1), c', -1)
    ensures Missed(c, c', -1)
  {
  }

  lemma MissesAtOnce(c: Cam)
    requires ValidCam(c)
    requires c.stopped || c.cursor == |c.recording| || c.recording[c.cursor].Failed?
    ensures Missed(c, NextValid(c).0, -1) && NextValid(c).0.timestamp == c.timestamp
  {
  }

  lemma {:induction false} NextValidMisses(c: Cam)
    requires ValidCam(c)
    ensures !NextValid(c).1 ==> Missed(c, NextValid(c).0, -1) && NextValid(c).0.timestamp == c.timestamp
    decreases |c.recording| - c.cursor
  {
    hide Missed;
    if c.stopped || c.cursor == |c.recording| || c.recording[c.cursor].Failed? {
      MissesAtOnce(c);
    } else if !Good(c.recording[c.cursor]) {
      var moved := c.(held := None, cursor := c.cursor + 1);
      NextValidMisses(moved);
      assert NextValid(c) == NextValid(moved);
      if !NextValid(c).1 {
        MissesNext(c, NextValid(c).0);
      }
    }
  }

  /** The next valid frame is the first good one; without one, the recording was read up to the first
      failed read or up to its end, and only then is the end flag raised. */
  lemma {:induction false} NextValidMeaning(c: Cam)
    requires ValidCam(c)
    ensures NextValid(c).1 ==> !c.stopped && Took(c, NextValid(c).0, -1)
    ensures !NextValid(c).1 ==>
      Lacks(c, -1) && Missed(c, NextValid(c).0, -1) && NextValid(c).0.timestamp == c.timestamp
    decreases |c.recording| - c.cursor
  {
    hide Missed;
    NextValidMisses(c);
    if !NextValid(c).1 {
      MissedLacks(c, NextValid(c).0, -1);
    } else if !c.stopped && c.cursor < |c.recording| && c.recording[c.cursor].Frame? && !Good(c.recording[c.cursor]) {
      FirstFromNext(c.recording, c.cursor, -1);
      NextValidMeaning(c.(held := None, cursor := c.cursor + 1));
    }
  }

  /** Skipping a frame that is good but not late enough. */
  lemma SkipTooEarly(rec: seq<Read>, i: nat, k: nat, t: nat)
    requires IsFirst(rec, i, -1, k) && rec[k].color.value <= t
    ensures forall m: nat :: IsFirst(rec, i, t, m) <==> IsFirst(rec, k + 1, t, m)
  {
    forall m: nat
      ensures IsFirst(rec, i, t, m) <==> IsFirst(rec, k + 1, t, m)
    {
      if IsFirst(rec, i, t, m) {
        assert k < m;
      }
    }
  }

  lemma {:induction false} SearchLaterMeaning(c: Cam, t: nat)
    requires ValidCam(c)
    ensures SearchLater(c, t).1 ==> !c.stopped && Took(c, SearchLater(c, t).0, t)
    ensures !SearchLater(c, t).1 ==> Lacks(c, t) && Missed(c, SearchLater(c, t).0, t)
    decreases |c.recording| - c.cursor
  {
    NextValidMeaning(c);
    var (c', ok) := NextValid(c);
    if ok && c'.timestamp <= t {
      SearchLaterMeaning(c', t);
      SkipTooEarly(c.recording, c.cursor, c'.held.value, t);
      hide SearchLater, NextValid;
      MissesOn(c, c', SearchLater(c', t).0, t);
    } else if !ok {
      MissesToo(c, c', t);
    }
  }

  /** Where no frame is good, none is later. */
  lemma MissesToo(c: Cam, c': Cam, t: nat)
    requires Missed(c, c', -1)
    ensures Missed(c, c', t) && Lacks(c, t)
  {
    MissedLacks(c, c', t);
  }

  lemma MissesOn(c: Cam, c1: Cam, c': Cam, t: nat)
    requires !c.stopped && Took(c, c1, -1) && c1.timestamp <= t && ValidCam(c1)
    ensures Missed(c1, c', t) ==> Missed(c, c', t)
  {
  }

  /** The held frame is kept. */
  ghost predicate Reuses(c: Cam, t: nat) {
    !c.stopped && 0 < t && c.held.Some? && c.timestamp > t
  }

  /** What a camera is asked for: any frame, or one later than t. */
  function After(t: nat): int {
    if t == 0 then -1 else t
  }

  /** When and how a camera answers: by keeping the frame it holds, by taking the first wanted frame,
      or not at all, having read on to a failed read or to the end; a frame whose timestamp is zero
      counts as none. */
  lemma WaitMeaning(c: Cam, t: nat)
    requires ValidCam(c)
    ensures var (c', r) := Wait(c, t);
      if Reuses(c, t) then c' == c && r == c.timestamp
      else if Lacks(c, After(t)) then r == 0 && Missed(c, c', After(t))
      else Took(c, c', After(t)) && r == c'.timestamp
  {
    NextValidMeaning(c);
    SearchLaterMeaning(c, t);
  }

  /** The camera the others are synchronised to. */
  function Reference(cams: seq<Cam>): (r: nat)
    requires cams != []
    ensures r < |cams|
  {
    if FirstMaster(cams, 0) < |cams| then FirstMaster(cams, 0) else 0
  }

  /** Camera c answered the request for a frame later than t with one. */
  ghost predicate Answers(c: Cam, c': Cam, t: nat) {
    || (Reuses(c, t) && c' == c)
    || (!Reuses(c, t) && !c.stopped && Took(c, c', After(t)))
  }

  /** The second loop, once the reference timestamp is known. */
  lemma {:induction false} OthersMeaning(cams: seq<Cam>, i: nat, t: nat)
    requires AllValid(cams) && i <= |cams| && 0 < t
    ensures var o := CaptureOthers(cams, i, t);
      o.ok ==>
        && o.timestamp == t
        && forall j :: i <= j < |cams| ==>
             if cams[j].master then o.cams[j] == cams[j]
             else Answers(cams[j], o.cams[j], t) && o.cams[j].timestamp > t
    decreases |cams| - i
  {
    if i < |cams| {
      if cams[i].master {
        OthersMeaning(cams, i + 1, t);
      } else {
        WaitMeaning(cams[i], t);
        hide Wait, Took, Lacks;
        OthersMeaning(cams[i := Wait(cams[i], t).0], i + 1, t);
      }
    }
  }

  /** A successful capture is synchronised: the reference camera has taken its next good frame, and
      every other camera that is not a master holds a strictly later frame: the one it was left with,
      or else the first such frame in the rest of its recording.  Any further master is not captured. */
  lemma Synchronised(cams: seq<Cam>)
    requires AllValid(cams) && cams != []
    ensures var o, r := CaptureAll(cams), Reference(cams);
      o.ok ==>
        && 0 < o.timestamp == o.cams[r].timestamp
        && Took(cams[r], o.cams[r], -1)
        && forall i :: 0 <= i < |cams| && i != r ==>
             if cams[i].master then o.cams[i] == cams[i]
             else Answers(cams[i], o.cams[i], o.timestamp) && o.cams[i].held.Some? && o.cams[i].timestamp > o.timestamp
  {
    var r := Reference(cams);
    var (c, t) := Wait(cams[r], 0);
    WaitMeaning(cams[r], 0);
    if t != 0 {
      if cams[r].master {
        OthersMeaning(cams[r := c], 0, t);
      } else {
        OthersMeaning(cams[0 := c], 1, t);
      }
    }
  }

  /** A camera has a frame for a request: one to keep, or one to take, and not stamped zero. */
  ghost predicate HasFrame(c: Cam, t: nat) {
    || Reuses(c, t)
    || (!c.stopped && exists k: nat :: IsFirst(c.recording, c.cursor, After(t), k) && c.recording[k].color.value > 0)
  }

  lemma WaitSucceeds(c: Cam, t: nat)
    requires ValidCam(c)
    ensures Wait(c, t).1 != 0 <==> HasFrame(c, t)
  {
    hide NextValid, SearchLater, LaterFrame, Wait;
    WaitMeaning(c, t);
    if !Reuses(c, t) && !Lacks(c, After(t)) {
      var c' := Wait(c, t).0;
      assert IsFirst(c.recording, c.cursor, After(t), c'.held.value);
      forall k: nat | IsFirst(c.recording, c.cursor, After(t), k)
        ensures k == c'.held.value
      {
        FirstUnique(c.recording, c.cursor, After(t), k, c'.held.value);
      }
    }
  }

  lemma FirstUnique(rec: seq<Read>, i: nat, after: int, k: nat, m: nat)
    requires IsFirst(rec, i, after, k) && IsFirst(rec, i, after, m)
    ensures k == m
  {
  }

  /** Once the reference timestamp is known, the second loop succeeds exactly when every camera it
      asks has a frame. */
  lemma {:induction false} OthersSucceed(cams: seq<Cam>, i: nat, t: nat)
    requires AllValid(cams) && i <= |cams| && 0 < t
    ensures CaptureOthers(cams, i, t).ok
      <==> forall j :: i <= j < |cams| && !cams[j].master ==> HasFrame(cams[j], t)
    decreases |cams| - i
  {
    hide HasFrame, Wait;
    if i < |cams| {
      if cams[i].master {
        OthersSucceed(cams, i + 1, t);
      } else {
        WaitSucceeds(cams[i], t);
        var c := Wait(cams[i], t).0;
        OthersSucceed(cams[i := c], i + 1, t);
        assert forall j :: i < j < |cams| ==> cams[i := c][j] == cams[j];
      }
    }
  }

  /** A capture succeeds exactly when the reference camera has a next good frame and every other
      camera that is not a master has a frame later than that one. */
  lemma CaptureSucceeds(cams: seq<Cam>)
    requires AllValid(cams) && cams != []
    ensures var r := Reference(cams); var t := Wait(cams[r], 0).1;
      && (t != 0 <==> HasFrame(cams[r], 0))
      && (CaptureAll(cams).ok
          <==> HasFrame(cams[r], 0)
               && forall j :: 0 <= j < |cams| && j != r && !cams[j].master ==> HasFrame(cams[j], t))
  {
    hide HasFrame, Wait;
    var r := Reference(cams);
    var (c, t) := Wait(cams[r], 0);
    WaitSucceeds(cams[r], 0);
    if t != 0 {
      if cams[r].master {
        OthersSucceed(cams[r := c], 0, t);
        assert forall j :: 0 <= j < |cams| && j != r ==> cams[r := c][j] == cams[j];
      } else {
        OthersSucceed(cams[0 := c], 1, t);
        assert forall j :: 0 < j < |cams| ==> cams[0 := c][j] == cams[j];
      }
    }
  }

  // ----- what a successful capture leaves behind

  lemma {:induction false} OthersKeepEos(cams: seq<Cam>, i: nat, t: nat)
    requires AllValid(cams) && i <= |cams| && CaptureOthers(cams, i, t).ok
    ensures forall j :: 0 <= j < |cams| ==> CaptureOthers(cams, i, t).cams[j].eos == cams[j].eos
    decreases |cams| - i
  {
    if i < |cams| {
      if cams[i].master {
        OthersKeepEos(cams, i + 1, t);
      } else {
        var (c, t') := Wait(cams[i], t);
        WaitMeaning(cams[i], t);
        hide Wait, Lacks;
        OthersKeepEos(cams[i := c], i + 1, if t == 0 then t' else t);
      }
    }
  }

  /** A capture that succeeds has met no end of a stream.  The cameras it leaves without a frame are
      the sync masters other than the reference, if they had none. */
  lemma CaptureLeaves(cams: seq<Cam>)
    requires AllValid(cams) && cams != [] && CaptureAll(cams).ok
    ensures var o, r := CaptureAll(cams), Reference(cams);
      forall i :: 0 <= i < |cams| ==>
        && o.cams[i].eos == cams[i].eos
        && (o.cams[i].held.None? <==> cams[i].master && i != r && cams[i].held.None?)
  {
    Synchronised(cams);
    var r := Reference(cams);
    var (c, t) := Wait(cams[r], 0);
    WaitMeaning(cams[r], 0);
    if cams[r].master {
      OthersKeepEos(cams[r := c], 0, t);
    } else {
      OthersKeepEos(cams[0 := c], 1, t);
    }
    hide Wait, Lacks, IsFirst;
  }

  /** An end flag stands for a recording that was read to its end. */
  ghost predicate EndRead(c: Cam, c': Cam) {
    && c'.recording == c.recording
    && (c.eos ==> c'.eos)
    && (c'.eos && !c.eos ==> c'.cursor == |c.recording|)
  }

  lemma WaitReadsEnd(c: Cam, t: nat)
    requires ValidCam(c)
    ensures EndRead(c, Wait(c, t).0)
  {
    WaitMeaning(c, t);
    hide Wait, Lacks, IsFirst;
  }

  lemma {:induction false} OthersReadEnd(cams: seq<Cam>, i: nat, t: nat)
    requires AllValid(cams) && i <= |cams|
    ensures forall j :: 0 <= j < |cams| ==> EndRead(cams[j], CaptureOthers(cams, i, t).cams[j])
    decreases |cams| - i
  {
    hide Wait;
    if i < |cams| {
      if cams[i].master {
        OthersReadEnd(cams, i + 1, t);
      } else {
        var (c, t') := Wait(cams[i], t);
        WaitReadsEnd(cams[i], t);
        if t' != 0 {
          OthersReadEnd(cams[i := c], i + 1, if t == 0 then t' else t);
        }
      }
    }
  }

  /** A capture raises a camera's end flag only when it has read that camera's recording to its end, and
      lowers none. */
  lemma CaptureReadsEnd(cams: seq<Cam>)
    requires AllValid(cams)
    ensures forall i :: 0 <= i < |cams| ==> EndRead(cams[i], CaptureAll(cams).cams[i])
  {
    var m := FirstMaster(cams, 0);
    hide Wait, FirstMaster;
    if m < |cams| {
      var (c, t) := Wait(cams[m], 0);
      WaitReadsEnd(cams[m], 0);
      WaitMeaning(cams[m], 0);
      OthersReadEnd(cams[m := c], 0, t);
      hide Took, Lacks;
    } else {
      OthersReadEnd(cams, 0, 0);
    }
  }

  /** Two cameras that play recordings of the sync master, say the same one: the second is left without
      a frame. */
  lemma TwoMasters(rec: seq<Read>)
    requires rec != [] && Good(rec[0]) && 0 < rec[0].color.value
    ensures var c := Cam(rec, true, 0, None, 0, false, false);
      AllValid([c, c]) && CaptureAll([c, c]).ok && CaptureAll([c, c]).cams[1].held == None
  {
    var c := Cam(rec, true, 0, None, 0, false, false);
    var c' := NextValid(c).0;
    assert [c, c][0 := c'] == [c', c];
    assert CaptureOthers([c', c], 0, c'.timestamp) == CaptureOthers([c', c], 2, c'.timestamp);
  }

  // ----- no frame is used twice

  /** One round of the control thread: a successful capture hands every camera's frame over. */
  function Round(cams: seq<Cam>): (r: seq<Cam>)
    requires AllValid(cams)
    ensures |r| == |cams| && AllValid(r)
  {
    var o := CaptureAll(cams);
    if o.ok then seq(|cams|, i requires 0 <= i < |cams| => o.cams[i].(held := None)) else o.cams
  }

  /** The place of the frame camera i contributes to a round; None when the round has no result. */
  function Used(cams: seq<Cam>, i: nat): Option<nat>
    requires AllValid(cams) && i < |cams|
  {
    if CaptureAll(cams).ok then CaptureAll(cams).cams[i].held else None
  }

  /** Successive rounds. */
  ghost predicate Rounds(runs: seq<seq<Cam>>) {
    && (forall n :: 0 <= n < |runs| ==> AllValid(runs[n]))
    && (forall n :: 0 < n < |runs| ==> runs[n] == Round(runs[n - 1]))
  }

  /** The place from which on a camera may still contribute frames. */
  function Unused(c: Cam): nat {
    if c.held.Some? then c.held.value else c.cursor
  }

  lemma {:induction false} NextValidForward(c: Cam)
    requires ValidCam(c)
    ensures Unused(c) <= Unused(NextValid(c).0)
    decreases |c.recording| - c.cursor
  {
    if !c.stopped && c.cursor < |c.recording| && c.recording[c.cursor].Frame? && !Good(c.recording[c.cursor]) {
      NextValidForward(c.(held := None, cursor := c.cursor + 1));
    }
  }

  lemma {:induction false} SearchLaterForward(c: Cam, t: nat)
    requires ValidCam(c)
    ensures Unused(c) <= Unused(SearchLater(c, t).0)
    decreases |c.recording| - c.cursor
  {
    NextValidForward(c);
    var (c', ok) := NextValid(c);
    if ok && c'.timestamp <= t {
      SearchLaterForward(c', t);
    }
  }

  lemma WaitForward(c: Cam, t: nat)
    requires ValidCam(c)
    ensures Unused(c) <= Unused(Wait(c, t).0)
  {
    NextValidForward(c);
    SearchLaterForward(c, t);
  }

  lemma {:induction false} OthersForward(cams: seq<Cam>, i: nat, t: nat, j: nat)
    requires AllValid(cams) && i <= |cams| && j < |cams|
    ensures Unused(cams[j]) <= Unused(CaptureOthers(cams, i, t).cams[j])
    decreases |cams| - i
  {
    if i < |cams| {
      if cams[i].master {
        OthersForward(cams, i + 1, t, j);
      } else {
        var (c, t') := Wait(cams[i], t);
        WaitForward(cams[i], t);
        if t' != 0 {
          OthersForward(cams[i := c], i + 1, if t == 0 then t' else t, j);
        }
      }
    }
  }

  /** A round uses the frame a camera holds, if it succeeds, and otherwise leaves it there. */
  lemma RoundForward(cams: seq<Cam>, i: nat)
    requires AllValid(cams) && i < |cams|
    ensures Unused(cams[i]) <= Unused(Round(cams)[i])
    ensures Used(cams, i).Some? ==> Unused(cams[i]) <= Used(cams, i).value < Unused(Round(cams)[i])
    ensures Used(cams, i).None? ==> Round(cams)[i] == CaptureAll(cams).cams[i]
  {
    var m := FirstMaster(cams, 0);
    if m < |cams| {
      WaitForward(cams[m], 0);
      OthersForward(cams[m := Wait(cams[m], 0).0], 0, Wait(cams[m], 0).1, i);
    } else {
      OthersForward(cams, 0, 0, i);
    }
    hide CaptureOthers, FirstMaster;
    assert ValidCam(CaptureAll(cams).cams[i]);
  }

  lemma {:induction false} RoundsForward(runs: seq<seq<Cam>>, a: nat, b: nat, i: nat)
    requires Rounds(runs) && a <= b < |runs| && i < |runs[a]|
    ensures |runs[b]| == |runs[a]| && Unused(runs[a][i]) <= Unused(runs[b][i])
    decreases b
  {
    if a < b {
      RoundsForward(runs, a, b - 1, i);
      RoundForward(runs[b - 1], i);
    }
  }

  /** Over any number of rounds, successful or not, a camera's frames are used in the order they were
      recorded, and none of them twice. */
  lemma FramesUsedOnce(runs: seq<seq<Cam>>, a: nat, b: nat, i: nat)
    requires Rounds(runs) && a < b < |runs| && i < |runs[a]|
    ensures |runs[b]| == |runs[a]|
    ensures Used(runs[a], i).Some? && Used(runs[b], i).Some? ==> Used(runs[a], i).value < Used(runs[b], i).value
  {
    RoundForward(runs[a], i);
    RoundsForward(runs, a + 1, b, i);
    RoundForward(runs[b], i);
  }

  // ----- the objects

  class PlaybackCamera {
    const recording: seq<Read>
    const master: bool
    var cursor: nat
    var held: Option<nat>
    var timestamp: nat
    var eos: bool
    var stopped: bool

    ghost function State(): Cam
      reads this
    {
      Cam(recording, master, cursor, held, timestamp, eos, stopped)
    }

    constructor (recording: seq<Read>, master: bool)
      ensures State() == Cam(recording, master, 0, None, 0, false, false)
    {
      this.recording, this.master := recording, master;
      cursor, held, timestamp, eos, stopped := 0, None, 0, false, false;
    }

    method CaptureNextValidFrame() returns (succeeded: bool)
      requires ValidCam(State())
      modifies this
      ensures (State(), succeeded) == NextValid(old(State()))
      ensures if succeeded then Took(old(State()), State(), -1) else Missed(old(State()), State(), -1)
    {
      hide Took, Missed, Lacks;
      succeeded := false;
      ghost var c := State();
      NextValidMeaning(c);
      while !succeeded
        invariant ValidCam(State())
        invariant NextValid(c) == if succeeded then (State(), true) else NextValid(State())
        decreases |recording| - cursor, !succeeded
      {
        if stopped {
          return false;
        }
        held := None;
        if cursor == |recording| {
          eos := true;
          return false;
        }
        var read := recording[cursor];
        cursor := cursor + 1;
        if read.Failed? {
          return false;
        }
        succeeded := read.color.Some? && read.depth;
        if !succeeded {
          continue;
        }
        held := Some(cursor - 1);
        timestamp := read.color.value;
      }
    }

    method CaptureFrameNoEarlierThan(masterTimestamp: nat) returns (ok: bool)
      requires ValidCam(State())
      modifies this
      ensures (State(), ok) == LaterFrame(old(State()), masterTimestamp)
    {
      if held.Some? && timestamp > masterTimestamp {
        return true;
      }
      ghost var c := State();
      while true
        invariant ValidCam(State()) && State().recording == c.recording
        invariant SearchLater(State(), masterTimestamp) == SearchLater(c, masterTimestamp)
        decreases |recording| - cursor
      {
        ok := CaptureNextValidFrame();
        if !ok {
          return false;
        }
        if timestamp > masterTimestamp {
          return true;
        }
      }
    }

    method WaitForCapturedFrameset(earliest: nat) returns (t: nat)
      requires ValidCam(State())
      modifies this
      ensures (State(), t) == Wait(old(State()), earliest)
    {
      if stopped {
        return 0;
      }
      var ok;
      if earliest > 0 {
        ok := CaptureFrameNoEarlierThan(earliest);
      } else {
        ok := CaptureNextValidFrame();
      }
      t := if ok then timestamp else 0;
    }
  }

  class PlaybackCapture {
    const cameras: seq<PlaybackCamera>

    constructor (cameras: seq<PlaybackCamera>)
      ensures this.cameras == cameras
    {
      this.cameras := cameras;
    }

    ghost predicate Distinct() {
      forall i, j :: 0 <= i < j < |cameras| ==> cameras[i] != cameras[j]
    }

    ghost function States(): (cams: seq<Cam>)
      reads cameras
      ensures |cams| == |cameras| && forall i :: 0 <= i < |cams| ==> cams[i] == cameras[i].State()
    {
      seq(|cameras|, i requires 0 <= i < |cameras| reads cameras => cameras[i].State())
    }

    /** One camera's turn. */
    method WaitForCamera(i: nat, earliest: nat) returns (t: nat)
      requires i < |cameras| && Distinct() && AllValid(States())
      modifies cameras[i]
      ensures (States()[i], t) == Wait(old(States()[i]), earliest)
      ensures States() == old(States())[i := States()[i]]
    {
      assert forall j :: 0 <= j < |cameras| && j != i ==> cameras[j] != cameras[i];
      t := cameras[i].WaitForCapturedFrameset(earliest);
    }

    method CaptureAllCameras() returns (timestamp: nat, ok: bool)
      requires Distinct() && AllValid(States())
      modifies cameras
      ensures Outcome(States(), timestamp, ok) == CaptureAll(old(States()))
    {
      hide Wait, NextValid, LaterFrame, SearchLater, ValidCam;
      timestamp := 0;
      var i := 0;
      while i < |cameras| && !cameras[i].master
        invariant 0 <= i <= |cameras| && States() == old(States())
        invariant FirstMaster(States(), i) == FirstMaster(States(), 0)
      {
        i := i + 1;
      }
      if i < |cameras| {
        timestamp := WaitForCamera(i, timestamp);
        if timestamp == 0 {
          return timestamp, false;
        }
      }
      i := 0;
      ghost var o := CaptureOthers(States(), 0, timestamp);
      assert o == CaptureAll(old(States()));
      while i < |cameras|
        invariant 0 <= i <= |cameras| && AllValid(States())
        invariant CaptureOthers(States(), i, timestamp) == o
      {
        if !cameras[i].master {
          var t := WaitForCamera(i, timestamp);
          if t == 0 {
            return timestamp, false;
          }
          if timestamp == 0 {
            timestamp := t;
          }
        }
        i := i + 1;
      }
      ok := true;
    }
  }
}
