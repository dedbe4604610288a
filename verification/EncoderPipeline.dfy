/**
 The threaded encoder as a step machine.  A fed cloud goes through the tile filter's queue, the
 tile filter thread, the encoder's queue and the encoder thread into a single result slot, where
 a new result replaces one that has not been collected.  A feeder, the two workers, a reader and
 a closing thread interleave; every queue operation and every access to the slot is one step.

 The queues hold clouds and null wake-ups.  `fed`, `collected` and the two `...Lost` fields are
 history variables: the clouds that went in, what `copy_data` gave out, with the number of the
 cloud each came from, and the cloud a stage held when it failed.
 */
module EncoderPipeline {
  import opened Options

  type Bits = seq<bv8>

  /** What the tile filter makes of a cloud, and the bits the codec writes for a cloud after the
      clouds it encoded before (it keeps state between frames). */
  datatype Codec<!C> = Codec(filter: C -> C, encode: (seq<C>, C) -> Bits)

  datatype Item<C> = Null | Cloud(pc: C)

  datatype Tile<C> = TCheck | TWait | THold(pc: C) | TStop | TWake | TDone

  datatype Encoder<C> = ECheck | EWait | EHold(pc: C) | EStore(bits: Bits) | EStop | EDone

  datatype Feeder<C> = FIdle | FCheck(pc: C) | FPut(pc: C)

  /** The thread that closes: raise the flag, wake the encoder, wake the tile filter, join both. */
  datatype Closer = KOpen | KWakeEncoder | KWakeTile | KJoinEncoder | KJoinTile | KClosed

  datatype State<C> = State(
    alive: bool,
    tileQ: seq<Item<C>>, encQ: seq<Item<C>>,
    tile: Tile<C>, enc: Encoder<C>, feeder: Feeder<C>, closer: Closer,
    encoded: seq<C>,            // what the codec has encoded so far
    result: Option<Bits>,
    fed: seq<C>, collected: seq<(nat, Bits)>, tileLost: seq<C>, encLost: seq<C>)

  // ----- the steps

  /** `try_enqueue(nullptr)`: it may be refused, but only by a queue that is not empty at some moment
      of the call (SpscQueue.RefusedSawFull), which is when the step takes place. */
  function TryWake<C>(q: seq<Item<C>>, refused: bool): (r: seq<Item<C>>)
    ensures r != [] && q <= r
    ensures !refused ==> r == q + [Null]
    ensures r == q || r == q + [Null]
  {
    if refused && q != [] then q else q + [Null]
  }

  /** One step of the tile filter's thread; `fails` is the outcome of the filter, `refused` that
      of the wake-up at its end. */
  function TileStep<C>(cd: Codec<C>, s: State<C>, fails: bool, refused: bool): State<C>
    requires TileReady(s)
  {
    match s.tile
    case TCheck => s.(tile := if s.alive then TWait else TStop)
    case TWait =>
      var s' := s.(tileQ := s.tileQ[1..]);
      if s.tileQ[0].Null? then s'.(tile := TStop) else s'.(tile := THold(s.tileQ[0].pc))
    case THold(pc) =>
      if fails then s.(tile := TStop, tileLost := [pc])
      else s.(tile := TCheck, encQ := s.encQ + [Cloud(cd.filter(pc))])
    case TStop => s.(tile := TWake, alive := false)
    case TWake => s.(tile := TDone, encQ := TryWake(s.encQ, refused))
  }

  /** Whether the thread can go on: it sleeps on an empty queue. */
  predicate TileReady<C>(s: State<C>) {
    !s.tile.TDone? && (s.tile.TWait? ==> s.tileQ != [])
  }

  /** One step of the encoder's thread; `fails` is the outcome of converting the cloud. */
  function EncoderStep<C>(cd: Codec<C>, s: State<C>, fails: bool): State<C>
    requires EncoderReady(s)
  {
    match s.enc
    case ECheck => s.(enc := if s.alive then EWait else EStop)
    case EWait =>
      var s' := s.(encQ := s.encQ[1..]);
      if s.encQ[0].Null? then s'.(enc := EStop) else s'.(enc := EHold(s.encQ[0].pc))
    case EHold(pc) =>
      if fails then s.(enc := EStop, encLost := [pc])
      else s.(enc := EStore(cd.encode(s.encoded, pc)), encoded := s.encoded + [pc])
    case EStore(bits) => s.(enc := ECheck, result := Some(bits))
    case EStop => s.(enc := EDone, alive := false)
  }

  predicate EncoderReady<C>(s: State<C>) {
    !s.enc.EDone? && (s.enc.EWait? ==> s.encQ != [])
  }

  /** One step of `feed`. */
  function FeederStep<C>(s: State<C>): State<C>
    requires !s.feeder.FIdle?
  {
    match s.feeder
    case FCheck(pc) => s.(feeder := if s.alive then FPut(pc) else FIdle)
    case FPut(pc) => s.(feeder := FIdle, tileQ := s.tileQ + [Cloud(pc)], fed := s.fed + [pc])
  }

  /** `copy_data`: empties the slot, unless it is empty or the buffer is too small. */
  function Collect<C>(s: State<C>, bufferSize: nat): State<C> {
    if s.result.None? || bufferSize < |s.result.value| then s
    else s.(result := None, collected := s.collected + [(ResultOf(s), s.result.value)])
  }

  /** The number of the cloud whose encoding is in the slot: the last one stored. */
  function ResultOf<C>(s: State<C>): nat {
    var n := |s.encoded| - (if s.enc.EStore? then 1 else 0) - 1;
    if n < 0 then 0 else n
  }

  predicate CloserReady<C>(s: State<C>) {
    !s.closer.KClosed? && (s.closer.KJoinEncoder? ==> s.enc.EDone?) && (s.closer.KJoinTile? ==> s.tile.TDone?)
  }

  /** One step of `close`. */
  function CloserStep<C>(s: State<C>, refused: bool): State<C>
    requires CloserReady(s)
  {
    match s.closer
    case KOpen => s.(closer := KWakeEncoder, alive := false)
    case KWakeEncoder => s.(closer := KWakeTile, encQ := TryWake(s.encQ, refused))
    case KWakeTile => s.(closer := KJoinEncoder, tileQ := TryWake(s.tileQ, refused))
    case KJoinEncoder => s.(closer := KJoinTile)
    case KJoinTile => s.(closer := KClosed)
  }

  datatype Action<C> =
    | BeginFeed(pc: C)
    | FeederMove
    | TileMove(fails: bool, refused: bool)
    | EncoderMove(fails: bool)
    | CopyData(bufferSize: nat)
    | CloserMove(refused: bool)

  /** `enable_threads` has started both workers. */
  ghost predicate Init<C>(s: State<C>) {
    s == State(true, [], [], TCheck, ECheck, FIdle, KOpen, [], None, [], [], [], [])
  }

  ghost predicate Next<C>(cd: Codec<C>, s: State<C>, a: Action<C>, s': State<C>) {
    match a
    case BeginFeed(pc) => s.feeder == FIdle && s' == s.(feeder := FCheck(pc))
    case FeederMove => !s.feeder.FIdle? && s' == FeederStep(s)
    case TileMove(fails, refused) => TileReady(s) && s' == TileStep(cd, s, fails, refused)
    case EncoderMove(fails) => EncoderReady(s) && s' == EncoderStep(cd, s, fails)
    case CopyData(bufferSize) => s' == Collect(s, bufferSize)
    case CloserMove(refused) => CloserReady(s) && s' == CloserStep(s, refused)
  }

  ghost predicate Run<C>(cd: Codec<C>, ss: seq<State<C>>, acts: seq<Action<C>>) {
    && |ss| == |acts| + 1
    && Init(ss[0])
    && forall i :: 0 <= i < |acts| ==> Next(cd, ss[i], acts[i], ss[i + 1])
  }

  // ----- where the clouds are

  /** The cloud of a queue item, if it is one. */
  function Carried<C>(x: Item<C>): seq<C> {
    if x.Null? then [] else [x.pc]
  }

  /** The clouds of a queue, oldest first. */
  function Clouds<C>(q: seq<Item<C>>): seq<C> {
    if q == [] then [] else Carried(q[0]) + Clouds(q[1..])
  }

  /** No wake-up is in line. */
  ghost predicate AllClouds<C>(q: seq<Item<C>>) {
    forall i :: 0 <= i < |q| ==> q[i].Cloud?
  }

  function Filtered<C>(cd: Codec<C>, pcs: seq<C>): (r: seq<C>)
    ensures |r| == |pcs|
    ensures forall i :: 0 <= i < |pcs| ==> r[i] == cd.filter(pcs[i])
  {
    seq(|pcs|, i requires 0 <= i < |pcs| => cd.filter(pcs[i]))
  }

  lemma CloudsFirst<C>(q: seq<Item<C>>)
    requires q != []
    ensures Clouds(q) == Carried(q[0]) + Clouds(q[1..])
  {
  }

  lemma {:induction false} CloudsAppend<C>(q: seq<Item<C>>, x: Item<C>)
    ensures Clouds(q + [x]) == Clouds(q) + Carried(x)
  {
    hide Carried;
    if q == [] {
      assert Clouds([x]) == Carried(x) + Clouds([x][1..]);
      assert q + [x] == [x];
    } else {
      CloudsAppend(q[1..], x);
      assert (q + [x])[1..] == q[1..] + [x];
    }
  }

  lemma WakeClouds<C>(q: seq<Item<C>>, refused: bool)
    ensures Clouds(TryWake(q, refused)) == Clouds(q)
  {
    CloudsAppend(q, Null);
  }

  /** The clouds past the tile filter, in order. */
  function Passed<C>(s: State<C>): seq<C> {
    s.encoded + s.encLost + (if s.enc.EHold? then [s.enc.pc] else []) + Clouds(s.encQ)
  }

  /** The clouds that are not past it. */
  function Waiting<C>(s: State<C>): seq<C> {
    s.tileLost + (if s.tile.THold? then [s.tile.pc] else []) + Clouds(s.tileQ)
  }

  /** Nothing is dropped or reordered before the result slot, except for the one cloud a stage
      holds when it fails; a failed stage takes no further cloud. */
  ghost predicate Conserved<C>(cd: Codec<C>, s: State<C>) {
    && |Passed(s)| <= |s.fed|
    && Passed(s) == Filtered(cd, s.fed[..|Passed(s)|])
    && Waiting(s) == s.fed[|Passed(s)|..]
    && (s.tileLost != [] ==> s.tile.TStop? || s.tile.TWake? || s.tile.TDone?)
    && (s.encLost != [] ==> s.enc.EStop? || s.enc.EDone?)
  }

  // ----- results

  /** The bits written for the k-th of the clouds an encoder encodes. */
  function BitsOf<C>(cd: Codec<C>, pcs: seq<C>, k: nat): Bits
    requires k < |pcs|
  {
    cd.encode(pcs[..k], pcs[k])
  }

  /** The encoding of the k-th cloud fed to this encoder. */
  function Encoding<C>(cd: Codec<C>, fed: seq<C>, k: nat): Bits
    requires k < |fed|
  {
    BitsOf(cd, Filtered(cd, fed), k)
  }

  /** How many results have been put into the slot. */
  function Stored<C>(s: State<C>): int {
    |s.encoded| - if s.enc.EStore? then 1 else 0
  }

  ghost predicate ResultsOk<C>(cd: Codec<C>, s: State<C>) {
    && 0 <= Stored(s)
    && (s.enc.EStore? ==> s.enc.bits == BitsOf(cd, s.encoded, |s.encoded| - 1))
    && (s.result.Some? ==> 0 < Stored(s) && s.result.value == BitsOf(cd, s.encoded, Stored(s) - 1))
    && (forall i :: 0 <= i < |s.collected| ==>
          && s.collected[i].0 < Stored(s) - (if s.result.Some? then 1 else 0)
          && s.collected[i].1 == BitsOf(cd, s.encoded, s.collected[i].0))
    && (forall i, j :: 0 <= i < j < |s.collected| ==> s.collected[i].0 < s.collected[j].0)
  }

  // ----- closing

  predicate WakesEncoderDone(k: Closer) {
    k.KWakeTile? || WakesDone(k)
  }

  /** Both wake-ups have been tried. */
  predicate WakesDone(k: Closer) {
    k.KJoinEncoder? || k.KJoinTile? || k.KClosed?
  }

  ghost predicate ClosingOk<C>(s: State<C>) {
    && (s.alive ==> s.closer.KOpen? && !s.tile.TWake? && !s.tile.TDone? && !s.enc.EDone?)
    && (WakesEncoderDone(s.closer) || s.tile.TDone? ==> s.enc.EWait? ==> s.encQ != [])
    && (WakesDone(s.closer) ==> s.tile.TWait? ==> s.tileQ != [])
    && (s.closer.KJoinTile? || s.closer.KClosed? ==> s.enc.EDone?)
    && (s.closer.KClosed? ==> s.tile.TDone?)
  }

  ghost predicate Inv<C>(cd: Codec<C>, s: State<C>) {
    Conserved(cd, s) && ResultsOk(cd, s) && ClosingOk(s)
  }

  lemma InitInv<C>(cd: Codec<C>, s: State<C>)
    requires Init(s)
    ensures Inv(cd, s)
  {
  }

  lemma TileMovesOne<C>(cd: Codec<C>, s: State<C>, s': State<C>, pc: C)
    requires s.tile == THold(pc) && s.tileLost == []
    requires s' == s.(tile := TCheck, encQ := s.encQ + [Cloud(cd.filter(pc))])
    ensures Passed(s') == Passed(s) + [cd.filter(pc)] && Waiting(s) == [pc] + Waiting(s')
  {
    CloudsAppend(s.encQ, Cloud(cd.filter(pc)));
    hide Clouds;
  }

  lemma FilteredNext<C>(cd: Codec<C>, fed: seq<C>, n: nat, w: seq<C>, pc: C)
    requires n <= |fed| && fed[n..] == [pc] + w
    ensures n < |fed| && fed[n + 1..] == w
    ensures Filtered(cd, fed[..n + 1]) == Filtered(cd, fed[..n]) + [cd.filter(pc)]
  {
    assert fed[n] == fed[n..][0] == pc;
    assert fed[n..][1..] == fed[n + 1..];
  }

  lemma TilePasses<C>(cd: Codec<C>, s: State<C>, s': State<C>, pc: C)
    requires Conserved(cd, s) && s.tile == THold(pc)
    requires s' == s.(tile := TCheck, encQ := s.encQ + [Cloud(cd.filter(pc))])
    ensures Conserved(cd, s')
  {
    hide Passed, Waiting, Filtered;
    TileMovesOne(cd, s, s', pc);
    FilteredNext(cd, s.fed, |Passed(s)|, Waiting(s'), pc);
  }

  /** Except for passing one on, a step of the tile filter's thread moves no cloud across it. */
  lemma TileKeepsPlaces<C>(cd: Codec<C>, s: State<C>, fails: bool, refused: bool)
    requires TileReady(s) && (s.tile.THold? ==> fails && s.tileLost == [])
    ensures var s' := TileStep(cd, s, fails, refused); Passed(s') == Passed(s) && Waiting(s') == Waiting(s)
  {
    hide TryWake, Clouds;
    WakeClouds(s.encQ, refused);
    if s.tile.TWait? {
      CloudsFirst(s.tileQ);
    }
  }

  lemma TileConserves<C>(cd: Codec<C>, s: State<C>, fails: bool, refused: bool)
    requires Conserved(cd, s) && TileReady(s)
    ensures Conserved(cd, TileStep(cd, s, fails, refused))
  {
    hide Filtered, TryWake, Passed, Waiting;
    if s.tile.THold? && !fails {
      TilePasses(cd, s, TileStep(cd, s, fails, refused), s.tile.pc);
    } else {
      TileKeepsPlaces(cd, s, fails, refused);
    }
  }

  lemma EncoderKeepsPlaces<C>(cd: Codec<C>, s: State<C>, fails: bool)
    requires EncoderReady(s) && (s.encLost != [] ==> s.enc.EStop?)
    ensures var s' := EncoderStep(cd, s, fails); Passed(s') == Passed(s) && Waiting(s') == Waiting(s)
  {
    hide Clouds;
    if s.enc.EWait? {
      CloudsFirst(s.encQ);
    }
  }

  lemma EncoderConserves<C>(cd: Codec<C>, s: State<C>, fails: bool)
    requires Conserved(cd, s) && EncoderReady(s)
    ensures Conserved(cd, EncoderStep(cd, s, fails))
  {
    hide Filtered, Passed, Waiting;
    EncoderKeepsPlaces(cd, s, fails);
  }

  lemma CloserConserves<C>(cd: Codec<C>, s: State<C>, refused: bool)
    requires Conserved(cd, s) && CloserReady(s)
    ensures Conserved(cd, CloserStep(s, refused))
  {
    hide Filtered, Clouds, TryWake;
    var s' := CloserStep(s, refused);
    WakeClouds(s.encQ, refused);
    WakeClouds(s.tileQ, refused);
    assert Passed(s') == Passed(s) && Waiting(s') == Waiting(s);
  }

  lemma FeederConserves<C>(cd: Codec<C>, s: State<C>)
    requires Conserved(cd, s) && !s.feeder.FIdle?
    ensures Conserved(cd, FeederStep(s))
  {
    if s.feeder.FPut? {
      CloudsAppend(s.tileQ, Cloud(s.feeder.pc));
      assert Waiting(FeederStep(s)) == Waiting(s) + [s.feeder.pc];
    }
  }

  lemma NextConserves<C>(cd: Codec<C>, s: State<C>, a: Action<C>, s': State<C>)
    requires Conserved(cd, s) && Next(cd, s, a, s')
    ensures Conserved(cd, s')
  {
    match a
    case TileMove(fails, refused) => TileConserves(cd, s, fails, refused);
    case EncoderMove(fails) => EncoderConserves(cd, s, fails);
    case CloserMove(refused) => CloserConserves(cd, s, refused);
    case FeederMove => FeederConserves(cd, s);
    case _ =>
  }

  lemma EncodeKeepsResults<C>(cd: Codec<C>, s: State<C>, s': State<C>, pc: C)
    requires ResultsOk(cd, s) && s.enc.EHold?
    requires s' == s.(enc := EStore(cd.encode(s.encoded, pc)), encoded := s.encoded + [pc])
    ensures ResultsOk(cd, s')
  {
    assert s'.encoded[..|s.encoded|] == s.encoded;
    forall k: nat | k < |s.encoded|
      ensures BitsOf(cd, s'.encoded, k) == BitsOf(cd, s.encoded, k)
    {
      assert s'.encoded[..k] == s.encoded[..k];
    }
    assert s'.enc.bits == BitsOf(cd, s'.encoded, |s'.encoded| - 1);
    hide BitsOf;
  }

  lemma EncoderKeepsResults<C>(cd: Codec<C>, s: State<C>, fails: bool)
    requires ResultsOk(cd, s) && EncoderReady(s)
    ensures ResultsOk(cd, EncoderStep(cd, s, fails))
  {
    hide BitsOf;
    if s.enc.EHold? && !fails {
      EncodeKeepsResults(cd, s, EncoderStep(cd, s, fails), s.enc.pc);
    }
  }

  lemma CollectKeepsResults<C>(cd: Codec<C>, s: State<C>, bufferSize: nat)
    requires ResultsOk(cd, s)
    ensures ResultsOk(cd, Collect(s, bufferSize))
  {
    hide BitsOf;
  }

  lemma OthersKeepResults<C>(cd: Codec<C>, s: State<C>, s': State<C>)
    requires ResultsOk(cd, s) && s'.encoded == s.encoded && s'.enc == s.enc
    requires s'.result == s.result && s'.collected == s.collected
    ensures ResultsOk(cd, s')
  {
    hide BitsOf;
  }

  lemma NextResults<C>(cd: Codec<C>, s: State<C>, a: Action<C>, s': State<C>)
    requires ResultsOk(cd, s) && Next(cd, s, a, s')
    ensures ResultsOk(cd, s')
  {
    hide ResultsOk, TryWake;
    match a
    case EncoderMove(fails) => EncoderKeepsResults(cd, s, fails);
    case CopyData(bufferSize) => CollectKeepsResults(cd, s, bufferSize);
    case _ => OthersKeepResults(cd, s, s');
  }

  lemma TileCloses<C>(cd: Codec<C>, s: State<C>, fails: bool, refused: bool)
    requires ClosingOk(s) && TileReady(s)
    ensures ClosingOk(TileStep(cd, s, fails, refused))
  {
  }

  lemma EncoderCloses<C>(cd: Codec<C>, s: State<C>, fails: bool)
    requires ClosingOk(s) && EncoderReady(s)
    ensures ClosingOk(EncoderStep(cd, s, fails))
  {
  }

  lemma CloserCloses<C>(s: State<C>, refused: bool)
    requires ClosingOk(s) && CloserReady(s)
    ensures ClosingOk(CloserStep(s, refused))
  {
  }

  lemma NextClosing<C>(cd: Codec<C>, s: State<C>, a: Action<C>, s': State<C>)
    requires ClosingOk(s) && Next(cd, s, a, s')
    ensures ClosingOk(s')
  {
    hide TileStep, EncoderStep, CloserStep, TileReady, EncoderReady, CloserReady, TryWake;
    match a
    case TileMove(fails, refused) => TileCloses(cd, s, fails, refused);
    case EncoderMove(fails) => EncoderCloses(cd, s, fails);
    case CloserMove(refused) => CloserCloses(s, refused);
    case _ =>
  }

  lemma NextInv<C>(cd: Codec<C>, s: State<C>, a: Action<C>, s': State<C>)
    requires Inv(cd, s) && Next(cd, s, a, s')
    ensures Inv(cd, s')
  {
    hide Conserved, ResultsOk, ClosingOk, Next;
    NextConserves(cd, s, a, s');
    NextResults(cd, s, a, s');
    NextClosing(cd, s, a, s');
  }

  lemma {:induction false} RunInv<C>(cd: Codec<C>, ss: seq<State<C>>, acts: seq<Action<C>>, i: nat)
    requires Run(cd, ss, acts) && i < |ss|
    ensures Inv(cd, ss[i])
  {
    hide Inv, Init, Next;
    if i == 0 {
      InitInv(cd, ss[0]);
    } else {
      RunInv(cd, ss, acts, i - 1);
      NextInv(cd, ss[i - 1], acts[i - 1], ss[i]);
    }
  }

  // ----- the theorems

  /** What `copy_data` returns, in every interleaving and with every failure: encodings of clouds
      that were fed, in the order they were fed, each cloud at most once. */
  lemma CollectedInOrder<C>(cd: Codec<C>, ss: seq<State<C>>, acts: seq<Action<C>>, i: nat)
    requires Run(cd, ss, acts) && i < |ss|
    ensures forall j :: 0 <= j < |ss[i].collected| ==>
      ss[i].collected[j].0 < |ss[i].fed|
      && ss[i].collected[j].1 == Encoding(cd, ss[i].fed, ss[i].collected[j].0)
    ensures forall j, k :: 0 <= j < k < |ss[i].collected| ==> ss[i].collected[j].0 < ss[i].collected[k].0
  {
    RunInv(cd, ss, acts, i);
    var s := ss[i];
    forall j | 0 <= j < |s.collected|
      ensures s.collected[j].0 < |s.fed| && s.collected[j].1 == Encoding(cd, s.fed, s.collected[j].0)
    {
      EncodedEncoding(cd, s, s.collected[j].0);
    }
  }

  lemma EncodedEncoding<C>(cd: Codec<C>, s: State<C>, k: nat)
    requires Conserved(cd, s) && k < |s.encoded|
    ensures k < |s.fed| && BitsOf(cd, s.encoded, k) == Encoding(cd, s.fed, k)
  {
    assert s.encoded == Passed(s)[..|s.encoded|];
    assert s.encoded[..k] == Filtered(cd, s.fed)[..k];
  }

  /** Nothing is lost before the slot, and nothing overtakes: the clouds past the filter followed by
      those waiting for it are the clouds fed.  A cloud counted in a `...Lost` field is the one its
      stage held when it failed, which ends the stage. */
  lemma NothingLostBeforeTheSlot<C>(cd: Codec<C>, ss: seq<State<C>>, acts: seq<Action<C>>, i: nat)
    requires Run(cd, ss, acts) && i < |ss|
    ensures Passed(ss[i]) + Filtered(cd, Waiting(ss[i])) == Filtered(cd, ss[i].fed)
    ensures ss[i].tileLost != [] ==> ss[i].tile.TStop? || ss[i].tile.TWake? || ss[i].tile.TDone?
    ensures ss[i].encLost != [] ==> ss[i].enc.EStop? || ss[i].enc.EDone?
  {
    hide Passed, Waiting;
    RunInv(cd, ss, acts, i);
    assert ss[i].fed == ss[i].fed[..|Passed(ss[i])|] + Waiting(ss[i]);
  }

  /** No worker sleeps for ever: once `close` has tried both wake-ups, each worker has ended or can
      take its next step. */
  lemma NoSleepAfterClose<C>(cd: Codec<C>, ss: seq<State<C>>, acts: seq<Action<C>>, i: nat)
    requires Run(cd, ss, acts) && i < |ss| && WakesDone(ss[i].closer)
    ensures ss[i].tile.TDone? || TileReady(ss[i])
    ensures ss[i].enc.EDone? || EncoderReady(ss[i])
  {
    RunInv(cd, ss, acts, i);
  }

  /** The tile filter's thread never ends without the encoder's thread being woken. */
  lemma EncoderFollowsTile<C>(cd: Codec<C>, ss: seq<State<C>>, acts: seq<Action<C>>, i: nat)
    requires Run(cd, ss, acts) && i < |ss| && ss[i].tile.TDone?
    ensures !ss[i].alive && (ss[i].enc.EDone? || EncoderReady(ss[i]))
  {
    RunInv(cd, ss, acts, i);
  }

  /** How many steps the workers have left once the flag is down. */
  function StepsLeft<C>(s: State<C>): nat {
    (match s.tile
     case TWait => 5
     case THold(_) => 4
     case TCheck => 3
     case TStop => 2
     case TWake => 1
     case TDone => 0)
    + (match s.enc
       case EWait => 5
       case EHold(_) => 4
       case EStore(_) => 3
       case ECheck => 2
       case EStop => 1
       case EDone => 0)
  }

  function WorkerMoves<C>(acts: seq<Action<C>>): nat {
    if acts == [] then 0
    else WorkerMoves(acts[..|acts| - 1])
         + if acts[|acts| - 1].TileMove? || acts[|acts| - 1].EncoderMove? then 1 else 0
  }

  lemma StepsLeftNext<C>(cd: Codec<C>, s: State<C>, a: Action<C>, s': State<C>)
    requires !s.alive && Next(cd, s, a, s')
    ensures !s'.alive
    ensures StepsLeft(s') + (if a.TileMove? || a.EncoderMove? then 1 else 0) <= StepsLeft(s)
  {
  }

  /** From the moment the flag is down the workers make at most ten steps more between them,
      whatever else happens. */
  lemma {:induction false} WorkersEnd<C>(cd: Codec<C>, ss: seq<State<C>>, acts: seq<Action<C>>, i: nat, j: nat)
    requires Run(cd, ss, acts) && i <= j < |ss| && !ss[i].alive
    ensures !ss[j].alive
    ensures WorkerMoves(acts[i..j]) + StepsLeft(ss[j]) <= StepsLeft(ss[i]) <= 10
    decreases j
  {
    hide Next, Init;
    if i < j {
      WorkersEnd(cd, ss, acts, i, j - 1);
      StepsLeftNext(cd, ss[j - 1], acts[j - 1], ss[j]);
      var moves := acts[i..j];
      assert moves[..|moves| - 1] == acts[i..j - 1] && moves[|moves| - 1] == acts[j - 1];
    }
  }

  /** So `close` returns: both joins are open as soon as the workers have no step left, and until
      then one of them can step. */
  lemma CloseReturns<C>(cd: Codec<C>, ss: seq<State<C>>, acts: seq<Action<C>>, i: nat)
    requires Run(cd, ss, acts) && i < |ss| && WakesDone(ss[i].closer)
    ensures StepsLeft(ss[i]) == 0 ==> ss[i].closer.KClosed? || CloserReady(ss[i])
    ensures 0 < StepsLeft(ss[i]) ==> TileReady(ss[i]) || EncoderReady(ss[i])
    ensures ss[i].closer.KClosed? ==> ss[i].tile.TDone? && ss[i].enc.EDone?
  {
    RunInv(cd, ss, acts, i);
  }
}
