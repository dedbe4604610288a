/**
 What calls of `feed`, `copy_data` and `close` of the threaded encoder do, whatever the other threads
 do in the meantime.
 */
module EncoderCalls {
  import opened EncoderPipeline
  import opened Options

  // ----- feed

  /** The call of feed that step b begins is not over before state i. */
  ghost predicate FeedCall<C>(ss: seq<State<C>>, acts: seq<Action<C>>, b: nat, i: nat) {
    && |ss| == |acts| + 1 && b < i < |ss|
    && acts[b].BeginFeed?
    && forall k :: b < k < i ==> !ss[k].feeder.FIdle?
  }

  /** The feeder sees that the encoder has been closed, or has failed. */
  predicate SeesClosed<C>(s: State<C>, a: Action<C>) {
    a.FeederMove? && s.feeder.FCheck? && !s.alive
  }

  ghost predicate SawClosed<C>(ss: seq<State<C>>, acts: seq<Action<C>>, b: nat, i: nat)
    requires i < |ss| == |acts| + 1
  {
    exists j :: b < j < i && SeesClosed(ss[j], acts[j])
  }

  lemma SawClosedNext<C>(ss: seq<State<C>>, acts: seq<Action<C>>, b: nat, i: nat)
    requires i < |acts| && |ss| == |acts| + 1 && b < i
    ensures SawClosed(ss, acts, b, i + 1) <==> SawClosed(ss, acts, b, i) || SeesClosed(ss[i], acts[i])
  {
    hide SeesClosed;
  }

  /** How far the call has come. */
  ghost predicate Feeding<C>(s: State<C>, pc: C, before: seq<C>, sawClosed: bool) {
    match s.feeder
    case FIdle => s.fed == before + if sawClosed then [] else [pc]
    case FCheck(x) => x == pc && s.fed == before && !sawClosed
    case FPut(x) => x == pc && s.fed == before && !sawClosed
  }

  lemma FeedStep<C>(cd: Codec<C>, s: State<C>, a: Action<C>, s': State<C>, pc: C, before: seq<C>, saw: bool)
    requires Next(cd, s, a, s') && Feeding(s, pc, before, saw) && !s.feeder.FIdle?
    ensures Feeding(s', pc, before, saw || SeesClosed(s, a))
  {
  }

  lemma FeedBegins<C>(cd: Codec<C>, s: State<C>, a: Action<C>, s': State<C>)
    requires Next(cd, s, a, s') && a.BeginFeed?
    ensures Feeding(s', a.pc, s.fed, false) && s'.feeder.FCheck?
  {
  }

  lemma {:induction false} FeedSoFar<C>(cd: Codec<C>, ss: seq<State<C>>, acts: seq<Action<C>>, b: nat, i: nat)
    requires Run(cd, ss, acts) && FeedCall(ss, acts, b, i)
    ensures Feeding(ss[i], acts[b].pc, ss[b].fed, SawClosed(ss, acts, b, i))
  {
    hide Init, Next, Feeding, SeesClosed;
    if i == b + 1 {
      FeedBegins(cd, ss[b], acts[b], ss[i]);
    } else {
      FeedSoFar(cd, ss, acts, b, i - 1);
      SawClosedNext(ss, acts, b, i - 1);
      FeedStep(cd, ss[i - 1], acts[i - 1], ss[i], acts[b].pc, ss[b].fed, SawClosed(ss, acts, b, i - 1));
    }
  }

  /** A call of feed puts its cloud, and nothing else, in line, unless it saw that the encoder had been
      closed or had failed: then it drops it. */
  lemma FeedOutcome<C>(cd: Codec<C>, ss: seq<State<C>>, acts: seq<Action<C>>, b: nat, i: nat)
    requires Run(cd, ss, acts) && FeedCall(ss, acts, b, i) && ss[i].feeder.FIdle?
    ensures ss[i].fed == ss[b].fed + if SawClosed(ss, acts, b, i) then [] else [acts[b].pc]
  {
    hide Init, Next, SawClosed;
    FeedSoFar(cd, ss, acts, b, i);
  }

  /** Once the flag is down and no feed is past its check, no further cloud is taken. */
  lemma {:induction false} ClosedTakesNothing<C>(cd: Codec<C>, ss: seq<State<C>>, acts: seq<Action<C>>, i: nat, j: nat)
    requires Run(cd, ss, acts) && i <= j < |ss| && !ss[i].alive && !ss[i].feeder.FPut?
    ensures !ss[j].alive && !ss[j].feeder.FPut? && ss[j].fed == ss[i].fed
    decreases j
  {
    if i < j {
      ClosedTakesNothing(cd, ss, acts, i, j - 1);
      assert Next(cd, ss[j - 1], acts[j - 1], ss[j]);
    }
  }

  // ----- copy_data

  /** `copy_data` with a buffer that is too small, or with nothing in the slot, changes nothing, so the
      result stays to be collected; otherwise it empties the slot and hands out what was in it, the
      encoding of the last cloud whose result was stored. */
  lemma CollectOutcome<C>(cd: Codec<C>, ss: seq<State<C>>, acts: seq<Action<C>>, i: nat, bufferSize: nat)
    requires Run(cd, ss, acts) && i < |acts| && acts[i] == CopyData(bufferSize)
    ensures var s, s' := ss[i], ss[i + 1];
      if s.result.None? || bufferSize < |s.result.value| then s' == s
      else
        && s'.result == None
        && 0 < Stored(s) <= |s.fed| && s.result.value == Encoding(cd, s.fed, Stored(s) - 1)
        && s'.collected == s.collected + [(Stored(s) - 1, s.result.value)]
        && s'.fed == s.fed && s'.encoded == s.encoded && s'.tileQ == s.tileQ && s'.encQ == s.encQ
        && s'.alive == s.alive
  {
    RunInv(cd, ss, acts, i);
    assert Next(cd, ss[i], acts[i], ss[i + 1]);
    if ss[i].result.Some? {
      EncodedEncoding(cd, ss[i], Stored(ss[i]) - 1);
    }
  }

  /** Neither call ever has to wait: `copy_data` can be made at any time, and a feed by a feeder that is
      in no other; and each of its steps can be taken at any time. */
  lemma NeverWaits<C>(cd: Codec<C>, s: State<C>, pc: C, bufferSize: nat)
    ensures exists s' :: Next(cd, s, CopyData(bufferSize), s')
    ensures s.feeder.FIdle? ==> exists s' :: Next(cd, s, BeginFeed(pc), s') && !s'.feeder.FIdle?
    ensures !s.feeder.FIdle? ==> exists s' :: Next(cd, s, FeederMove, s')
  {
    assert Next(cd, s, CopyData(bufferSize), Collect(s, bufferSize));
    if s.feeder.FIdle? {
      assert Next(cd, s, BeginFeed(pc), s.(feeder := FCheck(pc)));
    } else {
      assert Next(cd, s, FeederMove, FeederStep(s));
    }
  }

  // ----- close

  /** Wake-ups are in line only once the flag is down. */
  ghost predicate NullsMeanClosed<C>(s: State<C>) {
    s.alive ==> AllClouds(s.tileQ) && AllClouds(s.encQ)
  }

  lemma NullsStep<C>(cd: Codec<C>, s: State<C>, a: Action<C>, s': State<C>)
    requires ClosingOk(s) && NullsMeanClosed(s) && Next(cd, s, a, s')
    ensures NullsMeanClosed(s')
  {
    match a
    case TileMove(_, _) =>
    case EncoderMove(_) =>
    case _ =>
  }

  lemma {:induction false} RunNulls<C>(cd: Codec<C>, ss: seq<State<C>>, acts: seq<Action<C>>, i: nat)
    requires Run(cd, ss, acts) && i < |ss|
    ensures NullsMeanClosed(ss[i])
  {
    hide Next, NullsMeanClosed, ClosingOk, Conserved, ResultsOk;
    if i == 0 {
      NoNulls(ss[0]);
    } else {
      RunNulls(cd, ss, acts, i - 1);
      RunInv(cd, ss, acts, i - 1);
      NullsStep(cd, ss[i - 1], acts[i - 1], ss[i]);
    }
  }

  lemma NoNulls<C>(s: State<C>)
    requires Init(s)
    ensures NullsMeanClosed(s)
  {
  }

  /** A worker that takes a wake-up stops; and none is woken before the flag is down. */
  lemma WokenStops<C>(cd: Codec<C>, ss: seq<State<C>>, acts: seq<Action<C>>, i: nat)
    requires Run(cd, ss, acts) && i < |acts|
    ensures ss[i].tile.TWait? && acts[i].TileMove? ==>
      TileReady(ss[i]) && (ss[i].tileQ[0].Null? <==> ss[i + 1].tile.TStop?)
      && (ss[i].tileQ[0].Null? ==> !ss[i].alive)
    ensures ss[i].enc.EWait? && acts[i].EncoderMove? ==>
      EncoderReady(ss[i]) && (ss[i].encQ[0].Null? <==> ss[i + 1].enc.EStop?)
      && (ss[i].encQ[0].Null? ==> !ss[i].alive)
  {
    RunNulls(cd, ss, acts, i);
    assert Next(cd, ss[i], acts[i], ss[i + 1]);
  }

  /** A run that begins with another and in which neither the feeder nor the reader steps further. */
  ghost predicate Extends<C>(cd: Codec<C>, ss: seq<State<C>>, acts: seq<Action<C>>,
                             more: seq<State<C>>, moreActs: seq<Action<C>>) {
    && Run(cd, more, moreActs) && ss <= more && acts <= moreActs
    && forall k :: |acts| <= k < |moreActs| ==>
         moreActs[k].TileMove? || moreActs[k].EncoderMove? || moreActs[k].CloserMove?
  }

  lemma ExtendRun<C>(cd: Codec<C>, ss: seq<State<C>>, acts: seq<Action<C>>, a: Action<C>, s': State<C>)
    returns (more: seq<State<C>>, moreActs: seq<Action<C>>)
    requires Run(cd, ss, acts) && (a.TileMove? || a.EncoderMove? || a.CloserMove?)
    requires Next(cd, ss[|ss| - 1], a, s')
    ensures Extends(cd, ss, acts, more, moreActs) && more[|more| - 1] == s'
  {
    more, moreActs := ss + [s'], acts + [a];
    hide Next, Init;
  }

  /** How many steps the closing thread has left. */
  function ClosesLeft(k: Closer): nat {
    match k
    case KOpen => 5
    case KWakeEncoder => 4
    case KWakeTile => 3
    case KJoinEncoder => 2
    case KJoinTile => 1
    case KClosed => 0
  }

  /** A step towards the end of `close`. */
  lemma CloseStep<C>(cd: Codec<C>, s: State<C>) returns (a: Action<C>, s': State<C>)
    requires ClosingOk(s) && !s.closer.KClosed?
    ensures (a.TileMove? || a.EncoderMove? || a.CloserMove?) && Next(cd, s, a, s')
    ensures ClosesLeft(s'.closer) < ClosesLeft(s.closer) || (s'.closer == s.closer && StepsLeft(s') < StepsLeft(s))
  {
    if CloserReady(s) {
      a, s' := CloserMove(true), CloserStep(s, true);
    } else if TileReady(s) {
      a, s' := TileMove(true, true), TileStep(cd, s, true, true);
      StepsLeftNext(cd, s, a, s');
    } else {
      a, s' := EncoderMove(true), EncoderStep(cd, s, true);
      StepsLeftNext(cd, s, a, s');
    }
  }

  /** `close` always can return, even if both wake-ups are refused wherever that is possible and every
      stage fails: from every state of every run, the workers' and its own steps lead there. */
  lemma {:induction false} CloseCanReturn<C>(cd: Codec<C>, ss: seq<State<C>>, acts: seq<Action<C>>)
    returns (more: seq<State<C>>, moreActs: seq<Action<C>>)
    requires Run(cd, ss, acts)
    ensures Extends(cd, ss, acts, more, moreActs) && more[|more| - 1].closer.KClosed?
    decreases ClosesLeft(ss[|ss| - 1].closer), StepsLeft(ss[|ss| - 1])
  {
    hide Init, Next, Conserved, ResultsOk, StepsLeft, ClosingOk;
    RunInv(cd, ss, acts, |ss| - 1);
    more, moreActs := ss, acts;
    if !ss[|ss| - 1].closer.KClosed? {
      var a, s' := CloseStep(cd, ss[|ss| - 1]);
      more, moreActs := ExtendRun(cd, ss, acts, a, s');
      more, moreActs := CloseCanReturn(cd, more, moreActs);
    }
  }
}
