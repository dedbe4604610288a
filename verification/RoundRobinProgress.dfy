/**
 When the multithreaded encoder of module RoundRobin goes on: what `available` reports, and exactly
 when another result can be copied.
 */
module RoundRobinProgress {
  import E = EncoderPipeline
  import opened Options
  import opened RoundRobin

  /** `available`, called by a reader that has not been told of a result yet, reports one exactly when
      the slot of the next encoder holds one; and that is the encoding of the next cloud. */
  lemma AvailableReports<C>(cd: E.Codec<C>, ss: seq<State<C>>, acts: seq<Action<C>>, i: nat)
    requires Run(cd, ss, acts) && i < |acts| && acts[i].Available?
    ensures var s, s' := ss[i], ss[i + 1]; var n := |s.encs|; var k := |s.out|;
      && 0 < n && s.nextOut == Turn(k, n)
      && s.reader.RIdle? && s' == s.(reader := s'.reader)
      && (s'.reader.RSeen? <==> s.encs[s.nextOut].result.Some?)
      && (s'.reader.RSeen? ==>
            && k < |s.fed|
            && var mine := Share(s.fed, Turn(k, n), n);
               && Round(k, n) < |mine| && mine[Round(k, n)] == s.fed[k]
               && s.encs[s.nextOut].result == Some(E.Encoding(cd, mine, Round(k, n)))
               && s'.reader.size == |E.Encoding(cd, mine, Round(k, n))|)
  {
    RunInv(cd, ss, acts, i);
    assert Next(cd, ss[i], acts[i], ss[i + 1]);
    if ss[i].encs[ss[i].nextOut].result.Some? {
      NextResult(cd, ss[i]);
    }
  }

  lemma NextResult<C>(cd: E.Codec<C>, s: State<C>)
    requires Inv(cd, s) && s.encs[s.nextOut].result.Some?
    ensures var n, k := |s.encs|, |s.out|; var mine := Share(s.fed, Turn(k, n), n);
      && k < |s.fed| && Round(k, n) < |mine| && mine[Round(k, n)] == s.fed[k]
      && s.encs[s.nextOut].result == Some(E.Encoding(cd, mine, Round(k, n)))
  {
    SlotMeansOutstanding(cd, s);
    var c, n := s.encs[s.nextOut], |s.encs|;
    hide Share, Healthy, Turn, Round, E.Encoding;
    ShareAt(s.fed, |s.out|, n);
    ShareCount(s.out, s.nextOut, n);
    SlotHolds(cd, c);
    assert |Results(c)| == |c.collected|;
  }

  lemma SlotHolds<C>(cd: E.Codec<C>, c: E.State<C>)
    requires Healthy(cd, c) && c.result.Some?
    ensures |c.collected| < |c.fed| && c.result.value == E.Encoding(cd, c.fed, |c.collected|)
  {
    hide E.Conserved;
    E.EncodedEncoding(cd, c, |c.collected|);
  }

  // ----- continuations

  /** A run that begins with another, and in which no further feed begins. */
  ghost predicate Extends<C>(cd: E.Codec<C>, ss: seq<State<C>>, acts: seq<Action<C>>,
                             more: seq<State<C>>, moreActs: seq<Action<C>>) {
    && Run(cd, more, moreActs) && ss <= more && acts <= moreActs
    && forall k :: |acts| <= k < |moreActs| ==> !moreActs[k].BeginFeed?
  }

  /** One more step. */
  lemma ExtendRun<C>(cd: E.Codec<C>, ss: seq<State<C>>, acts: seq<Action<C>>, a: Action<C>, s': State<C>)
    returns (more: seq<State<C>>, moreActs: seq<Action<C>>)
    requires Run(cd, ss, acts) && !a.BeginFeed?
    requires var s := ss[|ss| - 1]; s.nextIn < |s.encs| && s.nextOut < |s.encs| && Next(cd, s, a, s')
    ensures Extends(cd, ss, acts, more, moreActs) && more[|more| - 1] == s'
  {
    more, moreActs := ss + [s'], acts + [a];
    hide Next, Init;
  }

  /** How far a healthy encoder's workers are from having stored what it was fed. */
  function WorkLeft<C>(c: E.State<C>): nat {
    7 * |c.tileQ| + 4 * |c.encQ|
    + (match c.tile
       case TCheck => 1
       case THold(_) => 6
       case _ => 0)
    + (match c.enc
       case ECheck => 1
       case EHold(_) => 3
       case EStore(_) => 2
       case _ => 0)
  }

  lemma TileWorks<C>(cd: E.Codec<C>, c: E.State<C>)
    requires Healthy(cd, c) && E.TileReady(c)
    ensures var c' := E.TileStep(cd, c, false, false);
      && WorkLeft(c') < WorkLeft(c)
      && c'.fed == c.fed && c'.collected == c.collected && c'.result == c.result && c'.feeder == c.feeder
  {
  }

  lemma EncoderWorks<C>(cd: E.Codec<C>, c: E.State<C>)
    requires Healthy(cd, c) && E.EncoderReady(c)
    ensures var c' := E.EncoderStep(cd, c, false);
      && WorkLeft(c') < WorkLeft(c)
      && c'.fed == c.fed && c'.collected == c.collected && c'.feeder == c.feeder
  {
  }

  lemma Healthily<C>(cd: E.Codec<C>, s: State<C>, e: nat)
    requires Inv(cd, s) && e < |s.encs|
    ensures Healthy(cd, s.encs[e])
  {
    hide Healthy, Share, Results;
  }

  lemma FeederDown<C>(cd: E.Codec<C>, s: State<C>)
    requires Inv(cd, s)
    ensures s.nextIn < |s.encs| && s.nextOut < |s.encs|
    ensures !s.feeding ==> s.encs[s.nextIn].feeder.FIdle?
  {
    hide Healthy, Share, Results;
  }

  /** A step of a worker of the encoder whose turn it is. */
  lemma WorkStep<C>(cd: E.Codec<C>, s: State<C>) returns (a: Action<C>, s': State<C>)
    requires Inv(cd, s) && s.nextIn < |s.encs| && s.nextOut < |s.encs|
    requires |s.out| < |s.fed| && s.encs[s.nextOut].result.None?
    ensures Next(cd, s, a, s') && !a.BeginFeed?
    ensures s'.nextOut == s.nextOut < |s'.encs| && s'.out == s.out && s'.fed == s.fed && s'.reader == s.reader
    ensures WorkLeft(s'.encs[s.nextOut]) < WorkLeft(s.encs[s.nextOut])
  {
    var e, c := s.nextOut, s.encs[s.nextOut];
    Healthily(cd, s, e);
    Outstanding(cd, s, e);
    HealthyProgress(cd, c);
    hide Inv, Healthy, E.TileStep, E.EncoderStep, WorkLeft;
    if E.TileReady(c) {
      TileWorks(cd, c);
      a, s' := TileMove(e), s.(encs := s.encs[e := E.TileStep(cd, c, false, false)]);
    } else {
      EncoderWorks(cd, c);
      a, s' := EncoderMove(e), s.(encs := s.encs[e := E.EncoderStep(cd, c, false)]);
    }
  }

  /** While a cloud is outstanding, the workers of the encoder whose turn it is can put its encoding
      into the slot. */
  lemma {:induction false} ResultComes<C>(cd: E.Codec<C>, ss: seq<State<C>>, acts: seq<Action<C>>)
    returns (more: seq<State<C>>, moreActs: seq<Action<C>>)
    requires Run(cd, ss, acts) && |ss[|ss| - 1].out| < |ss[|ss| - 1].fed|
    ensures Extends(cd, ss, acts, more, moreActs)
    ensures var s, s' := ss[|ss| - 1], more[|more| - 1];
      && s'.nextOut == s.nextOut < |s'.encs| && s'.encs[s'.nextOut].result.Some?
      && s'.out == s.out && s'.reader == s.reader
    decreases var s := ss[|ss| - 1]; if s.nextOut < |s.encs| then WorkLeft(s.encs[s.nextOut]) else 0
  {
    hide Inv, Next, Init, WorkLeft;
    var s := ss[|ss| - 1];
    RunInv(cd, ss, acts, |ss| - 1);
    FeederDown(cd, s);
    more, moreActs := ss, acts;
    if s.encs[s.nextOut].result.None? {
      var a, s' := WorkStep(cd, s);
      more, moreActs := ExtendRun(cd, ss, acts, a, s');
      more, moreActs := ResultComes(cd, more, moreActs);
    }
  }

  /** With the result in the slot, the reader can take it. */
  lemma TakeResult<C>(cd: E.Codec<C>, ss: seq<State<C>>, acts: seq<Action<C>>)
    returns (more: seq<State<C>>, moreActs: seq<Action<C>>)
    requires Run(cd, ss, acts)
    requires var s := ss[|ss| - 1]; s.nextOut < |s.encs| && s.encs[s.nextOut].result.Some?
    ensures Extends(cd, ss, acts, more, moreActs)
    ensures |more[|more| - 1].out| == |ss[|ss| - 1].out| + 1
  {
    hide Init, Inv, E.Collect;
    RunInv(cd, ss, acts, |ss| - 1);
    var s := ss[|ss| - 1];
    FeederDown(cd, s);
    more, moreActs := ss, acts;
    var size := |s.encs[s.nextOut].result.value|;
    if s.reader.RIdle? {
      more, moreActs := ExtendRun(cd, ss, acts, Available, s.(reader := RSeen(size)));
    } else {
      Announced(cd, s);
    }
    var s1 := more[|more| - 1];
    RunInv(cd, more, moreActs, |more| - 1);
    var s2 := Copied(cd, s1, size);
    hide Next;
    more, moreActs := ExtendRun(cd, more, moreActs, CopyData(size), s2);
  }

  lemma Announced<C>(cd: E.Codec<C>, s: State<C>)
    requires Inv(cd, s) && s.reader.RSeen?
    ensures s.nextOut < |s.encs|
    ensures s.encs[s.nextOut].result.Some? && s.reader.size == |s.encs[s.nextOut].result.value|
  {
    hide EncodersOk;
  }

  lemma Copied<C>(cd: E.Codec<C>, s: State<C>, size: nat) returns (s': State<C>)
    requires Inv(cd, s) && s.reader == RSeen(size) && s.nextIn < |s.encs| && s.nextOut < |s.encs|
    ensures Next(cd, s, CopyData(size), s') && |s'.out| == |s.out| + 1
  {
    hide Inv;
    var c := s.encs[s.nextOut];
    var c' := E.Collect(c, size);
    s' := s.(reader := RIdle, encs := s.encs[s.nextOut := c'], nextOut := (s.nextOut + 1) % |s.encs|,
             out := if c'.collected == c.collected then s.out
                    else s.out + [c'.collected[|c'.collected| - 1].1]);
    CopyEffect(cd, s, size, s');
  }

  /** A feed under way can be finished. */
  lemma FeedEnds<C>(cd: E.Codec<C>, ss: seq<State<C>>, acts: seq<Action<C>>)
    returns (more: seq<State<C>>, moreActs: seq<Action<C>>)
    requires Run(cd, ss, acts) && ss[|ss| - 1].feeding
    ensures Extends(cd, ss, acts, more, moreActs)
    ensures var s, s' := ss[|ss| - 1], more[|more| - 1]; s'.out == s.out && |s'.fed| == |s.fed| + 1
  {
    hide Init, Inv;
    var s := ss[|ss| - 1];
    RunInv(cd, ss, acts, |ss| - 1);
    FeederUp(cd, s);
    more, moreActs := ss, acts;
    if s.encs[s.nextIn].feeder.FCheck? {
      more, moreActs := ExtendRun(cd, ss, acts, FeederMove,
                                  s.(encs := s.encs[s.nextIn := E.FeederStep(s.encs[s.nextIn])]));
    }
    var s1 := more[|more| - 1];
    var c := s1.encs[s1.nextIn];
    more, moreActs := ExtendRun(cd, more, moreActs, FeederMove,
                                s1.(encs := s1.encs[s1.nextIn := E.FeederStep(c)], feeding := false,
                                    nextIn := (s1.nextIn + 1) % |s1.encs|, fed := s1.fed + [c.feeder.pc]));
  }

  lemma FeederUp<C>(cd: E.Codec<C>, s: State<C>)
    requires Inv(cd, s) && s.feeding
    ensures s.nextIn < |s.encs| && s.nextOut < |s.encs|
    ensures !s.encs[s.nextIn].feeder.FIdle? && s.encs[s.nextIn].alive
  {
    hide E.Inv, Share, Results;
  }

  /** Without a further feed, some continuation copies another result. */
  ghost predicate CanCopy<C(!new)>(cd: E.Codec<C>, ss: seq<State<C>>, acts: seq<Action<C>>)
    requires ss != []
  {
    exists more: seq<State<C>>, moreActs: seq<Action<C>> ::
      Extends(cd, ss, acts, more, moreActs) && |more[|more| - 1].out| > |ss[|ss| - 1].out|
  }

  lemma CopyComes<C>(cd: E.Codec<C>, ss: seq<State<C>>, acts: seq<Action<C>>)
    returns (more: seq<State<C>>, moreActs: seq<Action<C>>)
    requires Run(cd, ss, acts) && (|ss[|ss| - 1].out| < |ss[|ss| - 1].fed| || ss[|ss| - 1].feeding)
    ensures Extends(cd, ss, acts, more, moreActs)
    ensures |more[|more| - 1].out| == |ss[|ss| - 1].out| + 1
  {
    hide Init, Next;
    more, moreActs := ss, acts;
    if ss[|ss| - 1].feeding {
      more, moreActs := FeedEnds(cd, ss, acts);
    }
    OutAtMostFed(cd, ss, acts, |ss| - 1);
    more, moreActs := ResultComes(cd, more, moreActs);
    more, moreActs := TakeResult(cd, more, moreActs);
  }

  lemma OutAtMostFed<C>(cd: E.Codec<C>, ss: seq<State<C>>, acts: seq<Action<C>>, i: nat)
    requires Run(cd, ss, acts) && i < |ss|
    ensures |ss[i].out| <= |ss[i].fed|
  {
    hide Init, Next, EncodersOk;
    RunInv(cd, ss, acts, i);
  }

  lemma NothingToCopy<C>(cd: E.Codec<C>, ss: seq<State<C>>, acts: seq<Action<C>>, i: nat, j: nat)
    requires Run(cd, ss, acts) && i <= j < |ss| && !ss[i].feeding
    requires forall k :: i <= k < |acts| ==> !acts[k].BeginFeed?
    ensures !ss[j].feeding && ss[j].fed == ss[i].fed
    decreases j
  {
    if i < j {
      NothingToCopy(cd, ss, acts, i, j - 1);
      hide Init, E.FeederStep, E.Collect;
      assert Next(cd, ss[j - 1], acts[j - 1], ss[j]);
    }
  }

  /** The encoders, their workers and the reader never block one another: without a further feed,
      another result can be copied if and only if a cloud is outstanding or being fed. */
  lemma CopyComesIff<C(!new)>(cd: E.Codec<C>, ss: seq<State<C>>, acts: seq<Action<C>>)
    requires Run(cd, ss, acts)
    ensures CanCopy(cd, ss, acts) <==> |ss[|ss| - 1].out| < |ss[|ss| - 1].fed| || ss[|ss| - 1].feeding
  {
    hide Init, Next;
    var s := ss[|ss| - 1];
    if |s.out| < |s.fed| || s.feeding {
      var more, moreActs := CopyComes(cd, ss, acts);
    } else {
      forall more: seq<State<C>>, moreActs: seq<Action<C>> | Extends(cd, ss, acts, more, moreActs)
        ensures |more[|more| - 1].out| <= |s.out|
      {
        assert more[|ss| - 1] == s;
        NothingToCopy(cd, more, moreActs, |ss| - 1, |more| - 1);
        OutAtMostFed(cd, more, moreActs, |more| - 1);
      }
    }
  }

  /** A feed can begin exactly when none is under way and fewer than n clouds are outstanding. */
  lemma FeedIff<C(!new)>(cd: E.Codec<C>, ss: seq<State<C>>, acts: seq<Action<C>>, pc: C)
    requires Run(cd, ss, acts)
    ensures var s := ss[|ss| - 1];
      && s.nextIn < |s.encs| && s.nextOut < |s.encs|
      && ((exists s' :: Next(cd, s, BeginFeed(pc), s')) <==> !s.feeding && |s.fed| < |s.out| + |s.encs|)
  {
    hide Init;
    var s := ss[|ss| - 1];
    RunInv(cd, ss, acts, |ss| - 1);
    FeederDown(cd, s);
    hide Inv;
    if !s.feeding && |s.fed| < |s.out| + |s.encs| {
      var s' := s.(feeding := true, encs := s.encs[s.nextIn := s.encs[s.nextIn].(feeder := E.FCheck(pc))]);
      assert Next(cd, s, BeginFeed(pc), s');
    }
  }

  /** The feed that step b begins is under way until state i. */
  ghost predicate FeedCall<C>(ss: seq<State<C>>, acts: seq<Action<C>>, b: nat, i: nat) {
    && |ss| == |acts| + 1 && b < i < |ss|
    && acts[b].BeginFeed?
    && forall k :: b < k < i ==> ss[k].feeding
  }

  /** How far it has come. */
  ghost predicate Feeding<C>(s: State<C>, pc: C, before: seq<C>) {
    if s.feeding then
      && s.nextIn < |s.encs| && s.fed == before
      && (s.encs[s.nextIn].feeder == E.FCheck(pc) || s.encs[s.nextIn].feeder == E.FPut(pc))
    else s.fed == before + [pc]
  }

  lemma FeedBegins<C>(cd: E.Codec<C>, s: State<C>, a: Action<C>, s': State<C>)
    requires s.nextIn < |s.encs| && s.nextOut < |s.encs| && Next(cd, s, a, s') && a.BeginFeed?
    ensures s'.feeding && Feeding(s', a.pc, s.fed)
  {
  }

  lemma FeedStep<C>(cd: E.Codec<C>, s: State<C>, a: Action<C>, s': State<C>, pc: C, before: seq<C>)
    requires s.nextIn < |s.encs| && s.nextOut < |s.encs| && s.encs[s.nextIn].alive
    requires Next(cd, s, a, s') && s.feeding && Feeding(s, pc, before)
    ensures Feeding(s', pc, before)
  {
    match a
    case TileMove(e) => assert E.TileStep(cd, s.encs[e], false, false).feeder == s.encs[e].feeder;
    case EncoderMove(e) => assert E.EncoderStep(cd, s.encs[e], false).feeder == s.encs[e].feeder;
    case CopyData(size) =>
      hide E.ResultOf;
      assert E.Collect(s.encs[s.nextOut], size).feeder == s.encs[s.nextOut].feeder;
    case _ =>
  }

  lemma {:induction false} FeedSoFar<C>(cd: E.Codec<C>, ss: seq<State<C>>, acts: seq<Action<C>>, b: nat, i: nat)
    requires Run(cd, ss, acts) && FeedCall(ss, acts, b, i)
    ensures Feeding(ss[i], acts[b].pc, ss[b].fed)
  {
    hide Init, Next, Feeding, Inv;
    if i == b + 1 {
      FeedBegins(cd, ss[b], acts[b], ss[i]);
    } else {
      FeedSoFar(cd, ss, acts, b, i - 1);
      RunInv(cd, ss, acts, i - 1);
      FeederUp(cd, ss[i - 1]);
      FeedStep(cd, ss[i - 1], acts[i - 1], ss[i], acts[b].pc, ss[b].fed);
    }
  }

  /** A feed hands over its cloud and nothing else. */
  lemma FeedOutcome<C>(cd: E.Codec<C>, ss: seq<State<C>>, acts: seq<Action<C>>, b: nat, i: nat)
    requires Run(cd, ss, acts) && FeedCall(ss, acts, b, i) && !ss[i].feeding
    ensures ss[i].fed == ss[b].fed + [acts[b].pc]
  {
    hide Init, Next;
    FeedSoFar(cd, ss, acts, b, i);
  }
}
