/**
 The multithreaded encoder: n threaded encoders, fed and read in turn.  The feeder keeps at most
 n clouds outstanding, the reader copies only after `available` said there is a result and with a
 buffer of the size `get_encoded_size` gave, no stage fails and nobody closes.  The feeder, the
 reader and the 2n workers interleave in any way.
 */
module RoundRobin {
  import E = EncoderPipeline
  import opened Options
  import BitTricks

  datatype Reader = RIdle | RSeen(size: nat)

  datatype State<C> = State(
    encs: seq<E.State<C>>, nextIn: nat, nextOut: nat, feeding: bool, reader: Reader,
    fed: seq<C>, out: seq<E.Bits>)  // history: the clouds fed, the results copied

  datatype Action<C> =
    | BeginFeed(pc: C)
    | FeederMove
    | TileMove(e: nat)
    | EncoderMove(e: nat)
    | Available
    | CopyData(bufferSize: nat)

  ghost predicate Init<C>(s: State<C>) {
    && 0 < |s.encs|
    && (forall e :: 0 <= e < |s.encs| ==> E.Init(s.encs[e]))
    && s == State(s.encs, 0, 0, false, RIdle, [], [])
  }

  ghost predicate Next<C>(cd: E.Codec<C>, s: State<C>, a: Action<C>, s': State<C>)
    requires s.nextIn < |s.encs| && s.nextOut < |s.encs|
  {
    match a
    case BeginFeed(pc) =>
      && !s.feeding && |s.fed| < |s.out| + |s.encs|
      && s.encs[s.nextIn].feeder.FIdle?
      && s' == s.(feeding := true, encs := s.encs[s.nextIn := s.encs[s.nextIn].(feeder := E.FCheck(pc))])
    case FeederMove =>
      && s.feeding && !s.encs[s.nextIn].feeder.FIdle?
      && var c := s.encs[s.nextIn];
         var c' := E.FeederStep(c);
         var s1 := s.(encs := s.encs[s.nextIn := c']);
         s' == if !c'.feeder.FIdle? then s1
               else s1.(feeding := false, nextIn := (s.nextIn + 1) % |s.encs|,
                        fed := if c.feeder.FPut? then s.fed + [c.feeder.pc] else s.fed)
    case TileMove(e) =>
      && e < |s.encs| && E.TileReady(s.encs[e])
      && s' == s.(encs := s.encs[e := E.TileStep(cd, s.encs[e], false, false)])
    case EncoderMove(e) =>
      && e < |s.encs| && E.EncoderReady(s.encs[e])
      && s' == s.(encs := s.encs[e := E.EncoderStep(cd, s.encs[e], false)])
    case Available =>
      && s.reader.RIdle?
      && s' == if s.encs[s.nextOut].result.None? then s
               else s.(reader := RSeen(|s.encs[s.nextOut].result.value|))
    case CopyData(bufferSize) =>
      && s.reader.RSeen? && s.reader.size <= bufferSize
      && var c := s.encs[s.nextOut];
         var c' := E.Collect(c, bufferSize);
         s' == s.(reader := RIdle, encs := s.encs[s.nextOut := c'], nextOut := (s.nextOut + 1) % |s.encs|,
                  out := if c'.collected == c.collected then s.out
                         else s.out + [c'.collected[|c'.collected| - 1].1])
  }

  ghost predicate Run<C>(cd: E.Codec<C>, ss: seq<State<C>>, acts: seq<Action<C>>) {
    && |ss| == |acts| + 1
    && Init(ss[0])
    && forall i :: 0 <= i < |acts| ==>
         ss[i].nextIn < |ss[i].encs| && ss[i].nextOut < |ss[i].encs| && Next(cd, ss[i], acts[i], ss[i + 1])
  }

  // ----- dealing in turn

  /** Which encoder is dealt element k, and how many it was dealt before. */
  function Turn(k: nat, n: nat): (e: nat)
    requires 0 < n
    ensures e < n
  {
    k % n
  }

  function Round(k: nat, n: nat): nat
    requires 0 < n
  {
    k / n
  }

  /** Every n-th element of s, from element e on: what encoder e gets when s is dealt out. */
  function Share<A>(s: seq<A>, e: nat, n: nat): (r: seq<A>)
    requires 0 < n
  {
    if s == [] then []
    else
      var k := |s| - 1;
      Share(s[..k], e, n) + if Turn(k, n) == e then [s[k]] else []
  }

  /** How many of m elements that is. */
  function Count(m: nat, e: nat, n: nat): nat
    requires 0 < n
  {
    Round(m, n) + if e < Turn(m, n) then 1 else 0
  }

  lemma RoundOf(q: nat, d: nat, n: nat)
    requires 0 < n && d < 2 * n
    ensures d < n ==> Round(q * n + d, n) == q && Turn(q * n + d, n) == d
    ensures n <= d ==> Round(q * n + d, n) == q + 1 && Turn(q * n + d, n) == d - n
  {
    if d < n {
      BitTricks.DivModUnique(q * n + d, n, q, d);
    } else {
      assert (q + 1) * n == q * n + n;
      BitTricks.DivModUnique(q * n + d, n, q + 1, d - n);
    }
  }

  lemma WithinRound(a: nat, b: nat, n: nat)
    requires 0 < n && a <= b <= a + n
    ensures var d := Turn(a, n) + (b - a);
      || (d < n && Round(b, n) == Round(a, n) && Turn(b, n) == d)
      || (n <= d && Round(b, n) == Round(a, n) + 1 && Turn(b, n) == d - n)
  {
    assert a == Round(a, n) * n + Turn(a, n);
    hide Round, Turn;
    RoundOf(Round(a, n), Turn(a, n) + (b - a), n);
  }

  lemma NextCount(m: nat, e: nat, n: nat)
    requires e < n
    ensures Count(m + 1, e, n) == Count(m, e, n) + if Turn(m, n) == e then 1 else 0
    ensures Turn(m + 1, n) == (Turn(m, n) + 1) % n
  {
    RoundOf(0, Turn(m, n) + 1, n);
    assert Turn(Turn(m, n) + 1, n) == (Turn(m, n) + 1) % n;
    hide Round, Turn;
    WithinRound(m, m + 1, n);
  }

  /** In a window of n elements every encoder is dealt at most one. */
  lemma Window(a: nat, b: nat, e: nat, n: nat)
    requires e < n && a <= b <= a + n
    ensures Count(a, e, n) <= Count(b, e, n) <= Count(a, e, n) + 1
    ensures b < a + n && e == Turn(b, n) ==> Count(b, e, n) == Count(a, e, n)
    ensures a < b && e == Turn(a, n) ==> Count(b, e, n) == Count(a, e, n) + 1
  {
    hide Turn, Round;
    WithinRound(a, b, n);
  }

  lemma {:induction false} ShareCount<A>(s: seq<A>, e: nat, n: nat)
    requires e < n
    ensures |Share(s, e, n)| == Count(|s|, e, n)
  {
    if s == [] {
      BitTricks.DivModUnique(0, n, 0, 0);
    } else {
      ShareCount(s[..|s| - 1], e, n);
      NextCount(|s| - 1, e, n);
    }
  }

  /** Where element k of s is in the shares. */
  lemma {:induction false} ShareAt<A>(s: seq<A>, k: nat, n: nat)
    requires k < |s| && 0 < n
    ensures Round(k, n) < |Share(s, Turn(k, n), n)| && Share(s, Turn(k, n), n)[Round(k, n)] == s[k]
  {
    var rest := s[..|s| - 1];
    if k < |s| - 1 {
      ShareAt(rest, k, n);
    } else {
      ShareCount(rest, Turn(k, n), n);
    }
  }

  lemma ShareNext<A>(s: seq<A>, x: A, e: nat, n: nat)
    requires 0 < n
    ensures Share(s + [x], e, n) == Share(s, e, n) + if Turn(|s|, n) == e then [x] else []
  {
    assert (s + [x])[..|s|] == s;
  }

  // ----- one encoder

  function Results<C>(c: E.State<C>): (r: seq<E.Bits>)
    ensures |r| == |c.collected| && forall i :: 0 <= i < |r| ==> r[i] == c.collected[i].1
  {
    seq(|c.collected|, i requires 0 <= i < |c.collected| => c.collected[i].1)
  }

  /** An encoder that has not failed and whose every result has been collected or is in the slot. */
  ghost predicate Healthy<C>(cd: E.Codec<C>, c: E.State<C>) {
    && E.Inv(cd, c)
    && c.alive && !c.tile.TStop? && !c.enc.EStop?
    && c.tileLost == c.encLost == []
    && E.AllClouds(c.tileQ) && E.AllClouds(c.encQ)
    && E.Stored(c) == |c.collected| + (if c.result.Some? then 1 else 0)
    && forall i :: 0 <= i < |c.collected| ==> c.collected[i].0 == i
  }

  lemma TileHealthy<C>(cd: E.Codec<C>, c: E.State<C>)
    requires Healthy(cd, c) && E.TileReady(c)
    ensures Healthy(cd, E.TileStep(cd, c, false, false))
  {
    hide E.Conserved, E.ResultsOk;
    E.NextInv(cd, c, E.TileMove(false, false), E.TileStep(cd, c, false, false));
  }

  lemma FeederHealthy<C>(cd: E.Codec<C>, c: E.State<C>)
    requires Healthy(cd, c) && !c.feeder.FIdle?
    ensures Healthy(cd, E.FeederStep(c))
  {
    hide E.Conserved, E.ResultsOk;
    E.NextInv(cd, c, E.FeederMove, E.FeederStep(c));
  }

  /** With at most one cloud outstanding, the encoder finds the slot empty. */
  lemma EncoderHealthy<C>(cd: E.Codec<C>, c: E.State<C>)
    requires Healthy(cd, c) && E.EncoderReady(c) && |c.fed| <= |c.collected| + 1
    ensures c.enc.EStore? ==> c.result.None?
    ensures Healthy(cd, E.EncoderStep(cd, c, false))
  {
    assert |c.encoded| <= |E.Passed(c)| <= |c.fed|;
    hide E.Conserved, E.ResultsOk, E.Passed;
    E.NextInv(cd, c, E.EncoderMove(false), E.EncoderStep(cd, c, false));
  }

  lemma CollectHealthy<C>(cd: E.Codec<C>, c: E.State<C>, bufferSize: nat)
    requires Healthy(cd, c) && c.result.Some? && |c.result.value| <= bufferSize
    ensures Healthy(cd, E.Collect(c, bufferSize))
    ensures Results(E.Collect(c, bufferSize)) == Results(c) + [c.result.value]
  {
    E.NextInv(cd, c, E.CopyData(bufferSize), E.Collect(c, bufferSize));
    hide E.Conserved, E.Inv;
  }

  /** The results of a healthy encoder are the encodings of the clouds it was fed, one by one. */
  lemma HealthyResults<C>(cd: E.Codec<C>, c: E.State<C>, i: nat)
    requires Healthy(cd, c) && i < |Results(c)|
    ensures i < |c.fed| && Results(c)[i] == E.Encoding(cd, c.fed, i)
  {
    hide E.Conserved;
    E.EncodedEncoding(cd, c, i);
  }

  /** A healthy encoder with a cloud outstanding has its result ready or a worker that can step. */
  lemma HealthyProgress<C>(cd: E.Codec<C>, c: E.State<C>)
    requires Healthy(cd, c) && |c.collected| < |c.fed|
    ensures c.result.Some? || E.TileReady(c) || E.EncoderReady(c)
  {
    if c.enc.EWait? && c.encQ == [] && c.tile.TWait? && c.tileQ == [] {
      assert E.Waiting(c) == [] && E.Passed(c) == c.encoded;
    }
  }

  // ----- all of them

  ghost predicate EncodersOk<C>(cd: E.Codec<C>, s: State<C>)
    requires 0 < |s.encs|
  {
    forall e :: 0 <= e < |s.encs| ==>
      && Healthy(cd, s.encs[e])
      && s.encs[e].fed == Share(s.fed, e, |s.encs|)
      && Results(s.encs[e]) == Share(s.out, e, |s.encs|)
      && (s.encs[e].feeder.FIdle? <==> !(s.feeding && e == s.nextIn))
  }

  ghost predicate Inv<C>(cd: E.Codec<C>, s: State<C>) {
    var n := |s.encs|;
    && 0 < n
    && s.nextIn == Turn(|s.fed|, n) && s.nextOut == Turn(|s.out|, n)
    && |s.out| <= |s.fed| <= |s.out| + n
    && (s.feeding ==> |s.fed| < |s.out| + n)
    && EncodersOk(cd, s)
    && (s.reader.RSeen? ==> s.encs[s.nextOut].result.Some? && s.reader.size == |s.encs[s.nextOut].result.value|)
  }

  lemma InitInv<C>(cd: E.Codec<C>, s: State<C>)
    requires Init(s)
    ensures Inv(cd, s)
  {
    BitTricks.DivModUnique(0, |s.encs|, 0, 0);
    forall e | 0 <= e < |s.encs|
      ensures Healthy(cd, s.encs[e])
    {
      E.InitInv(cd, s.encs[e]);
    }
  }

  /** How many clouds are outstanding at encoder e. */
  lemma Outstanding<C>(cd: E.Codec<C>, s: State<C>, e: nat)
    requires Inv(cd, s) && e < |s.encs|
    ensures var c := s.encs[e];
      && |c.collected| <= |c.fed| <= |c.collected| + 1
      && (|s.fed| < |s.out| + |s.encs| && e == s.nextIn ==> |c.fed| == |c.collected|)
      && (|s.out| < |s.fed| && e == s.nextOut ==> |c.fed| == |c.collected| + 1)
  {
    hide Healthy, Share, Count;
    ShareCount(s.fed, e, |s.encs|);
    ShareCount(s.out, e, |s.encs|);
    Window(|s.out|, |s.fed|, e, |s.encs|);
    assert |Results(s.encs[e])| == |s.encs[e].collected|;
  }

  lemma SlotMeansOutstanding<C>(cd: E.Codec<C>, s: State<C>)
    requires Inv(cd, s) && s.encs[s.nextOut].result.Some?
    ensures |s.out| < |s.fed|
  {
    var c := s.encs[s.nextOut];
    assert |c.collected| + 1 == E.Stored(c) <= |c.encoded| <= |E.Passed(c)| <= |c.fed|;
    hide Healthy, Share, Count;
    ShareCount(s.fed, s.nextOut, |s.encs|);
    ShareCount(s.out, s.nextOut, |s.encs|);
    assert |Results(c)| == |c.collected|;
  }

  /** A worker's step. */
  lemma WorkerInv<C>(cd: E.Codec<C>, s: State<C>, e: nat, c: E.State<C>, s': State<C>)
    requires Inv(cd, s) && e < |s.encs| && Healthy(cd, c)
    requires c.fed == s.encs[e].fed && c.collected == s.encs[e].collected && c.feeder == s.encs[e].feeder
    requires s.encs[e].result.Some? ==> c.result == s.encs[e].result
    requires s' == s.(encs := s.encs[e := c])
    ensures Inv(cd, s')
  {
    hide Healthy, Share;
    assert Results(c) == Results(s.encs[e]);
  }

  lemma BeginFeedInv<C>(cd: E.Codec<C>, s: State<C>, pc: C, s': State<C>)
    requires Inv(cd, s) && Next(cd, s, BeginFeed(pc), s')
    ensures Inv(cd, s')
  {
    var c, c' := s.encs[s.nextIn], s'.encs[s.nextIn];
    E.NextInv(cd, c, E.BeginFeed(pc), c');
    assert Results(c') == Results(c);
    hide E.Inv, Share, E.Stored;
  }

  lemma FeederChecksInv<C>(cd: E.Codec<C>, s: State<C>, s': State<C>)
    requires Inv(cd, s) && s.feeding && s.encs[s.nextIn].feeder.FCheck?
    requires s' == s.(encs := s.encs[s.nextIn := E.FeederStep(s.encs[s.nextIn])])
    ensures !E.FeederStep(s.encs[s.nextIn]).feeder.FIdle? && Inv(cd, s')
  {
    var c, c' := s.encs[s.nextIn], E.FeederStep(s.encs[s.nextIn]);
    FeederHealthy(cd, c);
    assert c.alive && Results(c') == Results(c);
    hide Healthy, Results, Share, Turn;
  }

  lemma FeederPutsInv<C>(cd: E.Codec<C>, s: State<C>, pc: C, s': State<C>)
    requires Inv(cd, s) && s.feeding && s.encs[s.nextIn].feeder == E.FPut(pc)
    requires s' == s.(encs := s.encs[s.nextIn := E.FeederStep(s.encs[s.nextIn])],
                      feeding := false, nextIn := (s.nextIn + 1) % |s.encs|, fed := s.fed + [pc])
    ensures Inv(cd, s')
  {
    var c, c', n := s.encs[s.nextIn], E.FeederStep(s.encs[s.nextIn]), |s.encs|;
    FeederHealthy(cd, c);
    assert Results(c') == Results(c) && c'.fed == c.fed + [pc] && c'.feeder.FIdle? && c'.result == c.result;
    hide Healthy, Results, Count, Turn, Share, E.FeederStep;
    forall e | 0 <= e < n
      ensures s'.encs[e].fed == Share(s'.fed, e, n)
    {
      ShareNext(s.fed, pc, e, n);
    }
    NextCount(|s.fed|, 0, n);
  }

  lemma FeederInv<C>(cd: E.Codec<C>, s: State<C>, s': State<C>)
    requires Inv(cd, s) && Next(cd, s, FeederMove, s')
    ensures Inv(cd, s')
  {
    assert s.nextIn < |s.encs|;
    hide Inv;
    if s.encs[s.nextIn].feeder.FPut? {
      FeederPutsInv(cd, s, s.encs[s.nextIn].feeder.pc, s');
    } else {
      FeederChecksInv(cd, s, s.(encs := s.encs[s.nextIn := E.FeederStep(s.encs[s.nextIn])]));
    }
  }

  lemma CopyEffect<C>(cd: E.Codec<C>, s: State<C>, bufferSize: nat, s': State<C>)
    requires Inv(cd, s) && Next(cd, s, CopyData(bufferSize), s')
    ensures s.encs[s.nextOut].result.Some? && |s.encs[s.nextOut].result.value| <= bufferSize
    ensures s' == s.(reader := RIdle, encs := s.encs[s.nextOut := E.Collect(s.encs[s.nextOut], bufferSize)],
                     nextOut := (s.nextOut + 1) % |s.encs|, out := s.out + [s.encs[s.nextOut].result.value])
  {
    hide Healthy, Share, Results, E.ResultOf, Turn;
  }

  lemma CopyInv<C>(cd: E.Codec<C>, s: State<C>, bufferSize: nat, s': State<C>)
    requires Inv(cd, s) && Next(cd, s, CopyData(bufferSize), s')
    ensures Inv(cd, s')
  {
    CopyEffect(cd, s, bufferSize, s');
    hide Next;
    var c, n := s.encs[s.nextOut], |s.encs|;
    var r, c' := c.result.value, E.Collect(c, bufferSize);
    CollectHealthy(cd, c, bufferSize);
    SlotMeansOutstanding(cd, s);
    assert c'.fed == c.fed && c'.feeder == c.feeder;
    hide Healthy, Share, Count, Turn, Results, E.Collect;
    forall e | 0 <= e < n
      ensures Results(s'.encs[e]) == Share(s'.out, e, n)
    {
      ShareNext(s.out, r, e, n);
    }
    NextCount(|s.out|, 0, n);
  }

  lemma TileInv<C>(cd: E.Codec<C>, s: State<C>, e: nat, s': State<C>)
    requires Inv(cd, s) && Next(cd, s, TileMove(e), s')
    ensures Inv(cd, s')
  {
    hide Healthy, Share, Results;
    TileHealthy(cd, s.encs[e]);
    WorkerInv(cd, s, e, s'.encs[e], s');
  }

  lemma EncoderInv<C>(cd: E.Codec<C>, s: State<C>, e: nat, s': State<C>)
    requires Inv(cd, s) && Next(cd, s, EncoderMove(e), s')
    ensures Inv(cd, s')
  {
    hide Share, Results;
    Outstanding(cd, s, e);
    EncoderHealthy(cd, s.encs[e]);
    hide Healthy;
    WorkerInv(cd, s, e, s'.encs[e], s');
  }

  lemma AvailableInv<C>(cd: E.Codec<C>, s: State<C>, s': State<C>)
    requires Inv(cd, s) && Next(cd, s, Available, s')
    ensures Inv(cd, s')
  {
    hide Healthy, Share, Results, Turn;
  }

  lemma NextInv<C>(cd: E.Codec<C>, s: State<C>, a: Action<C>, s': State<C>)
    requires Inv(cd, s) && Next(cd, s, a, s')
    ensures Inv(cd, s')
  {
    hide Inv, Next;
    match a
    case BeginFeed(pc) => BeginFeedInv(cd, s, pc, s');
    case FeederMove => FeederInv(cd, s, s');
    case TileMove(e) => TileInv(cd, s, e, s');
    case EncoderMove(e) => EncoderInv(cd, s, e, s');
    case Available => AvailableInv(cd, s, s');
    case CopyData(bufferSize) => CopyInv(cd, s, bufferSize, s');
  }

  lemma {:induction false} RunInv<C>(cd: E.Codec<C>, ss: seq<State<C>>, acts: seq<Action<C>>, i: nat)
    requires Run(cd, ss, acts) && i < |ss|
    ensures Inv(cd, ss[i])
  {
    hide Inv, Init, Next;
    if i == 0 {
      InitInv(cd, ss[0]);
    } else {
      RunInv(cd, ss, acts, i - 1);
      NextInv(cd, ss[i - 1], acts[i - 1], ss[i]);
    }
  }

  // ----- the theorems

  lemma CopyAt<C>(cd: E.Codec<C>, s: State<C>, k: nat)
    requires Inv(cd, s) && k < |s.out|
    ensures var n := |s.encs|; var mine := Share(s.fed, Turn(k, n), n);
      && Round(k, n) < |mine| && mine[Round(k, n)] == s.fed[k]
      && s.out[k] == E.Encoding(cd, mine, Round(k, n))
  {
    hide Share, Healthy, Turn, Round, E.Encoding;
    var n := |s.encs|;
    ShareAt(s.fed, k, n);
    ShareAt(s.out, k, n);
    HealthyResults(cd, s.encs[Turn(k, n)], Round(k, n));
  }

  /** The k-th copy returns the encoding of the k-th cloud fed: the encoder whose turn it was
      made it, after encoding the clouds dealt to it before.  None is lost, repeated or overwritten. */
  lemma CopiesInOrder<C>(cd: E.Codec<C>, ss: seq<State<C>>, acts: seq<Action<C>>, i: nat, k: nat)
    requires Run(cd, ss, acts) && i < |ss| && k < |ss[i].out|
    ensures var s := ss[i]; var n := |s.encs|;
      && 0 < n && k < |s.fed|
      && var mine := Share(s.fed, Turn(k, n), n);
      && Round(k, n) < |mine| && mine[Round(k, n)] == s.fed[k]
      && s.out[k] == E.Encoding(cd, mine, Round(k, n))
  {
    hide Run;
    RunInv(cd, ss, acts, i);
    CopyAt(cd, ss[i], k);
  }

  /** Every copy the reader makes succeeds, and no result is ever overwritten. */
  lemma CopySucceeds<C>(cd: E.Codec<C>, ss: seq<State<C>>, acts: seq<Action<C>>, i: nat, bufferSize: nat)
    requires Run(cd, ss, acts) && i < |acts| && acts[i] == CopyData(bufferSize)
    ensures |ss[i + 1].out| == |ss[i].out| + 1
  {
    RunInv(cd, ss, acts, i);
    assert Next(cd, ss[i], acts[i], ss[i + 1]);
    CopyEffect(cd, ss[i], bufferSize, ss[i + 1]);
  }

  lemma NeverOverwritten<C>(cd: E.Codec<C>, ss: seq<State<C>>, acts: seq<Action<C>>, i: nat, e: nat)
    requires Run(cd, ss, acts) && i < |ss| && e < |ss[i].encs| && ss[i].encs[e].enc.EStore?
    ensures ss[i].encs[e].result.None?
  {
    RunInv(cd, ss, acts, i);
    Outstanding(cd, ss[i], e);
    EncoderHealthy(cd, ss[i].encs[e]);
  }

  /** While a cloud is outstanding, the encoder whose turn it is has its result ready or a worker
      that can step. */
  lemma NeverStuck<C>(cd: E.Codec<C>, ss: seq<State<C>>, acts: seq<Action<C>>, i: nat)
    requires Run(cd, ss, acts) && i < |ss| && |ss[i].out| < |ss[i].fed|
    ensures ss[i].nextOut < |ss[i].encs|
    ensures var c := ss[i].encs[ss[i].nextOut]; c.result.Some? || E.TileReady(c) || E.EncoderReady(c)
  {
    RunInv(cd, ss, acts, i);
    Outstanding(cd, ss[i], ss[i].nextOut);
    HealthyProgress(cd, ss[i].encs[ss[i].nextOut]);
  }
}
