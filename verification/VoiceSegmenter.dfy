/**
  The voice activity segmenter. It is fed chunks of samples and now and then hands back an
  utterance, which is always an exact slice of what it was fed. Samples and levels are
  reals; the level (root mean square) of a chunk is given with it.
*/
module VoiceSegmenter {
  import opened Wrappers

  /** The validated settings the segmenter uses; durations are in milliseconds. */
  datatype Config = Config(sampleRate: nat, minRms: real, noiseMultiplier: real, releaseRatio: real,
                           speechStart: nat, minSpeech: nat, silence: nat, maxUtterance: nat, preRoll: nat)
  {
    ghost predicate Valid() {
      minRms > 0.0
    }

    /** Whole samples in a duration, but never none. */
    function Samples(millis: nat): (n: nat)
      ensures n >= 1
      ensures if sampleRate * millis < 1000 then n == 1 else 1000 * n <= sampleRate * millis < 1000 * n + 1000
    {
      if sampleRate * millis / 1000 >= 1 then sampleRate * millis / 1000 else 1
    }
  }

  datatype State = State(noiseFloor: real, preRoll: seq<real>, current: seq<real>, speaking: bool,
                         candidate: nat, speech: nat, silence: nat)

  const INITIAL := State(0.005, [], [], false, 0, 0, 0)

  // ---- one push ----

  function MaxReal(x: real, y: real): real {
    if x < y then y else x
  }

  function MinReal(x: real, y: real): real {
    if x < y then x else y
  }

  function LastN(s: seq<real>, n: nat): seq<real> {
    if |s| <= n then s else s[|s| - n..]
  }

  function StartThreshold(c: Config, noiseFloor: real): real {
    MaxReal(c.minRms, noiseFloor * c.noiseMultiplier)
  }

  function ReleaseThreshold(c: Config, noiseFloor: real): real {
    StartThreshold(c, noiseFloor) * c.releaseRatio
  }

  predicate Voiced(c: Config, s: State, level: real) {
    if s.speaking then level >= ReleaseThreshold(c, s.noiseFloor) else level >= StartThreshold(c, s.noiseFloor)
  }

  function NextNoise(c: Config, noiseFloor: real, level: real): real {
    noiseFloor * 0.985 + MinReal(level, c.minRms * 4.0) * 0.015
  }

  /** The part of a push before the segment is tested for closing. */
  function Absorb(c: Config, s: State, samples: seq<real>, level: real): State {
    var voiced := Voiced(c, s, level);
    if !s.speaking then
      var rolled := s.(preRoll := LastN(s.preRoll + samples, c.Samples(c.preRoll)));
      if !voiced then
        rolled.(candidate := 0, noiseFloor := NextNoise(c, s.noiseFloor, level))
      else if s.candidate + |samples| < c.Samples(c.speechStart) then
        rolled.(candidate := s.candidate + |samples|)
      else
        State(s.noiseFloor, [], s.current + rolled.preRoll, true, 0, s.candidate + |samples|, 0)
    else if voiced then
      s.(current := s.current + samples, speech := s.speech + |samples|, silence := 0)
    else
      s.(current := s.current + samples, silence := s.silence + |samples|)
  }

  predicate Closes(c: Config, s: State) {
    s.silence >= c.Samples(c.silence) || |s.current| >= c.Samples(c.maxUtterance)
  }

  function Push(c: Config, s: State, samples: seq<real>, level: real): (State, Option<seq<real>>) {
    if samples == [] then (s, None)
    else
      var open := Absorb(c, s, samples, level);
      if !open.speaking || !Closes(c, open) then (open, None)
      else (State(open.noiseFloor, [], [], false, 0, 0, 0),
            if open.speech >= c.Samples(c.minSpeech) then Some(open.current) else None)
  }

  function Reset(s: State): State {
    State(s.noiseFloor, [], [], false, 0, 0, 0)
  }

  // ---- the segmenter itself ----

  class Segmenter {
    const config: Config
    var noiseFloor: real
    var preRoll: seq<real>
    var current: seq<real>
    var speaking: bool
    var candidate: nat
    var speech: nat
    var silence: nat

    function Now(): State
      reads this
    {
      State(noiseFloor, preRoll, current, speaking, candidate, speech, silence)
    }

    constructor (c: Config)
      ensures config == c && Now() == INITIAL
    {
      config := c;
      noiseFloor, preRoll, current, speaking, candidate, speech, silence := 0.005, [], [], false, 0, 0, 0;
    }

    method ExtendPreRoll(samples: seq<real>)
      modifies this`preRoll
      ensures preRoll == LastN(old(preRoll) + samples, config.Samples(config.preRoll))
    {
      var limit := config.Samples(config.preRoll);
      preRoll := preRoll + samples;
      ghost var all := preRoll;
      while |preRoll| > limit
        invariant |preRoll| <= |all| && preRoll == all[|all| - |preRoll|..]
        invariant |all| > limit ==> |preRoll| >= limit
        invariant |all| <= limit ==> preRoll == all
        decreases |preRoll|
      {
        preRoll := preRoll[1..];
      }
    }

    method PushChunk(samples: seq<real>, level: real) returns (audio: Option<seq<real>>)
      modifies this
      ensures (Now(), audio) == Push(config, old(Now()), samples, level)
    {
      if samples == [] { return None; }
      var startThreshold := StartThreshold(config, noiseFloor);
      var releaseThreshold := ReleaseThreshold(config, noiseFloor);
      var voiced := if speaking then level >= releaseThreshold else level >= startThreshold;
      if !speaking {
        ExtendPreRoll(samples);
        if !voiced {
          candidate := 0;
          noiseFloor := NextNoise(config, noiseFloor, level);
          return None;
        }
        candidate := candidate + |samples|;
        if candidate < config.Samples(config.speechStart) { return None; }
        speaking := true;
        current := current + preRoll;
        preRoll := [];
        speech := candidate;
        candidate := 0;
        silence := 0;
      } else {
        current := current + samples;
        if voiced {
          speech := speech + |samples|;
          silence := 0;
        } else {
          silence := silence + |samples|;
        }
      }
      if silence < config.Samples(config.silence) && |current| < config.Samples(config.maxUtterance) {
        return None;
      }
      var valid := speech >= config.Samples(config.minSpeech);
      var taken := current;
      current, speaking, candidate, speech, silence, preRoll := [], false, 0, 0, 0, [];
      audio := if valid then Some(taken) else None;
    }

    method ResetAll()
      modifies this
      ensures Now() == Reset(old(Now()))
    {
      preRoll, current, speaking, candidate, speech, silence := [], [], false, 0, 0, 0;
    }
  }

  // ---- whole runs ----

  datatype Input = Chunk(samples: seq<real>, level: real) | Clear

  /** An utterance handed back: samples `from..to`, of which those from `counted` on were counted. */
  datatype Utterance = Utterance(audio: seq<real>, from: int, to: int, counted: int)

  /**
    A run so far: every sample fed, whether the chunk it came in was judged voiced, where the
    buffers were last emptied, where the counted speech and the audio of the open segment
    begin, what was handed back, and how many segments were begun and ended.
  */
  datatype Run = Run(s: State, stream: seq<real>, heard: seq<bool>, mark: nat, counted: int, begin: int,
                     outs: seq<Utterance>, begun: nat, ended: nat)

  const START := Run(INITIAL, [], [], 0, 0, 0, [], 0, 0)

  function Feed(c: Config, r: Run, input: Input): Run {
    match input
    case Clear => r.(s := Reset(r.s), mark := |r.stream|)
    case Chunk(samples, level) =>
      var stream := r.stream + samples;
      var heard := r.heard + seq(|samples|, _ => Voiced(c, r.s, level));
      var (next, audio) := Push(c, r.s, samples, level);
      var opens := !r.s.speaking && samples != [] && Absorb(c, r.s, samples, level).speaking;
      var counted := if opens then |r.stream| - r.s.candidate else r.counted;
      var rolled := |LastN(r.s.preRoll + samples, c.Samples(c.preRoll))|;
      var begin := if opens then |stream| - rolled else r.begin;
      var closes := samples != [] && Absorb(c, r.s, samples, level).speaking && !next.speaking;
      Run(next, stream, heard, if closes then |stream| else r.mark, counted, begin,
          if audio.Some? then r.outs + [Utterance(audio.value, begin, |stream|, counted)] else r.outs,
          if opens then r.begun + 1 else r.begun, if closes then r.ended + 1 else r.ended)
  }

  /** A run continued. */
  function FeedOn(c: Config, r: Run, inputs: seq<Input>): Run {
    if inputs == [] then r else Feed(c, FeedOn(c, r, inputs[..|inputs| - 1]), inputs[|inputs| - 1])
  }

  function FeedAll(c: Config, inputs: seq<Input>): Run {
    FeedOn(c, START, inputs)
  }

  function Count(heard: seq<bool>): nat {
    if heard == [] then 0 else Count(heard[..|heard| - 1]) + (if heard[|heard| - 1] then 1 else 0)
  }

  lemma {:induction false} CountAppend(a: seq<bool>, b: seq<bool>)
    ensures Count(a + b) == Count(a) + Count(b)
  {
    if b == [] {
      assert a + b == a;
    } else {
      assert (a + b)[..|a + b| - 1] == a + b[..|b| - 1];
      CountAppend(a, b[..|b| - 1]);
    }
  }

  lemma {:induction false} CountUniform(b: seq<bool>, v: bool)
    requires forall i :: 0 <= i < |b| ==> b[i] == v
    ensures Count(b) == if v then |b| else 0
  {
    if b != [] {
      CountUniform(b[..|b| - 1], v);
    }
  }

  /** How many entries at the end equal `v`. */
  function Trailing(heard: seq<bool>, v: bool): (n: nat)
    ensures n <= |heard|
  {
    if heard == [] || heard[|heard| - 1] != v then 0 else Trailing(heard[..|heard| - 1], v) + 1
  }

  function Verdicts(n: nat, v: bool): (r: seq<bool>)
    ensures |r| == n && forall i :: 0 <= i < n ==> r[i] == v
  {
    seq(n, _ => v)
  }

  lemma {:induction false} TrailingAppend(heard: seq<bool>, n: nat, heardNow: bool, v: bool)
    requires n > 0
    ensures Trailing(heard + Verdicts(n, heardNow), v) == if heardNow == v then Trailing(heard, v) + n else 0
  {
    var all := heard + Verdicts(n, heardNow);
    assert all[|all| - 1] == heardNow;
    if heardNow == v {
      assert all[..|all| - 1] == heard + Verdicts(n - 1, heardNow);
      if n > 1 { TrailingAppend(heard, n - 1, heardNow, v); } else { assert heard + Verdicts(0, heardNow) == heard; }
    }
  }

  lemma {:induction false} TrailingMeans(heard: seq<bool>, v: bool)
    ensures forall i :: |heard| - Trailing(heard, v) <= i < |heard| ==> heard[i] == v
  {
    if heard != [] && heard[|heard| - 1] == v { TrailingMeans(heard[..|heard| - 1], v); }
  }

  // ---- the invariant ----

  ghost predicate Idle(c: Config, r: Run)
    requires |r.heard| == |r.stream| && r.mark <= |r.stream|
  {
    && r.s.current == [] && r.s.speech == 0 && r.s.silence == 0
    && r.s.candidate == Trailing(r.heard[r.mark..], true)
    && r.s.preRoll == LastN(r.stream[r.mark..], c.Samples(c.preRoll))
  }

  /** An open segment holds the stream from `begin` on and has counted the speech from `counted` on. */
  ghost predicate Holding(r: Run)
    requires |r.heard| == |r.stream|
  {
    && r.s.preRoll == [] && r.s.candidate == 0
    && r.mark <= r.begin <= |r.stream| && r.mark <= r.counted <= |r.stream|
    && r.s.current == r.stream[r.begin..]
    && r.s.speech == Count(r.heard[r.counted..]) && r.s.silence == Trailing(r.heard[r.counted..], false)
  }

  ghost predicate Open(c: Config, r: Run)
    requires |r.heard| == |r.stream|
  {
    Holding(r) && r.s.silence < c.Samples(c.silence) && |r.s.current| < c.Samples(c.maxUtterance)
  }

  /** Utterances are slices, in order and apart, each with enough counted speech before its end. */
  ghost predicate Slices(c: Config, r: Run) {
    && (forall u :: u in r.outs ==> GoodSlice(c, r, u))
    && (r.outs != [] ==> r.outs[|r.outs| - 1].to <= r.mark)
    && forall i, j :: 0 <= i < j < |r.outs| ==> r.outs[i].to <= r.outs[j].from && r.outs[i].to <= r.outs[j].counted
  }

  ghost predicate GoodSlice(c: Config, r: Run, u: Utterance) {
    && 0 <= u.from <= u.to <= |r.stream| && 0 <= u.counted <= u.to <= |r.heard|
    && u.audio == r.stream[u.from..u.to]
    && Count(r.heard[u.counted..u.to]) >= c.Samples(c.minSpeech)
  }

  ghost predicate Quiet(c: Config, s: State) {
    0.0 <= s.noiseFloor <= MaxReal(0.005, c.minRms * 4.0)
  }

  ghost predicate Inv(c: Config, r: Run) {
    && |r.heard| == |r.stream| && r.mark <= |r.stream|
    && Quiet(c, r.s)
    && (if r.s.speaking then Open(c, r) else Idle(c, r))
    && Slices(c, r)
  }

  lemma GrownSlices(c: Config, r: Run, r': Run)
    requires Slices(c, r) && r.stream <= r'.stream && r.heard <= r'.heard && r'.outs == r.outs && r.mark <= r'.mark
    ensures Slices(c, r')
  {
    forall u | u in r'.outs ensures GoodSlice(c, r', u) {
      assert GoodSlice(c, r, u);
      assert r'.stream[u.from..u.to] == r.stream[u.from..u.to];
      assert r'.heard[u.counted..u.to] == r.heard[u.counted..u.to];
    }
  }

  lemma NoiseStays(c: Config, s: State, samples: seq<real>, level: real)
    requires c.Valid() && Quiet(c, s) && level >= 0.0
    ensures Quiet(c, Push(c, s, samples, level).0)
  {
  }

  /** The run in the middle of a push, before the segment is tested for closing. */
  function Mid(c: Config, r: Run, samples: seq<real>, level: real): Run {
    var next := Absorb(c, r.s, samples, level);
    var stream := r.stream + samples;
    var opens := !r.s.speaking && next.speaking;
    r.(s := next, stream := stream, heard := r.heard + Verdicts(|samples|, Voiced(c, r.s, level)),
       counted := if opens then |r.stream| - r.s.candidate else r.counted,
       begin := if opens then |stream| - |next.current| else r.begin,
       begun := if opens then r.begun + 1 else r.begun)
  }

  lemma StillIdle(c: Config, r: Run, samples: seq<real>, level: real)
    requires |r.heard| == |r.stream| && r.mark <= |r.stream| && !r.s.speaking && Idle(c, r)
    requires samples != [] && !Absorb(c, r.s, samples, level).speaking
    ensures Idle(c, Mid(c, r, samples, level))
  {
    var m := Mid(c, r, samples, level);
    assert m.stream[m.mark..] == r.stream[r.mark..] + samples;
    HeardMore(r.heard, r.mark, |samples|, Voiced(c, r.s, level));
  }

  lemma HeardMore(heard: seq<bool>, from: nat, n: nat, heardNow: bool)
    requires from <= |heard| && n > 0
    ensures var more := (heard + Verdicts(n, heardNow))[from..];
            && more == heard[from..] + Verdicts(n, heardNow)
            && Trailing(more, true) == (if heardNow then Trailing(heard[from..], true) + n else 0)
            && Trailing(more, false) == (if heardNow then 0 else Trailing(heard[from..], false) + n)
  {
    assert (heard + Verdicts(n, heardNow))[from..] == heard[from..] + Verdicts(n, heardNow);
    TrailingAppend(heard[from..], n, heardNow, true);
    TrailingAppend(heard[from..], n, heardNow, false);
  }

  /** The samples taken over from the pre-roll reach back no further than where it was emptied. */
  lemma OpeningAudio(stream: seq<real>, mark: nat, preRoll: seq<real>, samples: seq<real>, n: nat)
    requires mark <= |stream| && preRoll == LastN(stream[mark..], n)
    ensures var rolled, all := LastN(preRoll + samples, n), stream + samples;
            |rolled| <= |all| - mark && rolled == all[|all| - |rolled|..]
  {
    assert (stream + samples)[mark..] == stream[mark..] + samples;
  }

  /** An opening segment counts the speech at the end of what was heard, and has no silence. */
  lemma OpeningCount(heard: seq<bool>, mark: nat, candidate: nat, n: nat)
    requires mark <= |heard| && candidate == Trailing(heard[mark..], true) && n > 0
    ensures candidate <= |heard| - mark
    ensures var counted := (heard + Verdicts(n, true))[|heard| - candidate..];
            Count(counted) == candidate + n && Trailing(counted, false) == 0
  {
    var counted := (heard + Verdicts(n, true))[|heard| - candidate..];
    TrailingMeans(heard[mark..], true);
    forall i | 0 <= i < candidate ensures counted[i] {
      assert counted[i] == heard[|heard| - candidate + i] == heard[mark..][|heard| - mark - candidate + i];
    }
    CountUniform(counted, true);
  }

  lemma Opening(c: Config, r: Run, samples: seq<real>, level: real)
    requires |r.heard| == |r.stream| && r.mark <= |r.stream| && !r.s.speaking && Idle(c, r)
    requires samples != [] && Absorb(c, r.s, samples, level).speaking
    ensures Holding(Mid(c, r, samples, level))
  {
    OpeningAudio(r.stream, r.mark, r.s.preRoll, samples, c.Samples(c.preRoll));
    OpeningCount(r.heard, r.mark, r.s.candidate, |samples|);
    var rolled := LastN(r.s.preRoll + samples, c.Samples(c.preRoll));
    assert Mid(c, r, samples, level).s.current == rolled;
  }

  lemma Continuing(c: Config, r: Run, samples: seq<real>, level: real)
    requires |r.heard| == |r.stream| && r.mark <= |r.stream| && r.s.speaking && Open(c, r) && samples != []
    ensures Holding(Mid(c, r, samples, level)) && Mid(c, r, samples, level).s.speaking
  {
    var m := Mid(c, r, samples, level);
    var verdicts := Verdicts(|samples|, Voiced(c, r.s, level));
    assert m.stream[m.begin..] == r.stream[r.begin..] + samples;
    HeardMore(r.heard, r.counted, |samples|, Voiced(c, r.s, level));
    CountAppend(r.heard[r.counted..], verdicts);
    CountUniform(verdicts, Voiced(c, r.s, level));
  }

  /** Closing a segment: what it held becomes an utterance if enough of it was speech. */
  lemma Closing(c: Config, m: Run)
    requires |m.heard| == |m.stream| && m.mark <= |m.stream| && m.s.speaking && Holding(m) && Slices(c, m)
    ensures var u := Utterance(m.s.current, m.begin, |m.stream|, m.counted);
            var outs := if m.s.speech >= c.Samples(c.minSpeech) then m.outs + [u] else m.outs;
            Slices(c, m.(mark := |m.stream|, outs := outs))
  {
    var u := Utterance(m.s.current, m.begin, |m.stream|, m.counted);
    var outs := if m.s.speech >= c.Samples(c.minSpeech) then m.outs + [u] else m.outs;
    var r := m.(mark := |m.stream|, outs := outs);
    if m.s.speech >= c.Samples(c.minSpeech) { ClosedIsGood(c, m); }
    forall x | x in r.outs ensures GoodSlice(c, r, x) {
      assert GoodSlice(c, m, x);
    }
    EarlierEnd(c, m);
  }

  lemma ClosedIsGood(c: Config, m: Run)
    requires |m.heard| == |m.stream| && m.mark <= |m.stream| && Holding(m) && m.s.speech >= c.Samples(c.minSpeech)
    ensures GoodSlice(c, m, Utterance(m.s.current, m.begin, |m.stream|, m.counted))
  {
    assert m.stream[m.begin..|m.stream|] == m.stream[m.begin..];
    assert m.heard[m.counted..|m.heard|] == m.heard[m.counted..];
  }

  lemma EarlierEnd(c: Config, m: Run)
    requires Slices(c, m)
    ensures forall i :: 0 <= i < |m.outs| ==> m.outs[i].to <= m.mark
  {
    forall i | 0 <= i < |m.outs| ensures m.outs[i].to <= m.mark {
      var last := |m.outs| - 1;
      assert GoodSlice(c, m, m.outs[last]);
      if i < last { assert m.outs[i].to <= m.outs[last].from; }
    }
  }

  lemma FeedIsMid(c: Config, r: Run, samples: seq<real>, level: real)
    requires samples != [] && (!r.s.speaking ==> r.s.current == [])
    ensures var m := Mid(c, r, samples, level);
            var f := Feed(c, r, Chunk(samples, level));
            && f.stream == m.stream && f.heard == m.heard && f.counted == m.counted && f.begin == m.begin
            && f.begun == m.begun
            && (!m.s.speaking || !Closes(c, m.s) ==> f == m)
            && (m.s.speaking && Closes(c, m.s) ==>
                  && f.s == State(m.s.noiseFloor, [], [], false, 0, 0, 0) && f.mark == |m.stream|
                  && f.ended == m.ended + 1
                  && f.outs == if m.s.speech >= c.Samples(c.minSpeech)
                               then m.outs + [Utterance(m.s.current, m.begin, |m.stream|, m.counted)] else m.outs)
  {
    var m := Mid(c, r, samples, level);
    assert seq(|samples|, _ => Voiced(c, r.s, level)) == Verdicts(|samples|, Voiced(c, r.s, level));
  }

  lemma MidKeeps(c: Config, r: Run, samples: seq<real>, level: real)
    requires Inv(c, r) && samples != []
    ensures var m := Mid(c, r, samples, level);
            && |m.heard| == |m.stream| && m.mark <= |m.stream| && Slices(c, m)
            && if m.s.speaking then Holding(m) else Idle(c, m)
  {
    GrownSlices(c, r, Mid(c, r, samples, level));
    if r.s.speaking {
      Continuing(c, r, samples, level);
    } else if Absorb(c, r.s, samples, level).speaking {
      Opening(c, r, samples, level);
    } else {
      StillIdle(c, r, samples, level);
    }
  }

  lemma ChunkKeeps(c: Config, r: Run, samples: seq<real>, level: real)
    requires c.Valid() && Inv(c, r) && samples != [] && level >= 0.0
    ensures Inv(c, Feed(c, r, Chunk(samples, level)))
  {
    var m := Mid(c, r, samples, level);
    FeedIsMid(c, r, samples, level);
    NoiseStays(c, r.s, samples, level);
    MidKeeps(c, r, samples, level);
    if m.s.speaking && Closes(c, m.s) {
      ClosedKeeps(c, m, Feed(c, r, Chunk(samples, level)));
    }
  }

  lemma ClosedKeeps(c: Config, m: Run, f: Run)
    requires |m.heard| == |m.stream| && m.mark <= |m.stream| && m.s.speaking && Holding(m) && Slices(c, m)
    requires f.stream == m.stream && f.heard == m.heard && f.mark == |m.stream| && Quiet(c, f.s)
    requires f.s == State(m.s.noiseFloor, [], [], false, 0, 0, 0)
    requires f.outs == if m.s.speech >= c.Samples(c.minSpeech)
                       then m.outs + [Utterance(m.s.current, m.begin, |m.stream|, m.counted)] else m.outs
    ensures Inv(c, f)
  {
    Closing(c, m);
    assert f.stream[f.mark..] == [] && f.heard[f.mark..] == [];
    SameSlices(c, m.(mark := |m.stream|, outs := f.outs), f);
  }

  lemma SameSlices(c: Config, a: Run, b: Run)
    requires Slices(c, a) && a.stream == b.stream && a.heard == b.heard && a.outs == b.outs && a.mark == b.mark
    ensures Slices(c, b)
  {
    forall u | u in b.outs ensures GoodSlice(c, b, u) {
      assert GoodSlice(c, a, u);
    }
  }

  lemma FeedKeeps(c: Config, r: Run, input: Input)
    requires c.Valid() && Inv(c, r) && (input.Chunk? ==> input.level >= 0.0)
    ensures Inv(c, Feed(c, r, input))
  {
    match input
    case Clear =>
      var f := Feed(c, r, input);
      assert f.stream[f.mark..] == [] && f.heard[f.mark..] == [];
      GrownSlices(c, r, f);
    case Chunk(samples, level) =>
      if samples == [] {
        var f := Feed(c, r, input);
        assert f.stream == r.stream && f.heard == r.heard;
        GrownSlices(c, r, f);
        assert f == r;
      } else {
        ChunkKeeps(c, r, samples, level);
      }
  }

  /**
    Over any run of chunks and resets: every utterance handed back is exactly
    `stream[from..to]`, later ones start no earlier than earlier ones end, and at least
    `minSpeech` samples up to its end were judged voiced; an open segment is shorter than
    `maxUtterance`; while idle the pre-roll is exactly the last samples since the buffers
    were emptied; and the noise floor stays in its band.
  */
  lemma {:induction false} UtterancesAreSlices(c: Config, inputs: seq<Input>)
    requires c.Valid() && forall i :: 0 <= i < |inputs| && inputs[i].Chunk? ==> inputs[i].level >= 0.0
    ensures Inv(c, FeedAll(c, inputs))
  {
    if inputs == [] {
      var r := START;
      assert r.stream[r.mark..] == [];
    } else {
      UtterancesAreSlices(c, inputs[..|inputs| - 1]);
      FeedKeeps(c, FeedAll(c, inputs[..|inputs| - 1]), inputs[|inputs| - 1]);
    }
  }

  /** An utterance is handed back only by the push that ends it, and ends with that push's samples. */
  lemma UtteranceEndsHere(c: Config, r: Run, samples: seq<real>, level: real)
    requires c.Valid() && Inv(c, r) && level >= 0.0
    ensures var f := Feed(c, r, Chunk(samples, level));
            var audio := Push(c, r.s, samples, level).1;
            && f.stream == r.stream + samples
            && (audio.None? ==> f.outs == r.outs)
            && (audio.Some? ==>
                  && f.outs == r.outs + [Utterance(audio.value, f.begin, |f.stream|, f.counted)]
                  && r.mark <= f.begin && audio.value == f.stream[f.begin..]
                  && (r.s.speaking ==> |audio.value| < c.Samples(c.maxUtterance) + |samples|)
                  && (!r.s.speaking ==> |audio.value| <= c.Samples(c.preRoll)))
  {
    if samples != [] {
      var m := Mid(c, r, samples, level);
      FeedIsMid(c, r, samples, level);
      if r.s.speaking {
        Continuing(c, r, samples, level);
      } else if m.s.speaking {
        Opening(c, r, samples, level);
      }
    }
  }

  // ---- which chunks count as speech, and what they do ----

  /** Loud enough to open a segment. */
  predicate Loud(c: Config, noise: real, level: real) {
    level >= c.minRms && level >= noise * c.noiseMultiplier
  }

  /** Loud enough for an open segment to go on: the release ratio lowers both bars. */
  predicate Lingers(c: Config, noise: real, level: real) {
    level >= c.minRms * c.releaseRatio && level >= noise * c.noiseMultiplier * c.releaseRatio
  }

  predicate CountsAsSpeech(c: Config, s: State, level: real) {
    if s.speaking then Lingers(c, s.noiseFloor, level) else Loud(c, s.noiseFloor, level)
  }

  lemma TimesRatio(x: real, y: real, ratio: real)
    requires x <= y && ratio >= 0.0
    ensures x * ratio <= y * ratio
  {
  }

  lemma TimesNegative(x: real, y: real)
    requires x >= 0.0 && y <= 0.0
    ensures x * y <= 0.0
  {
  }

  lemma VoicedByLevel(c: Config, s: State, level: real)
    requires c.releaseRatio >= 0.0
    ensures Voiced(c, s, level) <==> CountsAsSpeech(c, s, level)
  {
    var x, y := c.minRms, s.noiseFloor * c.noiseMultiplier;
    if x < y { TimesRatio(x, y, c.releaseRatio); } else { TimesRatio(y, x, c.releaseRatio); }
  }

  /** A chunk is judged by its level alone: against the minimum and the noise floor, or against both lowered. */
  lemma JudgedByLevel(c: Config, r: Run, samples: seq<real>, level: real)
    requires c.releaseRatio >= 0.0
    ensures Feed(c, r, Chunk(samples, level)).heard
         == r.heard + Verdicts(|samples|, CountsAsSpeech(c, r.s, level))
  {
    VoicedByLevel(c, r.s, level);
    assert seq(|samples|, _ => Voiced(c, r.s, level)) == Verdicts(|samples|, Voiced(c, r.s, level));
  }

  /** The noise floor moves 1.5 per cent of the way to a chunk without speech outside a segment, and only then. */
  lemma NoiseFollows(c: Config, r: Run, samples: seq<real>, level: real)
    requires samples != []
    ensures var noise, heard := r.s.noiseFloor, if level < c.minRms * 4.0 then level else c.minRms * 4.0;
            Feed(c, r, Chunk(samples, level)).s.noiseFloor
            == if r.s.speaking || Loud(c, noise, level) then noise else noise + (heard - noise) * 0.015
  {
  }

  /**
    Outside a segment a loud chunk opens one exactly when the speech at the end of what was
    heard is long enough with it; its audio then reaches back as far as the pre-roll allows.
  */
  lemma OpensExactlyWhen(c: Config, r: Run, samples: seq<real>, level: real)
    requires Inv(c, r) && !r.s.speaking && samples != []
    ensures var f := Feed(c, r, Chunk(samples, level));
            var speech := Trailing(r.heard[r.mark..], true);
            if Loud(c, r.s.noiseFloor, level) && speech + |samples| >= c.Samples(c.speechStart) then
              && f.begun == r.begun + 1 && f.counted == |r.stream| - speech
              && f.begin == MaxInt(r.mark, |f.stream| - c.Samples(c.preRoll))
            else
              f == r.(s := f.s, stream := f.stream, heard := f.heard) && !f.s.speaking
  {
    var v := Voiced(c, r.s, level);
    assert v <==> Loud(c, r.s.noiseFloor, level);
    FeedIsMid(c, r, samples, level);
    MidKeeps(c, r, samples, level);
  }

  function MaxInt(x: int, y: int): int {
    if x < y then y else x
  }

  /**
    An open segment closes exactly when the silence at its end, or its audio, is long enough;
    what it held is handed back exactly when enough of it was speech.
  */
  lemma ClosesExactlyWhen(c: Config, r: Run, samples: seq<real>, level: real)
    requires Inv(c, r) && samples != []
    requires r.s.speaking || Feed(c, r, Chunk(samples, level)).begun > r.begun
    ensures var f := Feed(c, r, Chunk(samples, level));
            && 0 <= f.begin <= |f.stream| && 0 <= f.counted <= |f.heard|
            && var heard := f.heard[f.counted..];
               var utterance := Utterance(f.stream[f.begin..], f.begin, |f.stream|, f.counted);
               if Trailing(heard, false) >= c.Samples(c.silence) || |f.stream| - f.begin >= c.Samples(c.maxUtterance)
               then
                 && f.ended == r.ended + 1 && !f.s.speaking && f.mark == |f.stream|
                 && f.outs == r.outs + if Count(heard) >= c.Samples(c.minSpeech) then [utterance] else []
               else
                 f.ended == r.ended && f.s.speaking && f.mark == r.mark && f.outs == r.outs
  {
    FeedIsMid(c, r, samples, level);
    MidKeeps(c, r, samples, level);
  }

  /** A chunk fed to an open segment leaves where it begins and counts from alone. */
  lemma GoesOn(c: Config, r: Run, samples: seq<real>, level: real)
    requires Inv(c, r) && r.s.speaking && samples != [] && c.releaseRatio >= 0.0
    ensures var f := Feed(c, r, Chunk(samples, level));
            && f.begun == r.begun && f.begin == r.begin && f.counted == r.counted
            && r.counted <= |r.heard|
            && Trailing(f.heard[f.counted..], false)
               == if Lingers(c, r.s.noiseFloor, level) then 0 else Trailing(r.heard[r.counted..], false) + |samples|
  {
    VoicedByLevel(c, r.s, level);
    FeedIsMid(c, r, samples, level);
    HeardMore(r.heard, r.counted, |samples|, Voiced(c, r.s, level));
  }

  // ---- over whole runs ----

  ghost predicate Chunks(inputs: seq<Input>) {
    forall i :: 0 <= i < |inputs| ==> inputs[i].Chunk? && inputs[i].samples != [] && inputs[i].level >= 0.0
  }

  function Total(inputs: seq<Input>): nat {
    if inputs == [] then 0
    else Total(inputs[..|inputs| - 1]) + if inputs[|inputs| - 1].Chunk? then |inputs[|inputs| - 1].samples| else 0
  }

  lemma FeedCounts(c: Config, r: Run, input: Input)
    ensures r.begun <= Feed(c, r, input).begun && r.ended <= Feed(c, r, input).ended
  {
  }

  lemma {:induction false} FedKeeps(c: Config, r: Run, inputs: seq<Input>)
    requires c.Valid() && Inv(c, r) && Chunks(inputs)
    ensures Inv(c, FeedOn(c, r, inputs))
  {
    if inputs != [] {
      FedKeeps(c, r, inputs[..|inputs| - 1]);
      FeedKeeps(c, FeedOn(c, r, inputs[..|inputs| - 1]), inputs[|inputs| - 1]);
    }
  }

  /** Chunks below the minimum level never open a segment, however many. */
  lemma {:induction false} QuietNeverOpens(c: Config, r: Run, inputs: seq<Input>)
    requires c.Valid() && Inv(c, r) && !r.s.speaking && Chunks(inputs)
    requires forall i :: 0 <= i < |inputs| ==> inputs[i].level < c.minRms
    ensures var f := FeedOn(c, r, inputs); !f.s.speaking && f.begun == r.begun && f.outs == r.outs
  {
    if inputs != [] {
      var front, last := inputs[..|inputs| - 1], inputs[|inputs| - 1];
      QuietNeverOpens(c, r, front);
      FedKeeps(c, r, front);
      OpensExactlyWhen(c, FeedOn(c, r, front), last.samples, last.level);
    }
  }

  /** At or above the minimum and the multiplier times the top of the noise band. */
  predicate Unmistakable(c: Config, level: real) {
    level >= c.minRms && level >= MaxReal(0.005, c.minRms * 4.0) * c.noiseMultiplier
  }

  lemma UnmistakableIsLoud(c: Config, s: State, level: real)
    requires c.Valid() && Quiet(c, s) && Unmistakable(c, level)
    ensures Loud(c, s.noiseFloor, level)
  {
    var top := MaxReal(0.005, c.minRms * 4.0);
    if c.noiseMultiplier >= 0.0 {
      TimesRatio(s.noiseFloor, top, c.noiseMultiplier);
    } else {
      TimesNegative(s.noiseFloor, c.noiseMultiplier);
    }
  }

  /** A segment was opened, or at least `n` samples of speech, not yet enough, are at the end of what was heard. */
  ghost predicate Rising(c: Config, begun: nat, f: Run, n: nat) {
    || f.begun > begun
    || (&& f.begun == begun && !f.s.speaking && f.mark <= |f.heard| && n <= Trailing(f.heard[f.mark..], true)
        && (n == 0 || Trailing(f.heard[f.mark..], true) < c.Samples(c.speechStart)))
  }

  lemma RisesOn(c: Config, r: Run, input: Input)
    requires c.Valid() && Inv(c, r) && !r.s.speaking && input.Chunk? && input.samples != []
    requires Unmistakable(c, input.level)
    ensures r.begun <= Feed(c, r, input).begun
    ensures Rising(c, r.begun, Feed(c, r, input), Trailing(r.heard[r.mark..], true) + |input.samples|)
  {
    UnmistakableIsLoud(c, r.s, input.level);
    OpensExactlyWhen(c, r, input.samples, input.level);
    FeedIsMid(c, r, input.samples, input.level);
    HeardMore(r.heard, r.mark, |input.samples|, true);
  }

  lemma RisingFrom(c: Config, begun: nat, before: Run, f: Run, n: nat, more: nat)
    requires Rising(c, begun, before, n) && before.begun <= f.begun && more > 0
    requires before.begun <= begun ==>
               before.mark <= |before.heard|
               && Rising(c, before.begun, f, Trailing(before.heard[before.mark..], true) + more)
    ensures Rising(c, begun, f, n + more)
  {
  }

  lemma {:induction false} LoudRises(c: Config, r: Run, inputs: seq<Input>)
    requires c.Valid() && Inv(c, r) && !r.s.speaking && Chunks(inputs)
    requires forall i :: 0 <= i < |inputs| ==> Unmistakable(c, inputs[i].level)
    ensures Rising(c, r.begun, FeedOn(c, r, inputs), Total(inputs))
  {
    if inputs != [] {
      var front, last := inputs[..|inputs| - 1], inputs[|inputs| - 1];
      LoudRises(c, r, front);
      FedKeeps(c, r, front);
      var before := FeedOn(c, r, front);
      FeedCounts(c, before, last);
      if before.begun <= r.begun { RisesOn(c, before, last); }
      RisingFrom(c, r.begun, before, Feed(c, before, last), Total(front), |last.samples|);
    }
  }

  /** Enough chunks that no noise floor can hide, one after the other, open a segment. */
  lemma LoudOpens(c: Config, r: Run, inputs: seq<Input>)
    requires c.Valid() && Inv(c, r) && !r.s.speaking && Chunks(inputs) && Total(inputs) >= c.Samples(c.speechStart)
    requires forall i :: 0 <= i < |inputs| ==> Unmistakable(c, inputs[i].level)
    ensures FeedOn(c, r, inputs).begun > r.begun
  {
    LoudRises(c, r, inputs);
  }

  /** The segment was closed, or at least `n` samples of silence, not yet enough, are at its end. */
  ghost predicate Fading(c: Config, ended: nat, f: Run, n: nat) {
    || f.ended > ended
    || (&& f.ended == ended && f.s.speaking && 0 <= f.counted <= |f.heard|
        && n <= Trailing(f.heard[f.counted..], false) < c.Samples(c.silence))
  }

  lemma FadesOn(c: Config, r: Run, input: Input)
    requires c.Valid() && Inv(c, r) && r.s.speaking && input.Chunk? && input.samples != []
    requires 0.0 <= input.level < c.minRms * c.releaseRatio
    ensures r.ended <= Feed(c, r, input).ended
    ensures Fading(c, r.ended, Feed(c, r, input), Trailing(r.heard[r.counted..], false) + |input.samples|)
  {
    if c.releaseRatio < 0.0 { TimesNegative(c.minRms, c.releaseRatio); }
    GoesOn(c, r, input.samples, input.level);
    ClosesExactlyWhen(c, r, input.samples, input.level);
  }

  lemma FadingFrom(c: Config, ended: nat, before: Run, f: Run, n: nat, more: nat)
    requires Fading(c, ended, before, n) && before.ended <= f.ended
    requires before.ended <= ended ==>
               0 <= before.counted <= |before.heard|
               && Fading(c, before.ended, f, Trailing(before.heard[before.counted..], false) + more)
    ensures Fading(c, ended, f, n + more)
  {
  }

  lemma {:induction false} SilenceFades(c: Config, r: Run, inputs: seq<Input>)
    requires c.Valid() && Inv(c, r) && r.s.speaking && Chunks(inputs)
    requires forall i :: 0 <= i < |inputs| ==> inputs[i].level < c.minRms * c.releaseRatio
    ensures Fading(c, r.ended, FeedOn(c, r, inputs), Total(inputs))
  {
    if inputs != [] {
      var front, last := inputs[..|inputs| - 1], inputs[|inputs| - 1];
      SilenceFades(c, r, front);
      FedKeeps(c, r, front);
      var before := FeedOn(c, r, front);
      FeedCounts(c, before, last);
      if before.ended <= r.ended { FadesOn(c, before, last); }
      FadingFrom(c, r.ended, before, Feed(c, before, last), Total(front), |last.samples|);
    }
  }

  /** An open segment closes once chunks below the lowered minimum have lasted as long as the silence asked for. */
  lemma SilenceCloses(c: Config, r: Run, inputs: seq<Input>)
    requires c.Valid() && Inv(c, r) && r.s.speaking && Chunks(inputs) && Total(inputs) >= c.Samples(c.silence)
    requires forall i :: 0 <= i < |inputs| ==> inputs[i].level < c.minRms * c.releaseRatio
    ensures FeedOn(c, r, inputs).ended > r.ended
  {
    SilenceFades(c, r, inputs);
  }

  /**
    Between the two bars an open segment goes on, unless its audio is long enough to be cut,
    and outside one none is opened.
  */
  lemma BetweenTheBars(c: Config, r: Run, samples: seq<real>, level: real)
    requires Inv(c, r) && samples != [] && c.releaseRatio >= 0.0
    requires Lingers(c, r.s.noiseFloor, level) && !Loud(c, r.s.noiseFloor, level)
    ensures var f := Feed(c, r, Chunk(samples, level));
            && f.begun == r.begun
            && (!r.s.speaking ==> !f.s.speaking)
            && (r.s.speaking ==> (f.s.speaking <==> |f.stream| - f.begin < c.Samples(c.maxUtterance)))
  {
    if r.s.speaking {
      GoesOn(c, r, samples, level);
      ClosesExactlyWhen(c, r, samples, level);
    } else {
      OpensExactlyWhen(c, r, samples, level);
    }
  }
}
