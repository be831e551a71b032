/** get_file_bpm: the hop loop over the audio source, beats_to_bpm, and the (bpm, first, last) result. */
module BeatDetector {
  import opened Errors
  import opened AnalysisProfile
  import opened Stats

  /** What one call of the audio source and the tempo tracker reports: whether the hop held a beat,
      the time in seconds of the last beat the tracker saw, and the number of frames read. */
  datatype Hop = Hop(isBeat: bool, lastS: real, read: nat)

  /** The stream has a hop shorter than the hop size: the end of the audio. */
  predicate HasShortHop(hops: seq<Hop>, hopS: int)
  {
    exists k :: 0 <= k < |hops| && hops[k].read < hopS
  }

  /** The tracker's beat times grow: a later beat hop reports a later time. */
  predicate BeatsIncrease(hops: seq<Hop>)
  {
    forall i, j :: 0 <= i < j < |hops| && hops[i].isBeat && hops[j].isBeat ==> hops[i].lastS < hops[j].lastS
  }

  /** What the model assumes of the audio source and tempo tracker for a file opened with hop size hopS. */
  predicate ValidStream(hops: seq<Hop>, hopS: int)
  {
    HasShortHop(hops, hopS) && BeatsIncrease(hops)
  }

  ghost predicate DetectorContract(source: Profile -> Option<seq<Hop>>)
  {
    forall p :: source(p).Some? ==> ValidStream(source(p).value, p.hopS)
  }

  /** `source(path, samplerate, hop_s)` for one file: the hops it yields for a profile, or None when the
      file cannot be opened. */
  type Source = s: Profile -> Option<seq<Hop>> | DetectorContract(s) witness (p: Profile) => None

  predicate Increasing(xs: seq<real>)
  {
    forall i, j :: 0 <= i < j < |xs| ==> xs[i] < xs[j]
  }

  /** The position of the first short hop: the hop after which the loop breaks. */
  function FirstShort(hops: seq<Hop>, hopS: int): (k: nat)
    requires HasShortHop(hops, hopS)
    ensures k < |hops| && hops[k].read < hopS
    ensures forall j :: 0 <= j < k ==> hops[j].read >= hopS
  {
    if hops[0].read < hopS then 0
    else
      assert HasShortHop(hops[1..], hopS) by {
        var k :| 0 <= k < |hops| && hops[k].read < hopS;
        assert k >= 1 && hops[1..][k - 1] == hops[k];
      }
      1 + FirstShort(hops[1..], hopS)
  }

  /** The hops the loop processes: all of them up to and including the first short one. */
  function Consumed(hops: seq<Hop>, hopS: int): seq<Hop>
    requires HasShortHop(hops, hopS)
  {
    hops[..FirstShort(hops, hopS) + 1]
  }

  /** The beat times reported by the beat hops of s, in order. */
  function BeatTimes(s: seq<Hop>): seq<real>
  {
    if s == [] then []
    else BeatTimes(s[..|s| - 1]) + (if s[|s| - 1].isBeat then [s[|s| - 1].lastS] else [])
  }

  /** The frames read over the hops of s. */
  function FramesRead(s: seq<Hop>): int
  {
    if s == [] then 0 else FramesRead(s[..|s| - 1]) + s[|s| - 1].read
  }

  /** The positions of the beat hops of s. They pick out BeatTimes(s) element by element, in increasing
      order, and every beat hop is among them: BeatTimes(s) is exactly the in-order subsequence of the
      beat hops' times. */
  function BeatPositions(s: seq<Hop>): (p: seq<nat>)
    ensures |p| == |BeatTimes(s)|
    ensures forall j :: 0 <= j < |p| ==> p[j] < |s| && s[p[j]].isBeat && BeatTimes(s)[j] == s[p[j]].lastS
    ensures forall j, l :: 0 <= j < l < |p| ==> p[j] < p[l]
    ensures forall k :: 0 <= k < |s| && s[k].isBeat ==> k in p
  {
    if s == [] then []
    else
      var n := |s| - 1;
      var q := BeatPositions(s[..n]);
      assert forall k :: 0 <= k < n ==> s[..n][k] == s[k];
      if s[n].isBeat then q + [n] else q
  }

  /** The beats of an increasing stream are increasing. */
  lemma BeatTimesIncrease(s: seq<Hop>)
    ensures BeatsIncrease(s) ==> Increasing(BeatTimes(s))
  {
    if BeatsIncrease(s) {
      var p := BeatPositions(s);
      var b := BeatTimes(s);
      forall i, j | 0 <= i < j < |b| ensures b[i] < b[j] {
        assert p[i] < p[j];
      }
    }
  }

  /** The beats list get_file_bpm collects from a stream. */
  function Beats(hops: seq<Hop>, hopS: int): (beats: seq<real>)
    requires HasShortHop(hops, hopS)
    ensures BeatsIncrease(hops) ==> Increasing(beats) && NoRepeatedBeat(beats)
  {
    BeatsIncreaseOnPrefix(hops, FirstShort(hops, hopS) + 1);
    BeatTimesIncrease(Consumed(hops, hopS));
    BeatTimes(Consumed(hops, hopS))
  }

  /** The hop loop: append the beat time of every beat hop and add up the frames read, stopping after
      the first hop that read fewer than hopS frames (which is still processed). */
  method CollectBeats(hops: seq<Hop>, hopS: int) returns (beats: seq<real>, totalFrames: int)
    requires HasShortHop(hops, hopS)
    ensures beats == BeatTimes(Consumed(hops, hopS))
    ensures totalFrames == FramesRead(Consumed(hops, hopS))
  {
    beats := [];
    totalFrames := 0;
    var i := 0;
    while true
      invariant i < |hops|
      invariant forall k :: 0 <= k < i ==> hops[k].read >= hopS
      invariant beats == BeatTimes(hops[..i])
      invariant totalFrames == FramesRead(hops[..i])
      decreases |hops| - i
    {
      var hop := hops[i];
      assert hops[..i + 1][..i] == hops[..i];
      if hop.isBeat {
        beats := beats + [hop.lastS];
      }
      totalFrames := totalFrames + hop.read;
      if hop.read < hopS {
        assert i == FirstShort(hops, hopS);
        return;
      }
      i := i + 1;
      assert i < |hops| by {
        var k :| 0 <= k < |hops| && hops[k].read < hopS;
        assert k >= i;
      }
    }
  }

  /** No two successive beats at the same time: 60/diff(beats) divides by no zero. */
  predicate NoRepeatedBeat(beats: seq<real>)
  {
    forall i :: 0 <= i < |beats| - 1 ==> beats[i] != beats[i + 1]
  }

  /** The instantaneous tempi 60/diff(beats), in beats per minute. */
  function Tempi(beats: seq<real>): (t: seq<real>)
    requires NoRepeatedBeat(beats)
    ensures |t| == |Diff(beats)|
    ensures forall i :: 0 <= i < |t| ==> t[i] == 60.0 / (beats[i + 1] - beats[i])
  {
    var d := Diff(beats);
    forall i | 0 <= i < |d| ensures d[i] != 0.0 {
      assert d[i] == beats[i + 1] - beats[i] && beats[i] != beats[i + 1];
    }
    seq(|d|, i requires 0 <= i < |d| => 60.0 / d[i])
  }

  /** beats_to_bpm: the median of the instantaneous tempi with at least two beats, else 0. */
  function BeatsToBpm(beats: seq<real>): (bpm: real)
    requires NoRepeatedBeat(beats)
    ensures |beats| < 2 ==> bpm == 0.0
    ensures |beats| >= 2 ==> bpm == Median(Tempi(beats))
    // the median is one of the tempi or lies between two of them
    ensures |beats| >= 2 ==> exists i :: 0 <= i < |Tempi(beats)| && Tempi(beats)[i] <= bpm
    ensures |beats| >= 2 ==> exists j :: 0 <= j < |Tempi(beats)| && bpm <= Tempi(beats)[j]
    ensures |beats| >= 2 && Increasing(beats) ==> bpm > 0.0
  {
    if |beats| > 1 then
      TempoOfIncreasingBeats(beats);
      Median(Tempi(beats))
    else
      0.0
  }

  lemma TempoOfIncreasingBeats(beats: seq<real>)
    requires NoRepeatedBeat(beats) && |beats| >= 2
    ensures Increasing(beats) ==> Median(Tempi(beats)) > 0.0
  {
    var t := Tempi(beats);
    if Increasing(beats) {
      forall i | 0 <= i < |t| ensures t[i] > 0.0 {
        assert beats[i] < beats[i + 1];
      }
      MedianOfPositive(t);
    }
  }

  /** A beat train with a constant period d has tempo 60/d, whatever its length. */
  lemma {:induction false} UniformBeats(beats: seq<real>, t0: real, d: real)
    requires d > 0.0 && |beats| >= 2
    requires forall i :: 0 <= i < |beats| ==> beats[i] == t0 + (i as real) * d
    ensures NoRepeatedBeat(beats)
    ensures BeatsToBpm(beats) == 60.0 / d
  {
    forall i | 0 <= i < |beats| - 1 ensures beats[i + 1] - beats[i] == d {
      assert ((i + 1) as real) * d == (i as real) * d + d;
    }
    var t := Tempi(beats);
    forall i | 0 <= i < |t| ensures t[i] == 60.0 / d {
      assert beats[i + 1] - beats[i] == d;
    }
    MedianOfConstant(t, 60.0 / d);
  }

  /** Four beats half a second apart give 120 beats per minute. */
  lemma HalfSecondBeats()
    ensures NoRepeatedBeat([0.0, 0.5, 1.0, 1.5])
    ensures BeatsToBpm([0.0, 0.5, 1.0, 1.5]) == 120.0
  {
    var beats := [0.0, 0.5, 1.0, 1.5];
    forall i | 0 <= i < 4 ensures beats[i] == 0.0 + (i as real) * 0.5 {
      if i == 0 {} else if i == 1 {} else if i == 2 {} else {}
    }
    UniformBeats(beats, 0.0, 0.5);
  }

  /** get_file_bpm's result: the tempo estimate and the first and last beat times. */
  datatype Estimate = Estimate(bpm: real, first: real, last: real)

  /** What get_file_bpm returns or raises for one file. */
  function Analysis(params: Params, source: Source): (r: Result<Estimate>)
    ensures Resolve(params).Err? ==> r == Err(Resolve(params).error)
    ensures Resolve(params).Ok? && source(Resolve(params).value).None? ==> r == Err(RuntimeError)
    ensures r.Err? && Resolve(params).Ok? && source(Resolve(params).value).Some? ==> r == Err(IndexError)
    // otherwise the result is read off the beats of the stream: an error without beats, else the tempo
    // of the beats with the first and the last of them
    ensures Resolve(params).Ok? && source(Resolve(params).value).Some? ==>
              var beats := Beats(source(Resolve(params).value).value, Resolve(params).value.hopS);
              NoRepeatedBeat(beats)
              && (beats == [] ==> r == Err(IndexError))
              && (beats != [] ==> r == Ok(Estimate(BeatsToBpm(beats), beats[0], beats[|beats| - 1])))
    ensures r.Ok? ==> r.value.first <= r.value.last && r.value.bpm >= 0.0
    // a zero tempo flags a single beat; two or more beats give a positive tempo
    ensures r.Ok? ==> (r.value.bpm == 0.0 <==> r.value.first == r.value.last)
  {
    match Resolve(params)
    case Err(e) => Err(e)
    case Ok(p) =>
      match source(p)
      case None => Err(RuntimeError)
      case Some(hops) =>
        var beats := Beats(hops, p.hopS);
        if beats == [] then Err(IndexError)
        else
          Ok(Estimate(BeatsToBpm(beats), beats[0], beats[|beats| - 1]))
  }

  /** get_file_bpm without options analyses the stream opened with the default profile. */
  lemma AnalysisWithoutOptions(source: Source)
    ensures Analysis(NoParams, source).Ok? ==>
              source(DefaultProfile).Some? && ValidStream(source(DefaultProfile).value, 512)
              && Beats(source(DefaultProfile).value, 512) != []
              && Analysis(NoParams, source).value.bpm == BeatsToBpm(Beats(source(DefaultProfile).value, 512))
  {
    NoOptionsGiveDefault();
  }

  lemma BeatsIncreaseOnPrefix(hops: seq<Hop>, n: nat)
    requires n <= |hops|
    ensures BeatsIncrease(hops) ==> BeatsIncrease(hops[..n])
  {
  }

  /** get_file_bpm(path, params): resolve the profile, open the source, collect the beats, and return the
      tempo with the first and last beat. No beat at all raises IndexError. */
  method GetFileBpm(params: Params, source: Source) returns (r: Result<Estimate>)
    ensures r == Analysis(params, source)
  {
    var profile := Resolve(params);
    if profile.Err? {
      return Err(profile.error);
    }
    var p := profile.value;
    var stream := source(p);
    if stream.None? {
      return Err(RuntimeError);
    }
    var beats, totalFrames := CollectBeats(stream.value, p.hopS);
    assert beats == Beats(stream.value, p.hopS);
    var bpm := BeatsToBpm(beats);
    if |beats| == 0 {
      return Err(IndexError);
    }
    return Ok(Estimate(bpm, beats[0], beats[|beats| - 1]));
  }
}
