/** get_tempo: regenerate a uniform beat grid from the tempo estimate and write it to the timing file. */
module BeatGrid {
  import opened Errors
  import opened AnalysisProfile
  import opened BeatDetector

  /** How many points start, start + step, start + 2 step, ... lie at or before end. */
  function GridCount(start: real, end: real, step: real): nat
    requires step > 0.0
  {
    if start <= end then
      var x := (end - start) / step;
      assert x >= 0.0 by { assert x * step == end - start; }
      x.Floor + 1
    else 0
  }

  /** The i-th grid point lies at or before end exactly when i is below the count. */
  lemma FitsBeforeEnd(start: real, end: real, step: real, i: nat)
    requires step > 0.0
    ensures start + (i as real) * step <= end <==> i < GridCount(start, end, step)
  {
    var y := (i as real) * step;
    assert y >= 0.0;
    if start <= end {
      var x := (end - start) / step;
      assert x * step == end - start;
      if y <= end - start {
        assert (x - i as real) * step >= 0.0;
        assert i as real <= x;
      } else {
        assert (i as real - x) * step > 0.0;
        assert x < i as real;
      }
    }
  }

  /** The i-th point of a grid. */
  function Point(start: real, step: real, i: nat): real
  {
    start + (i as real) * step
  }

  lemma PointNext(start: real, step: real, i: nat)
    ensures Point(start, step, i + 1) == Point(start, step, i) + step
  {
    assert ((i + 1) as real) * step == (i as real) * step + step;
  }

  lemma PointsIncrease(start: real, step: real, i: nat, j: nat)
    requires step > 0.0 && i < j
    ensures Point(start, step, i) < Point(start, step, j)
  {
    var d := (j - i) as real;
    assert d >= 1.0;
    assert d * step >= step by {
      assert d * step - step == (d - 1.0) * step;
      assert (d - 1.0) * step >= 0.0;
    }
    assert (j as real) * step == (i as real) * step + d * step;
  }

  /** The facts about grid points that Grid states about its result. */
  lemma PointsShape(start: real, end: real, step: real)
    requires step > 0.0
    ensures forall i: nat :: i < GridCount(start, end, step) ==> Point(start, step, i) <= end
    ensures forall i: nat :: Point(start, step, i + 1) == Point(start, step, i) + step
    ensures forall i: nat, j: nat :: i < j ==> Point(start, step, i) < Point(start, step, j)
    ensures GridCount(start, end, step) > 0 ==>
              Point(start, step, GridCount(start, end, step) - 1) + step > end
  {
    var n := GridCount(start, end, step);
    forall i: nat | i < n ensures Point(start, step, i) <= end {
      FitsBeforeEnd(start, end, step, i);
    }
    forall i: nat ensures Point(start, step, i + 1) == Point(start, step, i) + step {
      PointNext(start, step, i);
    }
    forall i: nat, j: nat | i < j ensures Point(start, step, i) < Point(start, step, j) {
      PointsIncrease(start, step, i, j);
    }
    if n > 0 {
      FitsBeforeEnd(start, end, step, n);
      PointNext(start, step, n - 1);
    }
  }

  /** The beat grid from start to end with the given spacing. */
  function Grid(start: real, end: real, step: real): (g: seq<real>)
    requires step > 0.0
    // it starts at start when start <= end, and is empty otherwise
    ensures |g| > 0 <==> start <= end
    ensures |g| > 0 ==> g[0] == start
    // constant spacing, hence strictly increasing
    ensures forall i :: 0 <= i < |g| - 1 ==> g[i + 1] == g[i] + step
    ensures Increasing(g)
    // every point is at or before end, and one more step would pass it
    ensures forall i :: 0 <= i < |g| ==> g[i] <= end
    ensures |g| > 0 ==> g[|g| - 1] + step > end
  {
    var n := GridCount(start, end, step);
    assert n > 0 <==> start <= end;
    PointsShape(start, end, step);
    seq(n, i requires 0 <= i < n => Point(start, step, i))
  }

  /** A positive tempo gives a positive spacing. */
  lemma StepPositive(bpm: real)
    requires bpm > 0.0
    ensures 60.0 / bpm > 0.0
  {
    assert (60.0 / bpm) * bpm == 60.0;
  }

  /** The loop of get_tempo: write `timing` and advance it by 60/bpm while it is at or before end.
      With a zero tempo the first advance divides by zero, after one line has been written. */
  method WriteGrid(start: real, end: real, bpm: real) returns (lines: seq<real>, outcome: Outcome)
    requires bpm >= 0.0
    ensures bpm > 0.0 ==> outcome == Returned && lines == Grid(start, end, 60.0 / bpm)
    ensures bpm == 0.0 && start <= end ==> outcome == Raised(ZeroDivisionError) && lines == [start]
    ensures bpm == 0.0 && start > end ==> outcome == Returned && lines == []
  {
    lines := [];
    var timing := start;
    ghost var step := if bpm > 0.0 then 60.0 / bpm else 0.0;
    ghost var n := if bpm > 0.0 then GridCount(start, end, step) else 1;
    ghost var i: nat := 0;
    while timing <= end
      invariant i <= n
      invariant bpm == 0.0 ==> i == 0
      invariant timing == Point(start, step, i)
      invariant bpm > 0.0 ==> lines == Grid(start, end, step)[..i]
      invariant bpm == 0.0 ==> lines == []
      decreases n - i
    {
      if bpm > 0.0 {
        FitsBeforeEnd(start, end, step, i);
        assert Grid(start, end, step)[..i + 1] == lines + [timing];
      }
      lines := lines + [timing];
      if bpm == 0.0 {
        outcome := Raised(ZeroDivisionError);
        return;
      }
      timing := timing + 60.0 / bpm;
      assert ((i + 1) as real) * step == (i as real) * step + step;
      i := i + 1;
    }
    if bpm > 0.0 {
      FitsBeforeEnd(start, end, step, i);
      assert lines == Grid(start, end, step);
    }
    outcome := Returned;
  }

  /** What get_tempo leaves behind: the content of the timing file if it was opened (None if the
      analysis or the open failed first), and whether it returned or raised. */
  datatype TempoRun = TempoRun(written: Option<seq<real>>, outcome: Outcome)

  /** get_tempo(fileDir, txtDir) for the file whose audio source is `source`; canOpen says whether
      opening txtDir for writing succeeds. */
  function Tempo(source: Source, canOpen: bool): (t: TempoRun)
    // a run that returns has written a nonempty grid; one that wrote nothing has raised
    ensures t.outcome == Returned ==> canOpen && t.written.Some? && |t.written.value| > 0
    ensures t.written.None? ==> t.outcome.Raised?
    // the timing file is never written when it cannot be opened
    ensures !canOpen ==> t.written.None?
  {
    match Analysis(NoParams, source)
    case Err(e) => TempoRun(None, Raised(e))
    case Ok(est) =>
      if !canOpen then TempoRun(None, Raised(OSError))
      else if est.bpm > 0.0 then
        StepPositive(est.bpm);
        TempoRun(Some(Grid(est.first, est.last, 60.0 / est.bpm)), Returned)
      else TempoRun(Some([est.first]), Raised(ZeroDivisionError))
  }

  /** What get_tempo's outcome says about the analysis and about the timing file. */
  lemma TempoOutcomes(source: Source, canOpen: bool)
    ensures var t := Tempo(source, canOpen);
            var a := Analysis(NoParams, source);
            // it returns exactly when the analysis succeeds with a positive tempo and the file opens
            && (t.outcome == Returned <==> a.Ok? && a.value.bpm > 0.0 && canOpen)
            // the timing file is written only once the analysis has succeeded
            && (t.written.Some? <==> a.Ok? && canOpen)
            // a completed run wrote the grid from the first to the last beat, which is nonempty
            && (t.outcome == Returned ==>
                  t.written == Some(Grid(a.value.first, a.value.last, 60.0 / a.value.bpm)) && |t.written.value| > 0)
            // a zero tempo writes exactly one line and then raises
            && (a.Ok? && a.value.bpm == 0.0 && canOpen ==>
                  t.written == Some([a.value.first]) && t.outcome == Raised(ZeroDivisionError))
  {
    var a := Analysis(NoParams, source);
    if a.Ok? && a.value.bpm > 0.0 {
      assert a.value.first <= a.value.last;
    }
  }

  /** get_tempo completes only for a file in which the default profile finds at least two beats. */
  lemma CompletedTempoHasTwoBeats(source: Source, canOpen: bool)
    requires Tempo(source, canOpen).outcome == Returned
    ensures source(DefaultProfile).Some? && ValidStream(source(DefaultProfile).value, 512)
    ensures |Beats(source(DefaultProfile).value, 512)| >= 2
  {
    TempoOutcomes(source, canOpen);
    AnalysisWithoutOptions(source);
  }

  /** get_tempo: analyse the file, open the timing file, write the grid. */
  method GetTempo(source: Source, canOpen: bool) returns (t: TempoRun)
    ensures t == Tempo(source, canOpen)
  {
    var r := GetFileBpm(NoParams, source);
    if r.Err? {
      return TempoRun(None, Raised(r.error));
    }
    if !canOpen {
      return TempoRun(None, Raised(OSError));
    }
    var est := r.value;
    var lines, outcome := WriteGrid(est.first, est.last, est.bpm);
    return TempoRun(Some(lines), outcome);
  }
}
