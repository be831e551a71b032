/** The script's main loop: fill every playlist slot with a randomly drawn file whose analysis, beat grid
    and copy succeed, retrying on any exception, then build the playlist manifest. */
module Playlist {
  import opened Errors
  import opened AnalysisProfile
  import opened BeatDetector
  import opened BeatGrid

  /** os.path.join of two POSIX paths: an absolute second part replaces the first; otherwise a
      separator goes between them unless the first is empty or already ends in one. */
  function Join(a: string, b: string): (r: string)
    // at most one separator is added, and nothing of the second part is lost
    ensures |b| <= |r| <= |a| + 1 + |b|
  {
    if |b| > 0 && b[0] == '/' then b
    else if a == [] || a[|a| - 1] == '/' then a + b
    else a + "/" + b
  }

  /** The second part is always the tail of the joined path, and a relative second part keeps the first
      part as a prefix with at most one separator in between. */
  lemma JoinKeepsParts(a: string, b: string)
    ensures var r := Join(a, b);
            r[|r| - |b|..] == b && (!(|b| > 0 && b[0] == '/') ==> |r| >= |a| && r[..|a|] == a)
  {
  }

  /** Where a slot's timing file goes: music/<slot>.txt, unless the slot name is itself absolute. */
  function TxtPath(slot: string): (p: string)
    ensures (slot == [] || slot[0] != '/') ==> p == "music/" + slot + ".txt"
    ensures slot != [] && slot[0] == '/' ==> p == slot + ".txt"
  {
    Join("music", slot + ".txt")
  }

  /** Where a slot's audio copy goes: music/<slot>.ogg, unless the slot name is itself absolute. */
  function OggPath(slot: string): (p: string)
    ensures (slot == [] || slot[0] != '/') ==> p == "music/" + slot + ".ogg"
    ensures slot != [] && slot[0] == '/' ==> p == slot + ".ogg"
  {
    Join("music", slot + ".ogg")
  }

  lemma {:induction false} SuffixCancels(a: string, b: string, c: string)
    requires a + c == b + c
    ensures a == b
  {
    assert |a| == |b|;
    assert a == (a + c)[..|a|];
    assert b == (b + c)[..|b|];
  }

  /** Different slots write different timing files. */
  lemma {:induction false} TxtPathInjective(s: string, t: string)
    requires TxtPath(s) == TxtPath(t)
    ensures s == t
  {
    var x, y := s + ".txt", t + ".txt";
    assert |x| > 0 && |y| > 0;
    if x[0] == '/' && y[0] == '/' {
      SuffixCancels(s, t, ".txt");
    } else if x[0] != '/' && y[0] != '/' {
      assert TxtPath(s) == "music" + "/" + x && TxtPath(t) == "music" + "/" + y;
      assert x == TxtPath(s)[6..] && y == TxtPath(t)[6..];
      SuffixCancels(s, t, ".txt");
    }
  }

  /** Different slots write different audio copies. */
  lemma {:induction false} OggPathInjective(s: string, t: string)
    requires OggPath(s) == OggPath(t)
    ensures s == t
  {
    var x, y := s + ".ogg", t + ".ogg";
    assert |x| > 0 && |y| > 0;
    if x[0] == '/' && y[0] == '/' {
      SuffixCancels(s, t, ".ogg");
    } else if x[0] != '/' && y[0] != '/' {
      assert OggPath(s) == "music" + "/" + x && OggPath(t) == "music" + "/" + y;
      assert x == OggPath(s)[6..] && y == OggPath(t)[6..];
      SuffixCancels(s, t, ".ogg");
    }
  }

  /** The outside world of one run: the audio source of every path, whether the timing file of a path
      can be created (os.makedirs and open), and whether a copy from one path to another succeeds. */
  datatype Env = Env(
    source: string -> Source,
    canOpen: string -> bool,
    canCopy: (string, string) -> bool)

  /** What one attempt on one file for one slot leaves: the content of the slot's timing file if
      get_tempo opened it, and whether get_tempo and copy_file both returned. */
  datatype AttemptRun = AttemptRun(written: Option<seq<real>>, ok: bool)

  /** An attempt for each (fileDir, slot). */
  type Attempts = (string, string) -> AttemptRun

  /** The body of the try block after the draw: get_tempo(fileDir, music/<slot>.txt), then
      copy_file(fileDir, music/<slot>.ogg). */
  function AttemptOf(env: Env, fileDir: string, slot: string): (r: AttemptRun)
    // a successful attempt has written a nonempty timing file, and copied the file
    ensures r.ok ==> r.written.Some? && |r.written.value| > 0 && env.canCopy(fileDir, OggPath(slot))
    // without a timing file nothing is written and the attempt fails
    ensures !env.canOpen(TxtPath(slot)) ==> r.written.None? && !r.ok
  {
    var t := Tempo(env.source(fileDir), env.canOpen(TxtPath(slot)));
    AttemptRun(t.written, t.outcome == Returned && env.canCopy(fileDir, OggPath(slot)))
  }

  function AttemptsOf(env: Env): Attempts
  {
    (fileDir, slot) => AttemptOf(env, fileDir, slot)
  }

  /** A successful attempt was on a file with at least two beats; it wrote that file's beat grid,
      which is nonempty and runs from the first beat at the tempo's spacing; and the copy succeeded. */
  lemma SuccessfulAttempt(env: Env, fileDir: string, slot: string)
    requires AttemptOf(env, fileDir, slot).ok
    ensures var hops := env.source(fileDir)(DefaultProfile);
            hops.Some? && ValidStream(hops.value, 512) && |Beats(hops.value, 512)| >= 2
    ensures var e := Analysis(NoParams, env.source(fileDir));
            e.Ok? && e.value.bpm > 0.0
            && AttemptOf(env, fileDir, slot).written == Some(Grid(e.value.first, e.value.last, 60.0 / e.value.bpm))
            && |AttemptOf(env, fileDir, slot).written.value| > 0
    ensures env.canCopy(fileDir, OggPath(slot))
  {
    TempoOutcomes(env.source(fileDir), env.canOpen(TxtPath(slot)));
    CompletedTempoHasTwoBeats(env.source(fileDir), env.canOpen(TxtPath(slot)));
  }

  /** A file whose tempo estimate is zero (a single beat) never passes the attempt; if the timing file
      could be opened, the one line written before the division by zero is left in it. */
  lemma SingleBeatAttemptFails(env: Env, fileDir: string, slot: string)
    requires Analysis(NoParams, env.source(fileDir)).Ok?
    requires Analysis(NoParams, env.source(fileDir)).value.bpm == 0.0
    ensures !AttemptOf(env, fileDir, slot).ok
    ensures env.canOpen(TxtPath(slot)) ==>
              AttemptOf(env, fileDir, slot).written == Some([Analysis(NoParams, env.source(fileDir)).value.first])
  {
    TempoOutcomes(env.source(fileDir), env.canOpen(TxtPath(slot)));
  }

  /** An attempt that returned has written its timing file. */
  ghost predicate WritesWhenOk(attempt: Attempts)
  {
    forall fileDir, slot :: attempt(fileDir, slot).ok ==> attempt(fileDir, slot).written.Some?
  }

  lemma RealAttemptsWrite(env: Env)
    ensures WritesWhenOk(AttemptsOf(env))
  {
    forall fileDir, slot | AttemptsOf(env)(fileDir, slot).ok
      ensures AttemptsOf(env)(fileDir, slot).written.Some?
    {
      TempoOutcomes(env.source(fileDir), env.canOpen(TxtPath(slot)));
    }
  }

  /** The files the run has written under music/, keyed by slot: the timing file TxtPath(slot) and the
      audio copy OggPath(slot) (the source file it copies). Keying by slot loses nothing, since distinct
      slots have distinct paths (TxtPathInjective, OggPathInjective). */
  datatype Disk = Disk(timing: map<string, seq<real>>, audio: map<string, string>)

  /** The two maps agree outside the given keys. */
  ghost predicate SameExcept<V>(m: map<string, V>, n: map<string, V>, keys: set<string>)
  {
    forall k :: k !in keys ==> (k in m <==> k in n) && (k in m ==> m[k] == n[k])
  }

  /** The paths random.choice draws from: the root joined with each entry of its listing. */
  function Files(root: string, pool: seq<string>): (fs: seq<string>)
    ensures |fs| == |pool|
    ensures forall j :: 0 <= j < |pool| ==> fs[j] == Join(root, pool[j])
  {
    seq(|pool|, j requires 0 <= j < |pool| => Join(root, pool[j]))
  }

  lemma SameExceptChain<V>(m: map<string, V>, n: map<string, V>, o: map<string, V>, k1: set<string>, k2: set<string>, keys: set<string>)
    requires SameExcept(m, n, k1) && SameExcept(n, o, k2)
    requires k1 <= keys && k2 <= keys
    ensures SameExcept(m, o, keys)
  {
  }

  /** The candidate is the root joined with one of the pool's entries. */
  predicate Candidate(root: string, pool: seq<string>, fileDir: string)
  {
    fileDir in Files(root, pool)
  }

  /** After one draw: the file appended (None when the attempt raised) and the files on disk. */
  datatype Draw = Draw(chosen: Option<string>, disk: Disk)

  /** The path random.choice picks with the given draw. */
  function Drawn(root: string, pool: seq<string>, draw: nat): string
    requires |pool| > 0
  {
    Join(root, pool[draw % |pool|])
  }

  /** The draw picks a file whose attempt for the slot succeeds. */
  predicate Hits(attempt: Attempts, root: string, pool: seq<string>, slot: string, draw: nat)
  {
    |pool| > 0 && attempt(Drawn(root, pool, draw), slot).ok
  }

  /** Draw number at is the first of the draws from number from on that hits. */
  predicate FirstHit(attempt: Attempts, root: string, pool: seq<string>, slot: string, draws: seq<nat>, from: nat, at: nat)
  {
    from <= at < |draws| && Hits(attempt, root, pool, slot, draws[at])
    && forall k :: from <= k < at ==> !Hits(attempt, root, pool, slot, draws[k])
  }

  /** None of the draws from number from on hits. */
  predicate NoHit(attempt: Attempts, root: string, pool: seq<string>, slot: string, draws: seq<nat>, from: nat)
  {
    forall k :: from <= k < |draws| ==> !Hits(attempt, root, pool, slot, draws[k])
  }

  lemma DrawnIsCandidate(root: string, pool: seq<string>, draw: nat)
    requires |pool| > 0
    ensures Candidate(root, pool, Drawn(root, pool, draw))
  {
    assert Files(root, pool)[draw % |pool|] == Drawn(root, pool, draw);
  }

  /** One pass of the try block for one slot with one random draw (random.choice picks
      pool[draw % |pool|]). Whatever the outcome, a timing file already written stays on disk. */
  function TryDraw(attempt: Attempts, root: string, pool: seq<string>, slot: string, draw: nat, disk: Disk): (d: Draw)
    // the drawn file is appended exactly when its attempt succeeds
    ensures d.chosen.Some? <==> Hits(attempt, root, pool, slot, draw)
    ensures d.chosen.Some? ==> |pool| > 0 && d.chosen.value == Drawn(root, pool, draw)
  {
    if |pool| == 0 then
      Draw(None, disk)   // random.choice raises IndexError
    else
      var fileDir := Drawn(root, pool, draw);
      var a := attempt(fileDir, slot);
      var disk1 := if a.written.Some? then disk.(timing := disk.timing[slot := a.written.value]) else disk;
      if a.ok then Draw(Some(fileDir), disk1.(audio := disk1.audio[slot := fileDir]))
      else Draw(None, disk1)
  }

  /** What one draw does to the files: only the slot's own two files are touched. The timing file the
      attempt wrote stays even when the attempt then raises; without one the timing files are unchanged
      (an empty pool raises before anything is written). The copy is made only on success. */
  lemma TryDrawFiles(attempt: Attempts, root: string, pool: seq<string>, slot: string, draw: nat, disk: Disk)
    ensures var d := TryDraw(attempt, root, pool, slot, draw, disk);
            SameExcept(d.disk.timing, disk.timing, {slot}) && SameExcept(d.disk.audio, disk.audio, {slot})
    ensures var d := TryDraw(attempt, root, pool, slot, draw, disk);
            |pool| > 0 && attempt(Drawn(root, pool, draw), slot).written.Some? ==>
              slot in d.disk.timing && d.disk.timing[slot] == attempt(Drawn(root, pool, draw), slot).written.value
    ensures var d := TryDraw(attempt, root, pool, slot, draw, disk);
            |pool| == 0 || attempt(Drawn(root, pool, draw), slot).written.None? ==> d.disk.timing == disk.timing
    ensures var d := TryDraw(attempt, root, pool, slot, draw, disk);
            d.chosen.None? ==> d.disk.audio == disk.audio
    ensures var d := TryDraw(attempt, root, pool, slot, draw, disk);
            d.chosen.Some? ==> d.disk.audio == disk.audio[slot := d.chosen.value]
  {
  }

  /** The try block for one draw: random.choice, get_tempo, copy_file; any exception ends the attempt. */
  method TryCandidate(env: Env, root: string, pool: seq<string>, slot: string, draw: nat, disk: Disk)
    returns (d: Draw)
    ensures d == TryDraw(AttemptsOf(env), root, pool, slot, draw, disk)
  {
    if |pool| == 0 {
      return Draw(None, disk);
    }
    var fileDir := Join(root, pool[draw % |pool|]);
    var txt := TxtPath(slot);
    var t := GetTempo(env.source(fileDir), env.canOpen(txt));
    var after := disk;
    if t.written.Some? {
      after := after.(timing := after.timing[slot := t.written.value]);
    }
    if t.outcome.Raised? || !env.canCopy(fileDir, OggPath(slot)) {
      return Draw(None, after);
    }
    after := after.(audio := after.audio[slot := fileDir]);
    return Draw(Some(fileDir), after);
  }

  /** The retry loop of one slot over a finite prefix of the random draws, from draw number next on: the
      file finally appended (None if the draws ran out first), the number of the next unused draw, and
      the files on disk. */
  datatype Fill = Fill(chosen: Option<string>, next: nat, disk: Disk)

  function FillSlot(attempt: Attempts, root: string, pool: seq<string>, slot: string, draws: seq<nat>, next: nat,
                    disk: Disk): (f: Fill)
    requires next <= |draws|
    ensures next <= f.next <= |draws|
    // the loop stops only on a success; otherwise it takes every draw it is given
    ensures f.chosen.None? ==> f.next == |draws|
    ensures f.chosen.Some? ==> f.next > next && Candidate(root, pool, f.chosen.value) && attempt(f.chosen.value, slot).ok
    decreases |draws| - next
  {
    if next == |draws| then
      Fill(None, next, disk)
    else
      var d := TryDraw(attempt, root, pool, slot, draws[next], disk);
      if d.chosen.Some? then
        DrawnIsCandidate(root, pool, draws[next]);
        Fill(d.chosen, next + 1, d.disk)
      else FillSlot(attempt, root, pool, slot, draws, next + 1, d.disk)
  }

  /** A draw that misses does not change which draw is the first hit after it. */
  lemma FirstHitAfterMiss(attempt: Attempts, root: string, pool: seq<string>, slot: string, draws: seq<nat>,
                          from: nat, at: nat)
    requires from < |draws| && !Hits(attempt, root, pool, slot, draws[from])
    requires FirstHit(attempt, root, pool, slot, draws, from + 1, at)
    ensures FirstHit(attempt, root, pool, slot, draws, from, at)
  {
  }

  lemma NoHitAfterMiss(attempt: Attempts, root: string, pool: seq<string>, slot: string, draws: seq<nat>, from: nat)
    requires from < |draws| && !Hits(attempt, root, pool, slot, draws[from])
    requires NoHit(attempt, root, pool, slot, draws, from + 1)
    ensures NoHit(attempt, root, pool, slot, draws, from)
  {
  }

  /** The retry loop of a slot touches only that slot's files, and a success leaves in them the timing file
      of the successful attempt and the copy of its file: later failed attempts of the same slot never
      happen, because the loop stops at the first success. */
  lemma {:induction false} FillSlotFiles(attempt: Attempts, root: string, pool: seq<string>, slot: string,
                                         draws: seq<nat>, next: nat, disk: Disk)
    requires next <= |draws|
    ensures var f := FillSlot(attempt, root, pool, slot, draws, next, disk);
            SameExcept(f.disk.timing, disk.timing, {slot}) && SameExcept(f.disk.audio, disk.audio, {slot})
            && (f.chosen.Some? && attempt(f.chosen.value, slot).written.Some? ==>
                  slot in f.disk.timing && f.disk.timing[slot] == attempt(f.chosen.value, slot).written.value)
            && (f.chosen.Some? ==> slot in f.disk.audio && f.disk.audio[slot] == f.chosen.value)
    decreases |draws| - next
  {
    if next < |draws| {
      var d := TryDraw(attempt, root, pool, slot, draws[next], disk);
      TryDrawFiles(attempt, root, pool, slot, draws[next], disk);
      if d.chosen.None? {
        var f := FillSlot(attempt, root, pool, slot, draws, next + 1, d.disk);
        FillSlotFiles(attempt, root, pool, slot, draws, next + 1, d.disk);
        SameExceptChain(f.disk.timing, d.disk.timing, disk.timing, {slot}, {slot}, {slot});
        SameExceptChain(f.disk.audio, d.disk.audio, disk.audio, {slot}, {slot}, {slot});
      }
    }
  }

  /** The number of the first draw from number from on that hits, if any. */
  function FirstHitFrom(attempt: Attempts, root: string, pool: seq<string>, slot: string, draws: seq<nat>, from: nat)
    : (at: Option<nat>)
    requires from <= |draws|
    ensures at.Some? ==> from <= at.value < |draws| && Hits(attempt, root, pool, slot, draws[at.value])
    decreases |draws| - from
  {
    if from == |draws| then None
    else if Hits(attempt, root, pool, slot, draws[from]) then Some(from)
    else FirstHitFrom(attempt, root, pool, slot, draws, from + 1)
  }

  /** FirstHitFrom finds exactly the first hit, and finds none exactly when no draw hits. */
  lemma {:induction false} FirstHitFromMeans(attempt: Attempts, root: string, pool: seq<string>, slot: string,
                                             draws: seq<nat>, from: nat)
    requires from <= |draws|
    ensures forall at: nat :: FirstHitFrom(attempt, root, pool, slot, draws, from) == Some(at)
                              <==> FirstHit(attempt, root, pool, slot, draws, from, at)
    ensures FirstHitFrom(attempt, root, pool, slot, draws, from).None? <==> NoHit(attempt, root, pool, slot, draws, from)
    decreases |draws| - from
  {
    if from < |draws| && !Hits(attempt, root, pool, slot, draws[from]) {
      FirstHitFromMeans(attempt, root, pool, slot, draws, from + 1);
      forall at: nat ensures FirstHit(attempt, root, pool, slot, draws, from + 1, at)
                             <==> FirstHit(attempt, root, pool, slot, draws, from, at)
      {
        if FirstHit(attempt, root, pool, slot, draws, from + 1, at) {
          FirstHitAfterMiss(attempt, root, pool, slot, draws, from, at);
        }
        if FirstHit(attempt, root, pool, slot, draws, from, at) {
          assert at != from;
        }
      }
      if NoHit(attempt, root, pool, slot, draws, from + 1) {
        NoHitAfterMiss(attempt, root, pool, slot, draws, from);
      }
    } else if from < |draws| {
      assert !NoHit(attempt, root, pool, slot, draws, from);
      forall at: nat | FirstHit(attempt, root, pool, slot, draws, from, at) ensures at == from {
      }
    }
  }

  /** The retry loop of a slot stops right after the first draw that hits, with that draw's file, and
      without a hit it takes every draw. */
  lemma {:induction false} FillSlotIsFirstHit(attempt: Attempts, root: string, pool: seq<string>, slot: string,
                                              draws: seq<nat>, next: nat, disk: Disk)
    requires next <= |draws|
    ensures var f := FillSlot(attempt, root, pool, slot, draws, next, disk);
            match FirstHitFrom(attempt, root, pool, slot, draws, next)
            case None => f.chosen.None?
            case Some(at) => |pool| > 0 && f.chosen == Some(Drawn(root, pool, draws[at])) && f.next == at + 1
    decreases |draws| - next
  {
    if next < |draws| {
      var d := TryDraw(attempt, root, pool, slot, draws[next], disk);
      if d.chosen.None? {
        FillSlotIsFirstHit(attempt, root, pool, slot, draws, next + 1, d.disk);
      }
    }
  }

  /** Hence: the loop ends at the first hit, and the first hit ends it. */
  lemma FillSlotStops(attempt: Attempts, root: string, pool: seq<string>, slot: string, draws: seq<nat>, next: nat,
                      disk: Disk)
    requires next <= |draws|
    ensures var f := FillSlot(attempt, root, pool, slot, draws, next, disk);
            f.chosen.Some? ==> FirstHit(attempt, root, pool, slot, draws, next, f.next - 1)
                               && |pool| > 0 && f.chosen.value == Drawn(root, pool, draws[f.next - 1])
    ensures var f := FillSlot(attempt, root, pool, slot, draws, next, disk);
            f.chosen.None? ==> NoHit(attempt, root, pool, slot, draws, next)
    ensures forall at: nat :: FirstHit(attempt, root, pool, slot, draws, next, at) ==>
              var f := FillSlot(attempt, root, pool, slot, draws, next, disk);
              |pool| > 0 && f.chosen == Some(Drawn(root, pool, draws[at])) && f.next == at + 1
  {
    FillSlotIsFirstHit(attempt, root, pool, slot, draws, next, disk);
    FirstHitFromMeans(attempt, root, pool, slot, draws, next);
  }

  /** A run of the slot loop over a finite prefix of the random draws: whether every slot was filled,
      the accumulated fileNames, the number of the next unused draw, and the files on disk. */
  datatype Run = Run(completed: bool, fileNames: seq<string>, next: nat, disk: Disk)

  function RunSlots(attempt: Attempts, root: string, pool: seq<string>, slots: seq<string>, draws: seq<nat>, next: nat,
                    disk: Disk): (r: Run)
    requires next <= |draws|
    ensures next <= r.next <= |draws|
    // one entry per filled slot; all slots filled exactly when the run completes
    ensures |r.fileNames| <= |slots|
    ensures r.completed <==> |r.fileNames| == |slots|
    // an unfinished run has taken every draw: the loop only stops by succeeding
    ensures !r.completed ==> r.next == |draws|
    decreases |slots|
  {
    if slots == [] then
      Run(true, [], next, disk)
    else
      var f := FillSlot(attempt, root, pool, slots[0], draws, next, disk);
      if f.chosen.None? then
        Run(false, [], f.next, f.disk)
      else
        var rest := RunSlots(attempt, root, pool, slots[1..], draws, f.next, f.disk);
        rest.(fileNames := [f.chosen.value] + rest.fileNames)
  }

  /** Each entry of fileNames is, for the slot at the same position, a pool file whose attempt
      succeeded: nothing is appended after a failed attempt. */
  lemma {:induction false} RunEntriesSucceeded(attempt: Attempts, root: string, pool: seq<string>, slots: seq<string>,
                                               draws: seq<nat>, next: nat, disk: Disk)
    requires next <= |draws|
    ensures var r := RunSlots(attempt, root, pool, slots, draws, next, disk);
            forall i :: 0 <= i < |r.fileNames| ==>
              Candidate(root, pool, r.fileNames[i]) && attempt(r.fileNames[i], slots[i]).ok
    decreases |slots|
  {
    if slots != [] {
      var f := FillSlot(attempt, root, pool, slots[0], draws, next, disk);
      if f.chosen.Some? {
        var rest := RunSlots(attempt, root, pool, slots[1..], draws, f.next, f.disk);
        RunEntriesSucceeded(attempt, root, pool, slots[1..], draws, f.next, f.disk);
        var names := RunSlots(attempt, root, pool, slots, draws, next, disk).fileNames;
        forall i | 0 < i < |names|
          ensures names[i] == rest.fileNames[i - 1] && slots[i] == slots[1..][i - 1]
        {
        }
      }
    }
  }

  /** A run writes no timing file and no audio copy other than its slots' own. */
  lemma {:induction false} RunFrame(attempt: Attempts, root: string, pool: seq<string>, slots: seq<string>,
                                    draws: seq<nat>, next: nat, disk: Disk)
    requires next <= |draws|
    ensures var r := RunSlots(attempt, root, pool, slots, draws, next, disk);
            SameExcept(r.disk.timing, disk.timing, set s | s in slots)
            && SameExcept(r.disk.audio, disk.audio, set s | s in slots)
    decreases |slots|
  {
    if slots != [] {
      var keys := set s | s in slots;
      var f := FillSlot(attempt, root, pool, slots[0], draws, next, disk);
      FillSlotFiles(attempt, root, pool, slots[0], draws, next, disk);
      assert slots[0] in keys;
      if f.chosen.None? {
        SameExceptChain(f.disk.timing, disk.timing, disk.timing, {slots[0]}, {}, keys);
        SameExceptChain(f.disk.audio, disk.audio, disk.audio, {slots[0]}, {}, keys);
      } else {
        var rest := RunSlots(attempt, root, pool, slots[1..], draws, f.next, f.disk);
        RunFrame(attempt, root, pool, slots[1..], draws, f.next, f.disk);
        var restKeys := set s | s in slots[1..];
        assert restKeys <= keys by {
          forall s | s in restKeys ensures s in keys { assert s in slots; }
        }
        SameExceptChain(rest.disk.timing, f.disk.timing, disk.timing, restKeys, {slots[0]}, keys);
        SameExceptChain(rest.disk.audio, f.disk.audio, disk.audio, restKeys, {slots[0]}, keys);
      }
    }
  }

  /** No name occurs twice. */
  predicate Distinct(names: seq<string>)
  {
    names == [] || (names[0] !in names[1..] && Distinct(names[1..]))
  }

  /** With distinct slot names, every filled slot ends with the timing file written by its successful
      attempt and with the copy of its file: no later slot overwrites them. */
  lemma {:induction false} RunFiles(attempt: Attempts, root: string, pool: seq<string>, slots: seq<string>,
                                    draws: seq<nat>, next: nat, disk: Disk)
    requires next <= |draws|
    requires WritesWhenOk(attempt)
    requires Distinct(slots)
    ensures var r := RunSlots(attempt, root, pool, slots, draws, next, disk);
            forall i :: 0 <= i < |r.fileNames| ==>
              attempt(r.fileNames[i], slots[i]).written.Some?
              && slots[i] in r.disk.timing && r.disk.timing[slots[i]] == attempt(r.fileNames[i], slots[i]).written.value
              && slots[i] in r.disk.audio && r.disk.audio[slots[i]] == r.fileNames[i]
    decreases |slots|
  {
    var r := RunSlots(attempt, root, pool, slots, draws, next, disk);
    if slots != [] {
      var f := FillSlot(attempt, root, pool, slots[0], draws, next, disk);
      if f.chosen.Some? {
        var rest := RunSlots(attempt, root, pool, slots[1..], draws, f.next, f.disk);
        FillSlotFiles(attempt, root, pool, slots[0], draws, next, disk);
        RunFiles(attempt, root, pool, slots[1..], draws, f.next, f.disk);
        RunFrame(attempt, root, pool, slots[1..], draws, f.next, f.disk);
        var first := f.chosen.value;
        assert !(slots[0] in (set s | s in slots[1..]));
        assert r.disk == rest.disk && r.fileNames[0] == first;
        assert attempt(first, slots[0]).written.Some?;
        assert r.disk.timing[slots[0]] == f.disk.timing[slots[0]];
        assert r.disk.audio[slots[0]] == f.disk.audio[slots[0]];
        forall i | 0 <= i < |r.fileNames|
          ensures attempt(r.fileNames[i], slots[i]).written.Some?
          ensures slots[i] in r.disk.timing && r.disk.timing[slots[i]] == attempt(r.fileNames[i], slots[i]).written.value
          ensures slots[i] in r.disk.audio && r.disk.audio[slots[i]] == r.fileNames[i]
        {
          if i > 0 {
            assert r.fileNames[i] == rest.fileNames[i - 1] && slots[i] == slots[1..][i - 1];
          }
        }
      }
    }
  }

  /** The file names the slot loop picks from the draws, from draw number from on, and whether every slot
      gets one: each slot takes the file of its first hit after the draws of the slots before it, and
      the first slot without a hit ends the picking. */
  function Picks(attempt: Attempts, root: string, pool: seq<string>, slots: seq<string>, draws: seq<nat>, from: nat)
    : (seq<string>, bool)
    requires from <= |draws|
    decreases |slots|
  {
    if slots == [] then ([], true)
    else
      match FirstHitFrom(attempt, root, pool, slots[0], draws, from)
      case None => ([], false)
      case Some(at) =>
        var rest := Picks(attempt, root, pool, slots[1..], draws, at + 1);
        ([Drawn(root, pool, draws[at])] + rest.0, rest.1)
  }

  /** The slot loop picks what Picks describes. */
  lemma {:induction false} RunSlotsPicks(attempt: Attempts, root: string, pool: seq<string>, slots: seq<string>,
                                         draws: seq<nat>, next: nat, disk: Disk)
    requires next <= |draws|
    ensures var r := RunSlots(attempt, root, pool, slots, draws, next, disk);
            (r.fileNames, r.completed) == Picks(attempt, root, pool, slots, draws, next)
    decreases |slots|
  {
    if slots != [] {
      var f := FillSlot(attempt, root, pool, slots[0], draws, next, disk);
      FillSlotIsFirstHit(attempt, root, pool, slots[0], draws, next, disk);
      if f.chosen.Some? {
        RunSlotsPicks(attempt, root, pool, slots[1..], draws, f.next, f.disk);
      }
    }
  }

  /** With an empty pool random.choice always raises, so no slot is ever filled and the loop takes
      every draw it is given: the script never gets past the first slot. */
  lemma EmptyPoolNeverFinishes(attempt: Attempts, root: string, slots: seq<string>, draws: seq<nat>, disk: Disk)
    requires |slots| > 0
    ensures var r := RunSlots(attempt, root, [], slots, draws, 0, disk);
            !r.completed && r.fileNames == [] && r.next == |draws|
  {
  }

  /** A run after the entries names already appended. */
  function Prepend(names: seq<string>, r: Run): Run
  {
    r.(fileNames := names + r.fileNames)
  }

  /** Slot i of a run, after names: its retry loop, then either the end of the run or the remaining
      slots from the next unused draw on. */
  lemma RunSlotsStep(attempt: Attempts, root: string, pool: seq<string>, slots: seq<string>, i: nat,
                     draws: seq<nat>, next: nat, disk: Disk, names: seq<string>)
    requires i < |slots| && next <= |draws|
    ensures var f := FillSlot(attempt, root, pool, slots[i], draws, next, disk);
            Prepend(names, RunSlots(attempt, root, pool, slots[i..], draws, next, disk))
            == if f.chosen.None? then Run(false, names, f.next, f.disk)
               else Prepend(names + [f.chosen.value], RunSlots(attempt, root, pool, slots[i + 1..], draws, f.next, f.disk))
  {
    var f := FillSlot(attempt, root, pool, slots[i], draws, next, disk);
    assert slots[i..][0] == slots[i] && slots[i..][1..] == slots[i + 1..];
    if f.chosen.None? {
      assert names + [] == names;
    } else {
      var rest := RunSlots(attempt, root, pool, slots[i + 1..], draws, f.next, f.disk);
      assert names + ([f.chosen.value] + rest.fileNames) == (names + [f.chosen.value]) + rest.fileNames;
    }
  }

  /** The while loop of one slot: draw, try, and go on until an attempt succeeds, starting at draw
      number start. When the draws run out first it stops there; the script would go on drawing. */
  method FillFromDraws(attempt: Attempts, root: string, pool: seq<string>, slot: string, draws: seq<nat>, start: nat, disk0: Disk)
    returns (chosen: Option<string>, next: nat, disk: Disk)
    requires start <= |draws|
    ensures Fill(chosen, next, disk) == FillSlot(attempt, root, pool, slot, draws, start, disk0)
  {
    ghost var goal := FillSlot(attempt, root, pool, slot, draws, start, disk0);
    chosen, next, disk := None, start, disk0;
    while chosen.None? && next < |draws|
      invariant start <= next <= |draws|
      invariant chosen.None? ==> FillSlot(attempt, root, pool, slot, draws, next, disk) == goal
      invariant chosen.Some? ==> Fill(chosen, next, disk) == goal
      decreases |draws| - next
    {
      var d := TryDraw(attempt, root, pool, slot, draws[next], disk);
      next := next + 1;
      disk := d.disk;
      chosen := d.chosen;
    }
  }

  /** The for loop of the script over the slots, on a finite prefix of the random draws. */
  method AssignSlots(attempt: Attempts, root: string, pool: seq<string>, slots: seq<string>, draws: seq<nat>, disk0: Disk)
    returns (r: Run)
    ensures r == RunSlots(attempt, root, pool, slots, draws, 0, disk0)
  {
    ghost var goal := RunSlots(attempt, root, pool, slots, draws, 0, disk0);
    var fileNames: seq<string> := [];
    var disk := disk0;
    var next: nat := 0;
    assert slots[0..] == slots;
    for i := 0 to |slots|
      invariant next <= |draws|
      invariant Prepend(fileNames, RunSlots(attempt, root, pool, slots[i..], draws, next, disk)) == goal
    {
      RunSlotsStep(attempt, root, pool, slots, i, draws, next, disk, fileNames);
      var chosen;
      chosen, next, disk := FillFromDraws(attempt, root, pool, slots[i], draws, next, disk);
      if chosen.None? {
        return Run(false, fileNames, next, disk);
      }
      fileNames := fileNames + [chosen.value];
    }
    assert slots[|slots|..] == [] && fileNames + [] == fileNames;
    return Run(true, fileNames, next, disk);
  }

  /** The playlist.json record. */
  datatype Manifest = Manifest(author: string, displayName: string, songFileNames: seq<string>)

  const Author := "Hyun"
  const DisplayName := "나의 플레이리스트"

  /** write_json: the record written to playlist.json, which lists the files in the order given. */
  function WriteJson(fileNames: seq<string>): (m: Manifest)
    ensures m.songFileNames == fileNames
    ensures m.author == Author && m.displayName == DisplayName
  {
    Manifest(Author, DisplayName, fileNames)
  }

  /** The playlist slots, in the order they are filled. */
  const MusicList: seq<string> := [
    "zone1_1", "zone1_2", "zone1_3",
    "zone2_1", "zone2_2", "zone2_3",
    "zone3_1", "zone3_2", "zone3_3",
    "zone4_1", "zone4_2", "zone4_3",
    "zone5_1", "zone5_2", "zone5_3",
    "boss_1", "boss_2", "boss_3", "boss_4", "boss_9",
    "lobby", "training", "tutorial"]

  /** A number that orders the slot names as MusicList lists them: the group (zone, boss, lobby,
      training and tutorial) by its first letter, then the fifth and the last character. It exists only
      to prove the 23 names distinct: comparing every pair of names character by character is 253
      string comparisons at once, too many for the verifier, whereas strictly increasing signatures
      need one number per name and one comparison per neighbouring pair. */
  function Signature(name: string): int
  {
    if |name| < 5 then 0
    else
      var group := if name[0] == 'z' then 0 else if name[0] == 'b' then 1 else if name[0] == 'l' then 2 else 3;
      group * 0x100_0000_0000 + (name[4] as int) * 0x20_0000 + (name[|name| - 1] as int)
  }

  /** Names whose signatures increase along the sequence are distinct. */
  lemma {:induction false} DistinctBySignature(names: seq<string>)
    requires forall i :: 0 <= i < |names| - 1 ==> Signature(names[i]) < Signature(names[i + 1])
    ensures Distinct(names)
    ensures forall k :: 0 < k < |names| ==> Signature(names[0]) < Signature(names[k])
    decreases |names|
  {
    if names != [] {
      var rest := names[1..];
      forall i | 0 <= i < |rest| - 1 ensures Signature(rest[i]) < Signature(rest[i + 1]) {
        assert rest[i] == names[i + 1] && rest[i + 1] == names[i + 2];
      }
      DistinctBySignature(rest);
      forall k | 0 < k < |names| ensures Signature(names[0]) < Signature(names[k]) {
        assert names[k] == rest[k - 1];
        if k > 1 {
          assert rest[0] == names[1];
        }
      }
      forall k | 0 <= k < |rest| ensures rest[k] != names[0] {
        assert rest[k] == names[k + 1];
      }
    }
  }

  /** The slots are distinct, so no slot's files are overwritten by a later slot. */
  lemma MusicListDistinct()
    ensures Distinct(MusicList)
  {
    assert Signature(MusicList[0]) == 102760497;
    assert Signature(MusicList[1]) == 102760498;
    assert Signature(MusicList[2]) == 102760499;
    assert Signature(MusicList[3]) == 104857649;
    assert Signature(MusicList[4]) == 104857650;
    assert Signature(MusicList[5]) == 104857651;
    assert Signature(MusicList[6]) == 106954801;
    assert Signature(MusicList[7]) == 106954802;
    assert Signature(MusicList[8]) == 106954803;
    assert Signature(MusicList[9]) == 109051953;
    assert Signature(MusicList[10]) == 109051954;
    assert Signature(MusicList[11]) == 109051955;
    assert Signature(MusicList[12]) == 111149105;
    assert Signature(MusicList[13]) == 111149106;
    assert Signature(MusicList[14]) == 111149107;
    assert Signature(MusicList[15]) == 1099710857265;
    assert Signature(MusicList[16]) == 1099710857266;
    assert Signature(MusicList[17]) == 1099710857267;
    assert Signature(MusicList[18]) == 1099710857268;
    assert Signature(MusicList[19]) == 1099710857273;
    assert Signature(MusicList[20]) == 2199277011065;
    assert Signature(MusicList[21]) == 3298765570151;
    assert Signature(MusicList[22]) == 3298773958764;
    DistinctBySignature(MusicList);
  }

  /** The script for any attempt that writes its timing file when it succeeds: fill MusicList from the
      files of the root directory (pool), then the manifest. None when the draws run out first. */
  method BuildPlaylist(attempt: Attempts, root: string, pool: seq<string>, draws: seq<nat>, disk0: Disk)
    returns (manifest: Option<Manifest>, disk: Disk)
    requires WritesWhenOk(attempt)
    ensures manifest.Some? ==> manifest.value.author == Author && manifest.value.displayName == DisplayName
    ensures manifest.Some? ==> |manifest.value.songFileNames| == |MusicList|
    ensures manifest.Some? ==> forall i :: 0 <= i < |MusicList| ==>
              Candidate(root, pool, manifest.value.songFileNames[i])
              && attempt(manifest.value.songFileNames[i], MusicList[i]).ok
    ensures manifest.Some? ==> forall i :: 0 <= i < |MusicList| ==>
              var name := manifest.value.songFileNames[i];
              attempt(name, MusicList[i]).written.Some?
              && MusicList[i] in disk.timing && disk.timing[MusicList[i]] == attempt(name, MusicList[i]).written.value
              && MusicList[i] in disk.audio && disk.audio[MusicList[i]] == name
    ensures SameExcept(disk.timing, disk0.timing, set s | s in MusicList)
    ensures SameExcept(disk.audio, disk0.audio, set s | s in MusicList)
    ensures manifest.Some? <==> RunSlots(attempt, root, pool, MusicList, draws, 0, disk0).completed
    ensures disk == RunSlots(attempt, root, pool, MusicList, draws, 0, disk0).disk
    ensures manifest.Some? <==> Picks(attempt, root, pool, MusicList, draws, 0).1
    ensures manifest.Some? ==> manifest.value.songFileNames == Picks(attempt, root, pool, MusicList, draws, 0).0
    ensures |pool| == 0 ==> manifest.None?
  {
    var r := AssignSlots(attempt, root, pool, MusicList, draws, disk0);
    RunEntriesSucceeded(attempt, root, pool, MusicList, draws, 0, disk0);
    RunFrame(attempt, root, pool, MusicList, draws, 0, disk0);
    RunSlotsPicks(attempt, root, pool, MusicList, draws, 0, disk0);
    disk := r.disk;
    if !r.completed {
      return None, disk;
    }
    MusicListDistinct();
    RunFiles(attempt, root, pool, MusicList, draws, 0, disk0);
    manifest := Some(WriteJson(r.fileNames));
  }

  /** The script: fill MusicList from the files of the root directory (pool), then the manifest. None
      when the draws run out first, which the script would not survive: it never writes playlist.json. */
  method MakePlaylist(env: Env, root: string, pool: seq<string>, draws: seq<nat>, disk0: Disk)
    returns (manifest: Option<Manifest>, disk: Disk)
    ensures manifest.Some? ==> manifest.value.author == Author && manifest.value.displayName == DisplayName
    // one entry per slot, in slot order, each a pool file whose attempt for that slot succeeded
    ensures manifest.Some? ==> |manifest.value.songFileNames| == |MusicList|
    ensures manifest.Some? ==> forall i :: 0 <= i < |MusicList| ==>
              Candidate(root, pool, manifest.value.songFileNames[i])
              && AttemptOf(env, manifest.value.songFileNames[i], MusicList[i]).ok
    // every slot ends with the timing file its successful attempt wrote (the beat grid of its file,
    // by SuccessfulAttempt) and a copy of that file
    ensures manifest.Some? ==> forall i :: 0 <= i < |MusicList| ==>
              var name := manifest.value.songFileNames[i];
              AttemptOf(env, name, MusicList[i]).written.Some?
              && MusicList[i] in disk.timing && disk.timing[MusicList[i]] == AttemptOf(env, name, MusicList[i]).written.value
              && MusicList[i] in disk.audio && disk.audio[MusicList[i]] == name
    // files other than the slots' own are left as they were
    ensures SameExcept(disk.timing, disk0.timing, set s | s in MusicList)
    ensures SameExcept(disk.audio, disk0.audio, set s | s in MusicList)
    // the manifest is written exactly when the slot loop completes, and the files are what it left
    ensures manifest.Some? <==> RunSlots(AttemptsOf(env), root, pool, MusicList, draws, 0, disk0).completed
    ensures disk == RunSlots(AttemptsOf(env), root, pool, MusicList, draws, 0, disk0).disk
    // the slots take the draws in turn, each stopping at its first hit, and the manifest is written
    // exactly when every slot found one
    ensures manifest.Some? <==> Picks(AttemptsOf(env), root, pool, MusicList, draws, 0).1
    ensures manifest.Some? ==> manifest.value.songFileNames == Picks(AttemptsOf(env), root, pool, MusicList, draws, 0).0
    // an empty pool means no manifest at all
    ensures |pool| == 0 ==> manifest.None?
  {
    RealAttemptsWrite(env);
    manifest, disk := BuildPlaylist(AttemptsOf(env), root, pool, draws, disk0);
  }
}
