# NecroDancerPlaylistMaker: a Dafny model of `main.py`

NecroDancerPlaylistMaker builds a custom soundtrack for Crypt of the NecroDancer. Each playlist slot
(`zone1_1` … `tutorial`) gets these things:

- a randomly drawn audio file from a directory;
- a timing file `music/<slot>.txt` holding a regular beat grid, computed from that file's tempo estimate;
- a copy of the audio as `music/<slot>.ogg`.

The script then writes `playlist.json`, which lists the chosen files in slot order.

This project models that script and proves properties about it. The modules follow the script's
structure:

- `Errors` (`errors.dfy`): `Option`, `Result` and `Outcome`, plus the Python exceptions the script can
  raise: `ValueError`, `RuntimeError`, `IndexError`, `ZeroDivisionError` and `OSError`.
- `AnalysisProfile` (`profile.dfy`): how `get_file_bpm` picks its parameters.
  - A mode chooses one of three triples: default (44100, 1024, 512), fast (8000, 512, 128) or
    super-fast (4000, 128, 64).
  - An explicit sample rate, window size or hop size then overrides its own component.
  - An unknown mode raises `ValueError`.
- `Stats` (`stats.dfy`): numpy's `diff` and `median` over real numbers. The median sorts the values by
  insertion and averages the two middle ones when there is an even number of them.
- `BeatDetector` (`beats.dfy`): the beat-detection part of `get_file_bpm`.
  - The hop loop (`CollectBeats`) appends the beat time of every beat hop and adds up the frames read.
    It stops after the first short hop, which it still processes.
  - `beats_to_bpm` returns the median of `60/diff(beats)`, or 0 with fewer than two beats.
  - The function returns (bpm, first beat, last beat). With no beat at all it raises `IndexError`.
- `BeatGrid` (`grid.dfy`): `get_tempo`. It advances `timing` from the first beat by `60/bpm` while
  `timing` is at or before the last beat, writing each value.
  - With a zero tempo (a single beat) it writes one line, then raises `ZeroDivisionError`. The 0 that
    `beats_to_bpm` returns is a Python integer, so `60/bpm` raises.
- `Playlist` (`playlist.dfy`): `os.path.join`, the retry loop of each slot, the loop over the slots,
  `write_json`, and the whole script (`MakePlaylist`).

How the model stands in for the outside world:

- **The audio library.** Opening and analysing one file is a `Source`: a function from a profile to
  the sequence of hops the tracker reports, or `None` when the file cannot be opened. Each hop says
  whether it held a beat, the last beat time, and the frames read.
  - `Source` is the type of streams that end with a short hop and whose beat times increase. This is
    the model's assumption about the detector.
- **The file system.** A `Disk` holds the timing files and audio copies written so far, keyed by slot.
  Keying by slot loses nothing, because distinct slots have distinct paths (`TxtPathInjective`,
  `OggPathInjective`).
  - An `Env` says, for every path, which `Source` it opens, whether its timing file can be created,
    and whether a copy succeeds.
- **`random.choice`.** It becomes a finite sequence of draws; draw `d` picks `pool[d % |pool|]`. When
  the draws run out before every slot is filled, the modelled run reports that it did not complete.
  The script itself would go on drawing forever.

The model follows the code, not a cleaned-up design. These consequences are stated as lemmas:

- An empty directory makes every draw raise, so the script never finishes (`EmptyPoolNeverFinishes`).
- A failed attempt leaves behind the timing file it already wrote. A file with a single beat writes one
  line and then fails (`SingleBeatAttemptFails`), and the line stays on disk (`TryDrawFiles`).
- The retry loop of a slot stops at the first draw whose attempt succeeds, taking that draw's file
  (`FillSlotStops`). A slot left unfilled had no successful draw among all those it took. The files a filled
  slot ends with are therefore those of its successful attempt (`FillSlotFiles`).
- `playlist.json` is written exactly when the loop over the slots completes. Its entries are the files
  that the first successful draws of the slots pick, in turn (`RunSlotsPicks`, `MakePlaylist`).

## Model

| member | source | states |
|---|---|---|
| AnalysisProfile.ModeProfile | main.py:20-32 | a mode fails exactly when it is present and is none of "super-fast", "fast" and "default" |
| AnalysisProfile.Resolve | main.py:18-39 | the full table: no mode or "default" give (44100, 1024, 512), "fast" gives (8000, 512, 128), "super-fast" gives (4000, 128, 64), each overridden by an explicit field. Any other mode raises ValueError("unknown mode …") whatever the overrides say. An explicit field always wins |
| AnalysisProfile.NoOptionsGiveDefault | main.py:18-21 | `params=None` resolves to (44100, 1024, 512) |
| AnalysisProfile.SamplerateOverrideIsLocal | main.py:34-35 | changing only the sample-rate option changes neither success nor the window and hop sizes |
| AnalysisProfile.WinSizeOverrideIsLocal | main.py:36-37 | changing only the window-size option changes neither success nor the sample rate and hop size |
| AnalysisProfile.HopSizeOverrideIsLocal | main.py:38-39 | changing only the hop-size option changes neither success nor the sample rate and window size |
| Stats.Diff | main.py:66 | one fewer element than the input (none for an empty input), and element i is xs[i+1] - xs[i] |
| Stats.Insert | main.py:67 | inserting into a sorted sequence gives a sorted sequence holding the old elements plus x |
| Stats.Sort | main.py:67 | the result is sorted and a permutation of the input |
| Stats.Median | main.py:67 | the median of a nonempty sequence lies between two of its elements |
| Stats.SortedUnique | main.py:67 | two sorted sequences with the same elements are equal, so the median does not depend on how it is sorted |
| Stats.SortOfSorted | main.py:67 | sorting a sorted sequence leaves it unchanged |
| Stats.MedianOfSorted | main.py:67 | on a sorted sequence the median is the middle element, or the average of the two middle ones |
| Stats.MedianOfPermutation | main.py:67 | reordering the values does not change the median |
| Stats.MedianOfConstant | main.py:67 | the median of copies of c is c |
| Stats.MedianOfPositive | main.py:67 | the median of positive values is positive |
| BeatDetector.FirstShort | main.py:49-59 | the first hop that read fewer than hop_s frames: every earlier hop read a full hop |
| BeatDetector.BeatPositions | main.py:51-54 | the beats are exactly the times of the beat hops, in order: one position per beat, increasing, each a beat hop, and every beat hop among them |
| BeatDetector.BeatTimesIncrease | main.py:51-54 | beat hops with increasing times give increasing beats |
| BeatDetector.Beats | main.py:45-59 | the beats of a well-behaved stream increase, so no two successive beats coincide |
| BeatDetector.CollectBeats | main.py:45-59 | the loop's beats are the beat times of the hops up to and including the first short hop, and total_frames is the frames read over those same hops |
| BeatDetector.Tempi | main.py:66 | one tempo per gap between successive beats, 60 / (beats[i+1] - beats[i]) |
| BeatDetector.BeatsToBpm | main.py:61-70 | 0 with fewer than two beats. Otherwise the result lies between two of the tempi `60/diff(beats)`, and it is positive when the beats increase |
| BeatDetector.TempoOfIncreasingBeats | main.py:63-67 | increasing beats give a positive median tempo |
| BeatDetector.UniformBeats | main.py:61-67 | beats a constant d apart have tempo exactly 60/d, whatever their number |
| BeatDetector.HalfSecondBeats | main.py:61-67 | [0, 0.5, 1, 1.5] has tempo 120 |
| BeatDetector.Analysis | main.py:13-72 | an unknown mode gives its ValueError, an unopenable file RuntimeError, and no beat IndexError. A result has first <= last and bpm >= 0, with bpm == 0 exactly when first == last (a single beat) |
| BeatDetector.AnalysisWithoutOptions | main.py:18-21 | without options the analysis reads the stream of the default profile, with hop size 512, and its tempo is that stream's beats_to_bpm |
| BeatDetector.GetFileBpm | main.py:13-72 | the imperative get_file_bpm computes Analysis |
| BeatGrid.FitsBeforeEnd | main.py:80 | point i of the grid is at or before end exactly when i is below GridCount |
| BeatGrid.Grid | main.py:79-82 | the grid is nonempty exactly when start <= end. It begins at start, has constant spacing (so it strictly increases), ends at or before end, and one more step would pass end |
| BeatGrid.WriteGrid | main.py:79-82 | a positive tempo writes Grid(start, end, 60/bpm) and returns. A zero tempo with start <= end writes [start] and raises ZeroDivisionError; with start > end it writes nothing and returns |
| BeatGrid.Tempo | main.py:75-82 | get_tempo returns only after opening the timing file and writing a nonempty grid; a run that wrote nothing has raised, and nothing is written when the file cannot be opened |
| BeatGrid.TempoOutcomes | main.py:75-82 | get_tempo returns exactly when the analysis gives a positive tempo and the timing file opens. The file is written exactly when the analysis succeeded and the file opened. A completed run wrote the nonempty grid from the first to the last beat; a zero tempo leaves one line and raises |
| BeatGrid.CompletedTempoHasTwoBeats | main.py:75-82 | get_tempo completes only for a file in which the default profile finds at least two beats |
| BeatGrid.GetTempo | main.py:75-82 | the imperative get_tempo computes Tempo |
| Playlist.Join | main.py:139 | os.path.join adds at most one separator and drops nothing of its second part: the result is at least as long as the second part and at most one character longer than both parts together |
| Playlist.JoinKeepsParts | main.py:139 | os.path.join keeps its second part as a suffix. With a relative second part it keeps the first part as a prefix |
| Playlist.TxtPath | main.py:140-142 | the timing file of slot s is music/s.txt (s.txt itself for an absolute s) |
| Playlist.OggPath | main.py:143 | the audio copy of slot s is music/s.ogg (s.ogg itself for an absolute s) |
| Playlist.TxtPathInjective | main.py:140-142 | different slots have different timing-file paths |
| Playlist.OggPathInjective | main.py:143 | different slots have different audio-copy paths |
| Playlist.AttemptOf | main.py:140-144 | a successful attempt wrote a nonempty timing file and its copy succeeded; when the timing file cannot be opened nothing is written and the attempt fails |
| Playlist.SuccessfulAttempt | main.py:142-144 | an attempt that passes get_tempo and copy_file was on a file with at least two beats and a positive tempo. It wrote that file's nonempty beat grid, and its copy succeeded |
| Playlist.SingleBeatAttemptFails | main.py:142-147 | a file with a single beat never passes the attempt; if its timing file opened, the attempt wrote exactly one line, the first beat |
| Playlist.RealAttemptsWrite | main.py:142-144 | every successful attempt has written its timing file |
| Playlist.Files | main.py:139 | the candidate paths are the root joined with each directory entry, one per entry, in order |
| Playlist.DrawnIsCandidate | main.py:139 | the path a draw picks is the root joined with one of the directory entries |
| Playlist.TryDraw | main.py:138-147 | the drawn file is appended exactly when the pool is nonempty and the attempt on its entry `draw % len` succeeds, and what is appended is that drawn path |
| Playlist.TryDrawFiles | main.py:138-147 | one draw touches only its slot's two files. The timing file the attempt wrote stays whether or not the attempt then raises. Without one, in particular with an empty pool, the timing files are unchanged. The audio copies change only on success, to the drawn file |
| Playlist.TryCandidate | main.py:138-147 | the imperative try block computes TryDraw for the real get_tempo and copy_file |
| Playlist.FillSlot | main.py:136-147 | the retry loop stops only on a success, having taken at least one draw, and the file it appends is a directory entry whose attempt succeeded. If it stops without a success it has taken every draw |
| Playlist.FirstHitFrom | main.py:136-147 | a draw it finds is among the draws from the given one on, and the attempt on its file succeeds |
| Playlist.FirstHitFromMeans | main.py:136-147 | FirstHitFrom gives exactly the first successful draw, and nothing exactly when no draw succeeds |
| Playlist.FillSlotIsFirstHit | main.py:136-147 | the retry loop ends right after the first successful draw, appending that draw's file; with no successful draw it appends nothing |
| Playlist.FillSlotStops | main.py:136-147 | a filled slot took the file of the first successful draw among those the loop took. An unfilled slot had no successful draw among all its draws. A first success always ends the loop, with its file, right after that draw |
| Playlist.FillSlotFiles | main.py:136-147 | a slot's retry loop only touches that slot's files, and on success leaves in them the timing file and the copy of the successful attempt |
| Playlist.FillFromDraws | main.py:136-147 | the imperative while loop computes FillSlot |
| Playlist.RunSlots | main.py:134-147 | at most one entry per slot, and one per slot exactly when the run completes. An incomplete run has taken every draw |
| Playlist.RunSlotsPicks | main.py:134-147 | the names the slot loop appends, and whether it completes, are those of Picks: each slot takes the file of its first successful draw after the draws of the slots before it, and the first slot without one ends the run incomplete |
| Playlist.RunEntriesSucceeded | main.py:134-147 | entry i of fileNames is a directory entry of the root whose attempt for slot i succeeded |
| Playlist.RunFrame | main.py:134-147 | the run writes no timing file or audio copy other than those of its own slots |
| Playlist.RunFiles | main.py:134-147 | with distinct slots, every filled slot ends with the timing file of its successful attempt and a copy of its entry; no later slot overwrites them |
| Playlist.EmptyPoolNeverFinishes | main.py:137-147 | with an empty directory no slot is ever filled and the loop takes every draw it is given |
| Playlist.AssignSlots | main.py:134-147 | the imperative for loop over the slots computes RunSlots |
| Playlist.WriteJson | main.py:94-99 | the manifest lists the file names unchanged, with author "Hyun" and display name "나의 플레이리스트" |
| Playlist.MusicListDistinct | main.py:109-132 | the 23 slot names are distinct |
| Playlist.BuildPlaylist | main.py:105-149 | the script for any attempt that writes its timing file whenever it succeeds, with the same promises as MakePlaylist |
| Playlist.MakePlaylist | main.py:105-149 | a manifest is written exactly when the slot loop completes, and the files are those the loop left. Its entries are the files Picks gives: each slot's first successful draw, in slot order. It has the fixed author and display name and one entry per slot. Each entry is a directory entry whose attempt for its slot succeeded, and each slot ends with that attempt's timing file and a copy of the entry. No other file changes. An empty directory never yields a manifest |

## Left out

- The aubio `source` and `tempo` objects (main.py:41-43, 50-53) are a foreign library. A `Source` gives the hop records they would report. That the stream ends with a short hop and that beat times increase is assumed in the type `Source`, not derived.
- `s.samplerate` replacing the requested sample rate (main.py:42) happens inside aubio and is not part of this model. The tracker's results depend only on the profile handed to the `Source`.
- numpy is not modelled as a library. `Diff` and `Median` are numpy's definitions over `real`.
- Floating-point rounding in `timing += 60/bpm`, and the `inf` that `60./0.` gives in numpy, are out: timestamps and tempi are exact reals.
- BeatsToBpm: requires that no two successive beats coincide, because numpy would divide by zero there. Beats proves this for every stream a `Source` can give.
- The external effects are not modelled, only their results: file creation and writing, `os.makedirs`, `shutil.copy`, `json.dump`, `sys.argv` and the `print` messages. A slot's timing file is kept as the sequence of values written; whether a path can be created or copied is a parameter of `Env`.
- `get_dir_list` (main.py:89-91) lists the directory, which is I/O. Its result is the parameter `pool` of `MakePlaylist`.
- MakePlaylist: the unbounded retry with `random.choice` is modelled over a finite sequence of draws. When the draws run out the run stops incomplete and writes no manifest; the script would keep drawing. Termination of the real loop is therefore not claimed, and with an empty directory it really never terminates.
- FillSlot, RunSlots, FillFromDraws, AssignSlots and BuildPlaylist are stated over any attempt function, not only the real one. `TryCandidate` shows that the imperative try block computes the same draw as `TryDraw` with the real attempt, and `MakePlaylist` uses the real attempt.
- The options record of `get_file_bpm` is modelled as a record of optional fields. The script calls it only with `params=None`, so a dictionary given the key `mode` (on which attribute access would raise) is not modelled, and neither is a mode that is present but `None`.
- The uniformity of `random.choice` is not modelled, only which entry a draw picks.
- The bare `except` catches everything, so a `KeyboardInterrupt` would also be retried. Exceptions other than those listed in `Errors` are not modelled.
- Join: only POSIX `os.path.join` is modelled. On Windows `ntpath.join` uses `\` as a separator and treats drive letters specially, which is not modelled.
