# widget-bar status line, modelled in Dafny

widget-bar prints one status line for a desktop bar: an optional work
timer, the network traffic since the last sample, and a few readings taken
from shell commands. This project models the logic of `main.go` that can be
stated exactly:

- `sampler.dfy` — the counter delta sampler `getBytes`: a `Counter` object
  holding the previous reading, whose `Sample` returns the difference and
  stores the new reading; `Deltas` describes a run of successive samples.
- `magnitude.dfy` — the byte-magnitude formatter `parseBytes`: the
  divide-by-1024 loop (`ScaleDown`, proved against the reference `Level`),
  the unit lookup and decimal choice (`Select`), the padding to width 5
  (`Pad`) and the two ways the source panics, as `Panic` errors. The
  float64 value is modelled by an exact `real` (exact for counts below
  2^53; see "Left out"); the decimal rendering of `%.0f` and
  `%.1f` is a parameter `render`.
- `timer.dfy` — the timer state machine `handleTimer`: the loaded state
  file and the clock are inputs, the state written back is an output;
  `Clock` is the `\rHH:MM:SS` display with Go's truncating `/` and `%`,
  and `ParseClock` reads it back.
- `status_line.dfy` — `printNetworkTraffic` and the end of `main`: the six
  segments in fixed order, empty ones dropped, the rest joined with two
  spaces. A timer error and a `parseBytes` panic end the run without a
  line (`Abort`).
- `results.dfy` — the `Result` and `Option` types.

Two behaviours of `parseBytes` are easy to misread and are modelled as
the code has them: a body longer than five bytes makes `strings.Repeat`
panic with a negative count (main.go:62-64), and `parseBytes(1536)` is
`1.5KB`, already five characters, so it gets no leading space.

## Model

| member | source | states |
|---|---|---|
| Sampler.Counter.constructor | main.go:225 | a fresh previous-value variable holds 0 |
| Sampler.Counter.Sample | main.go:27-30 | returns current minus the old stored value; afterwards the stored value is current and nothing else changes |
| Sampler.Deltas | main.go:27-28 | successive samples report the first reading minus the start value, then each reading minus the one before |
| Sampler.DeltasSnoc | main.go:27-28 | one more sample appends the new reading minus the previous one to the reported differences |
| Sampler.SampleEach | main.go:27-30 | repeated `getBytes` calls on one variable (which this `main`, sampling each counter once per run, never makes) report exactly Deltas of the readings from the counter's old value, and leaves the counter holding the last reading |
| Sampler.DeltasTelescope | main.go:27-28 | the reported differences of a run of samples add up to the last reading minus the start value |
| Sampler.DeltasOfMonotoneCounter | main.go:27 | a non-decreasing counter yields only non-negative differences |
| Magnitude.Level | main.go:38-46 | reference for the loop's division count: none exactly below 1000; LevelIsSmallest characterises it |
| Magnitude.LevelIsSmallest | main.go:38-46 | the number of divisions is the smallest k with n < 1000 * 1024^k (the source's float64 loop agrees below 2^53) |
| Magnitude.Scaled | main.go:38-46 | the value the loop leaves is n / 1024^level, below 1000, and at least 1000 once multiplied back by 1024 after a division |
| Magnitude.ScaleDown | main.go:38-46 | the loop, on exact arithmetic, ends with the reference level and value n / 1024^level, below 1000, and at least 1000/1024 after any division |
| Magnitude.Select | main.go:48-60 | fails with an index error exactly when the level is past the four-entry unit table |
| Magnitude.Pad | main.go:62-64 | succeeds exactly when the body has at most 5 characters; then the result has width 5, ends with the body and starts with spaces; otherwise the repeat count is negative |
| Magnitude.FormatBytes | main.go:34-65 | `parseBytes` as written: a success has width 5, and the unit-table panic happens exactly when the level is 4 or more |
| Magnitude.ParseBytes | main.go:34-65 | the loop-based formatter equals the exact-arithmetic reference FormatBytes |
| Magnitude.UnitAndPrecision | main.go:48-60 | below 1000 * 1024^3 the unit is the table entry of the level, one decimal is chosen exactly when 1000 <= n < 10 * 1024^level, and the `>=1TB` branch is never taken |
| Magnitude.ScaledBelowTen | main.go:56 | the scaled value is below 10 exactly when n < 10 * 1024^level |
| Magnitude.IndexPanicExactlyFromOneTB | main.go:36-53 | the unit lookup panics exactly for n >= 1000 * 1024^3, so `>=1TB` is never returned |
| Magnitude.FormatBytesWidth | main.go:54-64 | below 1000 * 1024^3 the result is the padding of the rendered number followed by the unit |
| Magnitude.OneTBCrashes | main.go:48-53 | 1000 * 1024^3 bytes crash with index 4 |
| Magnitude.RoundingOverflowCrashes | main.go:56-64 | 10199 bytes rendering as `10.0KB`, and 1023590 bytes rendering as `1000KB`, crash with repeat count -1 |
| Magnitude.PadClamped | main.go:62-64 | padding that never fails: width is 5 or the body's length, the result ends with the body, and it agrees with Pad whenever Pad succeeds |
| Magnitude.FormatBytesCorrected | main.go:34-65 | never fails, has width at least 5, answers `>=1TB` from 1000 * 1024^3 on, and equals the source's result wherever the source does not panic |
| Magnitude.ParseBytesCorrected | main.go:34-65 | the loop-based corrected formatter equals FormatBytesCorrected |
| Magnitude.Examples | main.go:34-65 | 999 gives ` 999B`, 1000 gives `1.0KB`, 1536 gives `1.5KB` |
| Timer.NewTimerState | main.go:78-83 | a fresh state is Stopped with start time 0 |
| Timer.LoadTimerState | main.go:99-117 | of an absent, broken or decoded file: loading fails exactly for the broken one, with that file's error; an absent file gives the fresh state; a decoded state comes back unchanged |
| Timer.DigitsRoundTrip | main.go:146 | the decimal digits of x read back as x, one digit below 10 and two below 100 |
| Timer.ZeroPad2 | main.go:146 | `%02d` has at least two characters, all digits for a non-negative field |
| Timer.ZeroPad2ReadsBack | main.go:146 | `%02d` of a non-negative field has at least two digits (exactly two below 100) and reads back as the field |
| Timer.ClockFieldsRecombine | main.go:141-145 | hours * 3600 + minutes * 60 + seconds is the elapsed time, minutes and seconds are below 60 in size and non-negative for a non-negative elapsed time |
| Timer.Clock | main.go:141-146 | the display starts with a carriage return and has at least nine characters; ClockReadsBack gives its inverse |
| Timer.ClockReadsBack | main.go:141-147 | the `\rHH:MM:SS` display of a non-negative elapsed time reads back exactly and is nine characters below 100 hours |
| Timer.Query | main.go:137-152 | `get` succeeds exactly in the Stopped and Running modes, prints nothing exactly when Stopped and something exactly when Running |
| Timer.HandleTimer | main.go:119-155 | a state is saved exactly for `start` and `stop` on a loadable file, and a saving command prints nothing |
| Timer.StartRuns | main.go:127-131 | `start` saves a running timer started now and prints nothing |
| Timer.StopKeepsStartTime | main.go:132-135 | `stop` saves a stopped timer with the loaded start time and prints nothing |
| Timer.GetIsReadOnly | main.go:119-155 | every command but start and stop saves nothing; unknown commands fail with `invalid timer arg`; a broken file's error is returned first |
| Timer.BrokenFileAborts | main.go:121-124 | for every command, `start` and `stop` included, a file that cannot be loaded gives its load error and nothing is saved |
| Timer.FreshTimerIsQuiet | main.go:99-104 | `get` without a state file prints nothing and saves nothing |
| Timer.StartThenGet | main.go:126-147 | after `start` at t0 the saved timer runs since t0, and `get` at now displays Clock(now - t0), the display ClockReadsBack reads back as now - t0 |
| Timer.StopThenGet | main.go:132-139 | after `stop`, `get` prints nothing |
| Timer.PausedIsUnreachable | main.go:126-152 | no command saves Paused or an unknown mode, so from files the program wrote `get` never fails |
| StatusLine.TrafficSegment | main.go:167 | the received figure comes before the sent one, each in its own place in the segment |
| StatusLine.TrafficOf | main.go:167 | the segment exists exactly when both figures were formatted; otherwise the panic of the received figure, which is formatted first, else that of the sent one |
| StatusLine.NetworkTraffic | main.go:160-168 | samples the receive counter then the transmit counter, formats both differences with `parseBytes` as written, and returns its panic where it panics; both counters hold the new readings |
| StatusLine.CorrectedTrafficAgrees | main.go:167 | wherever the source builds a traffic segment, the corrected formatter builds the same one |
| StatusLine.NonEmpty | main.go:234-240 | no contract of its own; specified by NonEmptyMembers, NonEmptyConcat and NonEmptyKeepsAll |
| StatusLine.NonEmptyMembers | main.go:234-240 | a string survives the filter exactly when it is a part and not empty |
| StatusLine.NonEmptyConcat | main.go:226-240 | filtering a concatenation filters each half in order, so the parts keep their fixed order |
| StatusLine.NonEmptyKeepsAll | main.go:234-240 | with no empty part nothing is dropped |
| StatusLine.Join | main.go:241 | no contract of its own; specified by JoinLength and JoinEnds |
| StatusLine.JoinLength | main.go:241 | the joined line is as long as the parts plus one separator between each two |
| StatusLine.JoinEnds | main.go:241 | the joined line starts with the first part and ends with the last |
| StatusLine.Assemble | main.go:234-241 | the loop collects exactly the filtered parts and joins them with two spaces |
| StatusLine.AssembleSix | main.go:226-241 | helper: Assemble applied to the six segments in their fixed order, kept separate so that Segments' proof stays small |
| StatusLine.TimerSegmentShownWhenNonEmpty | main.go:226-240 | the timer segment appears exactly when it is not empty (Query: exactly in the Running mode), and the traffic segment always follows it |
| StatusLine.Segments | main.go:225-241 | with counters starting at zero, a `parseBytes` panic on the absolute counter values is the result; otherwise the line is the join of the filtered six segments |
| StatusLine.Run | main.go:211-243 | a timer error aborts the run first, with that error; a line is produced exactly when the timer query and both `parseBytes` calls succeed |
| StatusLine.RunOnce | main.go:211-243 | one run of `main` produces exactly what Run describes |
| StatusLine.RunAbortsFromOneTB | main.go:225-228 | once 1000 * 1024^3 bytes have been received, a run whose timer query succeeds aborts with the unit-table panic of line 48 |

## Left out

- Reading the counter files and `strconv.Atoi`, with the `log.Fatal` abort (main.go:17-25): file I/O; the parsed counter is an input.
- JSON encoding and decoding and the file writes of `saveTimerState`/`loadTimerState` (main.go:85-117): persistence; the decoded file is an input (`StateFile`) and the state to write is an output. Save errors are discarded by the source (main.go:130, 134), so their absence from the model changes nothing observable.
- `time.Now` and `time.Since` (main.go:129, 141): the clock is the input `now` in whole Unix seconds. For a negative duration (a clock set back) Go truncates the nanosecond difference toward zero, which the whole-second difference differs from by one second when there is a fractional part.
- Float-to-decimal rendering of `%.0f` and `%.1f` (main.go:55-59): the parameter `render`; its output is ASCII, so its length in characters equals Go's `len` in bytes.
- Magnitude.Level: the float64 value of `parseBytes` is an exact real, which float64(n) is only below 2^53. From 2^53 on, float64(n) can round up to the next threshold 1000 * 1024^k (for instance n = 1000 * 2^50 - 1 becomes 1000 * 2^50), so the source's loop can divide once more than `Level(n)` and Go's index panic can report an index one higher than the model's `IndexOutOfRange(Level(n))`. Every such count is far above 1000 * 1024^3, so the source crashes there and the model's `FormatBytes` fails with an index panic too (the corrected model answers `>=1TB`); only the reported index may differ. LevelIsSmallest and ScaleDown describe the source's loop only below 2^53.
- Timer.LoadTimerState: a state file holding JSON `null` is not modelled. `json.Unmarshal` (main.go:111) then sets the `*TimerState` to nil without an error, and `handleTimer` panics on the nil state for `start`, `stop` and `get` (main.go:128, 133, 137); an unknown command still gives `invalid timer arg`. `StateFile` has only the absent, broken and decoded cases.
- 64-bit integer overflow of `int`/`int64` values (counter differences, start times): integers are unbounded.
- The shell collectors `cmdTrimmedOutput`, `printHeadsetBattery`, `printSoundVolume`, `printRamUsage`, `prinTimeAndDate` (main.go:170-202): subprocesses; their outputs are string inputs.
- Flag parsing, the version flags and printing to standard output (main.go:207-223, 243): command-line plumbing.
- StatusLine.RunOnce: does not return the state `handleTimer` writes back; `Timer.HandleTimer`'s `saved` field carries it.

## Findings

| source | as written | input that shows it | evidently intended | confidence | as-written member | corrected member |
|---|---|---|---|---|---|---|
| main.go:48-53 | `endings[level]` is evaluated before the `level > len(endings)` guard, and the guard uses `>` where `>=` is needed, so level 4 indexes past the table | n = 1073741824000 (1000 * 1024^3); both counters start at 0 in every run, so this is reached once the interface has moved about 1.07 TB | answer `>=1TB` for level 4 and above | high; not executed | Magnitude.OneTBCrashes | Magnitude.FormatBytesCorrected |
| main.go:56-64 | the decimal choice is made on the unrounded value, so `%.1f` can round up to a six-character body and the repeat count becomes negative | n = 10199: 9.9599609375 renders as `10.0`, body `10.0KB`, `strings.Repeat(" ", -1)` panics; the same happens with `%.0f` for 999.5 <= curr < 1000, e.g. n = 1023590 renders as `1000KB` | never panic; pad to at least width 5 | medium; not executed | Magnitude.RoundingOverflowCrashes | Magnitude.PadClamped |
