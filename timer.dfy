/**
 * The work timer of main.go: a persisted mode and start time, changed by
 * the `start` and `stop` commands and queried by `get`. Loading and saving
 * the JSON file are left out: the loaded file arrives as a `StateFile`,
 * the state to be written back leaves as `saved`, and the clock reading
 * `time.Now().Unix()` arrives as `now` (whole Unix seconds).
 */
module Timer {
  import opened Results

  /** The three mode numbers; a loaded file may carry any other integer. */
  const TimerStopped: int := 0
  const TimerRunning: int := 1
  const TimerPaused: int := 2

  datatype TimerState = TimerState(mode: int, startTime: int)

  /** The state used when no file exists yet. */
  function NewTimerState(): (s: TimerState)
    ensures s.mode == TimerStopped && s.startTime == 0
  {
    TimerState(TimerStopped, 0)
  }

  /** What the state file holds: nothing, something unreadable, or a decoded state. */
  datatype StateFile = Missing | Broken(message: string) | Stored(state: TimerState)

  /** `loadTimerState`: an absent file is a fresh state, a broken one an error. */
  function LoadTimerState(file: StateFile): (r: Result<TimerState, string>)
    ensures r.Ok? <==> !file.Broken?
    ensures file.Missing? ==> r.value.mode == TimerStopped && r.value.startTime == 0
    ensures file.Stored? ==> r == Ok(file.state)
    ensures file.Broken? ==> r == Err(file.message)
  {
    match file
    case Missing => Ok(NewTimerState())
    case Broken(message) => Err(message)
    case Stored(state) => Ok(state)
  }

  // ----- `%02d` and the HH:MM:SS rendering -----

  predicate IsDigit(c: char) { '0' <= c <= '9' }

  predicate AllDigits(s: string) { forall i :: 0 <= i < |s| ==> IsDigit(s[i]) }

  function DigitChar(d: nat): (c: char)
    requires d < 10
    ensures IsDigit(c) && c as int - '0' as int == d
  {
    ('0' as int + d) as char
  }

  /** Decimal digits of x without leading zeros. */
  function Digits(x: nat): (r: string)
    ensures AllDigits(r)
    ensures |r| >= 1 && (x >= 10 ==> |r| >= 2)
    decreases x
  {
    if x < 10 then [DigitChar(x)] else Digits(x / 10) + [DigitChar(x % 10)]
  }

  /** The number a string of decimal digits denotes. */
  function ValueOf(s: string): nat
    requires AllDigits(s)
    decreases |s|
  {
    if s == [] then 0 else ValueOf(s[..|s| - 1]) * 10 + (s[|s| - 1] as int - '0' as int)
  }

  lemma {:induction false} DigitsRoundTrip(x: nat)
    ensures AllDigits(Digits(x)) && ValueOf(Digits(x)) == x
    ensures x < 10 ==> |Digits(x)| == 1
    ensures 10 <= x < 100 ==> |Digits(x)| == 2
    ensures x >= 10 ==> |Digits(x)| >= 2
    decreases x
  {
    if x >= 10 {
      DigitsRoundTrip(x / 10);
      var s := Digits(x);
      assert s[..|s| - 1] == Digits(x / 10);
    }
  }

  lemma {:induction false} LeadingZero(s: string)
    requires AllDigits(s)
    ensures AllDigits("0" + s) && ValueOf("0" + s) == ValueOf(s)
    decreases |s|
  {
    if s != [] {
      var t := "0" + s;
      assert t[..|t| - 1] == "0" + s[..|s| - 1];
      LeadingZero(s[..|s| - 1]);
    }
  }

  /** Go's `%02d`: at least two characters, zero-padded after any sign. */
  function ZeroPad2(x: int): (r: string)
    ensures |r| >= 2
    ensures x >= 0 ==> AllDigits(r)
  {
    if x < 0 then "-" + Digits(-x)
    else if x < 10 then "0" + Digits(x)
    else Digits(x)
  }

  /** A non-negative field is written as at least two digits that read back as the field. */
  lemma ZeroPad2ReadsBack(x: nat)
    ensures AllDigits(ZeroPad2(x)) && ValueOf(ZeroPad2(x)) == x
    ensures |ZeroPad2(x)| >= 2
    ensures x < 100 ==> |ZeroPad2(x)| == 2
  {
    DigitsRoundTrip(x);
    if x < 10 {
      LeadingZero(Digits(x));
    }
  }

  /** Go's integer `/`, which truncates toward zero. */
  function Quot(a: int, b: int): int
    requires b > 0
  {
    if a >= 0 then a / b else -((-a) / b)
  }

  /** Go's integer `%`, whose sign follows the dividend. */
  function Rem(a: int, b: int): int
    requires b > 0
  {
    a - b * Quot(a, b)
  }

  /**
   * Lines 141-146: whole hours, minutes of the hour and seconds of the
   * minute of `elapsed`, each `%02d`, after a carriage return. Go's
   * truncating conversions are kept, so a negative `elapsed` yields
   * negative fields.
   */
  function Clock(elapsed: int): (r: string)
    ensures |r| >= 9 && r[0] == '\r'
  {
    var hours := Quot(elapsed, 3600);
    var minutes := Rem(Quot(elapsed, 60), 60);
    var seconds := Rem(elapsed, 60);
    "\r" + ZeroPad2(hours) + ":" + ZeroPad2(minutes) + ":" + ZeroPad2(seconds)
  }

  /** The three fields always recombine to the elapsed seconds, with minutes and seconds below 60 in size. */
  lemma ClockFieldsRecombine(elapsed: int)
    ensures Quot(elapsed, 3600) * 3600 + Rem(Quot(elapsed, 60), 60) * 60 + Rem(elapsed, 60) == elapsed
    ensures -60 < Rem(Quot(elapsed, 60), 60) < 60 && -60 < Rem(elapsed, 60) < 60
    ensures elapsed >= 0 ==> Rem(Quot(elapsed, 60), 60) >= 0 && Rem(elapsed, 60) >= 0
  {
    assert Quot(Quot(elapsed, 60), 60) == Quot(elapsed, 3600);
  }

  /** The seconds denoted by the three fields of a display, if they are well-formed. */
  function FieldsValue(hh: string, mm: string, ss: string): Option<int>
  {
    if AllDigits(hh) && AllDigits(mm) && AllDigits(ss) && ValueOf(mm) < 60 && ValueOf(ss) < 60
    then Some(ValueOf(hh) * 3600 + ValueOf(mm) * 60 + ValueOf(ss))
    else None
  }

  /** Reads a `\rHH:MM:SS` display back into seconds; the inverse of Clock. */
  function ParseClock(s: string): Option<int>
  {
    if |s| < 9 || s[0] != '\r' || s[|s| - 6] != ':' || s[|s| - 3] != ':' then None
    else FieldsValue(s[1..|s| - 6], s[|s| - 5..|s| - 3], s[|s| - 2..])
  }

  /** ParseClock takes a display apart at its two colons. */
  lemma ParseClockFields(hh: string, mm: string, ss: string)
    requires |hh| >= 2 && |mm| == 2 && |ss| == 2
    ensures ParseClock("\r" + hh + ":" + mm + ":" + ss) == FieldsValue(hh, mm, ss)
  {
    var head, tail := "\r" + hh + ":", ":" + ss;
    var s := head + mm + tail;
    assert s == "\r" + hh + ":" + mm + ":" + ss;
    assert |head| == |hh| + 2 && |s| == |hh| + 7;
    assert s[1..|s| - 6] == hh;
    assert s[|s| - 5..|s| - 3] == (head + mm + tail)[|head|..|head| + 2] == mm;
    assert s[|s| - 2..] == ss;
    assert s[0] == '\r' && s[|s| - 6] == ':' && s[|s| - 3] == ':';
  }

  /** A non-negative elapsed time is displayed so that it reads back exactly; below 100 hours it takes nine characters. */
  lemma ClockReadsBack(elapsed: int)
    requires elapsed >= 0
    ensures ParseClock(Clock(elapsed)) == Some(elapsed)
    ensures elapsed < 100 * 3600 ==> |Clock(elapsed)| == 9
  {
    var h, m, sec := Quot(elapsed, 3600), Rem(Quot(elapsed, 60), 60), Rem(elapsed, 60);
    ClockFieldsRecombine(elapsed);
    ZeroPad2ReadsBack(h);
    ZeroPad2ReadsBack(m);
    ZeroPad2ReadsBack(sec);
    var hh, mm, ss := ZeroPad2(h), ZeroPad2(m), ZeroPad2(sec);
    assert Clock(elapsed) == "\r" + hh + ":" + mm + ":" + ss;
    ParseClockFields(hh, mm, ss);
  }

  // ----- handleTimer -----

  /** The output (or error) of `handleTimer` and the state it writes back, if any. */
  datatype TimerOutcome = TimerOutcome(output: Result<string, string>, saved: Option<TimerState>)

  /** The `get` query: lines 137-152. */
  function Query(state: TimerState, now: int): (r: Result<string, string>)
    ensures r.Ok? <==> state.mode == TimerStopped || state.mode == TimerRunning
    ensures r == Ok("") <==> state.mode == TimerStopped
    ensures r.Ok? && r.value != "" <==> state.mode == TimerRunning
  {
    if state.mode == TimerStopped then Ok("")
    else if state.mode == TimerRunning then Ok(Clock(now - state.startTime))
    else if state.mode == TimerPaused then Err("eror")
    else Err("invalid timer state")
  }

  /** `handleTimer(arg)`: load, then dispatch on the command. */
  function HandleTimer(arg: string, file: StateFile, now: int): (out: TimerOutcome)
    ensures out.saved.Some? <==> !file.Broken? && (arg == "start" || arg == "stop")
    ensures out.saved.Some? ==> out.output == Ok("")
  {
    match LoadTimerState(file)
    case Err(e) => TimerOutcome(Err(e), None)
    case Ok(state) =>
      if arg == "start" then TimerOutcome(Ok(""), Some(state.(mode := TimerRunning, startTime := now)))
      else if arg == "stop" then TimerOutcome(Ok(""), Some(state.(mode := TimerStopped)))
      else if arg == "get" then TimerOutcome(Query(state, now), None)
      else TimerOutcome(Err("invalid timer arg"), None)
  }

  /** `start` saves a running timer started now and prints nothing. */
  lemma StartRuns(file: StateFile, now: int)
    requires !file.Broken?
    ensures HandleTimer("start", file, now) == TimerOutcome(Ok(""), Some(TimerState(TimerRunning, now)))
  {
  }

  /** `stop` saves a stopped timer, keeps the start time and prints nothing. */
  lemma StopKeepsStartTime(file: StateFile, now: int)
    requires !file.Broken?
    ensures var loaded := LoadTimerState(file).value;
            HandleTimer("stop", file, now) == TimerOutcome(Ok(""), Some(TimerState(TimerStopped, loaded.startTime)))
  {
  }

  /** `get` never writes the state back; any other unknown command is rejected without writing. */
  lemma GetIsReadOnly(arg: string, file: StateFile, now: int)
    requires arg != "start" && arg != "stop"
    ensures HandleTimer(arg, file, now).saved == None
    ensures !file.Broken? && arg != "get" ==> HandleTimer(arg, file, now).output == Err("invalid timer arg")
    ensures file.Broken? ==> HandleTimer(arg, file, now).output == Err(file.message)
  {
  }

  /** A state file that cannot be loaded aborts every command with its error and saves nothing. */
  lemma BrokenFileAborts(arg: string, file: StateFile, now: int)
    requires file.Broken?
    ensures HandleTimer(arg, file, now) == TimerOutcome(Err(file.message), None)
  {
  }

  /** Without a state file the timer is stopped and `get` prints nothing. */
  lemma FreshTimerIsQuiet(now: int)
    ensures HandleTimer("get", Missing, now) == TimerOutcome(Ok(""), None)
  {
  }

  /**
   * After `start` at t0 the saved timer runs since t0, and `get` at `now`
   * displays Clock(now - t0), which ClockReadsBack reads back as the
   * elapsed seconds whenever now >= t0.
   */
  lemma StartThenGet(file: StateFile, t0: int, now: int)
    requires !file.Broken?
    ensures HandleTimer("start", file, t0).saved == Some(TimerState(TimerRunning, t0))
    ensures HandleTimer("get", Stored(TimerState(TimerRunning, t0)), now).output == Ok(Clock(now - t0))
  {
    StartRuns(file, t0);
    var running := TimerState(TimerRunning, t0);
    assert HandleTimer("get", Stored(running), now).output == Query(running, now);
  }

  /** After `stop`, `get` prints nothing. */
  lemma StopThenGet(file: StateFile, t0: int, now: int)
    requires !file.Broken?
    ensures var after := HandleTimer("stop", file, t0).saved;
            after.Some? && HandleTimer("get", Stored(after.value), now) == TimerOutcome(Ok(""), None)
  {
  }

  /** A state file this program can have written: absent, or stopped or running. */
  predicate Written(file: StateFile)
  {
    file.Missing? || (file.Stored? && (file.state.mode == TimerStopped || file.state.mode == TimerRunning))
  }

  /**
   * No command ever saves the Paused mode or an unknown one, so from files
   * this program wrote `get` never reports the Paused or invalid-state
   * error: those branches are only reachable through a file edited by hand.
   */
  lemma PausedIsUnreachable(arg: string, file: StateFile, now: int)
    requires Written(file)
    ensures var out := HandleTimer(arg, file, now);
            && (out.saved.Some? ==> Written(Stored(out.saved.value)))
            && (arg == "get" ==> out.output.Ok?)
  {
  }
}
