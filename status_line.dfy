/**
 * One run of the program's `main`: the timer output, the network traffic
 * segment built from two counter samples, and the auxiliary readings are
 * joined into one line, empty segments dropped. The shell collectors'
 * outputs arrive as strings.
 */
module StatusLine {
  import opened Results
  import opened Sampler
  import opened Magnitude
  import opened Timer

  /** The separator `main` joins segments with. */
  const Separator: string := "  "

  /** The segment `printNetworkTraffic` returns: received then sent. */
  function TrafficSegment(down: string, up: string): (s: string)
    ensures |s| == |down| + |up| + 7
    ensures s[3..3 + |down|] == down && s[|s| - 1 - |up|..|s| - 1] == up
  {
    "|\U{1F53B} " + down + " \U{1F53A} " + up + "|"
  }

  /**
   * Line 167: the segment, or the panic of the first `parseBytes` call
   * that panics (the received figure is formatted first).
   */
  function TrafficOf(down: Result<string, Panic>, up: Result<string, Panic>): (r: Result<string, Panic>)
    ensures r.Ok? <==> down.Ok? && up.Ok?
    ensures down.Err? ==> r == Err(down.error)
    ensures down.Ok? && up.Err? ==> r == Err(up.error)
    ensures r.Ok? ==> r.value == TrafficSegment(down.value, up.value)
  {
    match down
    case Err(e) => Err(e)
    case Ok(d) =>
      match up
      case Err(e) => Err(e)
      case Ok(u) => Ok(TrafficSegment(d, u))
  }

  /**
   * `printNetworkTraffic`: sample the receive counter, then the transmit
   * counter, and format both differences; a panic of `parseBytes` is the
   * error result.
   */
  method NetworkTraffic(lastRx: Counter, lastTx: Counter, rxBytes: int, txBytes: int, render: Render)
    returns (s: Result<string, Panic>)
    requires lastRx != lastTx
    modifies lastRx, lastTx
    ensures lastRx.last == rxBytes && lastTx.last == txBytes
    ensures s == TrafficOf(FormatBytes(rxBytes - old(lastRx.last), render),
                           FormatBytes(txBytes - old(lastTx.last), render))
  {
    var diffRx := lastRx.Sample(rxBytes);
    var diffTx := lastTx.Sample(txBytes);
    var down := ParseBytes(diffRx, render);
    if down.Err? {
      return Err(down.error);
    }
    var up := ParseBytes(diffTx, render);
    if up.Err? {
      return Err(up.error);
    }
    s := Ok(TrafficSegment(down.value, up.value));
  }

  /** Wherever the source produces a traffic segment, the corrected one is the same. */
  lemma CorrectedTrafficAgrees(rxDiff: int, txDiff: int, render: Render)
    requires TrafficOf(FormatBytes(rxDiff, render), FormatBytes(txDiff, render)).Ok?
    ensures TrafficOf(FormatBytes(rxDiff, render), FormatBytes(txDiff, render)).value
         == TrafficSegment(FormatBytesCorrected(rxDiff, render), FormatBytesCorrected(txDiff, render))
  {
  }

  /** The parts that are not empty, in their original order. */
  function NonEmpty(parts: seq<string>): seq<string>
    decreases |parts|
  {
    if parts == [] then []
    else
      var last := parts[|parts| - 1];
      NonEmpty(parts[..|parts| - 1]) + (if last != "" then [last] else [])
  }

  /** `strings.Join`: the parts with the separator between neighbours. */
  function Join(xs: seq<string>, sep: string): string
    decreases |xs|
  {
    if |xs| == 0 then ""
    else if |xs| == 1 then xs[0]
    else Join(xs[..|xs| - 1], sep) + sep + xs[|xs| - 1]
  }

  function SumLengths(xs: seq<string>): nat
    decreases |xs|
  {
    if xs == [] then 0 else SumLengths(xs[..|xs| - 1]) + |xs[|xs| - 1]|
  }

  /** Exactly the empty parts are dropped. */
  lemma {:induction false} NonEmptyMembers(parts: seq<string>)
    ensures forall s :: s in NonEmpty(parts) <==> s in parts && s != ""
    decreases |parts|
  {
    if parts != [] {
      var init := parts[..|parts| - 1];
      NonEmptyMembers(init);
      assert parts == init + [parts[|parts| - 1]];
    }
  }

  /** Filtering respects concatenation, so the fixed order of the parts is kept. */
  lemma {:induction false} NonEmptyConcat(a: seq<string>, b: seq<string>)
    ensures NonEmpty(a + b) == NonEmpty(a) + NonEmpty(b)
    decreases |b|
  {
    if b != [] {
      var ab := a + b;
      assert ab[..|ab| - 1] == a + b[..|b| - 1];
      NonEmptyConcat(a, b[..|b| - 1]);
    } else {
      assert a + b == a;
    }
  }

  /** When no part is empty, nothing is dropped. */
  lemma {:induction false} NonEmptyKeepsAll(parts: seq<string>)
    requires forall i :: 0 <= i < |parts| ==> parts[i] != ""
    ensures NonEmpty(parts) == parts
    decreases |parts|
  {
    if parts != [] {
      NonEmptyKeepsAll(parts[..|parts| - 1]);
    }
  }

  /** The joined line is as long as all parts together plus one separator between each two. */
  lemma {:induction false} JoinLength(xs: seq<string>, sep: string)
    requires |xs| >= 1
    ensures |Join(xs, sep)| == SumLengths(xs) + |sep| * (|xs| - 1)
    decreases |xs|
  {
    if |xs| > 1 {
      var init := xs[..|xs| - 1];
      JoinLength(init, sep);
      assert init[..|init| - 1] == xs[..|xs| - 2];
      assert SumLengths(xs) == SumLengths(init) + |xs[|xs| - 1]|;
    } else {
      assert xs[..0] == [];
    }
  }

  /** The joined line starts with the first part and ends with the last one. */
  lemma {:induction false} JoinEnds(xs: seq<string>, sep: string)
    requires |xs| >= 1
    ensures xs[0] <= Join(xs, sep)
    ensures |xs[|xs| - 1]| <= |Join(xs, sep)|
    ensures Join(xs, sep)[|Join(xs, sep)| - |xs[|xs| - 1]|..] == xs[|xs| - 1]
    decreases |xs|
  {
    if |xs| > 1 {
      var init := xs[..|xs| - 1];
      JoinEnds(init, sep);
      assert init[0] == xs[0];
    }
  }

  /** Lines 234-241: collect the non-empty parts in a loop, then join them. */
  method Assemble(parts: seq<string>) returns (output: string)
    ensures output == Join(NonEmpty(parts), Separator)
  {
    var nonEmptyParts: seq<string> := [];
    for i := 0 to |parts|
      invariant nonEmptyParts == NonEmpty(parts[..i])
    {
      assert parts[..i + 1][..i] == parts[..i];
      if |parts[i]| != 0 {
        nonEmptyParts := nonEmptyParts + [parts[i]];
      }
    }
    assert parts[..|parts|] == parts;
    output := Join(nonEmptyParts, Separator);
  }

  /** Why a run ends without a status line. */
  datatype Abort =
    | TimerFailed(message: string)  // `handleTimer` returned an error (lines 212-215)
    | FormatPanicked(panic: Panic)  // `parseBytes` panicked inside `printNetworkTraffic`

  /**
   * Lines 225-241: sample both counters, which start at zero in every run,
   * so the traffic segment shows the absolute counter values; then
   * assemble the six segments in their fixed order. A `parseBytes` panic
   * is the error result.
   */
  method Segments(timerOut: string, rxBytes: int, txBytes: int, render: Render,
                  battery: string, volume: string, ram: string, date: string)
    returns (output: Result<string, Panic>)
    ensures var traffic := TrafficOf(FormatBytes(rxBytes, render), FormatBytes(txBytes, render));
            output == if traffic.Err? then Err(traffic.error)
                      else Ok(Join(NonEmpty([timerOut, traffic.value, battery, volume, ram, date]), Separator))
  {
    var lastRx := new Counter();
    var lastTx := new Counter();
    var traffic := NetworkTraffic(lastRx, lastTx, rxBytes, txBytes, render);
    assert rxBytes - 0 == rxBytes && txBytes - 0 == txBytes;
    if traffic.Err? {
      return Err(traffic.error);
    }
    var line := AssembleSix(timerOut, traffic.value, battery, volume, ram, date);
    output := Ok(line);
  }

  /** Helper: Assemble on the six segments of one run, in their fixed order. */
  method AssembleSix(timerOut: string, traffic: string, battery: string, volume: string, ram: string, date: string)
    returns (output: string)
    ensures output == Join(NonEmpty([timerOut, traffic, battery, volume, ram, date]), Separator)
  {
    output := Assemble([timerOut, traffic, battery, volume, ram, date]);
  }

  /**
   * Lines 211-243 without flag parsing: the timer error aborts first, then
   * a formatter panic; otherwise the assembled status line.
   */
  function Run(timerArg: string, file: StateFile, now: int, rxBytes: int, txBytes: int, render: Render,
               battery: string, volume: string, ram: string, date: string): (r: Result<string, Abort>)
    ensures HandleTimer(timerArg, file, now).output.Err? ==> r == Err(TimerFailed(HandleTimer(timerArg, file, now).output.error))
    ensures r.Ok? <==> HandleTimer(timerArg, file, now).output.Ok? && FormatBytes(rxBytes, render).Ok? && FormatBytes(txBytes, render).Ok?
  {
    var timer := HandleTimer(timerArg, file, now).output;
    var traffic := TrafficOf(FormatBytes(rxBytes, render), FormatBytes(txBytes, render));
    if timer.Err? then Err(TimerFailed(timer.error))
    else if traffic.Err? then Err(FormatPanicked(traffic.error))
    else Ok(Join(NonEmpty([timer.value, traffic.value, battery, volume, ram, date]), Separator))
  }

  /** One run of `main`, proved to produce what Run describes. */
  method RunOnce(timerArg: string, file: StateFile, now: int, rxBytes: int, txBytes: int, render: Render,
                 battery: string, volume: string, ram: string, date: string)
    returns (line: Result<string, Abort>)
    ensures line == Run(timerArg, file, now, rxBytes, txBytes, render, battery, volume, ram, date)
  {
    var timer := HandleTimer(timerArg, file, now).output;
    if timer.Err? {
      return Err(TimerFailed(timer.error));
    }
    var output := Segments(timer.value, rxBytes, txBytes, render, battery, volume, ram, date);
    match output {
      case Err(p) => line := Err(FormatPanicked(p));
      case Ok(s) => line := Ok(s);
    }
  }

  /**
   * From 1000 * 1024^3 received bytes on, a run whose timer query succeeds
   * aborts with the unit-table panic instead of printing a line.
   */
  lemma RunAbortsFromOneTB(timerArg: string, file: StateFile, now: int, rxBytes: int, txBytes: int, render: Render,
                           battery: string, volume: string, ram: string, date: string)
    requires HandleTimer(timerArg, file, now).output.Ok?
    requires rxBytes >= OneTB
    ensures Run(timerArg, file, now, rxBytes, txBytes, render, battery, volume, ram, date)
         == Err(FormatPanicked(IndexOutOfRange(Level(rxBytes))))
  {
    IndexPanicExactlyFromOneTB(rxBytes, render);
  }

  /**
   * The traffic segment is never empty, so it is always shown; the timer
   * segment is shown exactly when it is not empty, which Query makes the
   * case exactly in the Running mode.
   */
  lemma TimerSegmentShownWhenNonEmpty(timerOut: string, traffic: string, rest: seq<string>)
    requires traffic != ""
    ensures NonEmpty([timerOut, traffic] + rest)
         == (if timerOut == "" then [] else [timerOut]) + [traffic] + NonEmpty(rest)
  {
    NonEmptyConcat([timerOut, traffic], rest);
    NonEmptyConcat([timerOut], [traffic]);
    assert [timerOut, traffic] == [timerOut] + [traffic];
    assert [timerOut][..0] == [] && [traffic][..0] == [];
  }
}
