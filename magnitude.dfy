/**
 * The byte-magnitude formatter `parseBytes` of main.go: scale a byte count
 * by 1024 until it drops below 1000, pick a unit from a four-entry table,
 * choose zero or one decimal place, and left-pad the text to width 5.
 *
 * The float64 value `curr` of the source is modelled by an exact `real`:
 * dividing by 1024 is exact in float64 for every count the formatter can
 * format without panicking (all are below 2^53). The rendering of `%.0f`
 * and `%.1f` is a parameter `render(value, decimals)`; its output is ASCII,
 * so its length in characters is Go's `len` in bytes.
 */
module Magnitude {
  import opened Results

  /** Width every formatted value is padded to. */
  const DesiredLength: nat := 5

  /** The unit table, indexed by the number of divisions by 1024. */
  const Endings: seq<string> := ["B", "KB", "MB", "GB"]

  /** Smallest count whose level (4) lies past the unit table: 1000 * 1024^3. */
  const OneTB: int := 1000 * 1024 * 1024 * 1024

  /** The two ways the source crashes instead of returning a string. */
  datatype Panic =
    | IndexOutOfRange(index: int)      // `endings[level]` with level >= 4
    | NegativeRepeatCount(count: int)  // `strings.Repeat` with a count below 0

  /** The rendering of the number part: `render(curr, 0)` is `%.0f`, `render(curr, 1)` is `%.1f`. */
  type Render = (real, nat) -> string

  function Pow1024(k: nat): (r: nat)
    ensures r >= 1
  {
    if k == 0 then 1 else 1024 * Pow1024(k - 1)
  }

  /**
   * Reference definition of the number of divisions: counts below 1000
   * (negative ones included) need none, larger ones one more than their
   * 1024th part.
   */
  function Level(n: int): (k: nat)
    ensures k == 0 <==> n < 1000
    decreases if n < 0 then 0 else n
  {
    if n < 1000 then 0 else 1 + Level(n / 1024)
  }

  /** Level(n) is the smallest k with n < 1000 * 1024^k. */
  lemma {:induction false} LevelIsSmallest(n: int, k: nat)
    ensures n < 1000 * Pow1024(k) <==> Level(n) <= k
    decreases if n < 0 then 0 else n
  {
    if n < 1000 {
      assert 1000 <= 1000 * Pow1024(k);
    } else if k == 0 {
    } else {
      LevelIsSmallest(n / 1024, k - 1);
      assert n < 1000 * Pow1024(k) <==> n / 1024 < 1000 * Pow1024(k - 1);
    }
  }

  /** The value the loop leaves in `curr`: n scaled down Level(n) times. */
  function Scaled(n: int): (r: real)
    ensures r * (Pow1024(Level(n)) as real) == n as real
    ensures r < 1000.0
    ensures Level(n) >= 1 ==> 1000.0 <= r * 1024.0
  {
    var level := Level(n);
    var r := (n as real) / (Pow1024(level) as real);
    LevelIsSmallest(n, level);
    ScaledCompare(r, Pow1024(level), n, 1000);
    if level >= 1 then
      LevelIsSmallest(n, level - 1);
      UndoLastDivision(r, level, n);
      r
    else r
  }

  lemma ScaledCompare(curr: real, p: nat, n: int, k: int)
    requires p >= 1 && curr * (p as real) == n as real
    ensures curr < k as real <==> n < k * p
  {
    assert (k * p) as real == (k as real) * (p as real);
    if curr < k as real {
      assert curr * (p as real) < (k as real) * (p as real);
    } else {
      assert curr * (p as real) >= (k as real) * (p as real);
    }
  }

  /** One division fewer leaves a value of at least 1000 when n needs `level` divisions. */
  lemma UndoLastDivision(r: real, level: nat, n: int)
    requires level >= 1 && r * (Pow1024(level) as real) == n as real
    requires n >= 1000 * Pow1024(level - 1)
    ensures 1000.0 <= r * 1024.0
  {
    var p := Pow1024(level - 1);
    assert (Pow1024(level) as real) == 1024.0 * (p as real);
    assert (r * 1024.0) * (p as real) == n as real;
    ScaledCompare(r * 1024.0, p, n, 1000);
  }

  lemma ScaleStep(curr: real, p: nat, n: int)
    requires curr * (p as real) == n as real
    ensures (curr / 1024.0) * ((1024 * p) as real) == n as real
  {
    assert (1024 * p) as real == 1024.0 * (p as real);
  }

  lemma QuotientOf(curr: real, p: nat, n: int)
    requires p >= 1 && curr * (p as real) == n as real
    ensures curr == (n as real) / (p as real)
  {
  }

  /**
   * The loop of lines 38-46: divide by 1024 while the value is at least
   * 1000. It stops at the first level below 1000, and after at least one
   * division the value is at least 1000/1024.
   */
  method ScaleDown(n: int) returns (level: nat, curr: real)
    ensures level == Level(n) && curr == Scaled(n)
    ensures curr < 1000.0
    ensures level >= 1 ==> 1000.0 / 1024.0 <= curr
  {
    level := 0;
    curr := n as real;
    ghost var p: nat := 1;
    while curr >= 1000.0
      invariant p == Pow1024(level)
      invariant level <= Level(n)
      invariant curr * (p as real) == n as real
      invariant level >= 1 ==> 1000.0 <= curr * 1024.0
      decreases Level(n) - level
    {
      ScaledCompare(curr, p, n, 1000);
      LevelIsSmallest(n, level);
      ScaleStep(curr, p, n);
      curr := curr / 1024.0;
      level := level + 1;
      p := 1024 * p;
    }
    ScaledCompare(curr, p, n, 1000);
    LevelIsSmallest(n, level);
    QuotientOf(curr, p, n);
  }

  /**
   * Lines 48-60: index the unit table first, then the (unreachable)
   * `level > len(endings)` guard, then the decimal-place choice.
   */
  function Select(level: nat, curr: real, render: Render): (r: Result<string, Panic>)
    ensures r.Err? <==> level >= |Endings|
    ensures r.Err? ==> r.error == IndexOutOfRange(level)
  {
    if level >= |Endings| then Err(IndexOutOfRange(level))
    else
      var ending := Endings[level];
      if level > |Endings| then Ok(">=1TB")
      else if level == 0 then Ok(render(curr, 0) + ending)
      else if level > 0 && curr < 10.0 then Ok(render(curr, 1) + ending)
      else Ok(render(curr, 0) + ending)
  }

  function Spaces(k: nat): (r: string)
    ensures |r| == k && forall i :: 0 <= i < k ==> r[i] == ' '
  {
    seq(k, _ => ' ')
  }

  /**
   * Lines 62-64: pad on the left to width 5. `strings.Repeat` panics on a
   * negative count, so a body longer than 5 characters is an error.
   */
  function Pad(body: string): (r: Result<string, Panic>)
    ensures r.Ok? <==> |body| <= DesiredLength
    ensures r.Err? ==> r.error == NegativeRepeatCount(DesiredLength - |body|)
    ensures r.Ok? ==>
              && |r.value| == DesiredLength
              && r.value[DesiredLength - |body|..] == body
              && forall i :: 0 <= i < DesiredLength - |body| ==> r.value[i] == ' '
  {
    var spacesInFront := DesiredLength - |body|;
    if spacesInFront < 0 then Err(NegativeRepeatCount(spacesInFront))
    else Ok(Spaces(spacesInFront) + body)
  }

  /** `parseBytes(n)` as written, on exact arithmetic. */
  function FormatBytes(n: int, render: Render): (r: Result<string, Panic>)
    ensures r.Ok? ==> |r.value| == DesiredLength
    ensures r.Err? && r.error.IndexOutOfRange? <==> Level(n) >= |Endings|
  {
    match Select(Level(n), Scaled(n), render)
    case Err(e) => Err(e)
    case Ok(body) => Pad(body)
  }

  /** `parseBytes` as written: the scaling loop, then selection and padding. */
  method ParseBytes(n: int, render: Render) returns (r: Result<string, Panic>)
    ensures r == FormatBytes(n, render)
  {
    var level, curr := ScaleDown(n);
    var selected := Select(level, curr, render);
    match selected {
      case Err(e) =>
        r := Err(e);
      case Ok(result) =>
        r := Pad(result);
    }
  }

  /**
   * Below 1000 * 1024^3 the unit is the table entry for the level, and one
   * decimal place is chosen exactly when 1000 <= n < 10 * 1024^level, i.e.
   * when at least one division happened and the scaled value is below 10;
   * the `>=1TB` branch is never taken.
   */
  lemma UnitAndPrecision(n: int, render: Render)
    requires n < OneTB
    ensures Level(n) < |Endings|
    ensures Select(Level(n), Scaled(n), render)
         == Ok(render(Scaled(n), if 1000 <= n && n < 10 * Pow1024(Level(n)) then 1 else 0)
               + Endings[Level(n)])
  {
    var level, curr := Level(n), Scaled(n);
    assert Pow1024(3) == 1024 * 1024 * 1024;
    LevelIsSmallest(n, 3);
    LevelIsSmallest(n, 0);
    assert level >= 1 <==> 1000 <= n;
    ScaledBelowTen(n);
    var d := if 1000 <= n && n < 10 * Pow1024(level) then 1 else 0;
    assert d == if level > 0 && curr < 10.0 then 1 else 0;
  }

  lemma ScaledBelowTen(n: int)
    ensures Scaled(n) < 10.0 <==> n < 10 * Pow1024(Level(n))
  {
        ScaledCompare(Scaled(n), Pow1024(Level(n)), n, 10);
  }

  /**
   * The lookup at line 48 fails exactly from 1000 * 1024^3 bytes on, so the
   * formatter crashes there instead of answering `>=1TB`.
   */
  lemma IndexPanicExactlyFromOneTB(n: int, render: Render)
    ensures FormatBytes(n, render).Err? && FormatBytes(n, render).error.IndexOutOfRange?
            <==> n >= OneTB
    ensures n >= OneTB ==> FormatBytes(n, render) == Err(IndexOutOfRange(Level(n)))
  {
    LevelIsSmallest(n, 3);
  }

  /** The formatted count always ends with the body and is padded to width 5. */
  lemma FormatBytesWidth(n: int, render: Render)
    requires n < OneTB
    ensures Level(n) < |Endings|
    ensures var body := render(Scaled(n), if 1000 <= n && n < 10 * Pow1024(Level(n)) then 1 else 0)
                        + Endings[Level(n)];
            FormatBytes(n, render) == Pad(body)
  {
    UnitAndPrecision(n, render);
  }

  /** Input that shows the crash at line 48: exactly 1000 * 1024^3 bytes. */
  lemma OneTBCrashes(render: Render)
    ensures FormatBytes(OneTB, render) == Err(IndexOutOfRange(4))
  {
    IndexPanicExactlyFromOneTB(OneTB, render);
    LevelIsSmallest(OneTB, 4);
  }

  /**
   * Inputs that show the crash at line 64: 10199 bytes scale to
   * 9.9599609375, which `%.1f` renders as "10.0", giving the six-character
   * body "10.0KB"; 1023590 bytes scale to 999.599609375, which `%.0f`
   * renders as "1000", giving "1000KB". Both make the repeat count -1.
   */
  lemma RoundingOverflowCrashes(render: Render)
    requires render(10199.0 / 1024.0, 1) == "10.0"
    requires render(1023590.0 / 1024.0, 0) == "1000"
    ensures FormatBytes(10199, render) == Err(NegativeRepeatCount(-1))
    ensures FormatBytes(1023590, render) == Err(NegativeRepeatCount(-1))
  {
    assert Level(10199) == 1;
    assert Level(1023590) == 1;
    assert Scaled(1023590) == 1023590.0 / 1024.0;
  }

  /** Padding that never panics: a body longer than 5 is left as it is. */
  function PadClamped(body: string): (r: string)
    ensures |r| == if |body| <= DesiredLength then DesiredLength else |body|
    ensures r[|r| - |body|..] == body
    ensures forall i :: 0 <= i < |r| - |body| ==> r[i] == ' '
    ensures |body| <= DesiredLength ==> Pad(body) == Ok(r)
  {
    if |body| <= DesiredLength then Spaces(DesiredLength - |body|) + body else body
  }

  /**
   * The formatter as evidently intended: the `>=1TB` answer is given before
   * the unit lookup, and padding never has a negative count.
   */
  function FormatBytesCorrected(n: int, render: Render): (r: string)
    ensures |r| >= DesiredLength
    ensures n >= OneTB ==> r == ">=1TB"
    ensures FormatBytes(n, render).Ok? ==> r == FormatBytes(n, render).value
  {
    LevelIsSmallest(n, 3);
    var level := Level(n);
    if level >= |Endings| then ">=1TB"
    else PadClamped(Select(level, Scaled(n), render).value)
  }

  /** The corrected formatter, with the same scaling loop. */
  method ParseBytesCorrected(n: int, render: Render) returns (s: string)
    ensures s == FormatBytesCorrected(n, render)
  {
    var level, curr := ScaleDown(n);
    if level >= |Endings| {
      s := ">=1TB";
    } else {
      s := PadClamped(Select(level, curr, render).value);
    }
  }

  /** Boundary cases: 999 bytes, the first count with a unit (1000) and 1536 bytes. */
  lemma Examples(render: Render)
    requires render(999.0, 0) == "999" && render(1000.0 / 1024.0, 1) == "1.0" && render(1.5, 1) == "1.5"
    ensures FormatBytes(999, render) == Ok(" 999B")
    ensures FormatBytes(1000, render) == Ok("1.0KB")
    ensures FormatBytes(1536, render) == Ok("1.5KB")
  {
    assert Endings[0] == "B" && Endings[1] == "KB";
    assert "999" + "B" == "999B" && "1.0" + "KB" == "1.0KB" && "1.5" + "KB" == "1.5KB";
    assert Level(999) == 0 && Scaled(999) == 999.0;
    assert Select(0, 999.0, render) == Ok("999B");
    assert Spaces(1) + "999B" == " 999B";
    assert Level(1000) == 1 && Scaled(1000) == 1000.0 / 1024.0;
    assert Select(1, 1000.0 / 1024.0, render) == Ok("1.0KB");
    assert Spaces(0) + "1.0KB" == "1.0KB";
    assert Level(1536) == 1 && Scaled(1536) == 1.5;
    assert Select(1, 1.5, render) == Ok("1.5KB");
    assert Spaces(0) + "1.5KB" == "1.5KB";
  }
}
