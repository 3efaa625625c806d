/**
 * The counter delta sampler `getBytes` of main.go. Reading the counter file
 * and parsing it are left out: the parsed value arrives as `current`.
 */
module Sampler {

  /** The previous reading that `getBytes` reads and updates through `*last`. */
  class Counter {
    var last: int

    /** A Go `int` variable starts at zero. */
    constructor ()
      ensures last == 0
    {
      last := 0;
    }

    /** Return the difference to the previous reading and remember the new one. */
    method Sample(current: int) returns (diff: int)
      modifies this
      ensures diff == current - old(last)
      ensures last == current
    {
      diff := current - last;
      last := current;
    }
  }

  /**
   * The differences reported by successive samples of `readings`, starting
   * from the previous value `start`: each reading minus the one before it.
   */
  function Deltas(start: int, readings: seq<int>): (ds: seq<int>)
    ensures |ds| == |readings|
    ensures |readings| > 0 ==> ds[0] == readings[0] - start
    ensures forall i :: 0 < i < |readings| ==> ds[i] == readings[i] - readings[i - 1]
    decreases |readings|
  {
    if readings == [] then []
    else [readings[0] - start] + Deltas(readings[0], readings[1..])
  }

  function Sum(xs: seq<int>): int
  {
    if xs == [] then 0 else xs[0] + Sum(xs[1..])
  }

  /** The reported differences add up to the last reading minus the start value. */
  lemma {:induction false} DeltasTelescope(start: int, readings: seq<int>)
    requires |readings| > 0
    ensures Sum(Deltas(start, readings)) == readings[|readings| - 1] - start
    decreases |readings|
  {
    if |readings| > 1 {
      DeltasTelescope(readings[0], readings[1..]);
    }
  }

  /** A non-decreasing counter gives non-negative differences. */
  lemma DeltasOfMonotoneCounter(start: int, readings: seq<int>)
    requires |readings| > 0 ==> start <= readings[0]
    requires forall i :: 0 < i < |readings| ==> readings[i - 1] <= readings[i]
    ensures forall i :: 0 <= i < |readings| ==> Deltas(start, readings)[i] >= 0
  {
    var ds := Deltas(start, readings);
    forall i | 0 <= i < |readings|
      ensures ds[i] >= 0
    {
      if i > 0 {
        assert ds[i] == readings[i] - readings[i - 1];
      }
    }
  }

  /** Appending a reading appends its difference to the last reading before it. */
  lemma {:induction false} DeltasSnoc(start: int, readings: seq<int>, x: int)
    ensures Deltas(start, readings + [x])
         == Deltas(start, readings) + [x - (if readings == [] then start else readings[|readings| - 1])]
    decreases |readings|
  {
    if readings == [] {
      assert [x][1..] == [];
    } else {
      assert (readings + [x])[1..] == readings[1..] + [x];
      DeltasSnoc(readings[0], readings[1..], x);
    }
  }

  /**
   * Repeated `getBytes` calls on one variable (one run of `main` makes a
   * single call per counter): the reported differences are exactly Deltas
   * of the readings, and the counter ends holding the last reading.
   */
  method SampleEach(c: Counter, readings: seq<int>) returns (diffs: seq<int>)
    modifies c
    ensures diffs == Deltas(old(c.last), readings)
    ensures c.last == if readings == [] then old(c.last) else readings[|readings| - 1]
  {
    ghost var start := c.last;
    diffs := [];
    for i := 0 to |readings|
      invariant diffs == Deltas(start, readings[..i])
      invariant c.last == if i == 0 then start else readings[i - 1]
    {
      ghost var prefix := readings[..i];
      assert readings[..i + 1] == prefix + [readings[i]];
      DeltasSnoc(start, prefix, readings[i]);
      var d := c.Sample(readings[i]);
      diffs := diffs + [d];
    }
    assert readings[..|readings|] == readings;
  }
}
