/** GPU utilisation runs (`longest_matching_run` and the active window of `gpu_stats`). */
module LongestRun {
  /** Every value of the block `values[from..upto]` satisfies the predicate. */
  predicate Matching(values: seq<real>, test: real -> bool, from: int, upto: int)
    requires 0 <= from <= upto <= |values|
  {
    forall k :: from <= k < upto ==> test(values[k])
  }

  ghost predicate HasBlock(values: seq<real>, test: real -> bool, length: int) {
    exists from, upto :: 0 <= from <= upto <= |values| && upto - from == length && Matching(values, test, from, upto)
  }

  ghost predicate IsLongest(values: seq<real>, test: real -> bool, length: int) {
    && HasBlock(values, test, length)
    && forall from, upto :: 0 <= from <= upto <= |values| && Matching(values, test, from, upto) ==>
         upto - from <= length
  }

  /** The length of the longest contiguous all-matching block. */
  method LongestMatchingRun(values: seq<real>, test: real -> bool) returns (longest: nat)
    ensures IsLongest(values, test, longest)
  {
    longest := 0;
    var current := 0;
    ghost var first := 0;
    for i := 0 to |values|
      invariant 0 <= current <= i && current <= longest
      invariant Matching(values, test, i - current, i)
      invariant current < i ==> !test(values[i - current - 1])
      invariant 0 <= first <= first + longest <= i && Matching(values, test, first, first + longest)
      invariant forall from, upto :: 0 <= from <= upto <= i && Matching(values, test, from, upto) ==>
                  upto - from <= longest
    {
      if test(values[i]) {
        current := current + 1;
        if current > longest {
          longest := current;
          first := i + 1 - current;
        }
      } else {
        current := 0;
      }
    }
  }

  /** A weaker test has a run at least as long: the idle run never exceeds the sub-80 run. */
  lemma LongestIsMonotone(values: seq<real>, strict: real -> bool, weak: real -> bool, a: int, b: int)
    requires forall x :: strict(x) ==> weak(x)
    requires IsLongest(values, strict, a) && IsLongest(values, weak, b)
    ensures a <= b
  {
    var from, upto :| 0 <= from <= upto <= |values| && upto - from == a && Matching(values, strict, from, upto);
    forall k | from <= k < upto
      ensures weak(values[k])
    {
      var x := values[k];
      assert strict(x) ==> weak(x);
    }
    assert Matching(values, weak, from, upto);
  }

  lemma LongestOfSlice(values: seq<real>, test: real -> bool, lo: int, hi: int, a: int, b: int)
    requires 0 <= lo <= hi <= |values|
    requires IsLongest(values[lo..hi], test, a) && IsLongest(values, test, b)
    ensures a <= b
  {
    var slice := values[lo..hi];
    var from, upto :| 0 <= from <= upto <= |slice| && upto - from == a && Matching(slice, test, from, upto);
    forall k | lo + from <= k < lo + upto
      ensures test(values[k])
    {
      assert values[k] == slice[k - lo];
    }
    assert Matching(values, test, lo + from, lo + upto);
  }

  const HIGH := 80.0
  const IDLE := 20.0

  predicate IsBelow(x: real) {
    x < HIGH
  }

  predicate IsIdle(x: real) {
    x <= IDLE
  }

  /** `lo` to `hi` are the samples from the first to the last reading of at least 80, or the whole log without one. */
  ghost predicate IsWindow(log: seq<real>, lo: int, hi: int) {
    && 0 <= lo <= hi <= |log|
    && if forall k :: 0 <= k < |log| ==> log[k] < 80.0 then
         lo == 0 && hi == |log|
       else
         && lo < hi && log[lo] >= 80.0 && log[hi - 1] >= 80.0
         && forall k :: 0 <= k < |log| && !(lo <= k < hi) ==> log[k] < 80.0
  }

  /** The two tests the runs are counted with. */
  lemma TestsMean(x: real)
    ensures IsBelow(x) <==> x < 80.0
    ensures IsIdle(x) <==> x <= 20.0
  {
  }

  method ActiveWindow(log: seq<real>) returns (lo: nat, hi: nat)
    ensures IsWindow(log, lo, hi)
  {
    var indices: seq<nat> := [];
    for i := 0 to |log|
      invariant forall j :: 0 <= j < |indices| ==> indices[j] < i && log[indices[j]] >= HIGH
      invariant |indices| > 0 ==> indices[0] <= indices[|indices| - 1]
      invariant forall k :: 0 <= k < i && log[k] >= HIGH ==>
                  |indices| > 0 && indices[0] <= k <= indices[|indices| - 1]
    {
      if log[i] >= HIGH {
        indices := indices + [i];
      }
    }
    if indices == [] {
      return 0, |log|;
    }
    lo, hi := indices[0], indices[|indices| - 1] + 1;
  }

  /**
   * The two run columns of the report. Idle samples are below 80 and the window is a slice, so
   * idle run <= sub-80 run, and neither exceeds the same run over the whole log.
   */
  method ActiveRuns(log: seq<real>) returns (below: nat, idle: nat, lo: nat, hi: nat)
    ensures IsWindow(log, lo, hi)
    ensures IsLongest(log[lo..hi], IsBelow, below) && IsLongest(log[lo..hi], IsIdle, idle)
    ensures idle <= below
    ensures forall whole :: IsLongest(log, IsBelow, whole) ==> below <= whole
    ensures forall whole :: IsLongest(log, IsIdle, whole) ==> idle <= whole
  {
    lo, hi := ActiveWindow(log);
    below := LongestMatchingRun(log[lo..hi], IsBelow);
    idle := LongestMatchingRun(log[lo..hi], IsIdle);
    LongestIsMonotone(log[lo..hi], IsIdle, IsBelow, idle, below);
    forall whole | IsLongest(log, IsBelow, whole)
      ensures below <= whole
    {
      LongestOfSlice(log, IsBelow, lo, hi, below, whole);
    }
    forall whole | IsLongest(log, IsIdle, whole)
      ensures idle <= whole
    {
      LongestOfSlice(log, IsIdle, lo, hi, idle, whole);
    }
  }
}
