/** kneepoint/generator/ramp.py: the level list of a ramp. */
module RampLevels {
  import opened Basics
  import opened Grouping

  datatype LevelsError = ZeroStep | NoLevels

  /** Python's `range(start, end, step)` for a nonzero step. */
  function Range(start: int, end: int, step: int): (s: seq<int>)
    requires step != 0
    decreases if step > 0 then end - start else start - end
  {
    if (step > 0 && start >= end) || (step < 0 && start <= end) then []
    else [start] + Range(start + step, end, step)
  }

  /**
   * `RampSpec.levels`: a zero step and an empty range are errors; the stop level is always included. For
   * start up to stop the list exists exactly when the step is positive, and then ascends strictly from
   * start to stop.
   */
  method LevelsOf(start: int, stop: int, step: int) returns (r: Result<seq<int>, LevelsError>)
    ensures r == LevelList(start, stop, step)
    ensures start <= stop ==> (r.Ok? <==> step > 0)
    ensures r.Ok? && start <= stop ==> FromTo(r.value, start, stop)
    ensures r.Ok? ==> r.value != [] && r.value[|r.value| - 1] == stop
  {
    if start <= stop {
      LevelsAscend(start, stop, step);
    }
    if step == 0 {
      return Err(ZeroStep);
    }
    var levels := Range(start, stop + 1, step);
    if levels == [] {
      return Err(NoLevels);
    }
    if levels[|levels| - 1] != stop {
      levels := levels + [stop];
    }
    r := Ok(levels);
  }

  function LevelList(start: int, stop: int, step: int): (r: Result<seq<int>, LevelsError>) {
    if step == 0 then Err(ZeroStep)
    else
      var levels := Range(start, stop + 1, step);
      if levels == [] then Err(NoLevels)
      else if levels[|levels| - 1] != stop then Ok(levels + [stop])
      else Ok(levels)
  }

  /** Strictly ascending, from `start` to `stop`, both included. */
  predicate FromTo(levels: seq<int>, start: int, stop: int) {
    && Ascending(levels) && levels != [] && levels[0] == start && levels[|levels| - 1] == stop
    && forall i :: 0 <= i < |levels| ==> start <= levels[i] <= stop
  }

  /** The levels of a ramp the command line accepts. */
  function AcceptedLevels(start: int, stop: int, step: int): (levels: seq<nat>)
    requires 1 <= start <= stop && step > 0
    ensures FromTo(levels, start, stop)
  {
    LevelsAscend(start, stop, step);
    LevelList(start, stop, step).value
  }

  lemma {:induction false} RangeAscends(start: int, end: int, step: int)
    requires step > 0
    ensures Ascending(Range(start, end, step))
    ensures forall x :: x in Range(start, end, step) ==> start <= x < end
    ensures start < end ==> Range(start, end, step) != [] && Range(start, end, step)[0] == start
    decreases end - start
  {
    if start < end {
      RangeAscends(start + step, end, step);
      var tail := Range(start + step, end, step);
      forall i | 0 <= i < |tail|
        ensures start < tail[i]
      {
        assert tail[i] in tail;
      }
      FrontAscends(start, tail);
    }
  }

  /** Each value is the start plus its place times the step, and the first one past the end is left out. */
  lemma {:induction false} RangeIsEven(start: int, end: int, step: int)
    requires step != 0
    ensures var r := Range(start, end, step);
            && (forall i :: 0 <= i < |r| ==> r[i] == start + i * step && (if step > 0 then r[i] < end else r[i] > end))
            && if step > 0 then start + |r| * step >= end else start + |r| * step <= end
    decreases if step > 0 then end - start else start - end
  {
    var r := Range(start, end, step);
    if r != [] {
      var tail := Range(start + step, end, step);
      RangeIsEven(start + step, end, step);
      forall i | 0 < i < |r|
        ensures r[i] == start + i * step
      {
        assert r[i] == tail[i - 1];
        NextPlace(start, step, i);
      }
      NextPlace(start, step, |r|);
    }
  }

  lemma NextPlace(start: int, step: int, i: int)
    ensures (start + step) + (i - 1) * step == start + i * step
  {
  }

  /**
   * The list, read off the three numbers: every level but a stop put behind them is the start plus its place
   * times the step, none passes the stop, and the next one would. It is an error when that leaves no level.
   */
  lemma LevelsAreEven(start: int, stop: int, step: int)
    ensures step == 0 ==> LevelList(start, stop, step) == Err(ZeroStep)
    ensures step != 0 ==>
              (LevelList(start, stop, step).Ok? <==> if step > 0 then start <= stop else start > stop + 1)
    ensures LevelList(start, stop, step).Ok? ==>
              var levels := LevelList(start, stop, step).value;
              exists n :: 1 <= n <= |levels| && EvenlySpaced(levels[..n], start, stop, step)
                          && levels[n..] == if levels[n - 1] == stop then [] else [stop]
  {
    if step != 0 {
      RangeIsEven(start, stop + 1, step);
      var r := Range(start, stop + 1, step);
      if r != [] {
        var levels := LevelList(start, stop, step).value;
        assert levels[..|r|] == r;
        assert EvenlySpaced(levels[..|r|], start, stop, step);
      }
    }
  }

  /** All of `start`, `start + step`, ... up to the stop, or down to the one after it for a negative step. */
  predicate EvenlySpaced(levels: seq<int>, start: int, stop: int, step: int) {
    && (forall i :: 0 <= i < |levels| ==>
          levels[i] == start + i * step && (if step > 0 then levels[i] <= stop else levels[i] > stop + 1))
    && if step > 0 then start + |levels| * step > stop else start + |levels| * step <= stop + 1
  }

  lemma FrontAscends(x: int, tail: seq<int>)
    requires Ascending(tail) && forall i :: 0 <= i < |tail| ==> x < tail[i]
    ensures Ascending([x] + tail)
  {
  }

  /**
   * On the ramps the command line accepts (start up to stop, positive step) the list is strictly
   * ascending from start to stop; with a step that is not positive it is an error.
   */
  lemma LevelsAscend(start: int, stop: int, step: int)
    requires start <= stop
    ensures LevelList(start, stop, step).Ok? <==> step > 0
    ensures step > 0 ==> FromTo(LevelList(start, stop, step).value, start, stop)
  {
    if step > 0 {
      RangeAscends(start, stop + 1, step);
      var levels := Range(start, stop + 1, step);
      assert forall i :: 0 <= i < |levels| ==> levels[i] in levels;
    }
  }
}
