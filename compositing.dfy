/**
 * The progress reports of `maskVideo` while the encoder composites the
 * video onto the template: 20 is reported before, each encoder event maps
 * its percentage to `min(20 + round(0.6 * percent), 80)`, and a value is
 * reported only when it is above the last one reported.
 */
module Compositing {
  import opened Wrappers

  /** `Math.round(x)`: the nearest integer, halves rounded up. */
  function Round(x: real): int {
    (x + 0.5).Floor
  }

  /** The value an encoder event maps to; an absent, zero or NaN `percent` counts as 0. */
  function Mapped(percent: Option<real>): (v: int)
    ensures v <= 80
    ensures percent.None? ==> v == 20
    ensures percent.Some? && percent.value >= 0.0 ==> 20 <= v
  {
    var p := if percent.None? then 0.0 else percent.value;
    var v := 20 + Round(p * 0.6);
    if v < 80 then v else 80
  }

  /** The values reported for the events, given the last value reported before them. */
  function Reports(events: seq<Option<real>>, last: int): seq<int> {
    if |events| == 0 then []
    else
      var v := Mapped(events[0]);
      if v > last then [v] + Reports(events[1..], v) else Reports(events[1..], last)
  }

  /** The largest of `last` and the mapped values of the events. */
  function Highest(events: seq<Option<real>>, last: int): int {
    if |events| == 0 then last
    else
      var v := Mapped(events[0]);
      Highest(events[1..], if v > last then v else last)
  }

  /** Reports rise strictly, each above the one before and never above 80. */
  lemma {:induction false} ReportsRise(events: seq<Option<real>>, last: int)
    ensures forall i :: 0 <= i < |Reports(events, last)| ==> last < Reports(events, last)[i] <= 80
    ensures forall i, j :: 0 <= i < j < |Reports(events, last)| ==> Reports(events, last)[i] < Reports(events, last)[j]
  {
    if |events| > 0 {
      var v := Mapped(events[0]);
      if v > last {
        ReportsRise(events[1..], v);
      } else {
        ReportsRise(events[1..], last);
      }
    }
  }

  /** The last value reported (or `last` when none is) is the highest mapped value. */
  lemma {:induction false} LastReportIsHighest(events: seq<Option<real>>, last: int)
    ensures var r := Reports(events, last);
      (if |r| == 0 then last else r[|r| - 1]) == Highest(events, last)
  {
    if |events| > 0 {
      var v := Mapped(events[0]);
      if v > last {
        LastReportIsHighest(events[1..], v);
      } else {
        LastReportIsHighest(events[1..], last);
      }
    }
  }

  /** The highest mapped value is at least `last` and at least every event's mapped value. */
  lemma {:induction false} HighestBounds(events: seq<Option<real>>, last: int)
    ensures last <= Highest(events, last)
    ensures forall i :: 0 <= i < |events| ==> Mapped(events[i]) <= Highest(events, last)
  {
    if |events| > 0 {
      var v := Mapped(events[0]);
      HighestBounds(events[1..], if v > last then v else last);
      forall i | 1 <= i < |events| ensures Mapped(events[i]) <= Highest(events, last) {
        assert events[i] == events[1..][i - 1];
      }
    }
  }

  /**
   * The `progress` handler over a run of encoder events: the values passed
   * to `onProgress`, in order. They rise strictly from above 20 to at most
   * 80.
   */
  method CompositeProgress(events: seq<Option<real>>) returns (reports: seq<int>)
    ensures reports == Reports(events, 20)
    ensures forall i :: 0 <= i < |reports| ==> 20 < reports[i] <= 80
    ensures forall i, j :: 0 <= i < j < |reports| ==> reports[i] < reports[j]
  {
    reports := [];
    var lastProgress := 20;
    var i := 0;
    while i < |events|
      invariant 0 <= i <= |events|
      invariant reports + Reports(events[i..], lastProgress) == Reports(events, 20)
    {
      assert events[i..][1..] == events[i + 1..];
      var currentProgress := Mapped(events[i]);
      if currentProgress > lastProgress {
        assert Reports(events[i..], lastProgress) == [currentProgress] + Reports(events[i + 1..], currentProgress);
        lastProgress := currentProgress;
        reports := reports + [currentProgress];
      }
      i := i + 1;
    }
    assert events[i..] == [];
    ReportsRise(events, 20);
  }

  /**
   * Everything `maskVideo` reports: 20 before encoding, the encoder's
   * reports, then 80 before compression and 100 at the end; never lower
   * than a value reported before it.
   */
  lemma AllReportsNonDecreasing(events: seq<Option<real>>)
    ensures var all := [20] + Reports(events, 20) + [80, 100];
      forall i, j :: 0 <= i < j < |all| ==> all[i] <= all[j]
  {
    ReportsRise(events, 20);
    var r := Reports(events, 20);
    var all := [20] + r + [80, 100];
    forall i, j | 0 <= i < j < |all| ensures all[i] <= all[j] {
      if 1 <= i <= |r| && 1 <= j <= |r| {
        assert all[i] == r[i - 1] && all[j] == r[j - 1];
      } else if 1 <= i <= |r| {
        assert all[i] == r[i - 1];
      } else if 1 <= j <= |r| {
        assert all[j] == r[j - 1];
      }
    }
  }
}
