/** The live-count trend: a bounded FIFO of samples, one appended per refresh. */
module Trend {

  /** `at` is the display-formatted time of the refresh; `live` the live-event count. */
  datatype TrendSample = TrendSample(at: string, live: nat)

  const TrendCapacity: nat := 8

  /** The last `TrendCapacity` elements of `s` (all of `s` if it is shorter). */
  function Window<T>(s: seq<T>): seq<T> {
    if |s| <= TrendCapacity then s else s[|s| - TrendCapacity..]
  }

  /** Push the sample, then drop the oldest one if the buffer grew past capacity. */
  function Record(trend: seq<TrendSample>, sample: TrendSample): (r: seq<TrendSample>)
    ensures |trend| <= TrendCapacity ==> |r| <= TrendCapacity
    ensures |r| > 0 && r[|r| - 1] == sample
    ensures |trend| <= TrendCapacity ==> r == Window(trend + [sample])
  {
    var pushed := trend + [sample];
    if |pushed| > TrendCapacity then pushed[1..] else pushed
  }

  /** Successive refreshes, one sample each, oldest first. */
  function RecordAll(trend: seq<TrendSample>, samples: seq<TrendSample>): seq<TrendSample>
    decreases |samples|
  {
    if samples == [] then trend else RecordAll(Record(trend, samples[0]), samples[1..])
  }

  /** Trimming early and trimming at the end agree. */
  lemma WindowAbsorbs<T>(u: seq<T>, v: seq<T>)
    ensures Window(Window(u) + v) == Window(u + v)
  {
    if |u| > TrendCapacity {
      var w := u[|u| - TrendCapacity..];
      if v == [] {
        assert w + v == w && u + v == u;
      } else {
        var left, right := (w + v)[|v|..], (u + v)[|u| + |v| - TrendCapacity..];
        assert |left| == |right| == TrendCapacity;
        forall i | 0 <= i < TrendCapacity ensures left[i] == right[i] {
          if i < TrendCapacity - |v| {
            assert left[i] == w[|v| + i] == u[|u| - TrendCapacity + |v| + i];
          } else {
            assert left[i] == v[i - (TrendCapacity - |v|)];
          }
        }
        assert Window(w + v) == left;
        assert Window(u + v) == right;
      }
    }
  }

  /** Starting from a buffer within capacity, any run of refreshes leaves
      exactly the newest samples of the whole history, in order. */
  lemma {:induction false} RecordAllKeepsNewest(trend: seq<TrendSample>, samples: seq<TrendSample>)
    requires |trend| <= TrendCapacity
    ensures RecordAll(trend, samples) == Window(trend + samples)
    decreases |samples|
  {
    if samples == [] {
      assert trend + samples == trend;
    } else {
      var x, rest := samples[0], samples[1..];
      var next := Record(trend, x);
      calc {
        RecordAll(trend, samples);
        RecordAll(next, rest);
        { RecordAllKeepsNewest(next, rest); }
        Window(next + rest);
        Window(Window(trend + [x]) + rest);
        { WindowAbsorbs(trend + [x], rest); }
        Window(trend + [x] + rest);
        { assert trend + [x] + rest == trend + samples; }
        Window(trend + samples);
      }
    }
  }

  /** From an empty buffer, `n` refreshes leave the last `min(n, 8)` samples in order. */
  lemma RecordsFromEmpty(samples: seq<TrendSample>)
    ensures |RecordAll([], samples)| == if |samples| < TrendCapacity then |samples| else TrendCapacity
    ensures RecordAll([], samples) == samples[|samples| - |RecordAll([], samples)|..]
  {
    RecordAllKeepsNewest([], samples);
    assert [] + samples == samples;
  }
}
