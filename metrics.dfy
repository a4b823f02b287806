/** The metric charts' rolling window: twenty labelled samples, shifted left by one on
    every tick with the new sample appended, then relabelled by position. Sample values are
    reals; the rounding to one decimal place is not modelled. */
module Metrics {
  import opened Types
  import opened Text

  /** The label of position i after a tick: `${19 - i}s ago` (negative past index 19). */
  function AgoLabel(i: int): string {
    IntToString(19 - i) + "s ago"
  }

  /** The label of position i of the initial window: `${20 - i}s`. */
  function InitialLabel(i: int): string {
    IntToString(20 - i) + "s"
  }

  /** The decimal text of a number identifies it. */
  lemma NatToStringInjective(m: nat, n: nat)
    requires m != n
    ensures NatToString(m) != NatToString(n)
  {
    DecimalRoundTrip(m);
    DecimalRoundTrip(n);
  }

  /** The initial window: twenty zero samples labelled "20s" down to "1s". */
  function InitialData(): (r: seq<SystemMetric>)
    ensures |r| == 20
    ensures forall i :: 0 <= i < 20 ==> r[i].value == 0.0 && r[i].name == InitialLabel(i)
    ensures r[0].name == "20s" && r[19].name == "1s"
    ensures forall i, j :: 0 <= i < j < 20 ==> r[i].name != r[j].name
  {
    var r := seq(20, i requires 0 <= i < 20 => SystemMetric(InitialLabel(i), 0.0));
    InitialEndLabels();
    forall i, j | 0 <= i < j < 20 ensures r[i].name != r[j].name {
      InitialLabelsDistinct(i, j);
    }
    r
  }

  lemma InitialEndLabels()
    ensures InitialLabel(0) == "20s" && InitialLabel(19) == "1s"
  {
    assert NatToString(20) == NatToString(2) + [DigitChar(0)];
  }

  lemma InitialLabelsDistinct(i: int, j: int)
    requires 0 <= i < j <= 20
    ensures InitialLabel(i) != InitialLabel(j)
  {
    NatToStringInjective(20 - i, 20 - j);
    SuffixCancel(NatToString(20 - i), NatToString(20 - j), "s");
  }

  lemma SuffixCancel(a: string, b: string, c: string)
    ensures a + c == b + c ==> a == b
  {
    if a + c == b + c {
      assert a == (a + c)[..|a|];
      assert |a| == |b|;
      assert b == (b + c)[..|b|];
    }
  }

  /** The values of a window, oldest first. */
  function Values(d: seq<SystemMetric>): (v: seq<real>)
    ensures |v| == |d|
    ensures forall i :: 0 <= i < |d| ==> v[i] == d[i].value
  {
    seq(|d|, i requires 0 <= i < |d| => d[i].value)
  }

  /** `updateData`: drop the oldest sample, append the new one, relabel every position. An
      empty window becomes a window of one. */
  function UpdateData(data: seq<SystemMetric>, sample: real): (r: seq<SystemMetric>)
    ensures |r| == if |data| == 0 then 1 else |data|
    ensures forall i :: 0 <= i < |r| - 1 ==> r[i].value == data[i + 1].value
    ensures r[|r| - 1].value == sample
    ensures forall i :: 0 <= i < |r| ==> r[i].name == AgoLabel(i)
  {
    var shifted := (if |data| == 0 then [] else data[1..]) + [SystemMetric("now", sample)];
    seq(|shifted|, i requires 0 <= i < |shifted| => shifted[i].(name := AgoLabel(i)))
  }

  /** On a non-empty window a tick is a shift: the values move one place towards the front
      and the sample enters at the back. */
  lemma TickShifts(data: seq<SystemMetric>, sample: real)
    requires |data| > 0
    ensures Values(UpdateData(data, sample)) == Values(data)[1..] + [sample]
  {
  }

  /** A run of ticks, one sample each, oldest sample first. */
  function TickAll(data: seq<SystemMetric>, samples: seq<real>): (r: seq<SystemMetric>)
    ensures |data| > 0 ==> |r| == |data|
    ensures |samples| > 0 ==> forall i :: 0 <= i < |r| ==> r[i].name == AgoLabel(i)
    decreases |samples|
  {
    if |samples| == 0 then data else TickAll(UpdateData(data, samples[0]), samples[1..])
  }

  /** After any run of ticks on a non-empty window, the window holds the most recent
      samples of the old values followed by the new samples, and its length is kept. */
  lemma {:induction false} TickAllWindow(data: seq<SystemMetric>, samples: seq<real>)
    requires |data| > 0
    ensures Values(TickAll(data, samples)) == (Values(data) + samples)[|samples|..]
    decreases |samples|
  {
    if |samples| == 0 {
      assert Values(data) + samples == Values(data);
    } else {
      var next := UpdateData(data, samples[0]);
      TickShifts(data, samples[0]);
      TickAllWindow(next, samples[1..]);
      SlideWindow(Values(data), samples);
    }
  }

  lemma SlideWindow(v: seq<real>, w: seq<real>)
    requires |v| > 0 && |w| > 0
    ensures (v[1..] + [w[0]] + w[1..])[|w| - 1..] == (v + w)[|w|..]
  {
    assert v[1..] + [w[0]] + w[1..] == (v + w)[1..];
  }

  /** The dashboard's charts: from the initial window, every run of ticks keeps twenty
      samples, labelled "19s ago" down to "0s ago" once a tick has happened. */
  lemma ChartWindow(samples: seq<real>)
    requires |samples| > 0
    ensures |TickAll(InitialData(), samples)| == 20
    ensures TickAll(InitialData(), samples)[0].name == "19s ago"
    ensures TickAll(InitialData(), samples)[19].name == "0s ago"
  {
    assert AgoLabel(0) == NatToString(19) + "s ago";
    assert NatToString(19) == NatToString(1) + [DigitChar(9)];
    assert AgoLabel(19) == NatToString(0) + "s ago";
  }
}
