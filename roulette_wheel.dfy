// components/RouletteWheel.tsx, lines 39-68 only: the pass that merges
// neighbouring wheel segments of the same participant before drawing. The
// canvas drawing around it is not modelled.

module RouletteWheel {
  import opened Types
  import opened Sequences
  import opened Wheel

  /** One entry of mergedSegments. */
  datatype MergedSegment = MergedSegment(participant: Participant, startAngle: real, endAngle: real)

  /** A fresh merged entry copied from one raw segment. */
  function Opened(g: WheelSegment): MergedSegment {
    MergedSegment(g.participant, g.startAngle, g.endAngle)
  }

  /** The merge, as a specification: scan left to right; the first segment
      opens an entry; a later segment extends the last entry's end angle when
      the participant id repeats, and opens a new entry otherwise. */
  function Merge(segs: seq<WheelSegment>): (merged: seq<MergedSegment>)
    ensures |merged| == 0 <==> |segs| == 0
    ensures |merged| <= |segs|
    ensures |segs| > 0 ==> merged[0].startAngle == segs[0].startAngle
    ensures |segs| > 0 ==> merged[|merged| - 1].endAngle == segs[|segs| - 1].endAngle
    ensures |segs| > 0 ==> merged[|merged| - 1].participant.id == segs[|segs| - 1].participant.id
  {
    if |segs| == 0 then []
    else if |segs| == 1 then [Opened(segs[0])]
    else
      var m := Merge(segs[..|segs| - 1]);
      var segment := segs[|segs| - 1];
      var lastMerged := m[|m| - 1];
      if lastMerged.participant.id == segment.participant.id then
        m[|m| - 1 := lastMerged.(endAngle := segment.endAngle)]
      else
        m + [Opened(segment)]
  }

  /** The forEach over the segments, with mergedSegments as a growing list
      whose last entry is updated in place. */
  method MergeSegments(segments: seq<WheelSegment>) returns (mergedSegments: seq<MergedSegment>)
    ensures mergedSegments == Merge(segments)
  {
    mergedSegments := [];
    for index := 0 to |segments|
      invariant mergedSegments == Merge(segments[..index])
    {
      var segment := segments[index];
      assert segments[..index + 1][..index] == segments[..index];
      if index == 0 {
        mergedSegments := mergedSegments + [MergedSegment(segment.participant, segment.startAngle, segment.endAngle)];
      } else {
        var lastMerged := mergedSegments[|mergedSegments| - 1];
        if lastMerged.participant.id == segment.participant.id {
          mergedSegments := mergedSegments[|mergedSegments| - 1 := lastMerged.(endAngle := segment.endAngle)];
        } else {
          mergedSegments := mergedSegments + [MergedSegment(segment.participant, segment.startAngle, segment.endAngle)];
        }
      }
    }
    assert segments[..|segments|] == segments;
  }

  predicate NoRepeatedNeighbours(m: seq<MergedSegment>) {
    forall k :: 0 <= k < |m| - 1 ==> m[k].participant.id != m[k + 1].participant.id
  }

  /** Neighbouring merged entries always belong to different participants. */
  lemma {:induction false} MergeAdjacentDiffer(segs: seq<WheelSegment>)
    ensures NoRepeatedNeighbours(Merge(segs))
  {
    var n := |segs|;
    if n > 1 {
      var init, segment := segs[..n - 1], segs[n - 1];
      var m, m' := Merge(init), Merge(segs);
      MergeAdjacentDiffer(init);
      var last := |m| - 1;
      if m[last].participant.id == segment.participant.id {
        assert m' == m[last := m[last].(endAngle := segment.endAngle)];
        forall k | 0 <= k < |m'| - 1
          ensures m'[k].participant.id != m'[k + 1].participant.id
        {
          assert m'[k].participant.id == m[k].participant.id;
          assert m'[k + 1].participant.id == m[k + 1].participant.id;
        }
      } else {
        assert m' == m + [Opened(segment)];
      }
    }
  }

  /** The number of positions i > 0 whose participant id differs from that of i - 1. */
  function Boundaries(segs: seq<WheelSegment>): nat {
    if |segs| <= 1 then 0
    else
      var n := |segs|;
      Boundaries(segs[..n - 1]) + (if segs[n - 1].participant.id != segs[n - 2].participant.id then 1 else 0)
  }

  /** One merged entry per run: one plus the number of id changes. */
  lemma {:induction false} MergeCount(segs: seq<WheelSegment>)
    requires |segs| > 0
    ensures |Merge(segs)| == 1 + Boundaries(segs)
  {
    if |segs| > 1 {
      var init := segs[..|segs| - 1];
      MergeCount(init);
      assert init[|init| - 1] == segs[|segs| - 2];
    }
  }

  /** The number of raw segments each merged entry covers. */
  function RunLengths(segs: seq<WheelSegment>): (lens: seq<nat>)
    ensures |lens| == |Merge(segs)|
    ensures forall k :: 0 <= k < |lens| ==> lens[k] > 0
  {
    if |segs| == 0 then []
    else if |segs| == 1 then [1]
    else
      var lens := RunLengths(segs[..|segs| - 1]);
      var m := Merge(segs[..|segs| - 1]);
      if m[|m| - 1].participant.id == segs[|segs| - 1].participant.id then
        lens[|lens| - 1 := lens[|lens| - 1] + 1]
      else
        lens + [1]
  }

  /** The participant ids of the raw segments. */
  function Ids(segs: seq<WheelSegment>): (ids: seq<string>)
    ensures |ids| == |segs|
  {
    seq(|segs|, i requires 0 <= i < |segs| => segs[i].participant.id)
  }

  /** Run-length decoding: each entry's id, repeated its run length. */
  function Expand(m: seq<MergedSegment>, lens: seq<nat>): seq<string>
    requires |lens| == |m|
  {
    if |m| == 0 then []
    else Expand(m[..|m| - 1], lens[..|lens| - 1]) + Repeat(m[|m| - 1].participant.id, lens[|lens| - 1])
  }

  /** The run-length round trip: expanding the merged entries by their run
      lengths gives back the raw sequence of participant ids. */
  lemma {:induction false} MergeRoundTrip(segs: seq<WheelSegment>)
    ensures Expand(Merge(segs), RunLengths(segs)) == Ids(segs)
  {
    var n := |segs|;
    if n == 1 {
      assert Expand(Merge(segs), RunLengths(segs)) == Expand([], []) + Repeat(segs[0].participant.id, 1);
    } else if n > 1 {
      var init, segment := segs[..n - 1], segs[n - 1];
      var m, lens := Merge(init), RunLengths(init);
      var m', lens' := Merge(segs), RunLengths(segs);
      assert Expand(m, lens) == Ids(init) by {
        MergeRoundTrip(init);
      }
      assert Ids(segs) == Ids(init) + [segment.participant.id];
      var last := |m| - 1;
      assert Expand(m', lens') == Expand(m, lens) + [segment.participant.id] by {
        if m[last].participant.id == segment.participant.id {
          assert m' == m[last := m[last].(endAngle := segment.endAngle)];
          assert lens' == lens[last := lens[last] + 1];
          ExpandExtend(m, lens, segment.endAngle);
        } else {
          assert m' == m + [Opened(segment)];
          assert lens' == lens + [1];
          ExpandOpen(m, lens, Opened(segment));
        }
      }
    }
  }

  /** Extending the last entry by one raw segment adds one copy of its id. */
  lemma ExpandExtend(m: seq<MergedSegment>, lens: seq<nat>, endAngle: real)
    requires |m| == |lens| > 0
    ensures Expand(m[|m| - 1 := m[|m| - 1].(endAngle := endAngle)], lens[|m| - 1 := lens[|m| - 1] + 1])
         == Expand(m, lens) + [m[|m| - 1].participant.id]
  {
    var last := |m| - 1;
    var m', lens' := m[last := m[last].(endAngle := endAngle)], lens[last := lens[last] + 1];
    assert m'[..last] == m[..last] && lens'[..last] == lens[..last];
    RepeatSnoc(m[last].participant.id, lens[last]);
  }

  /** Opening a new entry of run length one adds its id. */
  lemma ExpandOpen(m: seq<MergedSegment>, lens: seq<nat>, e: MergedSegment)
    requires |m| == |lens|
    ensures Expand(m + [e], lens + [1]) == Expand(m, lens) + [e.participant.id]
  {
    assert (m + [e])[..|m|] == m && (lens + [1])[..|lens|] == lens;
    assert Repeat(e.participant.id, 1) == [e.participant.id];
  }

  /** The index of the first raw segment of run k. */
  function RunStart(lens: seq<nat>, k: nat): nat
    requires k <= |lens|
  {
    if k == 0 then 0 else RunStart(lens, k - 1) + lens[k - 1]
  }

  lemma {:induction false} RunStartPrefix(lens: seq<nat>, lens': seq<nat>, k: nat)
    requires k <= |lens| && k <= |lens'| && lens[..k] == lens'[..k]
    ensures RunStart(lens, k) == RunStart(lens', k)
  {
    if k > 0 {
      assert lens[k - 1] == lens[..k][k - 1];
      RunStartPrefix(lens, lens', k - 1);
    }
  }

  /** Merged entry k covers the raw segments RunStart(k) .. RunStart(k) + lens[k] - 1. */
  predicate Spans(segs: seq<WheelSegment>, m: seq<MergedSegment>, lens: seq<nat>, k: nat)
    requires k < |m| == |lens|
  {
    var start := RunStart(lens, k);
    start + lens[k] <= |segs| && lens[k] > 0 &&
    m[k].participant == segs[start].participant &&
    m[k].startAngle == segs[start].startAngle &&
    m[k].endAngle == segs[start + lens[k] - 1].endAngle
  }

  /** Each merged entry spans from its first raw segment's start to its last
      raw segment's end, and keeps the participant of its first raw segment. */
  lemma {:induction false} MergeSpans(segs: seq<WheelSegment>, k: nat)
    requires k < |Merge(segs)|
    ensures Spans(segs, Merge(segs), RunLengths(segs), k)
    decreases |segs|, 1
  {
    var n := |segs|;
    if n > 1 {
      var m := Merge(segs[..n - 1]);
      if m[|m| - 1].participant.id == segs[n - 1].participant.id {
        MergeSpansExtend(segs, k);
      } else {
        MergeSpansOpen(segs, k);
      }
    }
  }

  /** The inductive step when the final raw segment extends the last entry. */
  lemma {:induction false} MergeSpansExtend(segs: seq<WheelSegment>, k: nat)
    requires |segs| > 1 && k < |Merge(segs)|
    requires var m := Merge(segs[..|segs| - 1]);
             m[|m| - 1].participant.id == segs[|segs| - 1].participant.id
    ensures Spans(segs, Merge(segs), RunLengths(segs), k)
    decreases |segs|, 0
  {
    var n := |segs|;
    var init, segment := segs[..n - 1], segs[n - 1];
    var m, lens := Merge(init), RunLengths(init);
    var m', lens' := Merge(segs), RunLengths(segs);
    RunsCover(init);
    if k < |m| {
      MergeSpans(init, k);
    }
    var last := |m| - 1;
    assert Spans(segs, m', lens', k) by {
      assert m' == m[last := m[last].(endAngle := segment.endAngle)];
      assert lens' == lens[last := lens[last] + 1];
      assert lens[..k] == lens'[..k];
      if k == last {
        SpansGrowLast(segs, m, lens, m', lens');
      } else {
        SpansKeep(segs, m, lens, m', lens', k);
      }
    }
  }

  /** The inductive step when the final raw segment opens a new entry. */
  lemma {:induction false} MergeSpansOpen(segs: seq<WheelSegment>, k: nat)
    requires |segs| > 1 && k < |Merge(segs)|
    requires var m := Merge(segs[..|segs| - 1]);
             m[|m| - 1].participant.id != segs[|segs| - 1].participant.id
    ensures Spans(segs, Merge(segs), RunLengths(segs), k)
    decreases |segs|, 0
  {
    var n := |segs|;
    var init, segment := segs[..n - 1], segs[n - 1];
    var m, lens := Merge(init), RunLengths(init);
    var m', lens' := Merge(segs), RunLengths(segs);
    RunsCover(init);
    if k < |m| {
      MergeSpans(init, k);
    }
    assert Spans(segs, m', lens', k) by {
      assert m' == m + [Opened(segment)];
      assert lens' == lens + [1];
      if k < |m| {
        assert lens[..k] == lens'[..k];
        SpansKeep(segs, m, lens, m', lens', k);
      } else {
        assert lens'[..|lens|] == lens;
        SpansOpenLast(segs, lens, m', lens');
      }
    }
  }

  /** An entry whose span the final raw segment does not touch keeps that span. */
  lemma SpansKeep(segs: seq<WheelSegment>, m: seq<MergedSegment>, lens: seq<nat>,
                  m': seq<MergedSegment>, lens': seq<nat>, k: nat)
    requires |segs| > 0 && k < |m| == |lens| && k < |m'| == |lens'|
    requires Spans(segs[..|segs| - 1], m, lens, k)
    requires m'[k] == m[k] && lens'[k] == lens[k] && lens[..k] == lens'[..k]
    ensures Spans(segs, m', lens', k)
  {
    RunStartPrefix(lens, lens', k);
    var init, start := segs[..|segs| - 1], RunStart(lens, k);
    assert segs[start] == init[start];
    assert segs[start + lens[k] - 1] == init[start + lens[k] - 1];
  }

  /** Extending the last entry stretches its span over the final raw segment. */
  lemma SpansGrowLast(segs: seq<WheelSegment>, m: seq<MergedSegment>, lens: seq<nat>,
                      m': seq<MergedSegment>, lens': seq<nat>)
    requires |segs| > 1 && 0 < |m| == |lens| == |m'| == |lens'|
    requires Spans(segs[..|segs| - 1], m, lens, |m| - 1)
    requires RunStart(lens, |m|) == |segs| - 1
    requires m'[|m| - 1] == m[|m| - 1].(endAngle := segs[|segs| - 1].endAngle)
    requires lens'[|m| - 1] == lens[|m| - 1] + 1 && lens[..|m| - 1] == lens'[..|m| - 1]
    ensures Spans(segs, m', lens', |m| - 1)
  {
    RunStartPrefix(lens, lens', |m| - 1);
    var init, start := segs[..|segs| - 1], RunStart(lens, |m| - 1);
    assert segs[start] == init[start];
  }

  /** An entry opened for the final raw segment spans exactly that segment. */
  lemma SpansOpenLast(segs: seq<WheelSegment>, lens: seq<nat>, m': seq<MergedSegment>, lens': seq<nat>)
    requires |segs| > 1 && 0 < |lens| && |m'| == |lens'| == |lens| + 1 && lens'[..|lens|] == lens
    requires m'[|lens|] == Opened(segs[|segs| - 1]) && lens'[|lens|] == 1
    requires RunStart(lens, |lens|) == |segs| - 1
    ensures Spans(segs, m', lens', |lens|)
  {
    RunStartPrefix(lens, lens', |lens| - 1);
    assert RunStart(lens', |lens|) == |segs| - 1;
  }

  /** The runs cover the raw segments exactly. */
  lemma {:induction false} RunsCover(segs: seq<WheelSegment>)
    ensures RunStart(RunLengths(segs), |RunLengths(segs)|) == |segs|
  {
    var n := |segs|;
    if n > 1 {
      var init := segs[..n - 1];
      var m, lens := Merge(init), RunLengths(init);
      RunsCover(init);
      if m[|m| - 1].participant.id == segs[n - 1].participant.id {
        RunStartGrowLast(lens);
      } else {
        RunStartOpen(lens);
      }
    }
  }

  /** One more raw segment in the last run moves the end of the runs by one. */
  lemma RunStartGrowLast(lens: seq<nat>)
    requires |lens| > 0
    ensures RunStart(lens[|lens| - 1 := lens[|lens| - 1] + 1], |lens|) == RunStart(lens, |lens|) + 1
  {
    var last := |lens| - 1;
    var lens' := lens[last := lens[last] + 1];
    assert lens[..last] == lens'[..last];
    RunStartPrefix(lens, lens', last);
  }

  /** A new run of length one moves the end of the runs by one. */
  lemma RunStartOpen(lens: seq<nat>)
    ensures RunStart(lens + [1], |lens| + 1) == RunStart(lens, |lens|) + 1
  {
    assert (lens + [1])[..|lens|] == lens;
    RunStartPrefix(lens, lens + [1], |lens|);
  }
}
