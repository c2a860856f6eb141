// Concrete runs of the lottery, the wheel layout and the merge on the
// three-participant example of the app: A plain, B excluded, C starred,
// with one slot per participant and a multiplier of 3.

module Scenarios {
  import opened Types
  import opened Sequences
  import opened Lottery
  import opened Wheel
  import opened RouletteWheel

  const Example := Settings(1, 2800.0, 3)

  predicate ExampleCast(a: Participant, b: Participant, c: Participant) {
    !a.isExcluded && !a.isSpecial && b.isExcluded && !c.isExcluded && c.isSpecial && a.id != c.id
  }

  /** A gets one slot, B none and C three, in list order. */
  lemma ExampleLottery(a: Participant, b: Participant, c: Participant)
    requires ExampleCast(a, b, c)
    ensures LotteryPool([a, b, c], Example) == [SlotOf(a), SlotOf(c), SlotOf(c), SlotOf(c)]
    ensures TotalSlots([a, b, c], Example) == 4
    ensures Eligible([a, b, c]) == [a, c]
  {
    var ps, f := [a, b, c], SlotsOf(Example);
    assert ps[..2] == [a, b] && [a, b][..1] == [a] && [a][..0] == [];
    assert f(a) == [SlotOf(a)] && f(b) == [];
    assert f(c) == [SlotOf(c), SlotOf(c), SlotOf(c)];
    assert Flatten([a], f) == [SlotOf(a)];
    assert Flatten([a, b], f) == [SlotOf(a)];
    assert TotalSlots([a], Example) == 1;
    assert TotalSlots([a, b], Example) == 1;
    assert Eligible([a]) == [a];
    assert Eligible([a, b]) == [a];
  }

  /** C wins on three quarters of the draws, A on the first quarter. */
  lemma ExampleOdds(a: Participant, b: Participant, c: Participant, u: real)
    requires ExampleCast(a, b, c) && 0.0 <= u < 1.0
    ensures PerformLottery([a, b, c], Example, u) == if u < 0.25 then Some(a) else Some(c)
  {
    var ps := [a, b, c];
    ExampleLottery(a, b, c);
    assert ps[..2] == [a, b] && ps[..2][..1] == [a] && [a][..0] == [];
    if u < 0.25 {
      WinInterval(ps, Example, u, 0);
    } else {
      WinInterval(ps, Example, u, 2);
    }
  }

  /** One round, one copy of it: A once, then C three times. */
  lemma ExampleWheelPool(a: Participant, b: Participant, c: Participant)
    requires ExampleCast(a, b, c)
    ensures TotalSlots([a, b, c], Example) == 4
    ensures WheelPool([a, b, c], Example) == [a, c, c, c]
  {
    var ps := [a, b, c];
    ExampleLottery(a, b, c);
    assert ps[..2] == [a, b] && [a, b][..1] == [a] && [a][..0] == [];
    var g := RoundBlock(Example);
    assert g(a) == [a] && g(b) == [] && g(c) == [c, c, c];
    assert Flatten([a], g) == [a];
    assert Flatten([a, b], g) == [a];
    assert Round(ps, Example) == [a, c, c, c];
    assert RepeatSeq([a, c, c, c], 1) == [a, c, c, c];
  }

  /** The wheel is A for the first quarter and C for the rest: four 90-degree segments. */
  lemma ExampleSegments(a: Participant, b: Participant, c: Participant)
    requires ExampleCast(a, b, c)
    ensures WheelSegments([a, b, c], Example) ==
      [WheelSegment(a, 0.0, 90.0, 1), WheelSegment(c, 90.0, 180.0, 1),
       WheelSegment(c, 180.0, 270.0, 1), WheelSegment(c, 270.0, 360.0, 1)]
  {
    ExampleWheelPool(a, b, c);
    var pool := [a, c, c, c];
    assert AnglePerSlot(4) == 90.0;
    assert Layout(pool) == [SegmentAt(pool, 0), SegmentAt(pool, 1), SegmentAt(pool, 2), SegmentAt(pool, 3)];
  }

  /** The merge folds C's three neighbouring segments into one wedge. */
  lemma ExampleMerge(a: Participant, b: Participant, c: Participant)
    requires ExampleCast(a, b, c)
    ensures Merge(WheelSegments([a, b, c], Example)) ==
      [MergedSegment(a, 0.0, 90.0), MergedSegment(c, 90.0, 360.0)]
  {
    ExampleSegments(a, b, c);
    var segs := WheelSegments([a, b, c], Example);
    var s0, s1, s2 := segs[0], segs[1], segs[2];
    assert segs[..3] == [s0, s1, s2] && [s0, s1, s2][..2] == [s0, s1] && [s0, s1][..1] == [s0];
    assert Merge([s0]) == [MergedSegment(a, 0.0, 90.0)];
    assert Merge([s0, s1]) == [MergedSegment(a, 0.0, 90.0), MergedSegment(c, 90.0, 180.0)];
    assert Merge([s0, s1, s2]) == [MergedSegment(a, 0.0, 90.0), MergedSegment(c, 90.0, 270.0)];
  }

  /** Landing on A: the only A segment is [0, 90), so the midpoint is 45
      and the wheel turns 1305 degrees. */
  lemma ExampleRotation(a: Participant, b: Participant, c: Participant, v: real)
    requires ExampleCast(a, b, c) && 0.0 <= v < 1.0
    ensures CalculateFinalRotation(WheelSegments([a, b, c], Example), a.id, v) == 1305.0
  {
    ExampleSegments(a, b, c);
    var segs := WheelSegments([a, b, c], Example);
    var s0, s1, s2, s3 := segs[0], segs[1], segs[2], segs[3];
    assert segs[..3] == [s0, s1, s2] && [s0, s1, s2][..2] == [s0, s1] && [s0, s1][..1] == [s0] && [s0][..0] == [];
    assert OwnedBy([s0], a.id) == [s0];
    assert OwnedBy([s0, s1], a.id) == [s0];
    assert OwnedBy([s0, s1, s2], a.id) == [s0];
    assert OwnedBy(segs, a.id) == [s0];
  }

  /** The merge joins neighbours only within one pass from 0 to 360 degrees:
      the runs at both ends of the pool [A, A, A, B, B, A] stay separate
      wedges although they meet at 0 degrees. */
  lemma ExampleNoWrapAround(a: Participant, b: Participant)
    requires a.id != b.id
    ensures Merge(Layout([a, a, a, b, b, a])) ==
      [MergedSegment(a, 0.0, 180.0), MergedSegment(b, 180.0, 300.0), MergedSegment(a, 300.0, 360.0)]
  {
    var pool := [a, a, a, b, b, a];
    assert AnglePerSlot(6) == 60.0;
    var segs := Layout(pool);
    assert segs == [SegmentAt(pool, 0), SegmentAt(pool, 1), SegmentAt(pool, 2),
                    SegmentAt(pool, 3), SegmentAt(pool, 4), SegmentAt(pool, 5)];
    var s0, s1, s2, s3, s4 := segs[0], segs[1], segs[2], segs[3], segs[4];
    assert segs[..5] == [s0, s1, s2, s3, s4];
    assert [s0, s1, s2, s3, s4][..4] == [s0, s1, s2, s3];
    assert [s0, s1, s2, s3][..3] == [s0, s1, s2];
    assert [s0, s1, s2][..2] == [s0, s1] && [s0, s1][..1] == [s0];
    assert Merge([s0, s1]) == [MergedSegment(a, 0.0, 120.0)];
    assert Merge([s0, s1, s2]) == [MergedSegment(a, 0.0, 180.0)];
    assert Merge([s0, s1, s2, s3]) == [MergedSegment(a, 0.0, 180.0), MergedSegment(b, 180.0, 240.0)];
    assert Merge([s0, s1, s2, s3, s4]) == [MergedSegment(a, 0.0, 180.0), MergedSegment(b, 180.0, 300.0)];
  }
}
