// lib/wheel.ts: the round-robin slot pool of the wheel, its equal-width
// segments, the landing angle for a winner and the final rotation.
// Angles are exact reals; the source's doubles are not modelled.

module Wheel {
  import opened Types
  import opened Sequences
  import opened Lottery

  /** WheelSegment: one wedge of the wheel, in degrees. */
  datatype WheelSegment = WheelSegment(
    participant: Participant,
    startAngle: real,
    endAngle: real,
    slotCount: nat)

  /** The copies one round of the wheel pool gives a participant: none when
      its slot count is 0, the special multiplier when starred, otherwise one. */
  function RoundCopies(p: Participant, s: Settings): nat {
    if SlotCount(p, s) > 0 then (if p.isSpecial then s.specialMultiplier else 1) else 0
  }

  /** The entries one participant pushes in one round. */
  function RoundBlock(s: Settings): Participant -> seq<Participant> {
    p => if SlotCount(p, s) > 0 then (if p.isSpecial then Repeat(p, s.specialMultiplier) else [p]) else []
  }

  /** One round: every participant's entries, in list order. */
  function Round(ps: seq<Participant>, s: Settings): seq<Participant> {
    Flatten(ps, RoundBlock(s))
  }

  /** The slot pool: globalSlotCount rounds, one after the other. */
  function WheelPool(ps: seq<Participant>, s: Settings): seq<Participant> {
    RepeatSeq(Round(ps, s), s.globalSlotCount)
  }

  /** The position in the wheel pool where round r begins. */
  function RoundStart(ps: seq<Participant>, s: Settings, r: nat): nat {
    r * |Round(ps, s)|
  }

  function AnglePerSlot(n: nat): real
    requires n > 0
  {
    360.0 / n as real
  }

  /** Cut 360 degrees into |pool| equal segments, assigned in pool order from 0. */
  function Layout(pool: seq<Participant>): seq<WheelSegment>
    requires |pool| > 0
  {
    seq(|pool|, i requires 0 <= i < |pool| => SegmentAt(pool, i))
  }

  /** Segment number i of the layout. */
  function SegmentAt(pool: seq<Participant>, i: nat): WheelSegment
    requires i < |pool|
  {
    var angle := AnglePerSlot(|pool|);
    WheelSegment(pool[i], angle * i as real, angle * i as real + angle, 1)
  }

  /** createWheelSegments, as a specification. */
  function WheelSegments(ps: seq<Participant>, s: Settings): seq<WheelSegment> {
    if TotalSlots(ps, s) == 0 then []
    else
      WheelPoolLength(ps, s);
      Layout(WheelPool(ps, s))
  }

  /** createWheelSegments: the reduce for the total, the round / participant /
      copy loops that push onto slotPool, then the loop that pushes the segments. */
  method CreateWheelSegments(ps: seq<Participant>, s: Settings) returns (segments: seq<WheelSegment>)
    ensures segments == WheelSegments(ps, s)
  {
    var totalSlots := SumSlotCounts(ps, s);
    if totalSlots == 0 {
      return [];
    }
    var slotPool := BuildSlotPool(ps, s);
    WheelPoolLength(ps, s);
    segments := LayoutSegments(slotPool);
  }

  /** The reduce of createWheelSegments: the slot counts of all participants, added up. */
  method SumSlotCounts(ps: seq<Participant>, s: Settings) returns (totalSlots: nat)
    ensures totalSlots == TotalSlots(ps, s)
  {
    totalSlots := 0;
    for k := 0 to |ps|
      invariant totalSlots == TotalSlots(ps[..k], s)
    {
      totalSlots := totalSlots + SlotCount(ps[k], s);
      assert ps[..k + 1][..k] == ps[..k];
    }
    assert ps[..|ps|] == ps;
  }

  /** The last loop of createWheelSegments: one segment of width 360 / |slotPool|
      per pool entry, in pool order. */
  method LayoutSegments(slotPool: seq<Participant>) returns (segments: seq<WheelSegment>)
    requires |slotPool| > 0
    ensures segments == Layout(slotPool)
  {
    var anglePerSlot := 360.0 / |slotPool| as real;
    assert anglePerSlot == AnglePerSlot(|slotPool|);
    segments := [];
    for index := 0 to |slotPool|
      invariant segments == Layout(slotPool)[..index]
    {
      var startAngle := anglePerSlot * index as real;
      var segment := WheelSegment(slotPool[index], startAngle, startAngle + anglePerSlot, 1);
      assert segment == SegmentAt(slotPool, index);
      LayoutSnoc(slotPool, index);
      segments := segments + [segment];
    }
    assert segments == Layout(slotPool) by {
      assert Layout(slotPool)[..|slotPool|] == Layout(slotPool);
    }
  }

  /** The slot pool loops of createWheelSegments: for every round, every
      participant with a nonzero slot count pushes specialMultiplier copies of
      itself when starred and one copy otherwise. */
  method BuildSlotPool(ps: seq<Participant>, s: Settings) returns (slotPool: seq<Participant>)
    ensures slotPool == WheelPool(ps, s)
  {
    slotPool := [];
    for round := 0 to s.globalSlotCount
      invariant slotPool == RepeatSeq(Round(ps, s), round)
    {
      ghost var before := slotPool;
      for k := 0 to |ps|
        invariant slotPool == before + Round(ps[..k], s)
      {
        var participant := ps[k];
        ghost var pushed := RoundBlock(s)(participant);
        if SlotCount(participant, s) > 0 {
          if participant.isSpecial {
            for i := 0 to s.specialMultiplier
              invariant slotPool == before + Round(ps[..k], s) + Repeat(participant, i)
            {
              slotPool := slotPool + [participant];
              RepeatSnoc(participant, i);
            }
          } else {
            slotPool := slotPool + [participant];
          }
        }
        assert slotPool == before + Round(ps[..k], s) + pushed;
        RoundSnoc(ps, s, k);
      }
      assert ps[..|ps|] == ps;
    }

  }

  lemma RoundSnoc(ps: seq<Participant>, s: Settings, k: nat)
    requires k < |ps|
    ensures Round(ps[..k + 1], s) == Round(ps[..k], s) + RoundBlock(s)(ps[k])
  {
    assert ps[..k + 1][..k] == ps[..k];
  }

  lemma LayoutSnoc(pool: seq<Participant>, index: nat)
    requires index < |pool|
    ensures Layout(pool)[..index + 1] == Layout(pool)[..index] + [SegmentAt(pool, index)]
  {
  }

  /** A participant's slot count is its per-round copies times the number of rounds. */
  lemma SlotCountPerRound(p: Participant, s: Settings)
    ensures SlotCount(p, s) == s.globalSlotCount * RoundCopies(p, s)
    ensures |RoundBlock(s)(p)| == RoundCopies(p, s)
    ensures forall x :: multiset(RoundBlock(s)(p))[x] == if x == p then RoundCopies(p, s) else 0
  {
    forall x ensures multiset(RoundBlock(s)(p))[x] == if x == p then RoundCopies(p, s) else 0 {
      if SlotCount(p, s) > 0 && p.isSpecial {
        RepeatMultiset(p, s.specialMultiplier, x);
      }
    }
  }

  lemma {:induction false} RoundLength(ps: seq<Participant>, s: Settings)
    ensures s.globalSlotCount * |Round(ps, s)| == TotalSlots(ps, s)
  {
    if ps != [] {
      var init, p := ps[..|ps| - 1], ps[|ps| - 1];
      RoundLength(init, s);
      SlotCountPerRound(p, s);
      var g := s.globalSlotCount;
      assert g * (|Round(init, s)| + RoundCopies(p, s)) == g * |Round(init, s)| + g * RoundCopies(p, s);
    }
  }

  /** The wheel pool has exactly as many entries as the lottery pool. */
  lemma WheelPoolLength(ps: seq<Participant>, s: Settings)
    ensures |WheelPool(ps, s)| == TotalSlots(ps, s) == |LotteryPool(ps, s)|
  {
    RepeatSeqLength(Round(ps, s), s.globalSlotCount);
    RoundLength(ps, s);
    LotteryPoolLength(ps, s);
  }

  lemma {:induction false} LotteryCountPerRound(ps: seq<Participant>, s: Settings, x: Participant)
    ensures multiset(LotteryPool(ps, s))[SlotOf(x)] == s.globalSlotCount * multiset(Round(ps, s))[x]
  {
    if ps != [] {
      var init, p := ps[..|ps| - 1], ps[|ps| - 1];
      LotteryCountPerRound(init, s, x);
      BlockCountPerRound(p, s, x);
      CountsSnoc(ps, s, x);
      MulDistributes(s.globalSlotCount, multiset(Round(init, s))[x], multiset(RoundBlock(s)(p))[x]);
    }
  }

  /** The last participant adds its own block to both pools. */
  lemma CountsSnoc(ps: seq<Participant>, s: Settings, x: Participant)
    requires ps != []
    ensures var init, p := ps[..|ps| - 1], ps[|ps| - 1];
            multiset(LotteryPool(ps, s))[SlotOf(x)]
              == multiset(LotteryPool(init, s))[SlotOf(x)] + multiset(SlotsOf(s)(p))[SlotOf(x)] &&
            multiset(Round(ps, s))[x] == multiset(Round(init, s))[x] + multiset(RoundBlock(s)(p))[x]
  {
    var init, p := ps[..|ps| - 1], ps[|ps| - 1];
    assert LotteryPool(ps, s) == LotteryPool(init, s) + SlotsOf(s)(p);
    assert Round(ps, s) == Round(init, s) + RoundBlock(s)(p);
  }

  /** One participant's slots in the lottery pool are its round copies, once per round. */
  lemma BlockCountPerRound(p: Participant, s: Settings, x: Participant)
    ensures multiset(SlotsOf(s)(p))[SlotOf(x)] == s.globalSlotCount * multiset(RoundBlock(s)(p))[x]
  {
    SlotCountPerRound(p, s);
    RepeatMultiset(SlotOf(p), SlotCount(p, s), SlotOf(x));
  }

  lemma MulDistributes(g: nat, a: nat, b: nat)
    ensures g * (a + b) == g * a + g * b
  {
  }

  /** The key cross-file fact: every participant has as many entries in the
      wheel pool as it has slots in the lottery pool. */
  lemma PoolsAgree(ps: seq<Participant>, s: Settings, x: Participant)
    ensures multiset(WheelPool(ps, s))[x] == multiset(LotteryPool(ps, s))[SlotOf(x)] == SlotCountIn(ps, s, x)
  {
    RepeatSeqMultiset(Round(ps, s), s.globalSlotCount, x);
    LotteryCountPerRound(ps, s, x);
    LotteryCountIsSlotCount(ps, s, x);
  }

  /** The slot count summed over every list position holding x. */
  function SlotCountIn(ps: seq<Participant>, s: Settings, x: Participant): nat {
    if ps == [] then 0
    else SlotCountIn(ps[..|ps| - 1], s, x) + (if ps[|ps| - 1] == x then SlotCount(x, s) else 0)
  }

  lemma {:induction false} LotteryCountIsSlotCount(ps: seq<Participant>, s: Settings, x: Participant)
    ensures multiset(LotteryPool(ps, s))[SlotOf(x)] == SlotCountIn(ps, s, x)
  {
    if ps != [] {
      var init, p := ps[..|ps| - 1], ps[|ps| - 1];
      LotteryCountIsSlotCount(init, s, x);
      RepeatMultiset(SlotOf(p), SlotCount(p, s), SlotOf(x));
      assert multiset(LotteryPool(ps, s)) == multiset(LotteryPool(init, s)) + multiset(SlotsOf(s)(p));
    }
  }

  /** No segments exactly when there are no slots: an empty list, everybody
      excluded, or (outside the valid settings) a base count of 0. */
  lemma WheelSegmentsEmpty(ps: seq<Participant>, s: Settings)
    ensures WheelSegments(ps, s) == [] <==> TotalSlots(ps, s) == 0
    ensures ValidSettings(s) ==> (WheelSegments(ps, s) == [] <==> Eligible(ps) == [])
  {
    if ValidSettings(s) {
      NoSlotsIffNoneEligible(ps, s);
    }
  }

  /** In round r, participant j's entries sit right after those of the
      participants before it: a run of specialMultiplier copies when starred,
      one copy when not, none when excluded. */
  lemma WheelPoolBlock(ps: seq<Participant>, s: Settings, r: nat, j: nat)
    requires ValidSettings(s) && r < s.globalSlotCount && j < |ps|
    ensures var start := RoundStart(ps, s, r) + |Round(ps[..j], s)|;
            var copies := if ps[j].isExcluded then 0 else if ps[j].isSpecial then s.specialMultiplier else 1;
            start + copies <= |WheelPool(ps, s)| &&
            WheelPool(ps, s)[start .. start + copies] == Repeat(ps[j], copies)
  {
    var copies := if ps[j].isExcluded then 0 else if ps[j].isSpecial then s.specialMultiplier else 1;
    RoundInPool(ps, s, r);
    BlockInRound(ps, s, j);
    SliceOfSlice(WheelPool(ps, s), Round(ps, s), RoundStart(ps, s, r), |Round(ps[..j], s)|, copies);
  }

  lemma RoundInPool(ps: seq<Participant>, s: Settings, r: nat)
    requires r < s.globalSlotCount
    ensures RoundStart(ps, s, r) + |Round(ps, s)| <= |WheelPool(ps, s)|
    ensures WheelPool(ps, s)[RoundStart(ps, s, r) .. RoundStart(ps, s, r) + |Round(ps, s)|] == Round(ps, s)
  {
    RepeatSeqSlice(Round(ps, s), s.globalSlotCount, r);
    assert (r + 1) * |Round(ps, s)| == RoundStart(ps, s, r) + |Round(ps, s)|;
  }

  lemma BlockInRound(ps: seq<Participant>, s: Settings, j: nat)
    requires ValidSettings(s) && j < |ps|
    ensures var lo, copies := |Round(ps[..j], s)|, if ps[j].isExcluded then 0 else if ps[j].isSpecial then s.specialMultiplier else 1;
            lo + copies <= |Round(ps, s)| && Round(ps, s)[lo .. lo + copies] == Repeat(ps[j], copies)
  {
    var copies := if ps[j].isExcluded then 0 else if ps[j].isSpecial then s.specialMultiplier else 1;
    FlattenSlice(ps, RoundBlock(s), j);
    assert RoundBlock(s)(ps[j]) == Repeat(ps[j], copies);
  }

  /** The width of every segment, added up. */
  function SumWidths(segs: seq<WheelSegment>): real {
    if segs == [] then 0.0 else SumWidths(segs[..|segs| - 1]) + (segs[|segs| - 1].endAngle - segs[|segs| - 1].startAngle)
  }

  lemma {:induction false} LayoutPrefixWidths(pool: seq<Participant>, k: nat)
    requires 0 < |pool| && k <= |pool|
    ensures SumWidths(Layout(pool)[..k]) == k as real * AnglePerSlot(|pool|)
  {
    if k > 0 {
      LayoutPrefixWidths(pool, k - 1);
      assert Layout(pool)[..k][..k - 1] == Layout(pool)[..k - 1];
    }
  }

  lemma AnglePerSlotFills(n: nat)
    requires n > 0
    ensures AnglePerSlot(n) > 0.0 && AnglePerSlot(n) * n as real == 360.0
  {
  }

  /** The segments tile [0, 360): segment i spans [i*w, (i+1)*w) for the width
      w = 360/n, the first starts at 0, the last ends at 360, consecutive
      segments abut and each holds one slot. */
  lemma LayoutGeometry(pool: seq<Participant>)
    requires |pool| > 0
    ensures var segs, n, w := Layout(pool), |pool|, AnglePerSlot(|pool|);
            |segs| == n && w * n as real == 360.0 &&
            segs[0].startAngle == 0.0 && segs[n - 1].endAngle == 360.0 &&
            (forall i :: 0 <= i < n ==>
               segs[i].participant == pool[i] && segs[i].slotCount == 1 &&
               segs[i].startAngle == i as real * w &&
               segs[i].endAngle == (i + 1) as real * w) &&
            (forall i :: 0 <= i < n - 1 ==> segs[i].endAngle == segs[i + 1].startAngle)
  {
    var n, w := |pool|, AnglePerSlot(|pool|);
    AnglePerSlotFills(n);
    assert (n - 1) as real * w + w == n as real * w;
  }

  /** The widths of the segments add up to the full circle. */
  lemma LayoutWidths(pool: seq<Participant>)
    requires |pool| > 0
    ensures SumWidths(Layout(pool)) == 360.0
  {
    var n := |pool|;
    LayoutPrefixWidths(pool, n);
    AnglePerSlotFills(n);
    assert Layout(pool)[..n] == Layout(pool);
  }

  /** Every segment midpoint lies strictly inside (0, 360). */
  lemma LayoutMidpoints(pool: seq<Participant>, i: nat)
    requires i < |pool|
    ensures 0.0 < (Layout(pool)[i].startAngle + Layout(pool)[i].endAngle) / 2.0 < 360.0
  {
    var n, w := |pool|, AnglePerSlot(|pool|);
    AnglePerSlotFills(n);
    var a, b := Layout(pool)[i].startAngle, Layout(pool)[i].endAngle;
    MulMono(w, 0.0, i as real);
    MulMono(w, (i + 1) as real, n as real);
    assert w * (i + 1) as real == w * i as real + w;
    assert 0.0 <= a && b == a + w && b <= 360.0;
  }

  lemma MulMono(w: real, a: real, b: real)
    requires w >= 0.0 && a <= b
    ensures w * a <= w * b
  {
    assert w * b - w * a == w * (b - a);
  }

  /** The segments of one participant, in wheel order (the filter on id). */
  function OwnedBy(segs: seq<WheelSegment>, id: string): (r: seq<WheelSegment>)
    ensures forall g :: g in r <==> g in segs && g.participant.id == id
    ensures |r| <= |segs|
  {
    if segs == [] then []
    else
      var last := segs[|segs| - 1];
      assert segs == segs[..|segs| - 1] + [last];
      OwnedBy(segs[..|segs| - 1], id) + (if last.participant.id == id then [last] else [])
  }

  /** The filter distributes over concatenation: the owned segments keep their wheel order. */
  lemma {:induction false} OwnedByAppend(a: seq<WheelSegment>, b: seq<WheelSegment>, id: string)
    ensures OwnedBy(a + b, id) == OwnedBy(a, id) + OwnedBy(b, id)
  {
    if b != [] {
      var b' := b[..|b| - 1];
      assert (a + b)[..|a + b| - 1] == a + b';
      OwnedByAppend(a, b', id);
    } else {
      assert a + b == a;
    }
  }

  /** getSegmentAngleForParticipant: 0 when the participant owns no segment,
      otherwise the midpoint of the owned segment the draw u picks. */
  function SegmentAngle(segs: seq<WheelSegment>, id: string, u: real): (angle: real)
    requires 0.0 <= u < 1.0
    ensures OwnedBy(segs, id) == [] ==> angle == 0.0
    ensures OwnedBy(segs, id) != [] ==>
      exists g :: g in segs && g.participant.id == id && angle == (g.startAngle + g.endAngle) / 2.0
  {
    var owned := OwnedBy(segs, id);
    if |owned| == 0 then 0.0
    else
      var g := owned[DrawIndex(u, |owned|)];
      (g.startAngle + g.endAngle) / 2.0
  }

  /** The minimum number of turns in calculateFinalRotation. */
  const MinRotations: nat := 3

  /** The closing formula of calculateFinalRotation: the full turns, plus the
      turn that brings the target back to 0, minus 90 for the pointer at 12 o'clock. */
  function FinalRotation(targetAngle: real): (rotation: real)
    ensures rotation + targetAngle == MinRotations as real * 360.0 + 270.0
    ensures 0.0 < targetAngle < 360.0 ==> 990.0 < rotation < 1350.0
  {
    var extraRotation := MinRotations as real * 360.0;
    extraRotation + (360.0 - targetAngle) - 90.0
  }

  /** calculateFinalRotation: the landing angle of the winner, turned into the
      rotation that stops it under the pointer. */
  function CalculateFinalRotation(segs: seq<WheelSegment>, winnerId: string, u: real): (rotation: real)
    requires 0.0 <= u < 1.0
    ensures rotation + SegmentAngle(segs, winnerId, u) == 1350.0
  {
    FinalRotation(SegmentAngle(segs, winnerId, u))
  }

  /** A winner drawn by the lottery from the same participants and settings
      owns a segment of the wheel, so its landing angle is a real midpoint in
      (0, 360) and the fallback 0 of getSegmentAngleForParticipant is never taken. */
  lemma WinnerOwnsSegment(ps: seq<Participant>, s: Settings, u: real, v: real)
    requires 0.0 <= u < 1.0 && 0.0 <= v < 1.0
    requires PerformLottery(ps, s, u).Some?
    ensures var w := PerformLottery(ps, s, u).value;
            OwnedBy(WheelSegments(ps, s), w.id) != [] &&
            0.0 < SegmentAngle(WheelSegments(ps, s), w.id, v) < 360.0 &&
            990.0 < CalculateFinalRotation(WheelSegments(ps, s), w.id, v) < 1350.0
  {
    var w := PerformLottery(ps, s, u).value;
    var pool := LotteryPool(ps, s);
    LotteryPoolLength(ps, s);
    var k := DrawIndex(u, |pool|);
    LotteryPoolSlots(ps, s, k);
    assert pool[k] == SlotOf(w);
    PoolsAgree(ps, s, w);
    assert multiset(pool)[SlotOf(w)] > 0;
    var wheelPool := WheelPool(ps, s);
    assert w in wheelPool;
    var i :| 0 <= i < |wheelPool| && wheelPool[i] == w;
    var segs := WheelSegments(ps, s);
    assert segs == Layout(wheelPool);
    assert segs[i] in OwnedBy(segs, w.id);
    var owned := OwnedBy(segs, w.id);
    var g := owned[DrawIndex(v, |owned|)];
    assert g in segs;
    var j :| 0 <= j < |segs| && segs[j] == g;
    LayoutMidpoints(wheelPool, j);
  }
}
