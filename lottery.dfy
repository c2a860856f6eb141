// lib/lottery.ts: slot weighting, the lottery pool, the random draw and the
// eligible-participant filter. Math.random() is an injected real u with
// 0 <= u < 1; the drawn index is Math.floor(u * n), exactly as the source
// computes it.

module Lottery {
  import opened Types
  import opened Sequences

  /** calculateSlotCount: 0 for an excluded participant, otherwise the base
      count, multiplied by the special multiplier for a starred participant. */
  function SlotCount(p: Participant, s: Settings): (n: nat)
    ensures ValidSettings(s) ==> (n == 0 <==> p.isExcluded)
    ensures ValidSettings(s) && !p.isExcluded ==> n >= s.globalSlotCount
    ensures ValidSettings(s) && p.isSpecial && !p.isExcluded ==> n >= 2 * s.globalSlotCount
  {
    if p.isExcluded then 0
    else
      var base := s.globalSlotCount;
      if p.isSpecial then base * s.specialMultiplier else base
  }

  /** The slot a participant contributes to the pool. */
  function SlotOf(p: Participant): Slot {
    Slot(p.id, p)
  }

  /** The block of slots one participant contributes. */
  function SlotsOf(s: Settings): Participant -> seq<Slot> {
    p => Repeat(SlotOf(p), SlotCount(p, s))
  }

  /** createLotteryPool, as a specification: each participant's block of
      slots, in list order. */
  function LotteryPool(ps: seq<Participant>, s: Settings): seq<Slot> {
    Flatten(ps, SlotsOf(s))
  }

  /** The sum of the slot counts (the reduce in lib/wheel.ts). */
  function TotalSlots(ps: seq<Participant>, s: Settings): nat {
    if ps == [] then 0 else TotalSlots(ps[..|ps| - 1], s) + SlotCount(ps[|ps| - 1], s)
  }

  /** createLotteryPool: a loop over the participants with an inner loop
      pushing one slot per unit of weight. */
  method CreateLotteryPool(ps: seq<Participant>, s: Settings) returns (pool: seq<Slot>)
    ensures pool == LotteryPool(ps, s)
  {
    pool := [];
    for k := 0 to |ps|
      invariant pool == LotteryPool(ps[..k], s)
    {
      var participant := ps[k];
      var slotCount := SlotCount(participant, s);
      for i := 0 to slotCount
        invariant pool == LotteryPool(ps[..k], s) + Repeat(SlotOf(participant), i)
      {
        pool := pool + [Slot(participant.id, participant)];
        RepeatSnoc(SlotOf(participant), i);
      }
      assert ps[..k + 1][..k] == ps[..k];
    }
    assert ps[..|ps|] == ps;
  }

  lemma {:induction false} LotteryPoolLength(ps: seq<Participant>, s: Settings)
    ensures |LotteryPool(ps, s)| == TotalSlots(ps, s)
  {
    if ps != [] {
      LotteryPoolLength(ps[..|ps| - 1], s);
    }
  }

  /** Every slot names its own participant, who is in the list and not excluded. */
  lemma LotteryPoolSlots(ps: seq<Participant>, s: Settings, k: nat)
    requires k < |LotteryPool(ps, s)|
    ensures LotteryPool(ps, s)[k].participantId == LotteryPool(ps, s)[k].participant.id
    ensures LotteryPool(ps, s)[k].participant in ps
    ensures !LotteryPool(ps, s)[k].participant.isExcluded
  {
    var slot := LotteryPool(ps, s)[k];
    FlattenMember(ps, SlotsOf(s), slot);
    var j :| 0 <= j < |ps| && slot in SlotsOf(s)(ps[j]);
    assert slot == SlotOf(ps[j]);
  }

  /** Participant j's slots are one contiguous block, placed after the blocks
      of the participants before it. */
  lemma LotteryPoolBlock(ps: seq<Participant>, s: Settings, j: nat)
    requires j < |ps|
    ensures TotalSlots(ps[..j], s) + SlotCount(ps[j], s) <= |LotteryPool(ps, s)|
    ensures LotteryPool(ps, s)[TotalSlots(ps[..j], s) .. TotalSlots(ps[..j], s) + SlotCount(ps[j], s)]
         == Repeat(SlotOf(ps[j]), SlotCount(ps[j], s))
  {
    FlattenSlice(ps, SlotsOf(s), j);
    LotteryPoolLength(ps[..j], s);
  }

  /** Math.floor(u * n) for the injected draw u. */
  function DrawIndex(u: real, n: nat): (i: nat)
    requires 0.0 <= u < 1.0 && n > 0
    ensures i < n
  {
    BelowOneScaled(u, n as real);
    var x := u * n as real;
    assert x.Floor as real < n as real;
    assert x.Floor < n;
    x.Floor
  }

  lemma BelowOneScaled(u: real, n: real)
    requires 0.0 <= u < 1.0 && n > 0.0
    ensures 0.0 <= u * n < n
  {
    assert n - u * n == (1.0 - u) * n;
  }

  /** Dividing by a positive n: a / n <= u exactly when a <= u * n. */
  lemma DivLeIff(a: real, n: real, u: real)
    requires n > 0.0
    ensures a / n <= u <==> a <= u * n
    ensures u < a / n <==> u * n < a
  {
    assert a / n * n == a;
    if a / n <= u {
      assert a / n * n <= u * n;
    }
    if a <= u * n {
      assert a / n <= u * n / n;
    }
    if u < a / n {
      assert u * n < a / n * n;
    }
    if u * n < a {
      assert u * n / n < a / n;
    }
  }

  /** The draw is uniform: index i comes out exactly on an interval of u of width 1/n. */
  lemma DrawIndexInterval(u: real, n: nat, i: nat)
    requires 0.0 <= u < 1.0 && n > 0
    ensures DrawIndex(u, n) == i <==> i as real / n as real <= u < (i + 1) as real / n as real
  {
    var x := u * n as real;
    assert x.Floor as real <= x < x.Floor as real + 1.0;
    DivLeIff(i as real, n as real, u);
    DivLeIff((i + 1) as real, n as real, u);
  }

  /** selectWinner: no slot for an empty pool, otherwise the slot at the drawn index. */
  function SelectWinner(pool: seq<Slot>, u: real): (r: Option<Slot>)
    requires 0.0 <= u < 1.0
    ensures r.None? <==> pool == []
    ensures r.Some? ==> r.value in pool && r.value == pool[DrawIndex(u, |pool|)]
  {
    if |pool| == 0 then None else Some(pool[DrawIndex(u, |pool|)])
  }

  /** performLottery: build the pool and draw one slot's participant. */
  function PerformLottery(ps: seq<Participant>, s: Settings, u: real): (r: Option<Participant>)
    requires 0.0 <= u < 1.0
    ensures r.None? <==> TotalSlots(ps, s) == 0
    ensures r.Some? ==> r.value in ps && !r.value.isExcluded
  {
    LotteryPoolLength(ps, s);
    var pool := LotteryPool(ps, s);
    match SelectWinner(pool, u)
    case None => None
    case Some(slot) =>
      LotteryPoolSlots(ps, s, DrawIndex(u, |pool|));
      Some(slot.participant)
  }

  /** Participant j wins whenever u falls into its share of [0, 1): an
      interval of width SlotCount / TotalSlots. */
  lemma WinInterval(ps: seq<Participant>, s: Settings, u: real, j: nat)
    requires 0.0 <= u < 1.0 && j < |ps| && TotalSlots(ps, s) > 0
    requires TotalSlots(ps[..j], s) as real / TotalSlots(ps, s) as real <= u
    requires u < (TotalSlots(ps[..j], s) + SlotCount(ps[j], s)) as real / TotalSlots(ps, s) as real
    ensures PerformLottery(ps, s, u) == Some(ps[j])
  {
    var lo, c := TotalSlots(ps[..j], s), SlotCount(ps[j], s);
    var n := TotalSlots(ps, s);
    LotteryPoolLength(ps, s);
    LotteryPoolBlock(ps, s, j);
    var i := DrawIndex(u, n);
    DrawInRange(u, n, lo, lo + c);
    var pool := LotteryPool(ps, s);
    assert pool[i] == pool[lo .. lo + c][i - lo];
  }

  /** A draw u in [lo/n, hi/n) gives an index in [lo, hi). */
  lemma DrawInRange(u: real, n: nat, lo: nat, hi: nat)
    requires 0.0 <= u < 1.0 && n > 0
    requires lo as real / n as real <= u < hi as real / n as real
    ensures lo <= DrawIndex(u, n) < hi
  {
    var x := u * n as real;
    DivLeIff(lo as real, n as real, u);
    DivLeIff(hi as real, n as real, u);
    assert x.Floor as real <= x < x.Floor as real + 1.0;
  }

  /** getEligibleParticipants: the participants that are not excluded. */
  function Eligible(ps: seq<Participant>): (r: seq<Participant>)
    ensures forall p :: p in r <==> p in ps && !p.isExcluded
    ensures |r| <= |ps|
  {
    if ps == [] then []
    else
      var last := ps[|ps| - 1];
      assert ps == ps[..|ps| - 1] + [last];
      Eligible(ps[..|ps| - 1]) + (if last.isExcluded then [] else [last])
  }

  /** The filter keeps relative order: it distributes over concatenation. */
  lemma {:induction false} EligibleAppend(a: seq<Participant>, b: seq<Participant>)
    ensures Eligible(a + b) == Eligible(a) + Eligible(b)
  {
    if b != [] {
      var b' := b[..|b| - 1];
      assert (a + b)[..|a + b| - 1] == a + b';
      EligibleAppend(a, b');
    } else {
      assert a + b == a;
    }
  }

  /** With valid settings the pool is empty exactly when nobody is eligible. */
  lemma {:induction false} NoSlotsIffNoneEligible(ps: seq<Participant>, s: Settings)
    requires ValidSettings(s)
    ensures TotalSlots(ps, s) == 0 <==> Eligible(ps) == []
  {
    if ps != [] {
      NoSlotsIffNoneEligible(ps[..|ps| - 1], s);
    }
  }
}
