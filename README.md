# GyuLette roulette core in Dafny

GyuLette is a weighted roulette app. Participants sit on a wheel. An
excluded participant gets no slot. Every other participant gets
`globalSlotCount` slots, and a starred ("当たってほしい!!", special)
participant gets `globalSlotCount * specialMultiplier` slots. A spin does
three things:
- it draws the winner uniformly from the slot pool;
- it picks one of the winner's wedges;
- it animates the wheel with a cubic ease-out, so that the middle of that wedge stops under the pointer at 12 o'clock.

This project models that core and proves its properties.

Files:
- `types.dfy` (module `Types`): `Participant`, `AppSettings` (as `Settings`) and `Slot`. It also holds the default settings and `ValidSettings`:
  - at least one slot per round;
  - a multiplier of at least 2;
  - a positive spin duration.

  These bounds are the lower ends of the settings sliders at `pages/index.tsx:362`, `:384` and `:407`. They are required only where a property depends on them.
- `sequences.dfy` (module `Sequences`): generic helpers.
  - `Repeat` gives n copies of a value.
  - `Flatten` concatenates one block per list element. It is built left to right, the way the source's loops push onto an array.
  - `RepeatSeq` gives k copies of a sequence.
- `lottery.ts` → `lottery.dfy` (module `Lottery`): the slot weight and the lottery pool.
  - The pool is built by the imperative `CreateLotteryPool`, which is proved equal to the specification `LotteryPool`.
  - `Math.random()` is a parameter `u` with `0 <= u < 1`. The drawn index is `Floor(u * n)`, exactly as the source computes it, and the draw is proved uniform.
  - The module also has the winner draw and the eligible filter.
  - `TotalSlots` is the sum of the slot counts, the reduce at `lib/wheel.ts:29-32`. It is a plain specification function; `LotteryPoolLength`, `Wheel.SumSlotCounts` and `Wheel.WheelPoolLength` state what it means.
- `wheel.ts` → `wheel.dfy` (module `Wheel`): the round-robin slot pool of the wheel, the equal-width segments, the landing angle and the final rotation.
  - `CreateWheelSegments` keeps the source's loops. The reduce is `SumSlotCounts`, the round loops are `BuildSlotPool`, and the segment loop is `LayoutSegments`.
  - The central fact is `PoolsAgree`. For every participant, the wheel pool and the lottery pool hold the same number of entries, namely the participant's slot count. So the drawn winner always owns a wedge, with or without distinct ids.
- `RouletteWheel.tsx` → `roulette_wheel.dfy` (module `RouletteWheel`): only the loop that merges neighbouring wedges of the same participant before drawing.
  - It is proved to be a run-length encoding: there is a round trip back to the raw ids, a count of the runs, and the span of each run.
  - It does not wrap around 0°.
- `index.tsx` → `index_page.dfy` (module `IndexPage`) covers:
  - parsing the `participants` query value (`split(',')`, `trim`, drop the empty names);
  - the add, delete and toggle handlers;
  - the spin guard, the predicate `IndexPage.Home.CanSpin` (`pages/index.tsx:136` and `:185`): not spinning and at least one eligible participant. `HandleSpin` changes nothing exactly when `CanSpin()` is false;
  - the animation tick.

  The page state is the class `Home`. React's state setters become field assignments. The values that the `animate` closure captures become fields: `startTime`, `finalRotation`, the chosen winner's id and the duration. A `framePending` flag stands for the outstanding `requestAnimationFrame` request.
- `scenarios.dfy` (module `Scenarios`): the app's running example, worked through every stage:
  - the cast is A plain, B excluded and C starred, with 1 slot and a multiplier of 3;
  - the pool is [A, C, C, C] and A wins exactly when u < 0.25;
  - the four 90° wedges merge into A 0–90° and C 90–360°;
  - landing on A turns the wheel 1305°.

  A second example shows that the pool [A, A, A, B, B, A] merges into three wedges, not two.

Angles, the ease-out and the progress ratio are exact `real`s.
`calculateFinalRotation` gives `3*360 + (360 - target) - 90`. For a real wedge midpoint (0 < target < 360), the rotation therefore lies strictly between 990° and 1350°. The source's comment says "at least 3 turns", but when the target is above 270° the wheel turns between 2.75 and 3 turns.

## Model

| member | source | states |
|---|---|---|
| Lottery.SlotCount | lib/lottery.ts:6-24 | Under valid settings the count is 0 exactly for an excluded participant. Otherwise it is at least `globalSlotCount`, and at least twice that for a starred one (base times multiplier). |
| Lottery.CreateLotteryPool | lib/lottery.ts:29-47 | The nested push loops build exactly `LotteryPool`: every participant's `SlotCount` copies of its slot, in list order. |
| Lottery.LotteryPoolLength | lib/lottery.ts:33-46 | The pool's length is the sum of the slot counts. |
| Lottery.LotteryPoolSlots | lib/lottery.ts:35-43 | Every slot's `participantId` is its participant's id, and that participant is in the list and not excluded. |
| Lottery.LotteryPoolBlock | lib/lottery.ts:35-44 | Participant j's slots form one contiguous block. It starts right after the slots of the participants before j. |
| Lottery.DrawIndex | lib/lottery.ts:57 | `Math.floor(Math.random() * n)` is a valid index below n. |
| Lottery.DrawIndexInterval | lib/lottery.ts:57 | The draw is uniform: index i comes out exactly when i/n <= u < (i+1)/n. |
| Lottery.SelectWinner | lib/lottery.ts:52-59 | No slot exactly when the pool is empty. Otherwise the result is the pool entry at the drawn index. |
| Lottery.PerformLottery | lib/lottery.ts:64-71 | No winner exactly when the total slot count is 0. A winner is a member of the list that is not excluded. |
| Lottery.WinInterval | lib/lottery.ts:64-71 | Participant j wins whenever u lies in its share of [0, 1), an interval of width SlotCount/TotalSlots starting at its offset. |
| Lottery.Eligible | lib/lottery.ts:76-80 | The filter keeps exactly the participants that are not excluded, and is never longer than the list. |
| Lottery.EligibleAppend | lib/lottery.ts:79 | The filter distributes over concatenation, so the kept participants stay in their relative order. |
| Lottery.NoSlotsIffNoneEligible | lib/lottery.ts:11-13 | Under valid settings the pool is empty exactly when nobody is eligible. |
| Wheel.CreateWheelSegments | lib/wheel.ts:18-74 | The function returns `WheelSegments`. That is [] when the reduce gives 0 slots, and otherwise the equal-width layout of the round-robin pool. |
| Wheel.SumSlotCounts | lib/wheel.ts:23-32 | The reduce over the participants' slot counts gives exactly `TotalSlots`, the lottery pool's length. |
| Wheel.LayoutSegments | lib/wheel.ts:59-73 | The forEach pushes exactly the equal-width `Layout` of the pool, one segment per entry in pool order. |
| Wheel.BuildSlotPool | lib/wheel.ts:39-57 | The round, participant and copy loops build exactly `globalSlotCount` copies of one round. |
| Wheel.SlotCountPerRound | lib/wheel.ts:42-55 | One round gives a participant `RoundCopies` entries. `globalSlotCount` rounds give exactly its lottery slot count. |
| Wheel.RoundLength | lib/wheel.ts:42-57 | `globalSlotCount` times the round length is the total slot count. |
| Wheel.WheelPoolLength | lib/wheel.ts:29-36 | The wheel pool, the total from the reduce and the lottery pool all have the same size. |
| Wheel.LotteryCountIsSlotCount | lib/lottery.ts:35-44 | The lottery pool holds exactly `SlotCount` slots of each participant, summed over its occurrences in the list. |
| Wheel.LotteryCountPerRound | lib/wheel.ts:42-57 | A participant's lottery slots number `globalSlotCount` times its entries in one round. |
| Wheel.PoolsAgree | lib/wheel.ts:42-57 | Every participant occurs in the wheel pool as often as its slots occur in the lottery pool. Both counts equal its slot count. |
| Wheel.WheelSegmentsEmpty | lib/wheel.ts:34-36 | No segments exactly when the total is 0. Under valid settings that happens exactly when nobody is eligible. |
| Wheel.WheelPoolBlock | lib/wheel.ts:43-55 | In every round, participant j's entries are one contiguous run after those of the earlier participants: M copies when starred, one when plain, none when excluded. |
| Wheel.AnglePerSlotFills | lib/wheel.ts:61 | `360 / n` is positive, and n wedges of it fill exactly 360°. |
| Wheel.LayoutGeometry | lib/wheel.ts:59-71 | Segment i belongs to pool entry i, starts at i·360/n, ends one width later and has `slotCount` 1. Neighbours abut, the first starts at 0 and the last ends at 360. |
| Wheel.LayoutPrefixWidths | lib/wheel.ts:63-71 | The first k segments together are k widths wide. |
| Wheel.LayoutWidths | lib/wheel.ts:59-71 | The segment widths sum to 360°. |
| Wheel.LayoutMidpoints | lib/wheel.ts:93 | Every segment's midpoint lies strictly between 0 and 360. |
| Wheel.OwnedBy | lib/wheel.ts:84 | The filter keeps exactly the segments whose participant has the given id, and is never longer than the segment list. |
| Wheel.OwnedByAppend | lib/wheel.ts:84 | The filter distributes over concatenation, so the owned segments keep their wheel order. |
| Wheel.SegmentAngle | lib/wheel.ts:79-94 | 0 when the participant owns no segment. Otherwise the midpoint of one of its own segments. |
| Wheel.FinalRotation | lib/wheel.ts:105-113 | The rotation plus the target is 3·360 + 270. For a target strictly inside (0, 360) the rotation lies in (990, 1350). |
| Wheel.CalculateFinalRotation | lib/wheel.ts:99-114 | The rotation plus the chosen landing angle is 1350°, which brings that angle under the pointer after the full turns. |
| Wheel.WinnerOwnsSegment | lib/wheel.ts:84-87 | A winner drawn from the same participants and settings owns a segment. So the `return 0` fallback is never taken, the angle is a real midpoint, and the rotation lies in (990, 1350). |
| RouletteWheel.Merge | components/RouletteWheel.tsx:45-68 | Empty exactly for no segments, and never longer than the input. The first entry starts where the first segment starts. The last entry ends where the last segment ends and has its participant's id. |
| RouletteWheel.MergeSegments | components/RouletteWheel.tsx:39-68 | The forEach that pushes entries and extends the last one's `endAngle` in place computes exactly `Merge`. |
| RouletteWheel.MergeAdjacentDiffer | components/RouletteWheel.tsx:54-66 | Neighbouring merged entries always have different participant ids. |
| RouletteWheel.MergeCount | components/RouletteWheel.tsx:54-66 | The number of entries is 1 plus the number of positions whose id differs from the previous segment's. |
| RouletteWheel.RunLengths | components/RouletteWheel.tsx:54-66 | Every merged entry covers a positive number of raw segments. |
| RouletteWheel.MergeRoundTrip | components/RouletteWheel.tsx:45-68 | Expanding each entry's id by its run length gives back the raw sequence of participant ids. |
| RouletteWheel.MergeSpans | components/RouletteWheel.tsx:58 | Entry k starts at its first raw segment's start angle and has its participant. It ends at its last raw segment's end angle. |
| RouletteWheel.RunsCover | components/RouletteWheel.tsx:45-68 | The runs together cover all raw segments. |
| IndexPage.TrimStart | pages/index.tsx:44 | The result is empty or starts with a character that is not white space. |
| IndexPage.TrimEnd | pages/index.tsx:44 | The result is empty or ends with a character that is not white space. |
| IndexPage.TrimStartSpan | pages/index.tsx:44 | The result is a suffix of the input, and what was dropped is all white space. |
| IndexPage.TrimEndSpan | pages/index.tsx:44 | The result is a prefix of the input, and what was dropped is all white space. |
| IndexPage.Trim | pages/index.tsx:88 | The result neither starts nor ends with white space and is no longer than the input. |
| IndexPage.TrimSpan | pages/index.tsx:88 | The input is white space, then the trimmed string, then white space. |
| IndexPage.TrimIdempotent | pages/index.tsx:44 | Trimming twice gives the same string as trimming once. |
| IndexPage.TrimInfix | pages/index.tsx:44 | Every character of the trimmed string occurs in the input. |
| IndexPage.SplitCommas | pages/index.tsx:43 | There is at least one piece, and no piece contains a comma. |
| IndexPage.SplitJoin | pages/index.tsx:43 | Joining the pieces with commas gives back the input. |
| IndexPage.SplitAtComma | pages/index.tsx:43 | Splitting `a,b` gives a's pieces followed by b's pieces. |
| IndexPage.SplitNoComma | pages/index.tsx:43 | A string without a comma splits into itself. |
| IndexPage.TrimmedNames | pages/index.tsx:44-45 | Every kept name is non-empty and trimmed. Comma-free pieces give comma-free names. |
| IndexPage.TrimmedNamesAppend | pages/index.tsx:44-45 | The map and filter distribute over concatenation, so input order is kept. |
| IndexPage.ParseNames | pages/index.tsx:42-45 | Every parsed name is non-empty, trimmed and free of commas. |
| IndexPage.ParseNamesAppend | pages/index.tsx:42-45 | The names of `a,b` are a's names followed by b's: the names keep their input order. |
| IndexPage.ParseNamesSingle | pages/index.tsx:42-45 | A comma-free value gives its trimmed self, or nothing when it is blank. |
| IndexPage.ParticipantsFromQuery | pages/index.tsx:40-54 | No override exactly when the value is missing or empty (falsy). Otherwise there is one participant per parsed name, in order, with the generated id and colour, not excluded and not starred. |
| IndexPage.AddParticipant | pages/index.tsx:87-104 | No change for a blank trimmed name. Otherwise the earlier entries are kept, followed by one new participant that has the trimmed name and is neither excluded nor starred. |
| IndexPage.DeleteParticipant | pages/index.tsx:107-112 | The kept entries are exactly those with a different id, and the list never grows. |
| IndexPage.DeleteAppend | pages/index.tsx:110 | Deletion distributes over concatenation, so the rest keeps its order. |
| IndexPage.ToggleExclude | pages/index.tsx:115-122 | Same length. `isExcluded` flips exactly on the matching ids, and every other field stays unchanged. |
| IndexPage.ToggleSpecial | pages/index.tsx:125-132 | Same length. `isSpecial` flips exactly on the matching ids, and every other field stays unchanged. |
| IndexPage.ToggleTwice | pages/index.tsx:115-132 | Toggling either flag twice on the same id gives back the list. |
| IndexPage.Progress | pages/index.tsx:160 | Progress is at most 1, and non-negative for non-negative elapsed time. It is 1 exactly once the duration has elapsed. |
| IndexPage.ProgressMonotone | pages/index.tsx:160 | Progress never decreases as time passes. |
| IndexPage.EaseOut | pages/index.tsx:163 | The ease-out maps [0, 1] into [0, 1]. It is 1 at progress 1 and below 1 before. |
| IndexPage.EaseOutMonotone | pages/index.tsx:163 | The ease-out never decreases on [0, 1]. |
| IndexPage.EasedProgress | pages/index.tsx:160-163 | Over a spin, the eased progress never decreases, stays in [0, 1], and is 1 exactly from the end of the duration on. |
| IndexPage.EasedRotationMonotone | pages/index.tsx:164 | The emitted rotation never decreases and stays within [0, finalRotation]. It equals finalRotation exactly once the duration has elapsed. |
| IndexPage.WinnerIsDrawn | pages/index.tsx:143-150 | Once somebody is eligible, the lottery draws a winner, so the null fallback is unreachable. The rotation toward the winner's wedge lies in (990, 1350). |
| IndexPage.Home.constructor | pages/index.tsx:37-66 | The initial state uses the loaded participants unless the query value gives some, and the loaded settings. It starts not spinning, at rotation 0, with no winner and no modal. |
| IndexPage.Home.SetNewParticipantName | pages/index.tsx:238 | The typed text becomes the pending name. |
| IndexPage.Home.HandleAddParticipant | pages/index.tsx:87-104 | The list becomes `AddParticipant` of the pending name. The name is cleared only when a participant was added. |
| IndexPage.Home.HandleDeleteParticipant | pages/index.tsx:107-112 | The list becomes `DeleteParticipant` of the old list. |
| IndexPage.Home.HandleToggleExclude | pages/index.tsx:115-122 | The list becomes `ToggleExclude` of the old list. |
| IndexPage.Home.HandleToggleSpecial | pages/index.tsx:125-132 | The list becomes `ToggleSpecial` of the old list. |
| IndexPage.Home.HandleSpin | pages/index.tsx:135-177 | Nothing changes while spinning or when nobody is eligible. Otherwise the spin starts: no modal, no winner shown, and a winner drawn with u. The rotation toward its wedge (picked with v) is captured and lies in (990, 1350). The duration is snapshotted, the start time is unset and a frame is requested. |
| IndexPage.Home.StartSpin | pages/index.tsx:138-156 | Past the guard, the spin flag is set, the modal and the shown winner are cleared, and the target rotation, the winner's id and the duration are captured with no start time and a frame requested. Participants, settings, the pending name and the current rotation are unchanged. |
| IndexPage.Home.Animate | pages/index.tsx:157-174 | The start time is captured when unset (including the falsy 0), and the rotation is set to finalRotation times the eased progress. Below progress 1 another frame is requested and nothing else changes. At progress 1 the spin ends, the captured winner is set and the modal opens. |
| Scenarios.ExampleLottery | lib/lottery.ts:29-47 | A plain, B excluded and C starred (1 slot, ×3) give the pool [A, C, C, C], 4 slots and eligible [A, C]. |
| Scenarios.ExampleOdds | lib/lottery.ts:64-71 | In that example A wins exactly when u < 1/4, and C otherwise. |
| Scenarios.ExampleWheelPool | lib/wheel.ts:39-57 | The example's wheel pool is [A, C, C, C]. |
| Scenarios.ExampleSegments | lib/wheel.ts:59-71 | The example's wheel is four 90° segments: A, then C three times. |
| Scenarios.ExampleMerge | components/RouletteWheel.tsx:45-68 | The example merges into A 0–90° and C 90–360°. |
| Scenarios.ExampleRotation | lib/wheel.ts:99-114 | Landing on A in the example (midpoint 45°) means a rotation of 1305°. |
| Scenarios.ExampleNoWrapAround | components/RouletteWheel.tsx:45-68 | The pool [A, A, A, B, B, A] merges into A 0–180°, B 180–300° and A 300–360°. The end runs are not joined across 0°. |

## Left out

- Wheel.SegmentAngle: the contract says the angle is the midpoint of *one of* the participant's segments. It does not say which one the draw picks (`owned[Floor(v * |owned|)]`, the same draw that `Lottery.DrawIndexInterval` proves uniform).
- IndexPage.Home.Animate: it follows the source's falsy test `!startTime`. A first frame at timestamp 0 therefore leaves the start time effectively unset, and the next frame captures it again. The contract states this as written; "captured on the first tick only" holds only for non-zero timestamps.
- `Math.random()`: it is the parameter `u` (winner draw) or `v` (wedge pick), a real with 0 <= u < 1.
- `generateId` and `generatePastelColor`: they are parameters. `idOf` and `colorOf` serve the query path, and `id` and `color` serve the add handler.
- IEEE-754 doubles: angles, `360 / n`, `Math.pow` and the progress division are exact reals. Rounding, `NaN` and infinities are not modelled.
- `requestAnimationFrame` and the display clock: the scheduler is the `framePending` flag, and each frame is one `Animate` call with its timestamp.
- Progress clamping: the source clamps only from above (`Math.min(…, 1)`), and the model follows the source. A timestamp earlier than the start gives negative progress, which the model keeps.
- React batching and re-rendering: each state setter is an immediate field assignment. The values that `handleSpin` hands to `animate` are captured fields, so later list edits do not affect a running spin, as in the source.
- `URLSearchParams` and `window.location`: the query value arrives already decoded, as `Option<string>`.
- lib/storage.ts: `loadState`, `saveState`, the auto-save effect and `isInitialized` are I/O. The loaded state is a constructor parameter.
- Strings are sequences of Unicode scalar values, not UTF-16 code units. The white space that `trim` removes is the ECMAScript set of white space and line terminators.
- Settings changes from the sliders, the settings and participant panel toggles, `handleCloseModal` and the `winner` lookup for the modal: these are UI plumbing outside the modelled core.
- The canvas drawing in components/RouletteWheel.tsx, components/WinnerModal.tsx and pages/_document.tsx: these are presentation only.
- The `if (!selectedWinner)` branch of `handleSpin`: after the guard it cannot run (`IndexPage.WinnerIsDrawn`), so the model has no such branch.
