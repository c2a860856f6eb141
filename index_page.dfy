// pages/index.tsx: parsing the `participants` query value, the participant
// list handlers, the spin guard and the per-frame animation step. React's
// state setters become field assignments of the Home class; ids, colours,
// Math.random() and frame timestamps are parameters.

module IndexPage {
  import opened Types
  import opened Lottery
  import opened Wheel

  // ---------------------------------------------------------------------
  // String.prototype.trim and split(',')
  // ---------------------------------------------------------------------

  /** The characters String.prototype.trim removes: white space and line terminators. */
  predicate IsWhiteSpace(c: char) {
    var n := c as int;
    (0x09 <= n <= 0x0D) || n == 0x20 || n == 0xA0 || n == 0x1680 || (0x2000 <= n <= 0x200A) ||
    n == 0x2028 || n == 0x2029 || n == 0x202F || n == 0x205F || n == 0x3000 || n == 0xFEFF
  }

  predicate AllWhiteSpace(s: string) {
    forall i :: 0 <= i < |s| ==> IsWhiteSpace(s[i])
  }

  /** Neither starts nor ends with white space. */
  predicate Trimmed(s: string) {
    s == [] || (!IsWhiteSpace(s[0]) && !IsWhiteSpace(s[|s| - 1]))
  }

  /** trimStart: drop the leading white space. */
  function TrimStart(s: string): (r: string)
    ensures r == [] || !IsWhiteSpace(r[0])
    ensures |r| <= |s|
  {
    if s != [] && IsWhiteSpace(s[0]) then TrimStart(s[1..]) else s
  }

  /** trimEnd: drop the trailing white space. */
  function TrimEnd(s: string): (r: string)
    ensures r == [] || !IsWhiteSpace(r[|r| - 1])
    ensures |r| <= |s|
  {
    if s != [] && IsWhiteSpace(s[|s| - 1]) then TrimEnd(s[..|s| - 1]) else s
  }

  /** String.prototype.trim. */
  function Trim(s: string): (r: string)
    ensures Trimmed(r) && |r| <= |s|
  {
    TrimEndSpan(TrimStart(s));
    TrimEnd(TrimStart(s))
  }

  /** What trimStart drops is white space, and what it keeps is the rest of s. */
  lemma {:induction false} TrimStartSpan(s: string)
    ensures s[|s| - |TrimStart(s)|..] == TrimStart(s)
    ensures AllWhiteSpace(s[..|s| - |TrimStart(s)|])
  {
    if s != [] && IsWhiteSpace(s[0]) {
      var r := TrimStart(s[1..]);
      TrimStartSpan(s[1..]);
      assert s[|s| - |r|..] == s[1..][|s| - 1 - |r|..];
      assert s[..|s| - |r|] == [s[0]] + s[1..][..|s| - 1 - |r|];
    }
  }

  /** What trimEnd drops is white space, and what it keeps is the start of s. */
  lemma {:induction false} TrimEndSpan(s: string)
    ensures s[..|TrimEnd(s)|] == TrimEnd(s)
    ensures AllWhiteSpace(s[|TrimEnd(s)|..])
  {
    if s != [] && IsWhiteSpace(s[|s| - 1]) {
      var r := TrimEnd(s[..|s| - 1]);
      TrimEndSpan(s[..|s| - 1]);
      assert s[..|r|] == s[..|s| - 1][..|r|];
      assert s[|r|..] == s[..|s| - 1][|r|..] + [s[|s| - 1]];
    }
  }

  /** Where the trimmed string starts inside the original. */
  function TrimOffset(s: string): nat {
    |s| - |TrimStart(s)|
  }

  /** The original is white space, then the trimmed string, then white space. */
  lemma TrimSpan(s: string)
    ensures TrimOffset(s) + |Trim(s)| <= |s|
    ensures s[TrimOffset(s) .. TrimOffset(s) + |Trim(s)|] == Trim(s)
    ensures AllWhiteSpace(s[..TrimOffset(s)]) && AllWhiteSpace(s[TrimOffset(s) + |Trim(s)|..])
  {
    var t := TrimStart(s);
    var r := TrimEnd(t);
    var i := |s| - |t|;
    assert Trim(s) == r && TrimOffset(s) == i;
    TrimStartSpan(s);
    TrimEndSpan(t);
    assert s[i..i + |r|] == t[..|r|];
    assert s[i + |r|..] == t[|r|..];
  }

  /** Trimming twice changes nothing more. */
  lemma TrimIdempotent(s: string)
    ensures Trim(Trim(s)) == Trim(s)
  {
    var r := Trim(s);
    assert TrimStart(r) == r;
    assert TrimEnd(r) == r;
  }

  /** split(','): the pieces between commas, at least one. */
  function SplitCommas(s: string): (pieces: seq<string>)
    ensures |pieces| >= 1
    ensures forall k :: 0 <= k < |pieces| ==> ',' !in pieces[k]
  {
    if s == [] then [[]]
    else if s[0] == ',' then [[]] + SplitCommas(s[1..])
    else
      var rest := SplitCommas(s[1..]);
      [[s[0]] + rest[0]] + rest[1..]
  }

  /** join(','): the inverse of the split. */
  function JoinCommas(pieces: seq<string>): string
    requires |pieces| >= 1
  {
    if |pieces| == 1 then pieces[0] else pieces[0] + [','] + JoinCommas(pieces[1..])
  }

  lemma {:induction false} SplitJoin(s: string)
    ensures JoinCommas(SplitCommas(s)) == s
  {
    if s != [] {
      SplitJoin(s[1..]);
      var rest := SplitCommas(s[1..]);
      if s[0] != ',' {
        var pieces := SplitCommas(s);
        assert pieces[1..] == rest[1..];
        if |rest| > 1 {
          assert JoinCommas(rest) == rest[0] + [','] + JoinCommas(rest[1..]);
        }
      }
    }
  }

  /** Splitting "a,b" gives the pieces of a followed by the pieces of b. */
  lemma {:induction false} SplitAtComma(a: string, b: string)
    ensures SplitCommas(a + [','] + b) == SplitCommas(a) + SplitCommas(b)
  {
    var s := a + [','] + b;
    if a == [] {
      assert s == [','] + b && s[1..] == b;
    } else {
      assert s[0] == a[0] && s[1..] == a[1..] + [','] + b;
      SplitAtComma(a[1..], b);
      var rest, restA := SplitCommas(s[1..]), SplitCommas(a[1..]);
      assert rest == restA + SplitCommas(b);
      if a[0] != ',' {
        assert rest[0] == restA[0];
        assert rest[1..] == restA[1..] + SplitCommas(b);
        assert SplitCommas(s) == [[a[0]] + rest[0]] + rest[1..];
        assert SplitCommas(a) == [[a[0]] + restA[0]] + restA[1..];
      }
    }
  }

  // ---------------------------------------------------------------------
  // The `participants` query value (lines 40-54)
  // ---------------------------------------------------------------------

  /** .map(trim).filter(non-empty): the trimmed pieces that are not empty, in order. */
  function TrimmedNames(pieces: seq<string>): (names: seq<string>)
    ensures forall name :: name in names ==> name != [] && Trimmed(name)
    ensures (forall j :: 0 <= j < |pieces| ==> ',' !in pieces[j]) ==> forall name :: name in names ==> ',' !in name
  {
    if pieces == [] then []
    else
      var last := pieces[|pieces| - 1];
      var name := Trim(last);
      TrimInfix(last);
      TrimmedNames(pieces[..|pieces| - 1]) + (if name == [] then [] else [name])
  }

  lemma {:induction false} TrimmedNamesAppend(a: seq<string>, b: seq<string>)
    ensures TrimmedNames(a + b) == TrimmedNames(a) + TrimmedNames(b)
  {
    if b != [] {
      var b' := b[..|b| - 1];
      assert (a + b)[..|a + b| - 1] == a + b';
      TrimmedNamesAppend(a, b');
    } else {
      assert a + b == a;
    }
  }

  /** split(','), then trim, then drop the empty names. */
  function ParseNames(param: string): (names: seq<string>)
    ensures forall name :: name in names ==> name != [] && Trimmed(name) && ',' !in name
  {
    TrimmedNames(SplitCommas(param))
  }

  /** The trimmed string is a piece of the original, so it has no character the original lacks. */
  lemma TrimInfix(s: string)
    ensures forall c :: c in Trim(s) ==> c in s
  {
    var r := Trim(s);
    var i := TrimOffset(s);
    TrimSpan(s);
    forall c | c in r ensures c in s {
      var k :| 0 <= k < |r| && r[k] == c;
      assert s[i + k] == c;
    }
  }

  /** The names keep their input order: the names of "a,b" are those of a, then those of b. */
  lemma ParseNamesAppend(a: string, b: string)
    ensures ParseNames(a + [','] + b) == ParseNames(a) + ParseNames(b)
  {
    SplitAtComma(a, b);
    TrimmedNamesAppend(SplitCommas(a), SplitCommas(b));
  }

  /** A value without a comma yields its trimmed self, or nothing when blank. */
  lemma ParseNamesSingle(a: string)
    requires ',' !in a
    ensures ParseNames(a) == if Trim(a) == [] then [] else [Trim(a)]
  {
    SplitNoComma(a);
    assert [a][..0] == [];
    assert ParseNames(a) == TrimmedNames([a]);
    assert TrimmedNames([a]) == TrimmedNames([]) + (if Trim(a) == [] then [] else [Trim(a)]);
  }

  lemma {:induction false} SplitNoComma(a: string)
    requires ',' !in a
    ensures SplitCommas(a) == [a]
  {
    if a != [] {
      SplitNoComma(a[1..]);
      assert a == [a[0]] + a[1..];
    }
  }

  /** A participant created from a name: not excluded and not starred. */
  function NewParticipant(id: string, name: string, color: string): Participant {
    Participant(id, name, color, false, false)
  }

  /** The query value's effect on the participant list: none when the value
      is missing or empty (falsy), otherwise one new participant per name,
      with ids and colours from the generators. */
  function ParticipantsFromQuery(param: Option<string>, idOf: nat -> string, colorOf: nat -> string)
    : (r: Option<seq<Participant>>)
    ensures r.Some? <==> param.Some? && param.value != []
    ensures r.Some? ==> |r.value| == |ParseNames(param.value)|
    ensures r.Some? ==> forall k :: 0 <= k < |r.value| ==>
      r.value[k].name == ParseNames(param.value)[k] && r.value[k].name != [] &&
      r.value[k].id == idOf(k) && r.value[k].color == colorOf(k) &&
      !r.value[k].isExcluded && !r.value[k].isSpecial
  {
    if param.None? || param.value == [] then None
    else
      var names := ParseNames(param.value);
      var created := seq(|names|, k requires 0 <= k < |names| => NewParticipant(idOf(k), names[k], colorOf(k)));
      assert forall k :: 0 <= k < |names| ==>
        created[k] == NewParticipant(idOf(k), names[k], colorOf(k)) && names[k] in names;
      Some(created)
  }

  // ---------------------------------------------------------------------
  // The participant list handlers (lines 87-131)
  // ---------------------------------------------------------------------

  /** handleAddParticipant's new list: unchanged for a blank name, otherwise
      one fresh participant with the trimmed name appended. */
  function AddParticipant(ps: seq<Participant>, input: string, id: string, color: string): (r: seq<Participant>)
    ensures Trim(input) == [] ==> r == ps
    ensures Trim(input) != [] ==>
      |r| == |ps| + 1 && r[..|ps|] == ps &&
      r[|ps|].id == id && r[|ps|].name == Trim(input) && r[|ps|].color == color &&
      !r[|ps|].isExcluded && !r[|ps|].isSpecial
  {
    var trimmedName := Trim(input);
    if trimmedName == [] then ps
    else ps + [NewParticipant(id, trimmedName, color)]
  }

  /** handleDeleteParticipant's new list: the entries with another id. */
  function DeleteParticipant(ps: seq<Participant>, id: string): (r: seq<Participant>)
    ensures forall p :: p in r <==> p in ps && p.id != id
    ensures |r| <= |ps|
  {
    if ps == [] then []
    else
      var last := ps[|ps| - 1];
      assert ps == ps[..|ps| - 1] + [last];
      DeleteParticipant(ps[..|ps| - 1], id) + (if last.id == id then [] else [last])
  }

  /** Deleting keeps the order of the rest: it distributes over concatenation. */
  lemma {:induction false} DeleteAppend(a: seq<Participant>, b: seq<Participant>, id: string)
    ensures DeleteParticipant(a + b, id) == DeleteParticipant(a, id) + DeleteParticipant(b, id)
  {
    if b != [] {
      var b' := b[..|b| - 1];
      assert (a + b)[..|a + b| - 1] == a + b';
      DeleteAppend(a, b', id);
    } else {
      assert a + b == a;
    }
  }

  /** handleToggleExclude's new list: isExcluded flipped on the matching ids. */
  function ToggleExclude(ps: seq<Participant>, id: string): (r: seq<Participant>)
    ensures |r| == |ps|
    ensures forall k :: 0 <= k < |ps| ==>
      r[k].id == ps[k].id && r[k].name == ps[k].name && r[k].color == ps[k].color &&
      r[k].isSpecial == ps[k].isSpecial &&
      r[k].isExcluded == (if ps[k].id == id then !ps[k].isExcluded else ps[k].isExcluded)
  {
    seq(|ps|, k requires 0 <= k < |ps| =>
      if ps[k].id == id then ps[k].(isExcluded := !ps[k].isExcluded) else ps[k])
  }

  /** handleToggleSpecial's new list: isSpecial flipped on the matching ids. */
  function ToggleSpecial(ps: seq<Participant>, id: string): (r: seq<Participant>)
    ensures |r| == |ps|
    ensures forall k :: 0 <= k < |ps| ==>
      r[k].id == ps[k].id && r[k].name == ps[k].name && r[k].color == ps[k].color &&
      r[k].isExcluded == ps[k].isExcluded &&
      r[k].isSpecial == (if ps[k].id == id then !ps[k].isSpecial else ps[k].isSpecial)
  {
    seq(|ps|, k requires 0 <= k < |ps| =>
      if ps[k].id == id then ps[k].(isSpecial := !ps[k].isSpecial) else ps[k])
  }

  /** Toggling twice gives back the list. */
  lemma ToggleTwice(ps: seq<Participant>, id: string)
    ensures ToggleExclude(ToggleExclude(ps, id), id) == ps
    ensures ToggleSpecial(ToggleSpecial(ps, id), id) == ps
  {
    var e, s := ToggleExclude(ToggleExclude(ps, id), id), ToggleSpecial(ToggleSpecial(ps, id), id);
    forall k | 0 <= k < |ps| ensures e[k] == ps[k] && s[k] == ps[k] {
    }
  }

  // ---------------------------------------------------------------------
  // The spin animation (lines 157-174)
  // ---------------------------------------------------------------------

  /** Math.min(elapsed / spinDuration, 1). */
  function Progress(elapsed: real, duration: real): (p: real)
    requires duration > 0.0
    ensures p <= 1.0
    ensures elapsed >= 0.0 ==> 0.0 <= p
    ensures p == 1.0 <==> elapsed >= duration
  {
    var ratio := elapsed / duration;
    assert ratio >= 1.0 <==> elapsed >= duration by {
      DivLeIff(duration, duration, ratio);
      DivLeIff(elapsed, duration, 1.0);
    }
    assert elapsed >= 0.0 ==> ratio >= 0.0 by {
      DivLeIff(0.0, duration, ratio);
      assert 0.0 / duration == 0.0;
    }
    if ratio < 1.0 then ratio else 1.0
  }

  lemma ProgressMonotone(e1: real, e2: real, duration: real)
    requires duration > 0.0 && e1 <= e2
    ensures Progress(e1, duration) <= Progress(e2, duration)
  {
    assert e1 / duration <= e2 / duration by {
      DivLeIff(e1, duration, e2 / duration);
      assert e2 / duration * duration == e2;
    }
  }

  /** The cubic ease-out 1 - (1 - p)^3. */
  function EaseOut(p: real): (e: real)
    ensures 0.0 <= p <= 1.0 ==> 0.0 <= e <= 1.0
    ensures p == 1.0 ==> e == 1.0
    ensures 0.0 <= p < 1.0 ==> e < 1.0
  {
    var q := 1.0 - p;
    CubeBounds(q);
    1.0 - q * q * q
  }

  lemma CubeBounds(q: real)
    ensures 0.0 <= q <= 1.0 ==> 0.0 <= q * q * q <= 1.0
    ensures 0.0 < q ==> 0.0 < q * q * q
  {
    if 0.0 <= q <= 1.0 {
      CubeMono(0.0, q);
      CubeMono(q, 1.0);
    }
    if 0.0 < q {
      assert q * q > 0.0;
    }
  }

  lemma CubeMono(a: real, b: real)
    requires 0.0 <= a <= b
    ensures a * a * a <= b * b * b
  {
    MulMono(a, a, b);
    MulMono(b, a, b);
    assert a * a <= b * b;
    MulMono(a, a * a, b * b);
    assert a * (a * a) <= a * (b * b);
    MulMono(b * b, a, b);
  }

  lemma EaseOutMonotone(p: real, q: real)
    requires 0.0 <= p <= q <= 1.0
    ensures EaseOut(p) <= EaseOut(q)
  {
    CubeMono(1.0 - q, 1.0 - p);
  }

  /** The rotation emitted on a tick: finalRotation * easeOut. */
  function EasedRotation(finalRotation: real, elapsed: real, duration: real): real
    requires duration > 0.0
  {
    finalRotation * EaseOut(Progress(elapsed, duration))
  }

  /** Over one spin the emitted rotation never decreases, stays within
      [0, finalRotation], and is exactly finalRotation from the end of the
      duration on, and only then. */
  lemma EasedRotationMonotone(finalRotation: real, e1: real, e2: real, duration: real)
    requires finalRotation > 0.0 && duration > 0.0 && 0.0 <= e1 <= e2
    ensures 0.0 <= EasedRotation(finalRotation, e1, duration) <= EasedRotation(finalRotation, e2, duration)
    ensures EasedRotation(finalRotation, e2, duration) <= finalRotation
    ensures EasedRotation(finalRotation, e2, duration) == finalRotation <==> e2 >= duration
  {
    EasedProgress(e1, e2, duration);
    ScaleBetween(finalRotation, EaseOut(Progress(e1, duration)), EaseOut(Progress(e2, duration)));
  }

  /** The eased progress of a spin never decreases, stays in [0, 1], and is 1 exactly from the end of the duration on. */
  lemma EasedProgress(e1: real, e2: real, duration: real)
    requires duration > 0.0 && 0.0 <= e1 <= e2
    ensures 0.0 <= EaseOut(Progress(e1, duration)) <= EaseOut(Progress(e2, duration)) <= 1.0
    ensures EaseOut(Progress(e2, duration)) == 1.0 <==> e2 >= duration
  {
    ProgressMonotone(e1, e2, duration);
    EaseOutMonotone(Progress(e1, duration), Progress(e2, duration));
  }

  /** Scaling by a positive w keeps the order of 0 <= x1 <= x2 <= 1, and w * x2 reaches w only at x2 == 1. */
  lemma ScaleBetween(w: real, x1: real, x2: real)
    requires w > 0.0 && 0.0 <= x1 <= x2 <= 1.0
    ensures 0.0 <= w * x1 <= w * x2 <= w
    ensures w * x2 == w <==> x2 == 1.0
  {
    MulMono(w, 0.0, x1);
    MulMono(w, x1, x2);
    MulMono(w, x2, 1.0);
    assert w - w * x2 == w * (1.0 - x2);
  }

  /** Once somebody is eligible, the lottery draws a winner, and the wheel
      turns between 990 and 1350 degrees to bring it under the pointer. */
  lemma WinnerIsDrawn(ps: seq<Participant>, s: Settings, u: real, v: real)
    requires ValidSettings(s) && Eligible(ps) != []
    requires 0.0 <= u < 1.0 && 0.0 <= v < 1.0
    ensures PerformLottery(ps, s, u).Some?
    ensures 990.0 < CalculateFinalRotation(WheelSegments(ps, s), PerformLottery(ps, s, u).value.id, v) < 1350.0
  {
    NoSlotsIffNoneEligible(ps, s);
    WinnerOwnsSegment(ps, s, u, v);
  }

  // ---------------------------------------------------------------------
  // The page state
  // ---------------------------------------------------------------------

  /** The state of the Home page that the handlers and the spin touch, with
      the variables the running animation closure captures. */
  class Home {
    var participants: seq<Participant>
    var settings: Settings
    var newParticipantName: string
    var isSpinning: bool
    var rotation: real
    var winnerId: Option<string>
    var showModal: bool
    // captured by the animate closure of the running spin
    var startTime: Option<real>
    var finalRotation: real
    var selectedWinnerId: string
    var spinDuration: real
    var framePending: bool   // an animation frame has been requested

    ghost predicate Valid()
      reads this
    {
      ValidSettings(settings) &&
      (framePending <==> isSpinning) &&
      (framePending ==> spinDuration > 0.0 && finalRotation > 0.0)
    }

    /** The initial load: the stored participants and settings, replaced
        by the names of a non-empty `participants` query value. */
    constructor (loaded: seq<Participant>, loadedSettings: Settings, param: Option<string>,
                 idOf: nat -> string, colorOf: nat -> string)
      requires ValidSettings(loadedSettings)
      ensures Valid()
      ensures participants == match ParticipantsFromQuery(param, idOf, colorOf)
                              case Some(fromQuery) => fromQuery
                              case None => loaded
      ensures settings == loadedSettings && newParticipantName == []
      ensures !isSpinning && rotation == 0.0 && winnerId == None && !showModal
    {
      participants := match ParticipantsFromQuery(param, idOf, colorOf)
                      case Some(fromQuery) => fromQuery
                      case None => loaded;
      settings := loadedSettings;
      newParticipantName := [];
      isSpinning, rotation, winnerId, showModal := false, 0.0, None, false;
      startTime, finalRotation, selectedWinnerId, spinDuration, framePending := None, 0.0, [], 0.0, false;
    }

    /** canSpin: somebody is eligible and no spin is running. */
    predicate CanSpin()
      reads this
    {
      |Eligible(participants)| > 0 && !isSpinning
    }

    /** The text input's onChange. */
    method SetNewParticipantName(name: string)
      modifies this`newParticipantName
      ensures newParticipantName == name
    {
      newParticipantName := name;
    }

    method HandleAddParticipant(id: string, color: string)
      requires Valid()
      modifies this`participants, this`newParticipantName
      ensures Valid()
      ensures participants == AddParticipant(old(participants), old(newParticipantName), id, color)
      ensures newParticipantName == if Trim(old(newParticipantName)) == [] then old(newParticipantName) else []
    {
      var trimmedName := Trim(newParticipantName);
      if trimmedName == [] {
        return;
      }
      participants := participants + [NewParticipant(id, trimmedName, color)];
      newParticipantName := [];
    }

    method HandleDeleteParticipant(id: string)
      requires Valid()
      modifies this`participants
      ensures Valid() && participants == DeleteParticipant(old(participants), id)
    {
      participants := DeleteParticipant(participants, id);
    }

    method HandleToggleExclude(id: string)
      requires Valid()
      modifies this`participants
      ensures Valid() && participants == ToggleExclude(old(participants), id)
    {
      participants := ToggleExclude(participants, id);
    }

    method HandleToggleSpecial(id: string)
      requires Valid()
      modifies this`participants
      ensures Valid() && participants == ToggleSpecial(old(participants), id)
    {
      participants := ToggleSpecial(participants, id);
    }

    /** handleSpin: ignored while spinning or when nobody is eligible;
        otherwise draw the winner with u, pick its landing segment with v,
        and start the animation. The source's fallback for a null winner
        cannot be reached after the guard. */
    method HandleSpin(u: real, v: real)
      requires Valid() && 0.0 <= u < 1.0 && 0.0 <= v < 1.0
      modifies this
      ensures Valid()
      ensures !old(CanSpin()) ==> unchanged(this)
      ensures old(CanSpin()) ==>
        participants == old(participants) && settings == old(settings) &&
        newParticipantName == old(newParticipantName) && rotation == old(rotation) &&
        isSpinning && framePending && !showModal && winnerId == None && startTime == None &&
        spinDuration == settings.spinDuration &&
        PerformLottery(participants, settings, u).Some? &&
        selectedWinnerId == PerformLottery(participants, settings, u).value.id &&
        finalRotation == CalculateFinalRotation(WheelSegments(participants, settings), selectedWinnerId, v) &&
        990.0 < finalRotation < 1350.0
    {
      if isSpinning || |Eligible(participants)| == 0 {
        return;
      }
      var selectedWinner := PerformLottery(participants, settings, u);
      WinnerIsDrawn(participants, settings, u, v);
      var winner := selectedWinner.value;
      var target := CalculateFinalRotation(WheelSegments(participants, settings), winner.id, v);
      assert 990.0 < target < 1350.0;

      StartSpin(winner.id, target);
    }

    /** The state updates of a spin that has passed the guard: the spin flag,
        the hidden modal and winner, and the values the animation captures. */
    method StartSpin(winner: string, target: real)
      requires Valid() && target > 0.0
      modifies this
      ensures Valid()
      ensures participants == old(participants) && settings == old(settings) &&
              newParticipantName == old(newParticipantName) && rotation == old(rotation)
      ensures isSpinning && framePending && !showModal && winnerId == None && startTime == None
      ensures finalRotation == target && selectedWinnerId == winner && spinDuration == settings.spinDuration
    {
      isSpinning, showModal, winnerId := true, false, None;
      finalRotation, selectedWinnerId, spinDuration := target, winner, settings.spinDuration;
      startTime, framePending := None, true;
    }

    /** One animation frame at the given timestamp: capture the start time
        when it is still unset (the source's falsy test, which also treats a
        start time of 0 as unset), emit the eased rotation, and either request
        the next frame or, once progress reaches 1, end the spin and reveal
        the winner. */
    method Animate(timestamp: real)
      requires Valid() && framePending
      modifies this
      ensures Valid()
      ensures finalRotation == old(finalRotation) && spinDuration == old(spinDuration) &&
              selectedWinnerId == old(selectedWinnerId)
      ensures startTime == if old(startTime).None? || old(startTime) == Some(0.0) then Some(timestamp) else old(startTime)
      ensures rotation == EasedRotation(finalRotation, timestamp - startTime.value, spinDuration)
      ensures Progress(timestamp - startTime.value, spinDuration) < 1.0 ==>
        framePending && isSpinning && winnerId == old(winnerId) && showModal == old(showModal)
      ensures Progress(timestamp - startTime.value, spinDuration) == 1.0 ==>
        !framePending && !isSpinning && winnerId == Some(selectedWinnerId) && showModal
      ensures participants == old(participants) && settings == old(settings) &&
              newParticipantName == old(newParticipantName)
    {
      if startTime.None? || startTime == Some(0.0) {
        startTime := Some(timestamp);
      }
      var elapsed := timestamp - startTime.value;
      var progress := Progress(elapsed, spinDuration);
      var easeOut := EaseOut(progress);
      rotation := finalRotation * easeOut;

      if progress < 1.0 {
        framePending := true;
      } else {
        isSpinning := false;
        winnerId := Some(selectedWinnerId);
        showModal := true;
        framePending := false;
      }
    }
  }

}
