/**
 * The phase-unlock state machine of src/pages/Pathway.tsx. Progress is two lists
 * of phase numbers: the phases completed and the phases unlocked. A phase is
 * completed from its view; the code the EIC hands out for it ("EIC-<n>") unlocks
 * the next one; the result of the level assessment re-seeds the unlocked phases.
 */
module Pathway {
  import opened Prelude
  import opened Text
  import opened LevelAssessment

  const STAGE_COUNT: nat := 5
  const CODE_PREFIX := "EIC-"

  /** The stored progress record; the two optional fields may be absent. */
  datatype PathProgress = PathProgress(completed: seq<nat>, unlocked: seq<nat>,
                                       assessmentLevel: Option<Level>, phase2Completed: Option<bool>)

  /** The progress of an address with nothing stored yet. */
  const INITIAL := PathProgress([], [1], None, None)

  // ----- Array.from(new Set(xs)) -----

  /** The elements of `xs` with repeats removed, each at its first occurrence. */
  function Dedup(xs: seq<nat>): seq<nat>
  {
    if |xs| == 0 then []
    else
      var d := Dedup(xs[..|xs| - 1]);
      if xs[|xs| - 1] in d then d else d + [xs[|xs| - 1]]
  }

  /** Removing repeats keeps exactly the same elements and leaves none twice. */
  lemma {:induction false} DedupSpec(xs: seq<nat>)
    ensures NoDup(Dedup(xs)) && Elems(Dedup(xs)) == Elems(xs)
    decreases |xs|
  {
    if |xs| > 0 {
      var init := xs[..|xs| - 1];
      DedupSpec(init);
      assert xs == init + [xs[|xs| - 1]];
      assert Elems(xs) == Elems(init) + {xs[|xs| - 1]};
    }
  }

  /** A list with no repeats is its own de-duplication. */
  lemma {:induction false} DedupOfNoDup(xs: seq<nat>)
    requires NoDup(xs)
    ensures Dedup(xs) == xs
    decreases |xs|
  {
    if |xs| > 0 {
      var init := xs[..|xs| - 1];
      DedupOfNoDup(init);
      assert xs == init + [xs[|xs| - 1]];
    }
  }

  /** De-duplicating a list with no repeats after appending `x` appends `x` unless it
      is already there. */
  lemma DedupAppend(xs: seq<nat>, x: nat)
    requires NoDup(xs)
    ensures Dedup(xs + [x]) == if x in xs then xs else xs + [x]
  {
    assert (xs + [x])[..|xs|] == xs;
    DedupOfNoDup(xs);
  }

  // ----- the transitions as functions of the progress -----

  /** `markComplete(stageId)`: only an unlocked phase not yet completed is appended. */
  function MarkCompleted(p: PathProgress, s: nat): PathProgress
  {
    if s !in p.unlocked then p
    else if s in p.completed then p
    else p.(completed := p.completed + [s])
  }

  /** The code that unlocks the phase after `s`. */
  function StageKey(s: nat): string
  {
    CODE_PREFIX + NatToString(s)
  }

  /** A typed value unlocks after phase `s`: trimmed it is non-empty, and upper-cased it
      is exactly `EIC-<s>`. */
  predicate Accepts(value: string, s: nat)
  {
    var v := Trim(value);
    v != [] && ToUpper(v) == StageKey(s)
  }

  /** `codes[stageId]?.trim()` passes both tests of `submitCode`; a phase with nothing
      typed for it never does. */
  predicate CodeMatches(codes: map<nat, string>, s: nat)
  {
    s in codes && Accepts(codes[s], s)
  }

  /** The progress an accepted code leaves: the union of the completed phases with
      `s` and of the unlocked phases with `s + 1`, repeats removed, and no other field. */
  function AfterCode(p: PathProgress, s: nat): PathProgress
  {
    PathProgress(Dedup(p.completed + [s]), Dedup(p.unlocked + [s + 1]), None, None)
  }

  /** `submitCode(stageId)` on the progress. */
  function Submitted(p: PathProgress, codes: map<nat, string>, s: nat): PathProgress
  {
    if CodeMatches(codes, s) then AfterCode(p, s) else p
  }

  /** `newUnlocked`: phase 1, then 2 for an intermediate level recommended phase 2 or
      later, or 2 and 3 for an advanced level recommended phase 3 or later. */
  function AssessmentUnlocks(level: Level, recommended: nat): seq<nat>
  {
    [1] + (if level == Intermediate && recommended >= 2 then [2] else [])
        + (if level == Advanced && recommended >= 3 then [2, 3] else [])
  }

  /** `actualPhase`: the recommended phase when it is unlocked, otherwise phase 1. */
  function AssessedPhase(level: Level, recommended: nat): nat
  {
    if recommended in AssessmentUnlocks(level, recommended) then recommended else 1
  }

  /** The progress after the assessment results arrive: the level is recorded and the
      unlocked phases are replaced; completed phases are kept. */
  function Assessed(p: PathProgress, level: Level, recommended: nat): PathProgress
  {
    p.(assessmentLevel := Some(level), unlocked := AssessmentUnlocks(level, recommended))
  }

  // ----- properties of the transitions -----

  /** Unlocked phases form a run 1, 2, ..., k of phases from 1 to 5. */
  predicate Ladder(p: PathProgress)
  {
    && 1 in p.unlocked
    && (forall x :: x in p.unlocked ==> 1 <= x <= STAGE_COUNT && (x > 1 ==> x - 1 in p.unlocked))
  }

  /** Every completed phase is unlocked. */
  predicate CompletedUnlocked(p: PathProgress)
  {
    forall c :: c in p.completed ==> c in p.unlocked
  }

  /** Fresh progress has phase 1 unlocked alone and nothing completed. */
  lemma InitialProgress()
    ensures Ladder(INITIAL) && CompletedUnlocked(INITIAL)
    ensures Elems(INITIAL.unlocked) == {1} && INITIAL.completed == []
  {
  }

  /** Marking adds `s` to the completed phases exactly when it is unlocked, and is a
      no-op (the same progress) when `s` is locked or already completed; nothing
      else changes and no phase is listed twice. */
  lemma MarkCompletedSpec(p: PathProgress, s: nat)
    ensures var r := MarkCompleted(p, s);
            && Elems(r.completed) == Elems(p.completed) + (if s in p.unlocked then {s} else {})
            && (r == p <==> s !in p.unlocked || s in p.completed)
            && r.unlocked == p.unlocked && r.assessmentLevel == p.assessmentLevel
            && r.phase2Completed == p.phase2Completed
            && (NoDup(p.completed) ==> NoDup(r.completed))
  {
    var r := MarkCompleted(p, s);
    if s in p.unlocked && s !in p.completed {
      assert r.completed[|p.completed|] == s;
      assert Elems(r.completed) == Elems(p.completed) + {s};
    }
  }

  /** Upper-casing `eic-` followed by digits gives `EIC-` followed by the same digits. */
  lemma LowerKeyUpperCases(s: nat)
    ensures ToUpper("eic-" + NatToString(s)) == StageKey(s)
  {
    var digits := NatToString(s);
    var typed := "eic-" + digits;
    var u := ToUpper(typed);
    forall i | 0 <= i < |typed| ensures u[i] == StageKey(s)[i] {
      if i >= 4 {
        assert typed[i] == digits[i - 4];
        assert StageKey(s)[i] == digits[i - 4];
      }
    }
  }

  /** The code is read case-insensitively and with surrounding white space ignored:
      `eic-<s>` padded with any white space unlocks after phase `s`. */
  lemma PaddedLowerCaseAccepted(s: nat, pre: string, post: string)
    requires AllSpace(pre) && AllSpace(post)
    ensures Accepts(pre + ("eic-" + NatToString(s)) + post, s)
    ensures Accepts(pre + StageKey(s) + post, s)
  {
    var digits := NatToString(s);
    var lower := "eic-" + digits;
    assert lower[|lower| - 1] == digits[|digits| - 1];
    assert StageKey(s)[|StageKey(s)| - 1] == digits[|digits| - 1];
    TrimPadding(pre, lower, post);
    TrimPadding(pre, StageKey(s), post);
    LowerKeyUpperCases(s);
    StageKeyKept(s);
  }

  /** Upper-casing keeps every code point of `EIC-<s>`. */
  lemma StageKeyKept(s: nat)
    ensures forall i :: 0 <= i < |StageKey(s)| ==> UpperFixed(StageKey(s)[i])
  {
    var digits := NatToString(s);
    forall i | 0 <= i < |StageKey(s)| ensures UpperFixed(StageKey(s)[i]) {
      if i >= 4 {
        assert StageKey(s)[i] == digits[i - 4];
        assert IsDigit(digits[i - 4]);
      }
    }
  }

  /** The code is read case-insensitively, code point by code point, once trimmed: a
      value is accepted for phase `s` exactly when its trimmed text has the length of
      `EIC-<s>` and each of its code points is the key's, the lower case of a capital
      in it, or dotless i for its `I`. */
  lemma AcceptsIff(value: string, s: nat)
    ensures Accepts(value, s) <==>
            var t := Trim(value);
            |t| == |StageKey(s)| && forall i :: 0 <= i < |t| ==> UpperOf(t[i], StageKey(s)[i])
  {
    StageKeyKept(s);
    ToUpperEqualsIff(Trim(value), StageKey(s));
  }

  /** Nothing typed, an empty value, or white space alone never unlocks anything. */
  lemma BlankRejected(codes: map<nat, string>, s: nat)
    requires s !in codes || AllSpace(codes[s])
    ensures !CodeMatches(codes, s)
  {
    if s in codes {
      TrimEmptyIffAllSpace(codes[s]);
    }
  }

  /** A typed value is the code of one phase at most. */
  lemma CodeNamesOneStage(value: string, s: nat, t: nat)
    requires Accepts(value, s) && Accepts(value, t)
    ensures s == t
  {
    assert NatToString(s) == StageKey(s)[4..];
    assert NatToString(t) == StageKey(t)[4..];
    NatToStringInjective(s, t);
  }

  /** An accepted code adds `s` to the completed phases and `s + 1` to the unlocked
      ones as sets, with no repeats; lists that had no repeats keep their order with
      the new phase at the end if it was missing. The level and the phase 2 flag are
      dropped. */
  lemma AfterCodeSpec(p: PathProgress, s: nat)
    ensures var r := AfterCode(p, s);
            && Elems(r.completed) == Elems(p.completed) + {s} && NoDup(r.completed)
            && Elems(r.unlocked) == Elems(p.unlocked) + {s + 1} && NoDup(r.unlocked)
            && (NoDup(p.completed) ==> r.completed == if s in p.completed then p.completed else p.completed + [s])
            && (NoDup(p.unlocked) ==> r.unlocked == if s + 1 in p.unlocked then p.unlocked else p.unlocked + [s + 1])
            && r.assessmentLevel.None? && r.phase2Completed.None?
  {
    DedupSpec(p.completed + [s]);
    DedupSpec(p.unlocked + [s + 1]);
    assert Elems(p.completed + [s]) == Elems(p.completed) + {s};
    assert Elems(p.unlocked + [s + 1]) == Elems(p.unlocked) + {s + 1};
    if NoDup(p.completed) {
      DedupAppend(p.completed, s);
    }
    if NoDup(p.unlocked) {
      DedupAppend(p.unlocked, s + 1);
    }
  }

  /** Entering the same code a second time changes nothing more. */
  lemma AfterCodeIdempotent(p: PathProgress, s: nat)
    ensures AfterCode(AfterCode(p, s), s) == AfterCode(p, s)
  {
    var q := AfterCode(p, s);
    AfterCodeSpec(p, s);
    DedupAppend(q.completed, s);
    DedupAppend(q.unlocked, s + 1);
  }

  /** A submission either applies the accepted-code step or leaves the progress as it
      was; with the progress already past that code, a resubmission changes nothing. */
  lemma SubmitIdempotent(p: PathProgress, codes: map<nat, string>, s: nat)
    ensures var once := Submitted(p, codes, s);
            Submitted(once, codes, s) == once
  {
    if CodeMatches(codes, s) {
      AfterCodeIdempotent(p, s);
    }
  }

  /** Unlocking stays a run from phase 1 when codes are entered only where the page
      offers the code input (an unlocked phase below 5); marking never touches it. */
  lemma LadderPreserved(p: PathProgress, codes: map<nat, string>, s: nat)
    requires Ladder(p)
    ensures Ladder(MarkCompleted(p, s))
    ensures s in p.unlocked && s < STAGE_COUNT ==> Ladder(Submitted(p, codes, s))
  {
    if s in p.unlocked && s < STAGE_COUNT && CodeMatches(codes, s) {
      var r := AfterCode(p, s);
      AfterCodeSpec(p, s);
      assert 1 in Elems(r.unlocked);
      forall x | x in r.unlocked
        ensures 1 <= x <= STAGE_COUNT && (x > 1 ==> x - 1 in r.unlocked)
      {
        assert x in Elems(r.unlocked);
        if x > 1 {
          assert x - 1 in Elems(r.unlocked);
        }
      }
    }
  }

  /** Without the page's `s < 5` guard, the code of phase 5 would unlock a phase 6. */
  lemma SubmitPastLastPhase(p: PathProgress)
    ensures var codes := map[STAGE_COUNT := StageKey(STAGE_COUNT)];
            6 in Submitted(p, codes, STAGE_COUNT).unlocked
  {
    var codes := map[STAGE_COUNT := StageKey(STAGE_COUNT)];
    assert [] + StageKey(STAGE_COUNT) + [] == StageKey(STAGE_COUNT);
    PaddedLowerCaseAccepted(STAGE_COUNT, [], []);
    AfterCodeSpec(p, STAGE_COUNT);
    assert 6 in Elems(Submitted(p, codes, STAGE_COUNT).unlocked);
  }

  /** Completed phases stay unlocked under marking, and under codes entered for an
      unlocked phase. */
  lemma CompletedUnlockedPreserved(p: PathProgress, codes: map<nat, string>, s: nat)
    requires CompletedUnlocked(p)
    ensures CompletedUnlocked(MarkCompleted(p, s))
    ensures s in p.unlocked ==> CompletedUnlocked(Submitted(p, codes, s))
  {
    if s in p.unlocked && CodeMatches(codes, s) {
      var r := AfterCode(p, s);
      AfterCodeSpec(p, s);
      forall c | c in r.completed ensures c in r.unlocked {
        assert c in Elems(r.completed);
        assert c in Elems(r.unlocked);
      }
    }
  }

  /** The assessment keeps completed phases while it replaces the unlocked ones, so a
      completed phase can end up locked. */
  lemma AssessmentStrandsCompleted()
    ensures var p := PathProgress([1, 2], [1, 2, 3], None, None);
            && CompletedUnlocked(p) && !CompletedUnlocked(Assessed(p, Beginner, 1))
  {
    var p := PathProgress([1, 2], [1, 2, 3], None, None);
    assert 2 in Assessed(p, Beginner, 1).completed;
  }

  /** The unlocked phases after the assessment: 1 always, 2 for an intermediate level
      recommended 2 or later or an advanced level recommended 3 or later, 3 for the
      latter only; they form a run from phase 1, and the phase the page opens is
      unlocked and is the recommended one exactly when that one is unlocked. */
  lemma AssessmentSpec(p: PathProgress, level: Level, recommended: nat)
    ensures var u := AssessmentUnlocks(level, recommended);
            && Elems(u) == {1}
                 + (if (level == Intermediate && recommended >= 2) || (level == Advanced && recommended >= 3) then {2} else {})
                 + (if level == Advanced && recommended >= 3 then {3} else {})
            && NoDup(u)
            && AssessedPhase(level, recommended) in u
            && (AssessedPhase(level, recommended) == recommended <==> recommended in u)
            && Ladder(Assessed(p, level, recommended))
            && Assessed(p, level, recommended).completed == p.completed
  {
    var u := AssessmentUnlocks(level, recommended);
    if level == Intermediate && recommended >= 2 {
      assert u == [1, 2];
    } else if level == Advanced && recommended >= 3 {
      assert u == [1, 2, 3];
    } else {
      assert u == [1];
    }
  }

  /** A recommendation the level does not unlock opens phase 1: an advanced level
      recommended phase 2, or an intermediate level recommended phase 3. */
  lemma AssessmentFallsBack()
    ensures AssessedPhase(Advanced, 2) == 1 && AssessedPhase(Intermediate, 3) == 1
    ensures AssessedPhase(Advanced, 3) == 3 && AssessedPhase(Intermediate, 2) == 2
    ensures forall r: nat :: AssessedPhase(Beginner, r) == 1
  {
    assert AssessmentUnlocks(Advanced, 2) == [1];
    assert AssessmentUnlocks(Intermediate, 3) == [1, 2];
    assert AssessmentUnlocks(Advanced, 3) == [1, 2, 3];
    assert AssessmentUnlocks(Intermediate, 2) == [1, 2];
    forall r: nat ensures AssessedPhase(Beginner, r) == 1 {
      assert AssessmentUnlocks(Beginner, r) == [1];
    }
  }

  // ----- the page -----

  /** The page's state: the progress, the phase shown, and what is typed in each code input. */
  class PathwayPage {
    var progress: PathProgress
    var currentPhase: nat
    var codes: map<nat, string>

    /** The page opens on the stored progress, or fresh progress when nothing is stored. */
    constructor (stored: Option<PathProgress>)
      ensures progress == (if stored.Some? then stored.value else INITIAL)
      ensures currentPhase == 1 && codes == map[]
    {
      progress := if stored.Some? then stored.value else INITIAL;
      currentPhase := 1;
      codes := map[];
    }

    /** `markComplete(stageId)`. */
    method MarkComplete(s: nat)
      modifies this
      ensures progress == MarkCompleted(old(progress), s)
      ensures currentPhase == old(currentPhase) && codes == old(codes)
    {
      if s !in progress.unlocked {
        return;
      }
      if s in progress.completed {
        return;
      }
      progress := progress.(completed := progress.completed + [s]);
    }

    /** The code input's `onChange`: records what is typed for phase `s`. */
    method SetCode(s: nat, value: string)
      modifies this
      ensures codes == old(codes)[s := value]
      ensures progress == old(progress) && currentPhase == old(currentPhase)
    {
      codes := codes[s := value];
    }

    /** `submitCode(stageId)`: reports whether the code was accepted. */
    method SubmitCode(s: nat) returns (accepted: bool)
      modifies this
      ensures accepted == CodeMatches(old(codes), s)
      ensures progress == Submitted(old(progress), old(codes), s)
      ensures currentPhase == old(currentPhase) && codes == old(codes)
    {
      if s !in codes {
        return false;
      }
      var value := Trim(codes[s]);
      if value == [] {
        return false;
      }
      if ToUpper(value) == CODE_PREFIX + NatToString(s) {
        var next := s + 1;
        progress := PathProgress(Dedup(progress.completed + [s]), Dedup(progress.unlocked + [next]), None, None);
        accepted := true;
      } else {
        accepted := false;
      }
    }

    /** The assessment-results effect: re-seeds the unlocked phases and opens the
        recommended phase if it is unlocked. */
    method ApplyAssessment(level: Level, recommended: nat)
      modifies this
      ensures progress == Assessed(old(progress), level, recommended)
      ensures currentPhase == AssessedPhase(level, recommended)
      ensures codes == old(codes)
    {
      var newUnlocked := [1];
      if level == Intermediate && recommended >= 2 {
        newUnlocked := newUnlocked + [2];
      }
      if level == Advanced && recommended >= 3 {
        newUnlocked := newUnlocked + [2, 3];
      }
      progress := progress.(assessmentLevel := Some(level), unlocked := newUnlocked);
      currentPhase := if recommended in newUnlocked then recommended else 1;
    }

    /** A phase view's `onComplete`: phases 1 to 4 move on to the next phase, then mark
        themselves complete; phase 5 only marks itself complete. */
    method FinishPhase(n: nat)
      requires 1 <= n <= STAGE_COUNT
      modifies this
      ensures progress == MarkCompleted(old(progress), n)
      ensures currentPhase == if n < STAGE_COUNT then n + 1 else old(currentPhase)
      ensures codes == old(codes)
    {
      if n < STAGE_COUNT {
        currentPhase := n + 1;
      }
      MarkComplete(n);
    }
  }
}
