/**
 * The level assessment of src/components/LevelAssessment.tsx: eight questions of
 * four options, each option worth 1 to 4 points and hinting at a starting phase.
 * Completing it totals the points, turns the total into a level and recommends
 * the most frequently hinted phase.
 */
module LevelAssessment {
  import opened Prelude

  datatype Level = Beginner | Intermediate | Advanced

  datatype AnswerOption = AnswerOption(value: string, points: nat, phaseHint: nat)

  datatype Question = Question(id: nat, options: seq<AnswerOption>)

  function Opt(value: string, points: nat, phaseHint: nat): AnswerOption
  {
    AnswerOption(value, points, phaseHint)
  }

  /** `ASSESSMENT_QUESTIONS`, without the question and option texts. */
  const QUESTIONS: seq<Question> := [
    Question(1, [Opt("none", 1, 1), Opt("basic", 2, 1), Opt("some", 3, 2), Opt("experienced", 4, 3)]),
    Question(2, [Opt("no", 1, 1), Opt("maybe", 2, 1), Opt("yes", 3, 2), Opt("validated", 4, 3)]),
    Question(3, [Opt("never", 1, 1), Opt("friends", 2, 1), Opt("some", 3, 2), Opt("extensive", 4, 3)]),
    Question(4, [Opt("unfamiliar", 1, 1), Opt("basic", 2, 1), Opt("intermediate", 3, 2), Opt("advanced", 4, 3)]),
    Question(5, [Opt("never", 1, 1), Opt("thought", 2, 1), Opt("basic", 3, 2), Opt("working", 4, 3)]),
    Question(6, [Opt("uncomfortable", 1, 1), Opt("somewhat", 2, 2), Opt("comfortable", 3, 3), Opt("confident", 4, 4)]),
    Question(7, [Opt("none", 1, 1), Opt("basic", 2, 1), Opt("intermediate", 3, 2), Opt("advanced", 4, 3)]),
    Question(8, [Opt("1-2", 1, 1), Opt("3-5", 2, 1), Opt("6-10", 3, 2), Opt("10+", 4, 3)])
  ]

  const QUESTION_COUNT: nat := 8
  const BEGINNER_MAX: int := 16
  const INTERMEDIATE_MAX: int := 24
  const DEFAULT_PHASE: nat := 1
  const MAX_HINT: nat := 4

  /** Every option is worth 1 to 4 points and hints at a phase from 1 to 4. */
  predicate OptionsInRange(qs: seq<Question>)
  {
    forall i, j :: 0 <= i < |qs| && 0 <= j < |qs[i].options| ==>
      1 <= qs[i].options[j].points <= 4 && 1 <= qs[i].options[j].phaseHint <= MAX_HINT
  }

  /** The question ids are 1 to 8 in order, and each question has four options. */
  lemma QuestionData()
    ensures |QUESTIONS| == QUESTION_COUNT
    ensures forall i :: 0 <= i < |QUESTIONS| ==> QUESTIONS[i].id == i + 1 && |QUESTIONS[i].options| == 4
    ensures OptionsInRange(QUESTIONS)
  {
  }

  /** `options.find(opt => opt.value === value)`: the first option of that value. */
  function FirstOptionWith(options: seq<AnswerOption>, value: string): (r: Option<AnswerOption>)
    ensures r.Some? ==> r.value in options && r.value.value == value
    ensures r.Some? ==> exists j :: 0 <= j < |options| && options[j] == r.value
                                 && forall k :: 0 <= k < j ==> options[k].value != value
    ensures r.None? <==> forall j :: 0 <= j < |options| ==> options[j].value != value
  {
    if |options| == 0 then None
    else if options[0].value == value then Some(options[0])
    else
      var r := FirstOptionWith(options[1..], value);
      assert r.Some? ==> exists j :: 1 <= j < |options| && options[j] == r.value
                                   && forall k :: 0 <= k < j ==> options[k].value != value by {
        if r.Some? {
          var j :| 0 <= j < |options[1..]| && options[1..][j] == r.value
                   && forall k :: 0 <= k < j ==> options[1..][k].value != value;
          assert options[j + 1] == r.value;
          forall k | 0 <= k < j + 1 ensures options[k].value != value {
            if k > 0 { assert options[k] == options[1..][k - 1]; }
          }
        }
      }
      r
  }

  /** The first question having an option of that value, and that option in it:
      something of that value is found exactly when some question offers it. */
  function FindOption(qs: seq<Question>, value: string): (r: Option<AnswerOption>)
    ensures r.Some? ==> r.value.value == value
    ensures r.None? <==> forall i, j :: 0 <= i < |qs| && 0 <= j < |qs[i].options| ==> qs[i].options[j].value != value
  {
    if |qs| == 0 then None
    else
      match FirstOptionWith(qs[0].options, value)
      case Some(o) => Some(o)
      case None =>
        assert (forall i, j :: 0 <= i < |qs[1..]| && 0 <= j < |qs[1..][i].options| ==> qs[1..][i].options[j].value != value)
           <==> (forall i, j :: 1 <= i < |qs| && 0 <= j < |qs[i].options| ==> qs[i].options[j].value != value) by {
          forall i | 1 <= i < |qs| ensures qs[i] == qs[1..][i - 1] {}
        }
        FindOption(qs[1..], value)
  }

  /** What is found is the first match in the first question that offers the value. */
  lemma {:induction false} FindOptionFirst(qs: seq<Question>, value: string)
    ensures var r := FindOption(qs, value);
            r.Some? ==> exists i :: 0 <= i < |qs| && r.value in qs[i].options
                                 && FirstOptionWith(qs[i].options, value) == r
                                 && forall k :: 0 <= k < i ==> FirstOptionWith(qs[k].options, value).None?
    decreases |qs|
  {
    if |qs| > 0 && FirstOptionWith(qs[0].options, value).None? {
      FindOptionFirst(qs[1..], value);
      var r := FindOption(qs, value);
      if r.Some? {
        var i :| 0 <= i < |qs[1..]| && r.value in qs[1..][i].options
                 && FirstOptionWith(qs[1..][i].options, value) == r
                 && forall k :: 0 <= k < i ==> FirstOptionWith(qs[1..][k].options, value).None?;
        assert qs[i + 1] == qs[1..][i];
        forall k | 0 <= k < i + 1 ensures FirstOptionWith(qs[k].options, value).None? {
          if k > 0 { assert qs[k] == qs[1..][k - 1]; }
        }
      }
    }
  }

  /** `option?.points || 0`. */
  function PointsOf(value: string): nat
  {
    match FindOption(QUESTIONS, value)
    case None => 0
    case Some(o) => if o.points == 0 then 0 else o.points
  }

  /** `option?.phaseHint || 1`. */
  function HintOf(value: string): nat
  {
    match FindOption(QUESTIONS, value)
    case None => DEFAULT_PHASE
    case Some(o) => if o.phaseHint == 0 then DEFAULT_PHASE else o.phaseHint
  }

  /** Values are looked up by the first question that offers them: "basic" scores as
      on question 1 even when chosen on question 5, and "some" as on question 1 even
      when chosen on question 3. */
  lemma FirstQuestionWins()
    ensures PointsOf("basic") == 2 && HintOf("basic") == 1
    ensures QUESTIONS[4].options[2] == Opt("basic", 3, 2)
    ensures PointsOf("some") == 3 && HintOf("some") == 2
    ensures QUESTIONS[2].options[2] == Opt("some", 3, 2)
  {
    assert FirstOptionWith(QUESTIONS[0].options, "basic") == Some(Opt("basic", 2, 1));
    assert FirstOptionWith(QUESTIONS[0].options, "some") == Some(Opt("some", 3, 2));
  }

  /** A value no question offers scores 0 points and hints at phase 1. */
  lemma UnknownValue(v: string)
    requires forall i, j :: 0 <= i < |QUESTIONS| && 0 <= j < |QUESTIONS[i].options| ==> QUESTIONS[i].options[j].value != v
    ensures PointsOf(v) == 0 && HintOf(v) == DEFAULT_PHASE
  {
    assert FindOption(QUESTIONS, v).None?;
  }

  /** Whatever question a value is chosen on, it is looked up as its first option in
      the first question offering it. */
  lemma FirstOfferFound(qs: seq<Question>, v: string, i: nat, j: nat)
    requires i < |qs| && j < |qs[i].options| && qs[i].options[j].value == v
    requires forall k :: 0 <= k < j ==> qs[i].options[k].value != v
    requires forall k, m :: 0 <= k < i && 0 <= m < |qs[k].options| ==> qs[k].options[m].value != v
    ensures FindOption(qs, v) == Some(qs[i].options[j])
  {
    FindOptionFirst(qs, v);
    var r := FindOption(qs, v);
    var i' :| 0 <= i' < |qs| && r.value in qs[i'].options
              && FirstOptionWith(qs[i'].options, v) == r
              && forall k :: 0 <= k < i' ==> FirstOptionWith(qs[k].options, v).None?;
    assert i' == i;
    var j' :| 0 <= j' < |qs[i].options| && qs[i].options[j'] == r.value
              && forall k :: 0 <= k < j' ==> qs[i].options[k].value != v;
    assert j' == j;
  }

  /** The points and the hint of a value are those of its first offer. */
  lemma ScoredByFirstOffer(v: string, i: nat, j: nat)
    requires i < |QUESTIONS| && j < |QUESTIONS[i].options| && QUESTIONS[i].options[j].value == v
    requires forall k :: 0 <= k < j ==> QUESTIONS[i].options[k].value != v
    requires forall k, m :: 0 <= k < i && 0 <= m < |QUESTIONS[k].options| ==> QUESTIONS[k].options[m].value != v
    ensures PointsOf(v) == QUESTIONS[i].options[j].points
    ensures HintOf(v) == QUESTIONS[i].options[j].phaseHint
  {
    QuestionData();
    FirstOfferFound(QUESTIONS, v, i, j);
  }

  /** Every value scores at most 4 points and hints at a phase from 1 to 4. */
  lemma ValueRanges(v: string)
    ensures PointsOf(v) <= 4 && 1 <= HintOf(v) <= MAX_HINT
  {
    QuestionData();
    FoundInRange(QUESTIONS, v);
  }

  lemma FoundInRange(qs: seq<Question>, v: string)
    requires OptionsInRange(qs)
    ensures var f := FindOption(qs, v);
            f.Some? ==> 1 <= f.value.points <= 4 && 1 <= f.value.phaseHint <= MAX_HINT
  {
    var f := FindOption(qs, v);
    if f.Some? {
      FindOptionFirst(qs, v);
      var i :| 0 <= i < |qs| && f.value in qs[i].options
               && FirstOptionWith(qs[i].options, v) == f
               && forall k :: 0 <= k < i ==> FirstOptionWith(qs[k].options, v).None?;
      var j :| 0 <= j < |qs[i].options| && qs[i].options[j] == f.value;
    }
  }

  /** The level for a point total. */
  function LevelFor(totalPoints: int): Level
  {
    if totalPoints <= BEGINNER_MAX then Beginner
    else if totalPoints <= INTERMEDIATE_MAX then Intermediate
    else Advanced
  }

  /** Beginner up to 16 points, intermediate from 17 to 24, advanced from 25; the level
      never drops as the total grows. */
  lemma LevelBands(total: int, more: int)
    ensures LevelFor(total) == Beginner <==> total <= 16
    ensures LevelFor(total) == Intermediate <==> 17 <= total <= 24
    ensures LevelFor(total) == Advanced <==> total >= 25
    ensures total <= more ==> Rank(LevelFor(total)) <= Rank(LevelFor(more))
  {
  }

  function Rank(l: Level): nat
  {
    match l
    case Beginner => 0
    case Intermediate => 1
    case Advanced => 2
  }

  /** The point total of a list of answers. */
  function SumPoints(values: seq<string>): nat
  {
    if |values| == 0 then 0 else SumPoints(values[..|values| - 1]) + PointsOf(values[|values| - 1])
  }

  /** The phase each answer hints at, in answer order. */
  function HintsOf(values: seq<string>): seq<nat>
  {
    seq(|values|, i requires 0 <= i < |values| => HintOf(values[i]))
  }

  /** Every hint is a phase from 1 to 4. */
  lemma HintsInRange(values: seq<string>)
    ensures forall i :: 0 <= i < |HintsOf(values)| ==> 1 <= HintsOf(values)[i] <= MAX_HINT
  {
    forall i | 0 <= i < |values| ensures 1 <= HintsOf(values)[i] <= MAX_HINT {
      ValueRanges(values[i]);
    }
  }

  /** How many times phase `h` occurs among the hints. */
  function Occurrences(hints: seq<nat>, h: nat): nat
  {
    if |hints| == 0 then 0
    else Occurrences(hints[..|hints| - 1], h) + (if hints[|hints| - 1] == h then 1 else 0)
  }

  /** With hints from 1 to 4 only, no other phase occurs and the four counts add up
      to the number of hints. */
  lemma {:induction false} OccurrencesRange(hints: seq<nat>, h: nat)
    requires forall i :: 0 <= i < |hints| ==> 1 <= hints[i] <= MAX_HINT
    ensures (h == 0 || h > MAX_HINT) ==> Occurrences(hints, h) == 0
    ensures Occurrences(hints, 1) + Occurrences(hints, 2) + Occurrences(hints, 3) + Occurrences(hints, 4) == |hints|
    decreases |hints|
  {
    if |hints| > 0 {
      OccurrencesRange(hints[..|hints| - 1], h);
    }
  }

  /** `r` occurs most often among the hints and no smaller phase occurs as often; with
      no hints at all it is phase 1. */
  ghost predicate IsMostFrequent(hints: seq<nat>, r: nat)
  {
    if |hints| == 0 then r == DEFAULT_PHASE
    else
      && 1 <= r <= MAX_HINT && Occurrences(hints, r) > 0
      && (forall h: nat :: Occurrences(hints, h) <= Occurrences(hints, r))
      && (forall h: nat :: h < r ==> Occurrences(hints, h) < Occurrences(hints, r))
  }

  /** The recommendation: the phase hinted at most often by the answers, the smallest
      such phase on a tie, and phase 1 when there are no answers. */
  ghost predicate IsRecommendation(values: seq<string>, r: nat)
  {
    IsMostFrequent(HintsOf(values), r)
  }

  /** There is never more than one recommendation. */
  lemma RecommendationUnique(values: seq<string>, r1: nat, r2: nat)
    requires IsRecommendation(values, r1) && IsRecommendation(values, r2)
    ensures r1 == r2
  {
  }

  /** The total is at most 4 points per answer. */
  lemma {:induction false} PointBounds(values: seq<string>)
    ensures SumPoints(values) <= 4 * |values|
    decreases |values|
  {
    if |values| > 0 {
      PointBounds(values[..|values| - 1]);
      ValueRanges(values[|values| - 1]);
    }
  }

  /** `completeAssessment` over the answers given (`Object.values(answers)`): the level
      of the point total and the recommended phase. */
  method CompleteAssessment(values: seq<string>) returns (level: Level, recommended: nat)
    ensures level == LevelFor(SumPoints(values))
    ensures IsRecommendation(values, recommended)
  {
    var totalPoints := TotalPoints(values);
    var phaseCounts := CountPhases(values);
    HintsInRange(values);
    recommended := MostHinted(HintsOf(values), phaseCounts);
    level := LevelFor(totalPoints);
  }

  /** The `reduce` summing the points of each answer. */
  method TotalPoints(values: seq<string>) returns (total: nat)
    ensures total == SumPoints(values)
  {
    total := 0;
    var i := 0;
    while i < |values|
      invariant 0 <= i <= |values|
      invariant total == SumPoints(values[..i])
    {
      assert values[..i + 1][..i] == values[..i];
      total := total + PointsOf(values[i]);
      i := i + 1;
    }
    assert values[..|values|] == values;
  }

  /** `phaseCounts`: for each phase hinted at, how many answers hint at it. */
  method CountPhases(values: seq<string>) returns (counts: map<nat, nat>)
    ensures forall h: nat :: h in counts <==> Occurrences(HintsOf(values), h) > 0
    ensures forall h: nat :: h in counts ==> counts[h] == Occurrences(HintsOf(values), h)
  {
    ghost var hints := HintsOf(values);
    counts := map[];
    var i := 0;
    while i < |values|
      invariant 0 <= i <= |values|
      invariant forall h: nat :: h in counts <==> Occurrences(hints[..i], h) > 0
      invariant forall h: nat :: h in counts ==> counts[h] == Occurrences(hints[..i], h)
    {
      assert hints[..i + 1][..i] == hints[..i];
      var phase := HintOf(values[i]);
      assert hints[..i + 1][i] == phase;
      var prior := if phase in counts then counts[phase] else 0;
      counts := counts[phase := prior + 1];
      i := i + 1;
    }
    assert hints[..|values|] == hints;
  }

  /** The entries of `phaseCounts` sorted by descending count, first entry taken, or
      phase 1 when there is none. Integer keys are enumerated in ascending order and
      the sort is stable, so this is the scan of phases 1 to 4 keeping the first
      strictly higher count. */
  method MostHinted(hints: seq<nat>, counts: map<nat, nat>) returns (recommended: nat)
    requires forall i :: 0 <= i < |hints| ==> 1 <= hints[i] <= MAX_HINT
    requires forall h: nat :: h in counts <==> Occurrences(hints, h) > 0
    requires forall h: nat :: h in counts ==> counts[h] == Occurrences(hints, h)
    ensures IsMostFrequent(hints, recommended)
  {
    OccurrencesRange(hints, 0);
    var best := 0;
    var bestCount := 0;
    var h := 1;
    while h <= MAX_HINT
      invariant 1 <= h <= MAX_HINT + 1
      invariant best < h && bestCount == Occurrences(hints, best)
      invariant best == 0 <==> bestCount == 0
      invariant forall k: nat :: 1 <= k < h ==> Occurrences(hints, k) <= bestCount
      invariant forall k: nat :: k < best ==> Occurrences(hints, k) < bestCount
    {
      if h in counts && counts[h] > bestCount {
        best := h;
        bestCount := counts[h];
      }
      h := h + 1;
    }
    recommended := if best == 0 then DEFAULT_PHASE else best;
    forall k: nat ensures Occurrences(hints, k) <= bestCount {
      OccurrencesRange(hints, k);
    }
    if |hints| > 0 && best == 0 {
      assert false;
    }
  }

  // ----- the question-by-question wizard -----

  /** The component's state: the question shown, the answers by question id, and the
      result once the last question has been passed. */
  class AssessmentWizard {
    var currentQuestion: nat
    var answers: map<nat, string>
    var result: Option<(Level, nat)>

    ghost predicate Valid()
      reads this
    {
      currentQuestion < QUESTION_COUNT && (forall id :: id in answers ==> 1 <= id <= QUESTION_COUNT)
    }

    constructor ()
      ensures Valid() && currentQuestion == 0 && answers == map[] && result.None?
    {
      currentQuestion := 0;
      answers := map[];
      result := None;
    }

    function CurrentId(): nat
      reads this
      requires Valid()
    {
      QUESTIONS[currentQuestion].id
    }

    /** `canProceed`: the question shown has a (non-empty) answer. */
    function CanProceed(): bool
      reads this
      requires Valid()
    {
      CurrentId() in answers && answers[CurrentId()] != []
    }

    /** `handleAnswer(value)`: records the answer to the question shown, leaving the others. */
    method HandleAnswer(value: string)
      requires Valid()
      modifies this
      ensures Valid() && answers == old(answers)[old(CurrentId()) := value]
      ensures currentQuestion == old(currentQuestion) && result == old(result)
    {
      QuestionData();
      answers := answers[QUESTIONS[currentQuestion].id := value];
    }

    /** `handleNext`: moves to the next question, or completes the assessment on the last. */
    method HandleNext()
      requires Valid()
      modifies this
      ensures Valid() && answers == old(answers)
      ensures old(currentQuestion) < QUESTION_COUNT - 1 ==> currentQuestion == old(currentQuestion) + 1 && result == old(result)
      ensures old(currentQuestion) == QUESTION_COUNT - 1 ==>
                currentQuestion == old(currentQuestion) && result.Some?
                && result.value.0 == LevelFor(SumPoints(AnswerValues(answers, 1)))
                && IsRecommendation(AnswerValues(answers, 1), result.value.1)
    {
      if currentQuestion < QUESTION_COUNT - 1 {
        currentQuestion := currentQuestion + 1;
      } else {
        var level, recommended := CompleteAssessment(AnswerValues(answers, 1));
        result := Some((level, recommended));
      }
    }

    /** `handlePrevious`: moves back one question, never before the first. */
    method HandlePrevious()
      requires Valid()
      modifies this
      ensures Valid() && answers == old(answers) && result == old(result)
      ensures currentQuestion == if old(currentQuestion) > 0 then old(currentQuestion) - 1 else 0
    {
      if currentQuestion > 0 {
        currentQuestion := currentQuestion - 1;
      }
    }
  }

  /** `Object.values(answers)`: the answers in ascending order of question id, from `id` on. */
  function AnswerValues(answers: map<nat, string>, id: nat): seq<string>
    decreases QUESTION_COUNT + 1 - id
  {
    if id > QUESTION_COUNT then []
    else (if id in answers then [answers[id]] else []) + AnswerValues(answers, id + 1)
  }

  /** Each question id answered contributes exactly one value. */
  lemma {:induction false} AnswerValuesCount(answers: map<nat, string>, id: nat)
    requires 1 <= id
    requires forall k :: k in answers ==> 1 <= k <= QUESTION_COUNT
    ensures |AnswerValues(answers, id)| == |set k | k in answers && k >= id|
    decreases QUESTION_COUNT + 1 - id
  {
    var rest := set k | k in answers && k >= id + 1;
    var here := set k | k in answers && k >= id;
    if id > QUESTION_COUNT {
      assert here == {};
    } else {
      AnswerValuesCount(answers, id + 1);
      if id in answers {
        assert here == rest + {id};
      } else {
        assert here == rest;
      }
    }
  }
}
