/**
 * The task lists of the phase views (src/components/Phase1Ideation.tsx,
 * Phase2Validation.tsx and Phase4EICDeepDive.tsx): a status per task id that the
 * "Mark Complete" button toggles, the quiz answers chosen so far, the quiz
 * submission that marks a task completed on a pass, and the XP figures shown.
 * The three views share this logic; the phase 4 view has no quiz.
 */
module PhaseViews {
  import opened Prelude
  import opened Phases

  /** The chosen option index per task id and question id. */
  type QuizAnswers = map<string, map<string, int>>

  // ----- the transitions as functions -----

  /** `markTaskComplete(taskId)`: `{ ...prev[taskId], completed: !prev[taskId]?.completed }`;
      a task with no status gets a completed one. */
  function Toggled(st: TaskStatuses, taskId: string): TaskStatuses
  {
    st[taskId := if taskId in st then st[taskId].(completed := !st[taskId].completed) else TaskStatus(true, None)]
  }

  /** `handleQuizAnswer(taskId, questionId, answerIndex)`. */
  function Answered(qa: QuizAnswers, taskId: string, questionId: string, answerIndex: int): QuizAnswers
  {
    qa[taskId := (if taskId in qa then qa[taskId] else map[])[questionId := answerIndex]]
  }

  /** The answer chosen for a question, if any. */
  function Chosen(qa: QuizAnswers, taskId: string, questionId: string): Option<int>
  {
    if taskId in qa && questionId in qa[taskId] then Some(qa[taskId][questionId]) else None
  }

  /** `questions.filter(q => answers[q.id] === q.answer_index).length`. */
  function CorrectCount(questions: seq<QuizQuestion>, answers: map<string, int>): nat
  {
    if |questions| == 0 then 0
    else
      (if questions[0].id in answers && answers[questions[0].id] == questions[0].answerIndex then 1 else 0)
      + CorrectCount(questions[1..], answers)
  }

  /** `Math.round(correct / total * 100)` in integers: the nearest percentage, halves rounded up. */
  function QuizScore(correct: nat, total: nat): int
    requires total > 0
  {
    (200 * correct + total) / (2 * total)
  }

  /** A task with a quiz of at least one question: one `submitQuiz` can score. */
  predicate Scorable(task: Task)
  {
    task.quiz.Some? && |task.quiz.value.questions| > 0
  }

  /** The score of the answers chosen for a task's quiz (none chosen: `{}`). */
  function ScoreOf(qa: QuizAnswers, task: Task): int
    requires Scorable(task)
  {
    var answers := if task.id in qa then qa[task.id] else map[];
    QuizScore(CorrectCount(task.quiz.value.questions, answers), |task.quiz.value.questions|)
  }

  /** The quiz is passed: the score reaches the pass mark. Without questions the score
      is not a number and nothing passes. */
  predicate QuizPasses(qa: QuizAnswers, task: Task)
  {
    Scorable(task) && ScoreOf(qa, task) >= task.quiz.value.passingScore
  }

  /** `submitQuiz(task)`: a pass records the task as completed with its score; a task
      without a quiz, or a fail, changes nothing. */
  function QuizOutcome(st: TaskStatuses, qa: QuizAnswers, task: Task): TaskStatuses
  {
    if QuizPasses(qa, task) then st[task.id := TaskStatus(true, Some(ScoreOf(qa, task)))] else st
  }

  /** The "Submit Quiz" button is enabled: every question of the task's quiz has an answer. */
  predicate AllAnswered(qa: QuizAnswers, task: Task)
  {
    task.quiz.Some? && forall i :: 0 <= i < |task.quiz.value.questions| ==> Chosen(qa, task.id, task.quiz.value.questions[i].id).Some?
  }

  /** `earnedXP`: the XP of the tasks whose status is completed. */
  function EarnedXp(tasks: seq<Task>, st: TaskStatuses): nat
  {
    if |tasks| == 0 then 0
    else EarnedXp(tasks[..|tasks| - 1], st) + (if Done(st, tasks[|tasks| - 1].id) then tasks[|tasks| - 1].xp else 0)
  }

  /** `completedTasks`: the statuses, of any id, with `completed` set. */
  function CompletedTasks(st: TaskStatuses): nat
  {
    |set k | k in st && st[k].completed|
  }

  // ----- properties -----

  /** Toggling flips whether that task is done, keeps its quiz score, and leaves every
      other status as it was. */
  lemma ToggleSpec(st: TaskStatuses, taskId: string)
    ensures var r := Toggled(st, taskId);
            && (Done(r, taskId) <==> !Done(st, taskId))
            && r.Keys == st.Keys + {taskId}
            && (taskId in st ==> r[taskId].quizScore == st[taskId].quizScore)
            && (forall k :: k in st && k != taskId ==> r[k] == st[k])
  {
  }

  /** Toggling twice restores a task that had a status; one that had none is left with
      an incomplete status, which every figure treats as no status. */
  lemma ToggleTwice(st: TaskStatuses, taskId: string)
    ensures taskId in st ==> Toggled(Toggled(st, taskId), taskId) == st
    ensures taskId !in st ==> Toggled(Toggled(st, taskId), taskId) == st[taskId := TaskStatus(false, None)]
    ensures forall k :: Done(Toggled(Toggled(st, taskId), taskId), k) <==> Done(st, k)
  {
    if taskId in st {
      var r := Toggled(Toggled(st, taskId), taskId);
      assert r.Keys == st.Keys;
      assert forall k :: k in st ==> r[k] == st[k];
    }
  }

  /** Toggling a task moves the completed count by one, up or down. */
  lemma ToggleCount(st: TaskStatuses, taskId: string)
    ensures CompletedTasks(Toggled(st, taskId)) == if Done(st, taskId) then CompletedTasks(st) - 1 else CompletedTasks(st) + 1
  {
    var before := set k | k in st && st[k].completed;
    var r := Toggled(st, taskId);
    var after := set k | k in r && r[k].completed;
    forall k | k != taskId ensures k in after <==> k in before {
      assert k in r <==> k in st;
      if k in st {
        assert r[k] == st[k];
      }
    }
    if Done(st, taskId) {
      assert taskId !in after;
      assert after == before - {taskId};
    } else {
      assert taskId in after && taskId !in before;
      assert after == before + {taskId};
    }
  }

  /** Choosing an answer records it, and every other task's and question's answer stays. */
  lemma AnswerSpec(qa: QuizAnswers, taskId: string, questionId: string, answerIndex: int)
    ensures var r := Answered(qa, taskId, questionId, answerIndex);
            && Chosen(r, taskId, questionId) == Some(answerIndex)
            && (forall t, q :: (t != taskId || q != questionId) ==> Chosen(r, t, q) == Chosen(qa, t, q))
  {
  }

  /** At most every question is answered correctly. */
  lemma {:induction false} CorrectCountBound(questions: seq<QuizQuestion>, answers: map<string, int>)
    ensures CorrectCount(questions, answers) <= |questions|
    decreases |questions|
  {
    if |questions| > 0 {
      CorrectCountBound(questions[1..], answers);
    }
  }

  /** The score is the percentage of correct answers rounded to the nearest integer,
      halves up: it lies within a half of 100 * correct / total, above it by at most
      the half. */
  lemma QuizScoreRounds(correct: nat, total: nat)
    requires total > 0
    ensures var s := QuizScore(correct, total);
            && 200 * correct - total < 2 * total * s <= 200 * correct + total
            && s >= 0
  {
    var s := QuizScore(correct, total);
    var num := 200 * correct + total;
    var den := 2 * total;
    assert num == den * s + num % den;
    assert 0 <= num % den < den;
    assert 2 * total * s == den * s;
  }

  /** On a three-question quiz the scores are 0, 33, 67 and 100, so a 70% pass mark
      needs every answer right. */
  lemma ThreeQuestionScores()
    ensures QuizScore(0, 3) == 0 && QuizScore(1, 3) == 33 && QuizScore(2, 3) == 67 && QuizScore(3, 3) == 100
    ensures forall c: nat :: c <= 3 ==> (QuizScore(c, 3) >= 70 <==> c == 3)
  {
    forall c: nat | c <= 3 ensures QuizScore(c, 3) >= 70 <==> c == 3 {
      assert c == 0 || c == 1 || c == 2 || c == 3;
    }
  }

  /** Submitting a quiz marks the task completed with its score exactly when the
      score reaches the pass mark; otherwise, or without a quiz, nothing changes. No
      other task's status ever changes, and a second submission of the same answers
      changes nothing more. */
  lemma QuizOutcomeSpec(st: TaskStatuses, qa: QuizAnswers, task: Task)
    ensures var r := QuizOutcome(st, qa, task);
            && (task.quiz.None? ==> r == st)
            && (QuizPasses(qa, task) ==> Done(r, task.id) && r[task.id].quizScore == Some(ScoreOf(qa, task)))
            && (!QuizPasses(qa, task) ==> r == st)
            && (forall k :: k != task.id ==> (k in r <==> k in st) && (k in st ==> r[k] == st[k]))
            && QuizOutcome(r, qa, task) == r
  {
  }

  /** With the quizzes of phases 1 and 2, a submission passes exactly when all three
      answers are right. */
  lemma PhaseQuizzesNeedAllRight(answers: map<string, int>)
    ensures (QuizScore(CorrectCount(PHASE1_QUIZ.questions, answers), 3) >= PHASE1_QUIZ.passingScore)
            <==> CorrectCount(PHASE1_QUIZ.questions, answers) == 3
    ensures (QuizScore(CorrectCount(PHASE2_QUIZ.questions, answers), 3) >= PHASE2_QUIZ.passingScore)
            <==> CorrectCount(PHASE2_QUIZ.questions, answers) == 3
  {
    CorrectCountBound(PHASE1_QUIZ.questions, answers);
    CorrectCountBound(PHASE2_QUIZ.questions, answers);
    ThreeQuestionScores();
  }

  /** The earned XP never exceeds the phase's XP, and equals it once the phase is
      complete; when every task is worth some XP, equality means the phase is complete. */
  lemma {:induction false} EarnedXpBounds(tasks: seq<Task>, st: TaskStatuses)
    ensures EarnedXp(tasks, st) <= SumXp(tasks)
    ensures (forall i :: 0 <= i < |tasks| ==> Done(st, tasks[i].id)) ==> EarnedXp(tasks, st) == SumXp(tasks)
    ensures (forall i :: 0 <= i < |tasks| ==> tasks[i].xp > 0) && EarnedXp(tasks, st) == SumXp(tasks)
            ==> forall i :: 0 <= i < |tasks| ==> Done(st, tasks[i].id)
    decreases |tasks|
  {
    if |tasks| > 0 {
      var init := tasks[..|tasks| - 1];
      EarnedXpBounds(init, st);
      assert forall i :: 0 <= i < |init| ==> init[i] == tasks[i];
    }
  }

  /** For a view's phase: earned XP is at most the total, and reaches it exactly when
      the phase is complete (every task of the four phases is worth some XP). */
  lemma EarnedXpMatchesCompletion(phase: PhaseDefinition, st: TaskStatuses)
    requires forall i :: 0 <= i < |phase.tasks| ==> phase.tasks[i].xp > 0
    ensures EarnedXp(phase.tasks, st) <= GetPhaseXP(phase)
    ensures EarnedXp(phase.tasks, st) == GetPhaseXP(phase) <==> IsPhaseComplete(phase, st)
  {
    PhaseXpTotals(phase);
    EarnedXpBounds(phase.tasks, st);
    IsPhaseCompleteSpec(phase, st, st);
  }

  // ----- the view -----

  /** A phase view's state: the phase it shows, the task statuses and the quiz answers. */
  class PhaseView {
    const phase: PhaseDefinition
    var taskStatuses: TaskStatuses
    var quizAnswers: QuizAnswers

    constructor (phase: PhaseDefinition)
      ensures this.phase == phase && taskStatuses == map[] && quizAnswers == map[]
    {
      this.phase := phase;
      taskStatuses := map[];
      quizAnswers := map[];
    }

    /** `markTaskComplete(taskId)`. */
    method MarkTaskComplete(taskId: string)
      modifies this
      ensures taskStatuses == Toggled(old(taskStatuses), taskId)
      ensures quizAnswers == old(quizAnswers)
    {
      var prior := if taskId in taskStatuses then taskStatuses[taskId] else TaskStatus(false, None);
      var wasCompleted := taskId in taskStatuses && taskStatuses[taskId].completed;
      taskStatuses := taskStatuses[taskId := prior.(completed := !wasCompleted)];
    }

    /** `handleQuizAnswer(taskId, questionId, answerIndex)`. */
    method HandleQuizAnswer(taskId: string, questionId: string, answerIndex: int)
      modifies this
      ensures quizAnswers == Answered(old(quizAnswers), taskId, questionId, answerIndex)
      ensures taskStatuses == old(taskStatuses)
    {
      var forTask := if taskId in quizAnswers then quizAnswers[taskId] else map[];
      quizAnswers := quizAnswers[taskId := forTask[questionId := answerIndex]];
    }

    /** `submitQuiz(task)`: reports whether the quiz was passed. */
    method SubmitQuiz(task: Task) returns (passed: bool)
      modifies this
      ensures passed == QuizPasses(old(quizAnswers), task)
      ensures taskStatuses == QuizOutcome(old(taskStatuses), old(quizAnswers), task)
      ensures quizAnswers == old(quizAnswers)
    {
      if task.quiz.None? {
        return false;
      }
      var quiz := task.quiz.value;
      var answers := if task.id in quizAnswers then quizAnswers[task.id] else map[];
      if |quiz.questions| == 0 {
        return false;
      }
      var correct := CorrectCount(quiz.questions, answers);
      var score := QuizScore(correct, |quiz.questions|);
      if score >= quiz.passingScore {
        taskStatuses := taskStatuses[task.id := TaskStatus(true, Some(score))];
        passed := true;
      } else {
        passed := false;
      }
    }

    /** `totalXP`. */
    function TotalXP(): nat
      reads this
    {
      GetPhaseXP(phase)
    }

    /** `earnedXP`. */
    function EarnedXP(): nat
      reads this
    {
      EarnedXp(phase.tasks, taskStatuses)
    }

    /** `isPhaseReady`: the "complete phase" button is shown. */
    function IsPhaseReady(): bool
      reads this
    {
      IsPhaseComplete(phase, taskStatuses)
    }

    /** The "Submit Quiz" button's enabled state for one task. */
    function CanSubmitQuiz(task: Task): bool
      reads this
    {
      AllAnswered(quizAnswers, task)
    }
  }
}
