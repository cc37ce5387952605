/**
 * The phase libraries under src/lib/phases: each phase is a list of at most seven
 * tasks worth some XP, one of which may carry a multiple-choice quiz, and the phase
 * is gated by a code handed out at the EIC. `getPhaseXP` (and the `xp_total`
 * getter, the same `reduce`) adds up the XP; `isPhaseComplete` asks whether every
 * task has a completed status. Texts, resources, templates and rubrics are left out.
 */
module Phases {
  import opened Prelude

  datatype UnlockKind = CodeGate | Auto

  /** A quiz question: how many options it offers and the 0-based index of the right one. */
  datatype QuizQuestion = QuizQuestion(id: string, optionCount: nat, answerIndex: int)

  /** A quiz: its questions and the percentage needed to pass. */
  datatype Quiz = Quiz(questions: seq<QuizQuestion>, passingScore: int)

  datatype Task = Task(id: string, order: nat, xp: nat, quiz: Option<Quiz>)

  datatype PhaseDefinition = PhaseDefinition(id: string, unlock: UnlockKind, tasks: seq<Task>)

  /** The part of a task's status that the libraries read. */
  datatype TaskStatus = TaskStatus(completed: bool, quizScore: Option<int>)

  type TaskStatuses = map<string, TaskStatus>

  const MAX_TASKS: nat := 7

  function Plain(id: string, order: nat, xp: nat): Task
  {
    Task(id, order, xp, None)
  }

  const PHASE1_QUIZ := Quiz([QuizQuestion("q1", 4, 1), QuizQuestion("q2", 4, 1), QuizQuestion("q3", 4, 2)], 70)
  const PHASE2_QUIZ := Quiz([QuizQuestion("q1", 4, 2), QuizQuestion("q2", 4, 1), QuizQuestion("q3", 4, 1)], 70)

  const PHASE1 := PhaseDefinition("phase-1-ideation", CodeGate, [
    Plain("p1-t1-problem-video", 1, 50),
    Plain("p1-t2-problem-statement", 2, 80),
    Plain("p1-t3-empathy-map", 3, 100),
    Plain("p1-t4-competitor-scan", 4, 90),
    Plain("p1-t5-peer-feedback", 5, 60),
    Task("p1-t6-concepts-quiz", 6, 50, Some(PHASE1_QUIZ)),
    Plain("p1-t7-onepager", 7, 150)
  ])

  const PHASE2 := PhaseDefinition("phase-2-validation", CodeGate, [
    Plain("p2-t1-validation-video", 1, 50),
    Plain("p2-t2-riskiest-assumption", 2, 90),
    Plain("p2-t3-interview-script", 3, 120),
    Plain("p2-t4-synthesis", 4, 100),
    Plain("p2-t5-experiment", 5, 120),
    Task("p2-t6-micro-quiz", 6, 50, Some(PHASE2_QUIZ)),
    Plain("p2-t7-validation-report", 7, 150)
  ])

  const PHASE4 := PhaseDefinition("phase-4-eic-deep-dive", CodeGate, [
    Plain("p4-t1-eic-intro-video", 1, 50),
    Plain("p4-t2-resource-map", 2, 110),
    Plain("p4-t3-staff-eir-spotlight", 3, 90),
    Plain("p4-t4-program-match", 4, 100),
    Plain("p4-t5-event-engagement", 5, 110),
    Plain("p4-t6-inperson-visit", 6, 90),
    Plain("p4-t7-deep-dive-report", 7, 150)
  ])

  const PHASE5 := PhaseDefinition("phase-5-launch-pitch", CodeGate, [
    Plain("p5-t1-positioning-icp", 1, 100),
    Plain("p5-t2-gtm-plan", 2, 120),
    Plain("p5-t3-pricing-unit-econ", 3, 110),
    Plain("p5-t4-launch-sprint", 4, 140),
    Plain("p5-t5-pitch-deck", 5, 140),
    Plain("p5-t6-pitch-practice", 6, 100),
    Plain("p5-t7-launch-packet", 7, 160)
  ])

  // ----- XP -----

  /** The XP of the tasks, added up. */
  function SumXp(tasks: seq<Task>): nat
  {
    if |tasks| == 0 then 0 else SumXp(tasks[..|tasks| - 1]) + tasks[|tasks| - 1].xp
  }

  /** `tasks.reduce((sum, t) => sum + t.xp, acc)`: a left fold from the first task. */
  function ReduceXp(tasks: seq<Task>, acc: nat): nat
  {
    if |tasks| == 0 then acc else ReduceXp(tasks[1..], acc + tasks[0].xp)
  }

  /** `getPhaseXP(phase)`, and the `xp_total` getter. */
  function GetPhaseXP(phase: PhaseDefinition): nat
  {
    ReduceXp(phase.tasks, 0)
  }

  /** Adding the first task's XP to the total of the rest is the same sum. */
  lemma {:induction false} SumXpFront(tasks: seq<Task>)
    requires |tasks| > 0
    ensures SumXp(tasks) == tasks[0].xp + SumXp(tasks[1..])
    decreases |tasks|
  {
    if |tasks| > 1 {
      var init := tasks[..|tasks| - 1];
      SumXpFront(init);
      assert init[1..] == tasks[1..][..|tasks[1..]| - 1];
    } else {
      assert tasks[1..] == [];
      assert tasks[..0] == [];
    }
  }

  /** The fold from `acc` gives `acc` plus the sum of the XP. */
  lemma {:induction false} ReduceIsSum(tasks: seq<Task>, acc: nat)
    ensures ReduceXp(tasks, acc) == acc + SumXp(tasks)
    decreases |tasks|
  {
    if |tasks| > 0 {
      ReduceIsSum(tasks[1..], acc + tasks[0].xp);
      SumXpFront(tasks);
    }
  }

  /** The sum over seven tasks, written out. */
  lemma SumOfSeven(tasks: seq<Task>)
    requires |tasks| == 7
    ensures SumXp(tasks) == tasks[0].xp + tasks[1].xp + tasks[2].xp + tasks[3].xp + tasks[4].xp + tasks[5].xp + tasks[6].xp
  {
    assert tasks[..1][..0] == [];
    assert SumXp(tasks[..1]) == tasks[0].xp;
    assert tasks[..2][..1] == tasks[..1];
    assert SumXp(tasks[..2]) == SumXp(tasks[..1]) + tasks[1].xp;
    assert tasks[..3][..2] == tasks[..2];
    assert SumXp(tasks[..3]) == SumXp(tasks[..2]) + tasks[2].xp;
    assert tasks[..4][..3] == tasks[..3];
    assert SumXp(tasks[..4]) == SumXp(tasks[..3]) + tasks[3].xp;
    assert tasks[..5][..4] == tasks[..4];
    assert SumXp(tasks[..5]) == SumXp(tasks[..4]) + tasks[4].xp;
    assert tasks[..6][..5] == tasks[..5];
    assert SumXp(tasks[..6]) == SumXp(tasks[..5]) + tasks[5].xp;
    assert tasks[..6] == tasks[..|tasks| - 1];
  }

  /** A phase's XP is the sum of its tasks' XP: 580, 680, 700 and 870 for phases 1, 2, 4 and 5. */
  lemma PhaseXpTotals(phase: PhaseDefinition)
    ensures GetPhaseXP(phase) == SumXp(phase.tasks)
    ensures GetPhaseXP(PHASE1) == 580 && GetPhaseXP(PHASE2) == 680
    ensures GetPhaseXP(PHASE4) == 700 && GetPhaseXP(PHASE5) == 870
  {
    ReduceIsSum(phase.tasks, 0);
    ReduceIsSum(PHASE1.tasks, 0);
    ReduceIsSum(PHASE2.tasks, 0);
    ReduceIsSum(PHASE4.tasks, 0);
    ReduceIsSum(PHASE5.tasks, 0);
    SumOfSeven(PHASE1.tasks);
    SumOfSeven(PHASE2.tasks);
    SumOfSeven(PHASE4.tasks);
    SumOfSeven(PHASE5.tasks);
  }

  // ----- completion -----

  /** `taskStatuses[id]?.completed`: a task with no status is not completed. */
  predicate Done(statuses: TaskStatuses, id: string)
  {
    id in statuses && statuses[id].completed
  }

  /** `tasks.every((t) => taskStatuses[t.id]?.completed)`. */
  function EveryDone(tasks: seq<Task>, statuses: TaskStatuses): bool
  {
    |tasks| == 0 || (Done(statuses, tasks[0].id) && EveryDone(tasks[1..], statuses))
  }

  /** `isPhaseComplete(phase, taskStatuses)`. */
  function IsPhaseComplete(phase: PhaseDefinition, statuses: TaskStatuses): bool
  {
    EveryDone(phase.tasks, statuses)
  }

  /** Every task done, in the sense of `every`. */
  lemma {:induction false} EveryDoneIff(tasks: seq<Task>, statuses: TaskStatuses)
    ensures EveryDone(tasks, statuses) <==> forall i :: 0 <= i < |tasks| ==> Done(statuses, tasks[i].id)
    decreases |tasks|
  {
    if |tasks| > 0 {
      EveryDoneIff(tasks[1..], statuses);
      if forall i :: 0 <= i < |tasks[1..]| ==> Done(statuses, tasks[1..][i].id) {
        forall i | 1 <= i < |tasks| ensures Done(statuses, tasks[i].id) {
          assert tasks[i] == tasks[1..][i - 1];
        }
      }
    }
  }

  /** A phase is complete exactly when each of its tasks has a status with `completed`
      set; statuses of other ids play no part, and a phase with no tasks is complete. */
  lemma IsPhaseCompleteSpec(phase: PhaseDefinition, statuses: TaskStatuses, other: TaskStatuses)
    ensures IsPhaseComplete(phase, statuses) <==> forall i :: 0 <= i < |phase.tasks| ==> Done(statuses, phase.tasks[i].id)
    ensures (forall i :: 0 <= i < |phase.tasks| ==> (Done(statuses, phase.tasks[i].id) <==> Done(other, phase.tasks[i].id)))
            ==> IsPhaseComplete(phase, statuses) == IsPhaseComplete(phase, other)
    ensures |phase.tasks| == 0 ==> IsPhaseComplete(phase, statuses)
  {
    EveryDoneIff(phase.tasks, statuses);
    EveryDoneIff(phase.tasks, other);
  }

  // ----- the data -----

  /** A quiz whose pass mark is a percentage and whose answers are indices of options. */
  predicate QuizWellFormed(q: Quiz)
  {
    && 0 <= q.passingScore <= 100
    && |q.questions| > 0
    && forall i :: 0 <= i < |q.questions| ==> 0 <= q.questions[i].answerIndex < q.questions[i].optionCount
  }

  /** A phase of at most seven tasks with distinct ids, in display order 1, 2, ...,
      code-gated, whose quizzes are well formed. */
  predicate PhaseWellFormed(phase: PhaseDefinition)
  {
    && |phase.tasks| <= MAX_TASKS
    && phase.unlock == CodeGate
    && (forall i, j :: 0 <= i < j < |phase.tasks| ==> phase.tasks[i].id != phase.tasks[j].id)
    && (forall i :: 0 <= i < |phase.tasks| ==> phase.tasks[i].order == i + 1)
    && (forall i :: 0 <= i < |phase.tasks| && phase.tasks[i].quiz.Some? ==> QuizWellFormed(phase.tasks[i].quiz.value))
  }

  /** Task ids of the form `pN-tK-...` with K the task's position, which keeps them distinct. */
  predicate NumberedIds(tasks: seq<Task>)
  {
    forall i :: 0 <= i < |tasks| ==> |tasks[i].id| > 4 && tasks[i].id[4] as int == '1' as int + i
  }

  lemma NumberedIdsDistinct(tasks: seq<Task>)
    requires NumberedIds(tasks)
    ensures forall i, j :: 0 <= i < j < |tasks| ==> tasks[i].id != tasks[j].id
  {
    forall i, j | 0 <= i < j < |tasks| ensures tasks[i].id != tasks[j].id {
      assert tasks[i].id[4] != tasks[j].id[4];
    }
  }

  /** Phase 1: seven tasks, well formed, with the quiz on task 6 alone (three
      questions, 70% to pass). */
  lemma Phase1Data()
    ensures PhaseWellFormed(PHASE1) && |PHASE1.tasks| == 7
    ensures forall i :: 0 <= i < 7 ==> PHASE1.tasks[i].xp > 0
    ensures forall i :: 0 <= i < 7 ==> (PHASE1.tasks[i].quiz.Some? <==> i == 5)
    ensures |PHASE1_QUIZ.questions| == 3 && PHASE1_QUIZ.passingScore == 70
  {
    assert NumberedIds(PHASE1.tasks);
    NumberedIdsDistinct(PHASE1.tasks);
  }

  /** Phase 2: the same shape, its quiz also on task 6. */
  lemma Phase2Data()
    ensures PhaseWellFormed(PHASE2) && |PHASE2.tasks| == 7
    ensures forall i :: 0 <= i < 7 ==> PHASE2.tasks[i].xp > 0
    ensures forall i :: 0 <= i < 7 ==> (PHASE2.tasks[i].quiz.Some? <==> i == 5)
    ensures |PHASE2_QUIZ.questions| == 3 && PHASE2_QUIZ.passingScore == 70
  {
    assert NumberedIds(PHASE2.tasks);
    NumberedIdsDistinct(PHASE2.tasks);
  }

  /** Phase 4: seven tasks, well formed, no quiz. */
  lemma Phase4Data()
    ensures PhaseWellFormed(PHASE4) && |PHASE4.tasks| == 7
    ensures forall i :: 0 <= i < 7 ==> PHASE4.tasks[i].xp > 0
    ensures forall i :: 0 <= i < 7 ==> PHASE4.tasks[i].quiz.None?
  {
    assert NumberedIds(PHASE4.tasks);
    NumberedIdsDistinct(PHASE4.tasks);
  }

  /** Phase 5: seven tasks, well formed, no quiz. */
  lemma Phase5Data()
    ensures PhaseWellFormed(PHASE5) && |PHASE5.tasks| == 7
    ensures forall i :: 0 <= i < 7 ==> PHASE5.tasks[i].xp > 0
    ensures forall i :: 0 <= i < 7 ==> PHASE5.tasks[i].quiz.None?
  {
    assert NumberedIds(PHASE5.tasks);
    NumberedIdsDistinct(PHASE5.tasks);
  }
}
