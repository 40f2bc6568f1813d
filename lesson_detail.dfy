/** The lesson page (pages/LessonDetail.tsx): the whiteboard that reveals the
    lesson as the narration progresses, the exercise counts per tier, and the
    one-question quiz on the lesson's first exercise. */
module LessonDetail {
  import opened Outcomes
  import opened Text
  import opened Types
  import opened Collections
  import Constants
  import ExerciseSession

  // ---------------------------------------------------------------------
  // Whiteboard

  /** `getWhiteboardContent`: nothing below 10 % of the narration, the title
      below 40 %, the content's first line below 70 %, then all of it. */
  function Whiteboard(progress: real, title: string, content: string): (r: string)
    ensures progress < 10.0 ==> r == []
    ensures 10.0 <= progress < 40.0 ==> r == title
    // the first line: a prefix of the content that stops at its first line break
    ensures 40.0 <= progress < 70.0 ==>
              StartsWith(content, r) && '\n' !in r && (|r| == |content| || content[|r|] == '\n')
    ensures 70.0 <= progress ==> r == content
  {
    if progress < 10.0 then ""
    else if progress < 40.0 then title
    else if progress < 70.0 then FirstField(content, '\n')
    else content
  }

  /** Once the title has given way to the content, the whiteboard only grows:
      what it shows later extends what it showed earlier. */
  lemma WhiteboardGrows(p: real, q: real, title: string, content: string)
    requires 40.0 <= p <= q
    ensures StartsWith(Whiteboard(q, title, content), Whiteboard(p, title, content))
  {
  }

  /** The whiteboard shows the first line, then the whole content, which are
      the same only for single-line content. */
  lemma FirstLineIsWholeContentIffOneLine(title: string, content: string)
    ensures Whiteboard(50.0, title, content) == Whiteboard(100.0, title, content) <==> '\n' !in content
  {
  }

  // ---------------------------------------------------------------------
  // Tiers

  /** `exercises.filter(e => e.difficulty === d).length`. */
  function TierCount(exercises: seq<Exercise>, d: Difficulty): (n: nat)
    ensures n <= |exercises|
    ensures n > 0 <==> exists i :: 0 <= i < |exercises| && exercises[i].difficulty == d
  {
    var r := Filter(exercises, (e: Exercise) => e.difficulty == d);
    assert r != [] ==> r[0] in exercises;
    |r|
  }

  lemma TierCountSplit(exercises: seq<Exercise>, d: Difficulty)
    requires exercises != []
    ensures TierCount(exercises, d) ==
              (if exercises[0].difficulty == d then 1 else 0) + TierCount(exercises[1..], d)
  {
  }

  /** Every exercise is in exactly one tier, so the three counts add up to
      the number of exercises. */
  lemma {:induction false} TierCountsSum(exercises: seq<Exercise>)
    ensures TierCount(exercises, Bronze) + TierCount(exercises, Argent) + TierCount(exercises, Or) == |exercises|
  {
    if exercises != [] {
      TierCountSplit(exercises, Bronze);
      TierCountSplit(exercises, Argent);
      TierCountSplit(exercises, Or);
      TierCountsSum(exercises[1..]);
    }
  }

  /** `isAvailable`: a tier card is offered when it has exercises. */
  predicate TierAvailable(exercises: seq<Exercise>, d: Difficulty) {
    TierCount(exercises, d) > 0
  }

  /** A lesson without exercises offers no tier, one with exercises offers
      at least one. */
  lemma SomeTierIffExercises(exercises: seq<Exercise>)
    ensures TierAvailable(exercises, Bronze) || TierAvailable(exercises, Argent) || TierAvailable(exercises, Or)
            <==> exercises != []
  {
    TierCountsSum(exercises);
  }

  // ---------------------------------------------------------------------
  // The quick quiz

  datatype Step = Idle | Answering | Feedback

  /** The level the tutor is told: the lesson's, or `'3eme'` when there is no
      lesson (a case the page never reaches, since it then shows only
      "Cours introuvable"). */
  function TutorLevel(lesson: Option<Lesson>): (l: Level)
    ensures lesson.Some? ==> l == lesson.value.level
    ensures lesson.None? ==> l == Troisieme
  {
    match lesson
    case Some(x) => x.level
    case None => Troisieme
  }

  datatype QuizSnapshot = QuizSnapshot(
    step: Step,
    quizAnswer: string,
    quizFeedback: Option<Verdict>,
    isAiExplaining: bool,
    aiExplanation: string,
    pending: nat,
    requests: seq<ExerciseSession.MistakeRequest>)

  class QuickQuiz {
    const lesson: Option<Lesson>
    const exercises: seq<Exercise>
    var step: Step
    var quizAnswer: string
    var quizFeedback: Option<Verdict>
    var isAiExplaining: bool
    var aiExplanation: string
    /** Explanation calls that have not yet settled. */
    var pending: nat
    /** Every explanation call made, in order. */
    var requests: seq<ExerciseSession.MistakeRequest>

    function State(): QuizSnapshot
      reads this
    {
      QuizSnapshot(step, quizAnswer, quizFeedback, isAiExplaining, aiExplanation, pending, requests)
    }

    ghost predicate Valid()
      reads this
    {
      && (step == Feedback ==> quizFeedback.Some?)
      && (isAiExplaining ==> pending > 0 || |requests| > 0)
      && pending <= |requests|
    }

    /** The page opened on lesson `id`. */
    constructor(id: Option<string>)
      ensures Valid()
      ensures lesson == Constants.FindLesson(id.GetOr("")) && exercises == Constants.ExercisesFor(id)
      ensures State() == QuizSnapshot(Idle, "", None, false, "", 0, [])
    {
      lesson := Constants.FindLesson(id.GetOr(""));
      exercises := Constants.ExercisesFor(id);
      step := Idle;
      quizAnswer := "";
      quizFeedback := None;
      isAiExplaining := false;
      aiExplanation := "";
      pending := 0;
      requests := [];
    }

    /** The quiz card is on the page only when the lesson has exercises. */
    predicate Shown()
      reads this
    {
      |exercises| > 0
    }

    /** "C'est parti !": straight to answering. */
    method ClickStart()
      requires Valid()
      modifies this
      ensures Valid()
      ensures old(Shown() && step == Idle) ==> State() == old(State()).(step := Answering)
      ensures !old(Shown() && step == Idle) ==> State() == old(State())
    {
      if Shown() && step == Idle {
        step := Answering;
      }
    }

    method Type(text: string)
      requires Valid()
      modifies this
      ensures Valid()
      ensures old(Shown() && step == Answering) ==> State() == old(State()).(quizAnswer := text)
      ensures !old(Shown() && step == Answering) ==> State() == old(State())
    {
      if Shown() && step == Answering {
        quizAnswer := text;
      }
    }

    /** The effect of the synchronous part of `handleQuickQuiz`. */
    twostate predicate QuizHandled()
      reads this
    {
      if old(step) == Idle then
        State() == old(State()).(step := Answering)
      else if |exercises| == 0 then
        State() == old(State())
      else
        var ex := exercises[0];
        if ExerciseSession.Judge(old(quizAnswer), ex.solution) == Correct then
          State() == old(State()).(quizFeedback := Some(Correct), step := Feedback)
        else
          State() == old(State()).(
            quizFeedback := Some(Wrong), step := Feedback, isAiExplaining := true,
            pending := old(pending) + 1,
            requests := old(requests) + [ExerciseSession.MistakeRequest(
              TutorLevel(lesson), ex.question, ex.solution, old(quizAnswer))])
    }

    /** `handleQuickQuiz` up to the `await`: from idle it only opens the
        question; otherwise it judges the answer against the first exercise,
        and does nothing when there is none. */
    method HandleQuickQuiz()
      requires Valid()
      modifies this
      ensures Valid()
      ensures QuizHandled()
    {
      if step == Idle {
        step := Answering;
      } else if |exercises| > 0 {
        var ex := exercises[0];
        Record(ExerciseSession.Judge(quizAnswer, ex.solution));
      }
    }

    method Record(v: Verdict)
      requires Valid() && |exercises| > 0
      modifies this
      ensures Valid()
      ensures v == Correct ==> State() == old(State()).(quizFeedback := Some(Correct), step := Feedback)
      ensures v == Wrong ==>
                State() == old(State()).(
                  quizFeedback := Some(Wrong), step := Feedback, isAiExplaining := true,
                  pending := old(pending) + 1,
                  requests := old(requests) + [ExerciseSession.MistakeRequest(
                    TutorLevel(lesson), exercises[0].question, exercises[0].solution, old(quizAnswer))])
    {
      quizFeedback := Some(v);
      step := Feedback;
      if v == Wrong {
        var ex := exercises[0];
        isAiExplaining := true;
        pending := pending + 1;
        requests := requests + [ExerciseSession.MistakeRequest(TutorLevel(lesson), ex.question, ex.solution, quizAnswer)];
      }
    }

    /** Enter in the answer field, or "Vérifier". */
    method Submit()
      requires Valid()
      modifies this
      ensures Valid()
      ensures old(Shown() && step == Answering) ==> QuizHandled()
      ensures !old(Shown() && step == Answering) ==> State() == old(State())
    {
      if Shown() && step == Answering {
        HandleQuickQuiz();
      }
    }

    /** `handleQuickQuiz` after the `await`. The call has no `catch`: when it
        throws, the rest of the handler is skipped and `isAiExplaining` stays
        set. */
    method ResolveExplanation(outcome: Call<string>)
      requires Valid() && pending > 0
      modifies this
      ensures Valid()
      ensures outcome.Ok? ==>
                State() == old(State()).(aiExplanation := outcome.value, isAiExplaining := false,
                                         pending := old(pending) - 1)
      ensures outcome.Err? ==> State() == old(State()).(pending := old(pending) - 1)
    {
      pending := pending - 1;
      if outcome.Ok? {
        aiExplanation := outcome.value;
        isAiExplaining := false;
      }
    }

    /** "Réessayer": back to idle with the answer and the verdict cleared. */
    method Retry()
      requires Valid()
      modifies this
      ensures Valid()
      ensures old(Shown() && step == Feedback) ==>
                State() == old(State()).(step := Idle, quizAnswer := "", quizFeedback := None)
      ensures !old(Shown() && step == Feedback) ==> State() == old(State())
    {
      if Shown() && step == Feedback {
        step := Idle;
        quizAnswer := "";
        quizFeedback := None;
      }
    }

    /** "Fermer": back to idle, keeping the answer and the verdict. */
    method Close()
      requires Valid()
      modifies this
      ensures Valid()
      ensures old(Shown() && step == Feedback) ==> State() == old(State()).(step := Idle)
      ensures !old(Shown() && step == Feedback) ==> State() == old(State())
    {
      if Shown() && step == Feedback {
        step := Idle;
      }
    }
  }
}
