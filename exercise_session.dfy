/** The exercise page (pages/ExerciseSession.tsx): the exercises filed under
    one lesson, answered one at a time, each answer judged by normalised
    equality, a wrong answer explained by the tutor, and the score reported
    when the last exercise is done. */
module ExerciseSession {
  import opened Outcomes
  import opened Text
  import opened Types
  import Constants

  /** Shown when the tutor's explanation call throws. */
  const AnalysisFallback := "Oups, l'IA tuteur n'a pas pu analyser ton erreur, mais regarde la méthode ci-dessous !"

  /** Experience awarded per correct answer. */
  const PointsPerCorrect := 50

  /** An answer matches a solution when both are equal once white space is
      deleted and letters are lower-cased. */
  predicate IsCorrect(answer: string, solution: string) {
    Normalize(answer) == Normalize(solution)
  }

  /** The verdict on an answer. */
  function Judge(answer: string, solution: string): (v: Verdict)
    ensures v == Correct <==> IsCorrect(answer, solution)
  {
    if Normalize(answer) == Normalize(solution) then Correct else Wrong
  }

  /** The number of correct verdicts. */
  function CorrectCount(vs: seq<Verdict>): (n: nat)
    ensures n <= |vs|
    ensures n == |vs| <==> forall i :: 0 <= i < |vs| ==> vs[i] == Correct
    ensures n == 0 <==> forall i :: 0 <= i < |vs| ==> vs[i] == Wrong
  {
    if vs == [] then 0
    else
      var init := vs[..|vs| - 1];
      assert forall i :: 0 <= i < |init| ==> init[i] == vs[i];
      (if vs[|vs| - 1] == Correct then 1 else 0) + CorrectCount(init)
  }

  /** Appending a verdict adds one for a correct one and nothing otherwise. */
  lemma CorrectCountAppend(vs: seq<Verdict>, v: Verdict)
    ensures CorrectCount(vs + [v]) == CorrectCount(vs) + (if v == Correct then 1 else 0)
  {
    assert (vs + [v])[..|vs|] == vs;
  }

  /** The judgement ignores case: lower-casing the answer changes nothing. */
  lemma CorrectIgnoresCase(answer: string, solution: string)
    ensures IsCorrect(Lower(answer), solution) <==> IsCorrect(answer, solution)
    ensures IsCorrect(answer, Lower(solution)) <==> IsCorrect(answer, solution)
  {
    NormalizeIgnoresCase(answer);
    NormalizeIgnoresCase(solution);
  }

  /** The judgement ignores spacing: a white-space character inserted
      anywhere in the answer changes nothing. */
  lemma CorrectIgnoresSpacing(a: string, w: char, b: string, solution: string)
    requires IsWhitespace(w)
    ensures IsCorrect(a + [w] + b, solution) <==> IsCorrect(a + b, solution)
  {
    NormalizeIgnoresWhitespace(a, w, b);
  }

  /** A blank answer is correct only for a blank solution. */
  lemma BlankAnswerJudgement(answer: string, solution: string)
    requires IsBlank(answer)
    ensures IsCorrect(answer, solution) <==> IsBlank(solution)
  {
    BlankIffStripsToEmpty(answer);
    BlankIffStripsToEmpty(solution);
  }

  /** The check is textual: two answers that have no white space and no
      capitals are judged equal exactly when they are the same string, so
      `2/4` is wrong against `1/2`. */
  lemma JudgeIsTextual(answer: string, solution: string)
    requires forall i :: 0 <= i < |answer| ==> !IsWhitespace(answer[i]) && LowerChar(answer[i]) == answer[i]
    requires forall i :: 0 <= i < |solution| ==> !IsWhitespace(solution[i]) && LowerChar(solution[i]) == solution[i]
    ensures Judge(answer, solution) == Correct <==> answer == solution
  {
    StripKeepsClean(answer);
    StripKeepsClean(solution);
    assert Lower(answer) == answer;
    assert Lower(solution) == solution;
  }

  /** One call to `explainMistake`, as the page makes it. */
  datatype MistakeRequest = MistakeRequest(level: Level, question: string, correctAnswer: string, userAnswer: string)

  /** What the page shows: the "exercises to come" notice when the lesson has
      no exercises, the results card once finished, or the current question. */
  datatype Screen = NoExercises | Finished | Question

  /** The page's state fields at one instant. */
  datatype Snapshot = Snapshot(
    currentIndex: nat,
    userAnswer: string,
    feedback: Option<Verdict>,
    mistakeAnalysis: Option<string>,
    isAiLoading: bool,
    finished: bool,
    score: int,
    pending: nat,
    requests: seq<MistakeRequest>,
    completions: seq<int>)

  class Session {
    const exercises: seq<Exercise>
    const userLevel: Level
    var currentIndex: nat
    var userAnswer: string
    var feedback: Option<Verdict>
    var mistakeAnalysis: Option<string>
    var isAiLoading: bool
    var finished: bool
    var score: int
    /** Explanation calls that have not yet settled. */
    var pending: nat
    /** Every explanation call made, in order. */
    var requests: seq<MistakeRequest>
    /** Every `onComplete` call, with its argument, in order. */
    var completions: seq<int>
    /** The verdict given on each exercise judged so far. */
    ghost var verdicts: seq<Verdict>

    function State(): Snapshot
      reads this
    {
      Snapshot(currentIndex, userAnswer, feedback, mistakeAnalysis, isAiLoading,
               finished, score, pending, requests, completions)
    }

    /** `!currentEx` is checked before `finished`. */
    function CurrentScreen(): Screen
      reads this
    {
      if currentIndex >= |exercises| then NoExercises
      else if finished then Finished
      else Question
    }

    ghost predicate Valid()
      reads this
    {
      && (|exercises| == 0 ==> currentIndex == 0 && feedback.None? && !finished)
      && (|exercises| > 0 ==> currentIndex < |exercises|)
      // one verdict per exercise passed, plus the current one once judged
      && |verdicts| == currentIndex + (if feedback.Some? then 1 else 0)
      && (feedback.Some? ==> verdicts[|verdicts| - 1] == feedback.value)
      && score == PointsPerCorrect * CorrectCount(verdicts)
      && (finished <==> completions != [])
      && (finished ==> completions == [score] && feedback.Some? && currentIndex == |exercises| - 1)
      && (isAiLoading ==> pending > 0)
      && pending <= |requests|
    }

    /** The score is a multiple of 50 and at most 50 per exercise reached. */
    lemma ScoreBounds()
      requires Valid()
      ensures score % PointsPerCorrect == 0
      ensures 0 <= score <= PointsPerCorrect * (currentIndex + 1)
    {
    }

    /** The page opened on `lessonId`: the exercises filed under it, or none. */
    constructor(lessonId: Option<string>, level: Level)
      ensures Valid()
      ensures exercises == Constants.ExercisesFor(lessonId) && userLevel == level
      ensures State() == Snapshot(0, "", None, None, false, false, 0, 0, [], [])
    {
      exercises := Constants.ExercisesFor(lessonId);
      userLevel := level;
      currentIndex := 0;
      userAnswer := "";
      feedback := None;
      mistakeAnalysis := None;
      isAiLoading := false;
      finished := false;
      score := 0;
      pending := 0;
      requests := [];
      completions := [];
      verdicts := [];
    }

    /** The answer field, editable until the answer is judged. */
    method Type(text: string)
      requires Valid()
      modifies this
      ensures Valid()
      ensures old(CurrentScreen() == Question && feedback.None?) ==> State() == old(State()).(userAnswer := text)
      ensures !old(CurrentScreen() == Question && feedback.None?) ==> State() == old(State())
      ensures verdicts == old(verdicts)
    {
      if CurrentScreen() == Question && feedback.None? {
        userAnswer := text;
      }
    }

    /** The Enter key: `!feedback && handleCheck()`, with no test that the
        answer is non-blank or that an explanation is loading. */
    method PressEnter()
      requires Valid()
      modifies this
      ensures Valid()
      ensures old(CurrentScreen() == Question && feedback.None?) ==> Checked()
      ensures !old(CurrentScreen() == Question && feedback.None?) ==> State() == old(State()) && verdicts == old(verdicts)
    {
      if CurrentScreen() == Question && feedback.None? {
        HandleCheck();
      }
    }

    /** The "Vérifier" button: on screen while there is no feedback, disabled
        while the answer is blank or an explanation is loading. */
    method ClickCheck()
      requires Valid()
      modifies this
      ensures Valid()
      ensures old(CurrentScreen() == Question && feedback.None? && !IsBlank(userAnswer) && !isAiLoading) ==> Checked()
      ensures !old(CurrentScreen() == Question && feedback.None? && !IsBlank(userAnswer) && !isAiLoading) ==>
                State() == old(State()) && verdicts == old(verdicts)
    {
      if CurrentScreen() == Question && feedback.None? && !IsBlank(userAnswer) && !isAiLoading {
        HandleCheck();
      }
    }

    /** The effect of the synchronous part of `handleCheck`: a correct answer
        earns 50 points; a wrong one starts an explanation call. */
    twostate predicate Checked()
      reads this
    {
      && old(currentIndex) < |exercises|
      && Recorded(Judge(old(userAnswer), exercises[old(currentIndex)].solution))
    }

    /** The state once verdict `v` is given on the current exercise. */
    twostate predicate Recorded(v: Verdict)
      reads this
    {
      && old(currentIndex) < |exercises|
      && verdicts == old(verdicts) + [v]
      && var ex := exercises[old(currentIndex)];
         if v == Correct then
           State() == old(State()).(feedback := Some(Correct), score := old(score) + PointsPerCorrect)
         else
           State() == old(State()).(
             feedback := Some(Wrong),
             isAiLoading := true,
             pending := old(pending) + 1,
             requests := old(requests) + [MistakeRequest(userLevel, ex.question, ex.solution, old(userAnswer))])
    }

    /** `handleCheck` up to the `await`. */
    method HandleCheck()
      requires Valid() && CurrentScreen() == Question && feedback.None?
      modifies this
      ensures Valid()
      ensures Checked()
    {
      Record(Judge(userAnswer, exercises[currentIndex].solution));
    }

    method Record(v: Verdict)
      requires Valid() && CurrentScreen() == Question && feedback.None?
      modifies this
      ensures Valid()
      ensures Recorded(v)
    {
      CorrectCountAppend(verdicts, v);
      feedback := Some(v);
      verdicts := verdicts + [v];
      if v == Correct {
        score := score + PointsPerCorrect;
      } else {
        var ex := exercises[currentIndex];
        isAiLoading := true;
        pending := pending + 1;
        requests := requests + [MistakeRequest(userLevel, ex.question, ex.solution, userAnswer)];
      }
    }

    /** `handleCheck` after the `await`: the explanation, or the fallback
        when the call threw; loading ends either way (`finally`). Nothing ties
        the call to the exercise still on screen, so a late explanation lands
        on whatever exercise is current. */
    method ResolveExplanation(outcome: Call<string>)
      requires Valid() && pending > 0
      modifies this
      ensures Valid()
      ensures State() == old(State()).(
                mistakeAnalysis := Some(if outcome.Ok? then outcome.value else AnalysisFallback),
                isAiLoading := false,
                pending := old(pending) - 1)
      ensures verdicts == old(verdicts)
    {
      mistakeAnalysis := Some(if outcome.Ok? then outcome.value else AnalysisFallback);
      isAiLoading := false;
      pending := pending - 1;
    }

    /** The "Continuer" button, on screen once the answer is judged. */
    method ClickNext()
      requires Valid()
      modifies this
      ensures Valid()
      ensures old(CurrentScreen() == Question && feedback.Some?) ==> Advanced()
      ensures !old(CurrentScreen() == Question && feedback.Some?) ==> State() == old(State())
      ensures verdicts == old(verdicts)
    {
      if CurrentScreen() == Question && feedback.Some? {
        HandleNext();
      }
    }

    /** The effect of `handleNext`: on to the next exercise with the answer,
        feedback and analysis cleared, or, on the last one, finished and the
        score reported once. */
    twostate predicate Advanced()
      reads this
    {
      if old(currentIndex) < |exercises| - 1 then
        State() == old(State()).(currentIndex := old(currentIndex) + 1, userAnswer := "",
                                 feedback := None, mistakeAnalysis := None)
      else
        State() == old(State()).(finished := true, completions := old(completions) + [old(score)])
    }

    method HandleNext()
      requires Valid() && CurrentScreen() == Question && feedback.Some?
      modifies this
      ensures Valid()
      ensures Advanced()
      ensures verdicts == old(verdicts)
    {
      if currentIndex < |exercises| - 1 {
        currentIndex := currentIndex + 1;
        userAnswer := "";
        feedback := None;
        mistakeAnalysis := None;
      } else {
        finished := true;
        completions := completions + [score];
      }
    }
  }
}
