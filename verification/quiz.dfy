/**
 * play_quiz: every question is asked in order, one typed line answers it,
 * and the score counts the answers that match the stored letter.
 */
module Quiz {
  import opened Console
  import opened Text
  import opened Questions

  /** What the game prints after each answer: "Correct!" or "Wrong! The correct answer was X." */
  datatype Verdict = Correct | Wrong(expected: string)

  /** What a round ends with: the notice for an empty list, or every verdict and "score/total". */
  datatype QuizReport = NoQuestions | Finished(verdicts: seq<Verdict>, score: nat, total: nat)

  /** The typed line, trimmed and upper-cased, equals the stored answer. */
  predicate Answered(q: Question, line: string)
  {
    TypedAnswer(line) == q.answer
  }

  /** The verdict on one typed line: correct exactly on a match, otherwise wrong, naming the stored answer. */
  function Judge(q: Question, line: string): (v: Verdict)
    ensures v == Correct <==> Upper(Strip(line)) == q.answer
    ensures v != Correct ==> v == Wrong(q.answer)
  {
    if Answered(q, line) then Correct else Wrong(q.answer)
  }

  /** The verdicts printed during a quiz: one per question, in order. */
  function Verdicts(questions: seq<Question>, answers: seq<string>): (vs: seq<Verdict>)
    requires |answers| == |questions|
    ensures |vs| == |questions|
    ensures forall i :: 0 <= i < |vs| ==> (vs[i] == Correct <==> Answered(questions[i], answers[i]))
  {
    seq(|questions|, i requires 0 <= i < |questions| => Judge(questions[i], answers[i]))
  }

  /** The counter of play_quiz after the given answers to the given questions. */
  function Score(questions: seq<Question>, answers: seq<string>): (score: nat)
    requires |answers| == |questions|
    ensures score <= |questions|
  {
    if questions == [] then 0
    else
      var n := |questions| - 1;
      Score(questions[..n], answers[..n]) + (if Answered(questions[n], answers[n]) then 1 else 0)
  }

  /** The positions of the questions that were answered correctly. */
  ghost function CorrectAt(questions: seq<Question>, answers: seq<string>): set<nat>
    requires |answers| == |questions|
  {
    set i: nat | i < |questions| && Answered(questions[i], answers[i])
  }

  /**
   * The outcome of play_quiz on the given list and typed lines: an empty list
   * reads nothing; otherwise one line per question, every verdict, and the
   * score out of the number of questions.
   */
  function PlayResult(questions: seq<Question>, input: seq<string>): (r: Read<QuizReport>)
    ensures questions == [] <==> r == Done(NoQuestions, 0)
    ensures r.Exhausted? <==> |input| < |questions|
    ensures r.Done? ==> r.used <= |input|
    ensures r.Done? && questions != [] ==>
              && r.used == |questions|
              && r.value.Finished?
              && r.value.total == |questions|
              && |r.value.verdicts| == |questions|
              && r.value.score <= r.value.total
  {
    if questions == [] then Done(NoQuestions, 0)
    else if |input| < |questions| then Exhausted
    else
      var answers := input[..|questions|];
      Done(Finished(Verdicts(questions, answers), Score(questions, answers), |questions|), |questions|)
  }

  /** Answering question i adds one point to the score so far when it is correct, and none otherwise. */
  lemma ScoreStep(questions: seq<Question>, input: seq<string>, i: nat)
    requires i < |questions| && i < |input|
    ensures Score(questions[..i + 1], input[..i + 1]) ==
            Score(questions[..i], input[..i]) + if Answered(questions[i], input[i]) then 1 else 0
  {
    assert questions[..i + 1][..i] == questions[..i];
    assert input[..i + 1][..i] == input[..i];
    assert questions[..i + 1][i] == questions[i] && input[..i + 1][i] == input[i];
  }

  /** Answering question i adds its verdict to the verdicts so far. */
  lemma VerdictsStep(questions: seq<Question>, input: seq<string>, i: nat)
    requires i < |questions| && i < |input|
    ensures Verdicts(questions[..i + 1], input[..i + 1]) ==
            Verdicts(questions[..i], input[..i]) + [Judge(questions[i], input[i])]
  {
    var vs := Verdicts(questions[..i + 1], input[..i + 1]);
    var before := Verdicts(questions[..i], input[..i]);
    forall j | 0 <= j < i
      ensures vs[j] == before[j]
    {
      assert questions[..i + 1][j] == questions[..i][j];
      assert input[..i + 1][j] == input[..i][j];
    }
  }

  /** play_quiz, with the typed lines as input. */
  method PlayQuiz(questions: seq<Question>, input: seq<string>) returns (r: Read<QuizReport>)
    ensures r == PlayResult(questions, input)
  {
    if questions == [] {
      return Done(NoQuestions, 0);
    }
    var score := 0;
    var verdicts := [];
    for i := 0 to |questions|
      invariant i <= |input|
      invariant score == Score(questions[..i], input[..i])
      invariant verdicts == Verdicts(questions[..i], input[..i])
    {
      if i == |input| {
        return Exhausted;
      }
      var answer := TypedAnswer(input[i]);
      ScoreStep(questions, input, i);
      VerdictsStep(questions, input, i);
      if answer == questions[i].answer {
        verdicts := verdicts + [Correct];
        score := score + 1;
      } else {
        verdicts := verdicts + [Wrong(questions[i].answer)];
      }
    }
    assert questions[..|questions|] == questions;
    return Done(Finished(verdicts, score, |questions|), |questions|);
  }

  /** The score is the number of questions answered correctly: K correct answers out of N score K/N. */
  lemma {:induction false} ScoreCountsCorrect(questions: seq<Question>, answers: seq<string>)
    requires |answers| == |questions|
    ensures Score(questions, answers) == |CorrectAt(questions, answers)|
  {
    if questions == [] {
      assert CorrectAt(questions, answers) == {};
    } else {
      var n := |questions| - 1;
      ScoreCountsCorrect(questions[..n], answers[..n]);
      CorrectAtExtend(questions, answers);
      assert n !in CorrectAt(questions[..n], answers[..n]);
    }
  }

  /** The correct positions of a longer list: those of its prefix, plus the last one if it is correct. */
  lemma CorrectAtExtend(questions: seq<Question>, answers: seq<string>)
    requires |answers| == |questions| > 0
    ensures var n := |questions| - 1;
            CorrectAt(questions, answers) ==
            CorrectAt(questions[..n], answers[..n]) + (if Answered(questions[n], answers[n]) then {n} else {})
  {
    var n := |questions| - 1;
    var before := CorrectAt(questions[..n], answers[..n]);
    var after := before + (if Answered(questions[n], answers[n]) then {n} else {});
    forall i: nat
      ensures i in CorrectAt(questions, answers) <==> i in after
    {
      if i < n {
        assert questions[..n][i] == questions[i] && answers[..n][i] == answers[i];
      }
    }
  }

  /** The printed verdicts agree with the final score: as many "Correct!" lines as points. */
  lemma VerdictsMatchScore(questions: seq<Question>, answers: seq<string>)
    requires |answers| == |questions|
    ensures var vs := Verdicts(questions, answers);
            Score(questions, answers) == |set i: nat | i < |vs| && vs[i] == Correct|
  {
    var vs := Verdicts(questions, answers);
    ScoreCountsCorrect(questions, answers);
    assert (set i: nat | i < |vs| && vs[i] == Correct) == CorrectAt(questions, answers);
  }

  /** Full marks exactly when every answer matches, zero exactly when none does. */
  lemma {:induction false} ScoreExtremes(questions: seq<Question>, answers: seq<string>)
    requires |answers| == |questions|
    ensures Score(questions, answers) == |questions| <==>
            forall i :: 0 <= i < |questions| ==> Answered(questions[i], answers[i])
    ensures Score(questions, answers) == 0 <==>
            forall i :: 0 <= i < |questions| ==> !Answered(questions[i], answers[i])
  {
    if questions != [] {
      var n := |questions| - 1;
      ScoreExtremes(questions[..n], answers[..n]);
      assert forall i :: 0 <= i < n ==> questions[..n][i] == questions[i] && answers[..n][i] == answers[i];
    }
  }

  /**
   * For a stored answer without lower-case letters, a typed line is correct
   * exactly when, once trimmed, it is that answer in any letter case.
   */
  lemma JudgeIgnoresCaseAndSpace(q: Question, line: string)
    requires forall i :: 0 <= i < |q.answer| ==> !IsLowerLetter(q.answer[i])
    ensures Judge(q, line) == Correct <==> SameIgnoringCase(Strip(line), q.answer)
  {
    UpperMatches(Strip(line), q.answer);
  }

  /** A stored answer holding a lower-case letter is never matched, whatever is typed. */
  lemma LowerCaseAnswerNeverMatches(q: Question, line: string)
    requires exists i :: 0 <= i < |q.answer| && IsLowerLetter(q.answer[i])
    ensures Judge(q, line) == Wrong(q.answer)
  {
  }
}
