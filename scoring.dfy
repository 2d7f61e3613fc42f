/**
 * Turning the chosen option labels into indices and counting the correct ones.
 */
module Scoring {
  import opened Questions

  /** `opts.index(choice)`, with `-1` where Python raises `ValueError`: the
      first position holding `choice`, or `-1` when no option carries that label. */
  function IndexOf(opts: seq<string>, choice: string): (r: int)
    ensures -1 <= r < |opts|
    ensures r == -1 <==> choice !in opts
    ensures 0 <= r ==> opts[r] == choice && choice !in opts[..r]
  {
    if opts == [] then -1
    else if opts[0] == choice then 0
    else
      var k := IndexOf(opts[1..], choice);
      if k == -1 then -1
      else
        assert opts[..k + 1] == [opts[0]] + opts[1..][..k];
        k + 1
  }

  /** Because the first matching position is recorded, a question whose
      correct option repeats the label of an earlier option can never be
      answered correctly, whatever label is chosen. */
  lemma ShadowedCorrectOption(qn: Question, j: nat)
    requires j < qn.a < |qn.opts| && qn.opts[j] == qn.opts[qn.a]
    ensures forall choice :: IndexOf(qn.opts, choice) != qn.a
  {
    assert qn.opts[..qn.a][j] == qn.opts[qn.a];
  }

  /** The loop that builds `answers`: one entry per question, the index of the
      chosen label among that question's options, or `-1`. */
  method CollectAnswers(questions: seq<Question>, choices: seq<string>) returns (answers: seq<int>)
    requires |choices| == |questions|
    ensures |answers| == |questions|
    ensures forall i :: 0 <= i < |questions| ==> answers[i] == IndexOf(questions[i].opts, choices[i])
    ensures forall i :: 0 <= i < |questions| ==> (answers[i] == -1 <==> choices[i] !in questions[i].opts)
  {
    answers := [];
    var i := 0;
    while i < |questions|
      invariant 0 <= i <= |questions|
      invariant |answers| == i
      invariant forall k :: 0 <= k < i ==> answers[k] == IndexOf(questions[k].opts, choices[k])
    {
      answers := answers + [IndexOf(questions[i].opts, choices[i])];
      i := i + 1;
    }
  }

  /** `sum(1 for i, it in enumerate(QUESTIONS) if answers[i] == it["a"])`. */
  function Score(questions: seq<Question>, answers: seq<int>): (correct: nat)
    requires |questions| <= |answers|
    ensures correct <= |questions|
  {
    if questions == [] then 0
    else
      var n := |questions| - 1;
      Score(questions[..n], answers) + (if answers[n] == questions[n].a then 1 else 0)
  }

  /** The positions where the recorded answer equals the stored correct index. */
  ghost function CorrectPositions(questions: seq<Question>, answers: seq<int>): set<nat>
    requires |questions| <= |answers|
  {
    set i: nat | i < |questions| && answers[i] == questions[i].a
  }

  /** The score is the number of correctly answered positions. */
  lemma {:induction false} ScoreCountsMatches(questions: seq<Question>, answers: seq<int>)
    requires |questions| <= |answers|
    ensures Score(questions, answers) == |CorrectPositions(questions, answers)|
  {
    if questions != [] {
      var n := |questions| - 1;
      var front := questions[..n];
      ScoreCountsMatches(front, answers);
      if answers[n] == questions[n].a {
        assert CorrectPositions(questions, answers) == CorrectPositions(front, answers) + {n};
      } else {
        assert CorrectPositions(questions, answers) == CorrectPositions(front, answers);
      }
    }
  }

  /** Scoring the collected answers counts the questions whose chosen label
      is first found at the stored correct index. */
  lemma ScoreOfChoices(questions: seq<Question>, choices: seq<string>, answers: seq<int>)
    requires |choices| == |questions| == |answers|
    requires forall i :: 0 <= i < |questions| ==> answers[i] == IndexOf(questions[i].opts, choices[i])
    ensures Score(questions, answers)
         == |set i: nat | i < |questions| && IndexOf(questions[i].opts, choices[i]) == questions[i].a|
  {
    ScoreCountsMatches(questions, answers);
    assert CorrectPositions(questions, answers)
        == set i: nat | i < |questions| && IndexOf(questions[i].opts, choices[i]) == questions[i].a;
  }

  /** Full marks exactly when every answer is the correct index. */
  lemma {:induction false} FullScoreIffAllCorrect(questions: seq<Question>, answers: seq<int>)
    requires |questions| <= |answers|
    ensures Score(questions, answers) == |questions| <==>
            forall i :: 0 <= i < |questions| ==> answers[i] == questions[i].a
  {
    if questions != [] {
      var n := |questions| - 1;
      FullScoreIffAllCorrect(questions[..n], answers);
    }
  }

  /** Zero exactly when no answer is the correct index. */
  lemma {:induction false} ZeroScoreIffNoneCorrect(questions: seq<Question>, answers: seq<int>)
    requires |questions| <= |answers|
    ensures Score(questions, answers) == 0 <==>
            forall i :: 0 <= i < |questions| ==> answers[i] != questions[i].a
  {
    if questions != [] {
      var n := |questions| - 1;
      ZeroScoreIffNoneCorrect(questions[..n], answers);
    }
  }

  /** How many of the first `n` answers are the "label not found" sentinel. */
  function Unresolved(answers: seq<int>, n: nat): nat
    requires n <= |answers|
  {
    if n == 0 then 0 else Unresolved(answers, n - 1) + (if answers[n - 1] == -1 then 1 else 0)
  }

  /** When every stored index is non-negative, a `-1` answer is always wrong:
      the score is at most the number of answers that did resolve. */
  lemma {:induction false} UnresolvedNeverScores(questions: seq<Question>, answers: seq<int>)
    requires |questions| <= |answers|
    requires forall i :: 0 <= i < |questions| ==> questions[i].a >= 0
    ensures Score(questions, answers) + Unresolved(answers, |questions|) <= |questions|
  {
    if questions != [] {
      var n := |questions| - 1;
      UnresolvedNeverScores(questions[..n], answers);
    }
  }
}
