/** Assessment scoring: positional scoring of submitted answer indexes
    against a step's answer key, and the 60% pass mark with a floor of one. */
module Grading {
  import opened Schemas

  /** The correct-option indexes of a step's questions, in question order. */
  function AnswerKey(questions: seq<Question>): (key: seq<int>)
    ensures |key| == |questions|
    ensures forall i :: 0 <= i < |questions| ==> key[i] == questions[i].answerIndex
  {
    seq(|questions|, i requires 0 <= i < |questions| => questions[i].answerIndex)
  }

  /** The positions a submission gets right: present in both the answers and
      the key, with equal indexes. Extra answers and missing answers never
      contribute a position. */
  function Matches(answers: seq<int>, key: seq<int>): set<int> {
    set i | 0 <= i < |answers| && i < |key| && answers[i] == key[i]
  }

  /** The score, tallied answer by answer as the submission is enumerated. */
  function Score(answers: seq<int>, key: seq<int>): (score: nat)
    ensures score <= |key| && score <= |answers|
    decreases |answers|
  {
    if |answers| == 0 then 0
    else
      var n := |answers| - 1;
      Score(answers[..n], key) + (if n < |key| && answers[n] == key[n] then 1 else 0)
  }

  /** The tally counts exactly the matching positions. */
  lemma {:induction false} ScoreCountsMatches(answers: seq<int>, key: seq<int>)
    ensures Score(answers, key) == |Matches(answers, key)|
    decreases |answers|
  {
    if |answers| == 0 {
      assert Matches(answers, key) == {};
    } else {
      var n := |answers| - 1;
      var prefix := answers[..n];
      ScoreCountsMatches(prefix, key);
      var hit: set<int> := if n < |key| && answers[n] == key[n] then {n} else {};
      assert Matches(answers, key) == Matches(prefix, key) + hit;
      assert n !in Matches(prefix, key);
    }
  }

  /** Answers past the last question are ignored. */
  lemma {:induction false} ExtraAnswersIgnored(answers: seq<int>, key: seq<int>)
    requires |answers| >= |key|
    ensures Score(answers, key) == Score(answers[..|key|], key)
    decreases |answers|
  {
    if |answers| > |key| {
      var n := |answers| - 1;
      assert answers[..n][..|key|] == answers[..|key|];
      ExtraAnswersIgnored(answers[..n], key);
    } else {
      assert answers[..|key|] == answers;
    }
  }

  /** Answering every question with its key scores full marks. */
  lemma {:induction false} KeyScoresFull(key: seq<int>, n: nat)
    requires n <= |key|
    ensures Score(key[..n], key) == n
  {
    if n > 0 {
      assert key[..n][..n - 1] == key[..n - 1];
      KeyScoresFull(key, n - 1);
    }
  }

  /** The pass mark: 60% of the questions rounded down, but at least one. */
  function PassMark(total: nat): (mark: nat)
    ensures mark >= 1
    ensures 3 * total >= 5 ==> 5 * mark <= 3 * total < 5 * (mark + 1)
    ensures 3 * total < 5 ==> mark == 1
  {
    var sixty := (3 * total) / 5;
    if sixty > 1 then sixty else 1
  }

  predicate Passes(score: nat, total: nat) {
    score >= PassMark(total)
  }

  /** A step without questions can never be passed, whatever is submitted. */
  lemma NoQuestionsNeverPass(answers: seq<int>)
    ensures !Passes(Score(answers, []), 0)
  {
  }

  /** A one-question step is passed exactly when its one answer is right. */
  lemma SingleQuestionPassIff(answers: seq<int>, key: seq<int>)
    requires |key| == 1
    ensures Passes(Score(answers, key), 1) <==> |answers| >= 1 && answers[0] == key[0]
  {
    if |answers| >= 1 {
      ExtraAnswersIgnored(answers, key);
      assert answers[..1][..0] == [];
    }
  }

  /** A perfect submission passes every step that has questions. */
  lemma PerfectSubmissionPasses(key: seq<int>)
    requires |key| >= 1
    ensures Passes(Score(key, key), |key|)
  {
    KeyScoresFull(key, |key|);
    assert key[..|key|] == key;
  }

  /** A worked example: key [0,1,0,2] against answers [0,1,1,2] scores 3
      of 4 and passes with the mark at 2. */
  lemma ScoringExample()
    ensures Score([0, 1, 1, 2], [0, 1, 0, 2]) == 3
    ensures PassMark(4) == 2
    ensures Passes(3, 4)
  {
    var a := [0, 1, 1, 2];
    var k := [0, 1, 0, 2];
    assert a[..3][..2] == a[..2];
    assert a[..2][..1] == a[..1];
    assert a[..1][..0] == [];
    assert Score(a[..1], k) == 1;
    assert Score(a[..2], k) == 2;
    assert Score(a[..3], k) == 2;
  }

  /** The grading loop: enumerate the answers, count each one that lies
      inside the key and equals it, then compare with the pass mark. */
  method Grade(answers: seq<int>, key: seq<int>) returns (score: nat, passed: bool)
    ensures score == |Matches(answers, key)|
    ensures score <= |key|
    ensures passed <==> score >= PassMark(|key|)
  {
    score := 0;
    var i := 0;
    while i < |answers|
      invariant 0 <= i <= |answers|
      invariant score == Score(answers[..i], key)
    {
      assert answers[..i + 1][..i] == answers[..i];
      if i < |key| && answers[i] == key[i] {
        score := score + 1;
      }
      i := i + 1;
    }
    assert answers[..i] == answers;
    ScoreCountsMatches(answers, key);
    passed := score >= PassMark(|key|);
  }
}
