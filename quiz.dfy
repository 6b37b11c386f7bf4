/**
 * The quiz attempt engine of the certification portal (models/quiz.py):
 * quiz and question records, the answer lines of an attempt and how each
 * scores itself, the aggregate score with the violation penalty, and the
 * attempt record that is created with shuffled lines, escalates violations
 * and is finished.
 *
 * Scores and weights are integers (question weights are integer fields);
 * percentages and penalties are `real`. Timestamps are integers supplied
 * by the caller.
 */
module Quiz {
  import opened Wrappers

  // ---------------------------------------------------------------------
  // Quiz bank (data only)
  // ---------------------------------------------------------------------

  datatype Choice = A | B | C | D

  /** A question: its record id, the correct choice and its weight in points. */
  datatype Question = Question(id: nat, correct: Choice, weight: int)

  /**
   * A quiz: the time limit in minutes, the passing score in percent
   * (0.0 when left empty) and its questions in the order `sequence, id`.
   */
  datatype QuizDef = QuizDef(timeLimitMinutes: int, passingScore: real, questions: seq<Question>)

  /** No two questions of a quiz share a record id. */
  ghost predicate DistinctIds(qs: seq<Question>)
  {
    forall i, j :: 0 <= i < j < |qs| ==> qs[i].id != qs[j].id
  }

  predicate NonNegativeWeights(qs: seq<Question>)
  {
    forall i :: 0 <= i < |qs| ==> qs[i].weight >= 0
  }

  // ---------------------------------------------------------------------
  // Answer lines
  // ---------------------------------------------------------------------

  /** One line per question of an attempt; `selected` is unset until answered. */
  datatype AnswerLine = AnswerLine(question: Question, selected: Option<Choice>)

  /** The two computed fields of a line, `is_correct` and `score_awarded`. */
  datatype LineResult = LineResult(isCorrect: bool, scoreAwarded: int)

  /** `_compute_result`: a line earns the question's full weight or nothing. */
  function ComputeResult(line: AnswerLine): (r: LineResult)
    ensures r.isCorrect <==> line.selected.Some? && line.selected.value == line.question.correct
    ensures r.isCorrect ==> r.scoreAwarded == line.question.weight
    ensures !r.isCorrect ==> r.scoreAwarded == 0
    ensures line.question.weight >= 0 ==> 0 <= r.scoreAwarded <= line.question.weight
  {
    if line.selected.Some? && line.selected.value == line.question.correct then
      LineResult(true, line.question.weight)
    else
      LineResult(false, 0)
  }

  function QuestionsOf(lines: seq<AnswerLine>): (qs: seq<Question>)
    ensures |qs| == |lines|
    ensures forall i :: 0 <= i < |lines| ==> qs[i] == lines[i].question
  {
    seq(|lines|, i requires 0 <= i < |lines| => lines[i].question)
  }

  // ---------------------------------------------------------------------
  // Aggregate score
  // ---------------------------------------------------------------------

  function SumWeights(qs: seq<Question>): int
  {
    if qs == [] then 0 else qs[0].weight + SumWeights(qs[1..])
  }

  /** `score_total`: the sum of `score_awarded` over the lines. */
  function ScoreTotal(lines: seq<AnswerLine>): int
  {
    if lines == [] then 0 else ComputeResult(lines[0]).scoreAwarded + ScoreTotal(lines[1..])
  }

  /** `max_score`: the sum of the weights of the lines' questions. */
  function MaxScore(lines: seq<AnswerLine>): int
  {
    SumWeights(QuestionsOf(lines))
  }

  /** An empty passing score falls back to 70 percent. */
  function EffectivePassingScore(passingScore: real): (p: real)
    ensures passingScore == 0.0 ==> p == 70.0
    ensures passingScore != 0.0 ==> p == passingScore
  {
    if passingScore == 0.0 then 70.0 else passingScore
  }

  /** The percentage of `max` that `total` is, before any penalty. */
  function RawPercentage(total: int, max: int): real
    requires max > 0
  {
    (total as real / max as real) * 100.0
  }

  /** The four stored computed fields of an attempt. */
  datatype Score = Score(total: int, max: int, percentage: real, passed: bool)

  /** `_compute_score` for one attempt. */
  function ComputeScore(lines: seq<AnswerLine>, penalty: real, passingScore: real): (s: Score)
    ensures s.total == ScoreTotal(lines) && s.max == MaxScore(lines)
    ensures s.percentage >= 0.0
    ensures s.max <= 0 ==> s.percentage == 0.0 && !s.passed
    ensures s.passed <==> s.max > 0 && s.percentage >= EffectivePassingScore(passingScore)
    ensures s.max > 0 ==> s.percentage >= RawPercentage(s.total, s.max) - penalty
    ensures s.max > 0 && s.percentage > 0.0 ==>
              s.percentage == RawPercentage(s.total, s.max) - penalty
  {
    var total := ScoreTotal(lines);
    var max := MaxScore(lines);
    if max > 0 then
      var raw := RawPercentage(total, max);
      var final := if raw - penalty < 0.0 then 0.0 else raw - penalty;
      Score(total, max, final, final >= EffectivePassingScore(passingScore))
    else
      Score(total, max, 0.0, false)
  }

  lemma {:induction false} SumWeightsAppend(a: seq<Question>, b: seq<Question>)
    ensures SumWeights(a + b) == SumWeights(a) + SumWeights(b)
  {
    if a != [] {
      assert (a + b)[1..] == a[1..] + b;
      SumWeightsAppend(a[1..], b);
    } else {
      assert a + b == b;
    }
  }

  /** Taking one question out of a sequence takes its weight out of the sum. */
  lemma {:induction false} SumWeightsRemove(b: seq<Question>, j: nat)
    requires j < |b|
    ensures SumWeights(b) == b[j].weight + SumWeights(b[..j] + b[j + 1..])
  {
    assert b == (b[..j] + [b[j]]) + b[j + 1..];
    SumWeightsAppend(b[..j] + [b[j]], b[j + 1..]);
    SumWeightsAppend(b[..j], [b[j]]);
    SumWeightsAppend(b[..j], b[j + 1..]);
    assert SumWeights([b[j]]) == b[j].weight + SumWeights([]);
  }

  /** A sequence's multiset is that of the element at `j` and of the rest. */
  lemma {:induction false} MultisetSplit(b: seq<Question>, j: nat)
    requires j < |b|
    ensures multiset(b) == multiset{b[j]} + multiset(b[..j] + b[j + 1..])
  {
    assert b == b[..j] + [b[j]] + b[j + 1..];
  }

  /** A position at which an element of the sequence's multiset sits. */
  lemma PositionOf(b: seq<Question>, x: Question) returns (j: nat)
    requires x in multiset(b)
    ensures j < |b| && b[j] == x
  {
    j :| 0 <= j < |b| && b[j] == x;
  }

  /** Matching the head of one permutation with an element of the other leaves two permutations. */
  lemma {:induction false} PermutationTail(a: seq<Question>, b: seq<Question>, j: nat)
    requires |a| > 0 && j < |b| && b[j] == a[0] && multiset(a) == multiset(b)
    ensures multiset(a[1..]) == multiset(b[..j] + b[j + 1..])
  {
    var rest := b[..j] + b[j + 1..];
    var head := multiset{a[0]};
    MultisetSplit(b, j);
    assert a == [a[0]] + a[1..];
    assert multiset(a) == head + multiset(a[1..]);
    assert head + multiset(a[1..]) == head + multiset(rest);
    forall q ensures multiset(a[1..])[q] == multiset(rest)[q] {
      assert (head + multiset(a[1..]))[q] == (head + multiset(rest))[q];
    }
  }

  /** The weight sum does not depend on the order of the questions. */
  lemma {:induction false} SumWeightsPermutation(a: seq<Question>, b: seq<Question>)
    requires multiset(a) == multiset(b)
    ensures SumWeights(a) == SumWeights(b)
    decreases |a|
  {
    if a == [] {
      assert |multiset(b)| == 0;
    } else {
      var x := a[0];
      var j := PositionOf(b, x);
      var rest := b[..j] + b[j + 1..];
      PermutationTail(a, b, j);
      SumWeightsPermutation(a[1..], rest);
      SumWeightsRemove(b, j);
    }
  }

  /** With non-negative weights, 0 <= score_total <= max_score. */
  lemma {:induction false} ScoreBounds(lines: seq<AnswerLine>)
    requires NonNegativeWeights(QuestionsOf(lines))
    ensures 0 <= ScoreTotal(lines) <= MaxScore(lines)
  {
    if lines != [] {
      assert QuestionsOf(lines) == [lines[0].question] + QuestionsOf(lines[1..]);
      ScoreBounds(lines[1..]);
    }
  }

  /** With non-negative weights and penalty the percentage lies between 0 and 100. */
  lemma PercentageBounds(lines: seq<AnswerLine>, penalty: real, passingScore: real)
    requires NonNegativeWeights(QuestionsOf(lines))
    requires penalty >= 0.0
    ensures 0.0 <= ComputeScore(lines, penalty, passingScore).percentage <= 100.0
  {
    var s := ComputeScore(lines, penalty, passingScore);
    ScoreBounds(lines);
    if s.max > 0 {
      var q := s.total as real / s.max as real;
      assert q * (s.max as real) == s.total as real;
      assert q <= 1.0;
    }
  }

  /** A larger penalty never raises the percentage, and never turns a fail into a pass. */
  lemma PenaltyMonotone(lines: seq<AnswerLine>, p1: real, p2: real, passingScore: real)
    requires p1 <= p2
    ensures ComputeScore(lines, p2, passingScore).percentage <= ComputeScore(lines, p1, passingScore).percentage
    ensures ComputeScore(lines, p2, passingScore).passed ==> ComputeScore(lines, p1, passingScore).passed
  {
  }

  /**
   * Two questions of weight 1 and a passing score of 70: one right answer
   * gives 50 percent and a fail, two right answers 100 percent and a pass.
   */
  lemma TwoQuestionScenario(q1: Question, q2: Question, wrong: Choice)
    requires q1.weight == 1 && q2.weight == 1 && wrong != q2.correct
    ensures var half := [AnswerLine(q1, Some(q1.correct)), AnswerLine(q2, Some(wrong))];
            ComputeScore(half, 0.0, 70.0) == Score(1, 2, 50.0, false)
    ensures var full := [AnswerLine(q1, Some(q1.correct)), AnswerLine(q2, Some(q2.correct))];
            ComputeScore(full, 0.0, 70.0) == Score(2, 2, 100.0, true)
  {
    var half := [AnswerLine(q1, Some(q1.correct)), AnswerLine(q2, Some(wrong))];
    var full := [AnswerLine(q1, Some(q1.correct)), AnswerLine(q2, Some(q2.correct))];
    assert QuestionsOf(half) == [q1, q2] && QuestionsOf(full) == [q1, q2];
    assert [q1, q2][1..] == [q2] && [q2][1..] == [];
    assert SumWeights([q2]) == 1;
    assert SumWeights([q1, q2]) == 2;
    assert half[1..] == [half[1]] && half[1..][1..] == [];
    assert full[1..] == [full[1]] && full[1..][1..] == [];
    assert ScoreTotal([half[1]]) == 0 && ScoreTotal([full[1]]) == 1;
    assert ScoreTotal(half) == 1 && ScoreTotal(full) == 2;
  }

  // ---------------------------------------------------------------------
  // Violation escalation
  // ---------------------------------------------------------------------

  datatype ViolationAction = Warning | Penalty | AutoSubmit

  /** One entry of `security_log`: the violation type, when, and the new count. */
  datatype LogEntry = LogEntry(kind: string, timestamp: int, count: int)

  /** What `log_violation` returns to the exam page. */
  datatype ViolationReport = ViolationReport(action: ViolationAction, count: int, totalPenalty: real, message: string)

  /** The action for the violation that brings the count to `newCount`. */
  function EscalationAction(newCount: int): (a: ViolationAction)
    ensures a == Penalty <==> newCount == 2
    ensures a == AutoSubmit <==> newCount >= 3
    ensures a == Warning <==> newCount < 2
  {
    if newCount == 2 then Penalty
    else if newCount >= 3 then AutoSubmit
    else Warning
  }

  /** The penalty points added for an action: only the second violation costs 10 percent. */
  function PenaltyIncrement(a: ViolationAction): (p: real)
    ensures p == 10.0 <==> a == Penalty
    ensures p == 0.0 <==> a != Penalty
  {
    if a == Penalty then 10.0 else 0.0
  }

  const WarningMessage: string := "Peringatan! Anda terdeteksi keluar dari mode ujian."
  const PenaltyMessage: string := "Pelanggaran ke-2! Nilai Anda dikurangi 10%."
  const AutoSubmitMessage: string := "Pelanggaran ke-3! Ujian akan otomatis dikumpulkan."

  /** The message shown to the candidate for an action. */
  function Message(a: ViolationAction): string
  {
    match a
    case Warning => WarningMessage
    case Penalty => PenaltyMessage
    case AutoSubmit => AutoSubmitMessage
  }

  /** The accumulated penalty after `n` violations of a fresh attempt. */
  function PenaltyAfter(n: nat): real
  {
    if n == 0 then 0.0 else PenaltyAfter(n - 1) + PenaltyIncrement(EscalationAction(n))
  }

  /**
   * Penalties accumulate additively and only one is ever charged: after the
   * second violation the attempt carries 10 percent, and no more after that.
   */
  lemma {:induction false} PenaltyAfterValue(n: nat)
    ensures PenaltyAfter(n) == if n >= 2 then 10.0 else 0.0
  {
    if n > 0 {
      PenaltyAfterValue(n - 1);
    }
  }

  // ---------------------------------------------------------------------
  // The attempt record
  // ---------------------------------------------------------------------

  datatype AttemptState = InProgress | Done

  /** The answer lines created for a new attempt, in the given (shuffled) order, all unanswered. */
  method NewLines(shuffled: seq<Question>) returns (lines: seq<AnswerLine>)
    ensures QuestionsOf(lines) == shuffled
    ensures forall i :: 0 <= i < |lines| ==> lines[i].selected == None
  {
    lines := [];
    for k := 0 to |shuffled|
      invariant |lines| == k
      invariant forall i :: 0 <= i < k ==> lines[i] == AnswerLine(shuffled[i], None)
    {
      lines := lines + [AnswerLine(shuffled[k], None)];
    }
  }

  lemma {:induction false} PairInMultiset(b: seq<Question>, i: nat, j: nat)
    requires i < j < |b|
    ensures multiset{b[i], b[j]} <= multiset(b)
  {
    assert b == b[..i] + [b[i]] + b[i + 1..j] + [b[j]] + b[j + 1..];
  }

  lemma {:induction false} TwoPositions(a: seq<Question>, x: Question, y: Question)
    requires multiset{x, y} <= multiset(a)
    ensures exists p, q :: 0 <= p < |a| && 0 <= q < |a| && p != q && a[p] == x && a[q] == y
  {
    assert x in multiset(a);
    var p :| 0 <= p < |a| && a[p] == x;
    var rest := a[..p] + a[p + 1..];
    assert a == a[..p] + [x] + a[p + 1..];
    assert multiset(a) == multiset(rest) + multiset{x};
    assert y in multiset(rest);
    var r :| 0 <= r < |rest| && rest[r] == y;
    var q := if r < p then r else r + 1;
    assert a[q] == y;
  }

  /** A permutation of questions with distinct ids has distinct ids. */
  lemma PermutationKeepsDistinctIds(a: seq<Question>, b: seq<Question>)
    requires multiset(a) == multiset(b) && DistinctIds(a)
    ensures DistinctIds(b)
  {
    forall i, j | 0 <= i < j < |b| ensures b[i].id != b[j].id {
      if b[i].id == b[j].id {
        PairInMultiset(b, i, j);
        TwoPositions(a, b[i], b[j]);
      }
    }
  }

  /**
   * A quiz attempt (`cert.quiz.attempt`). The stored score fields are kept
   * equal to `ComputeScore` of the current lines and penalty, which is what
   * the stored computed fields hold once recomputed, and the penalty is the
   * one the escalation policy has charged for the violations counted so far.
   */
  class Attempt {
    const quiz: QuizDef
    var startedAt: int
    var finishedAt: Option<int>
    var timeLimitSeconds: int
    var state: AttemptState
    var lines: seq<AnswerLine>
    var violationCount: int
    var penaltyPercentage: real
    var securityLog: seq<LogEntry>
    var score: Score

    ghost predicate Valid()
      reads this
    {
      && score == ComputeScore(lines, penaltyPercentage, quiz.passingScore)
      && violationCount >= 0 && penaltyPercentage == PenaltyAfter(violationCount)
    }

    /**
     * `create`: snapshots the time limit and creates one unanswered line per
     * question of the quiz; `shuffled` is the order `random.shuffle` produced.
     */
    constructor Create(quiz: QuizDef, shuffled: seq<Question>, now: int)
      requires multiset(shuffled) == multiset(quiz.questions)
      ensures Valid()
      ensures this.quiz == quiz
      ensures timeLimitSeconds == quiz.timeLimitMinutes * 60
      ensures startedAt == now && finishedAt == None && state == InProgress
      ensures QuestionsOf(lines) == shuffled
      ensures forall i :: 0 <= i < |lines| ==> lines[i].selected == None
      ensures violationCount == 0 && penaltyPercentage == 0.0 && securityLog == []
    {
      this.quiz := quiz;
      timeLimitSeconds := quiz.timeLimitMinutes * 60;
      startedAt := now;
      finishedAt := None;
      state := InProgress;
      violationCount := 0;
      penaltyPercentage := 0.0;
      securityLog := [];
      var newLines := NewLines(shuffled);
      lines := newLines;
      score := ComputeScore(newLines, 0.0, quiz.passingScore);
    }

    /** `action_finish`: done, stamped, and scored from the current lines and penalty. */
    method Finish(now: int)
      requires Valid()
      modifies this
      ensures Valid()
      ensures state == Done && finishedAt == Some(now)
      ensures score == ComputeScore(lines, penaltyPercentage, quiz.passingScore)
      ensures lines == old(lines) && penaltyPercentage == old(penaltyPercentage)
      ensures violationCount == old(violationCount) && securityLog == old(securityLog)
      ensures timeLimitSeconds == old(timeLimitSeconds) && startedAt == old(startedAt)
    {
      state := Done;
      finishedAt := Some(now);
      score := ComputeScore(lines, penaltyPercentage, quiz.passingScore);
    }

    /**
     * `log_violation`: counts the violation, appends it to the log and applies
     * the escalation policy; the score follows the new penalty.
     */
    method LogViolation(kind: string, now: int) returns (report: ViolationReport)
      requires Valid()
      modifies this
      ensures Valid()
      ensures violationCount == old(violationCount) + 1
      ensures securityLog == old(securityLog) + [LogEntry(kind, now, violationCount)]
      ensures penaltyPercentage == old(penaltyPercentage) + PenaltyIncrement(EscalationAction(violationCount))
      ensures report.action == EscalationAction(violationCount)
      ensures report.count == violationCount && report.totalPenalty == penaltyPercentage
      ensures report.message == Message(report.action)
      ensures penaltyPercentage == if violationCount >= 2 then 10.0 else 0.0
      ensures lines == old(lines) && state == old(state) && finishedAt == old(finishedAt)
      ensures timeLimitSeconds == old(timeLimitSeconds) && startedAt == old(startedAt)
    {
      var newCount := violationCount + 1;
      var entry := LogEntry(kind, now, newCount);
      var action := EscalationAction(newCount);
      var penalty := PenaltyIncrement(action);
      violationCount := newCount;
      penaltyPercentage := penaltyPercentage + penalty;
      securityLog := securityLog + [entry];
      score := ComputeScore(lines, penaltyPercentage, quiz.passingScore);
      report := ViolationReport(action, newCount, penaltyPercentage, Message(action));
      PenaltyAfterValue(newCount);
    }
  }

  /** A new attempt has one line per quiz question: the same questions, no id twice, the quiz's weight sum. */
  lemma NewAttemptLines(quiz: QuizDef, shuffled: seq<Question>, lines: seq<AnswerLine>)
    requires multiset(shuffled) == multiset(quiz.questions)
    requires QuestionsOf(lines) == shuffled
    requires DistinctIds(quiz.questions)
    ensures |lines| == |quiz.questions|
    ensures multiset(QuestionsOf(lines)) == multiset(quiz.questions)
    ensures DistinctIds(QuestionsOf(lines))
    ensures MaxScore(lines) == SumWeights(quiz.questions)
  {
    assert |lines| == |multiset(shuffled)| == |multiset(quiz.questions)|;
    PermutationKeepsDistinctIds(quiz.questions, shuffled);
    SumWeightsPermutation(shuffled, quiz.questions);
  }
}
