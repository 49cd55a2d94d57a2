/**
  The timed assessment page: a countdown that raises the auto-submit flag,
  per-type answer capture, Previous/Next navigation bounded by the question
  list, grading that sums the marks of matched answers, and the reset after
  submission. The page's session fields are the fields of `Session`; one call
  of `Session.Render` is one run of the page script.
 */
module Assessment {
  import opened Wrappers
  import opened StrOps

  /** The question types the page renders and grades; any other stored text is `Other`. */
  datatype Kind = SingleSelection | TrueFalse | YesNo | FillInTheGap | Theory | Other(name: string)

  /** The stored `question_type` text, matched exactly as the page compares it. */
  function KindOf(text: string): (k: Kind)
  {
    if text == "Single Selection Objective" then SingleSelection
    else if text == "True/False" then TrueFalse
    else if text == "Yes/No" then YesNo
    else if text == "Fill in the gap" then FillInTheGap
    else if text == "Theory" then Theory
    else Other(text)
  }

  /** Only the five exact, case-sensitive spellings select a known type. */
  lemma KindOfSpellings(text: string)
    ensures KindOf(text) == SingleSelection <==> text == "Single Selection Objective"
    ensures KindOf(text) == TrueFalse <==> text == "True/False"
    ensures KindOf(text) == YesNo <==> text == "Yes/No"
    ensures KindOf(text) == FillInTheGap <==> text == "Fill in the gap"
    ensures KindOf(text) == Theory <==> text == "Theory"
    ensures KindOf(text) == Other(text) <==> !KnownKind(KindOf(text))
  {
  }

  /** The user id written with every result. */
  const RecordedUser := "student001"

  /** One row of the assignment's question table. */
  datatype Question = Question(
    id: int,
    kind: Kind,
    text: string,
    optionA: string, optionB: string, optionC: string, optionD: string,
    correct: string,
    marks: int)

  /** What the page appends to the results table on submission (the timestamp is not modelled). */
  datatype ResultRecord = ResultRecord(assignmentId: int, userId: string, totalScore: int)

  /** The score shown to the user and the record persisted for it. */
  datatype Submission = Submission(score: int, maxScore: int, record: ResultRecord)

  // ---------------------------------------------------------------------------
  // Timer

  /** The countdown is over: `duration * 60 - elapsed <= 0`. */
  predicate TimeUp(durationMinutes: int, elapsed: int) {
    durationMinutes * 60 - elapsed <= 0
  }

  /** The remaining seconds, clamped to zero once the time is up. */
  function Remaining(durationMinutes: int, elapsed: int): (r: nat)
    ensures r == 0 <==> TimeUp(durationMinutes, elapsed)
    ensures r > 0 ==> r == durationMinutes * 60 - elapsed
  {
    if TimeUp(durationMinutes, elapsed) then 0 else durationMinutes * 60 - elapsed
  }

  /** More elapsed time never leaves more time on the clock. */
  lemma RemainingNonIncreasing(durationMinutes: int, e1: int, e2: int)
    requires e1 <= e2
    ensures Remaining(durationMinutes, e2) <= Remaining(durationMinutes, e1)
    ensures TimeUp(durationMinutes, e1) ==> TimeUp(durationMinutes, e2)
  {
  }

  /** `divmod(remaining, 60)`: the minutes and seconds shown on the page. */
  function Countdown(remaining: nat): (ms: (nat, nat))
    ensures ms.1 < 60
    ensures ms.0 * 60 + ms.1 == remaining
  {
    (remaining / 60, remaining % 60)
  }

  // ---------------------------------------------------------------------------
  // Answer capture

  /** The value a widget hands back to the page. */
  datatype Widget =
    | OptionPick(letter: string, optionText: string)   // a radio over the option items
    | RadioPick(choice: string)                         // a radio over fixed labels
    | TextEntry(raw: string)                           // a text input or text area

  /** One of the five question types the page renders and grades. */
  predicate KnownKind(kind: Kind) {
    !kind.Other?
  }

  /** The widget value is one the widget shown for `kind` can return. */
  predicate Fits(kind: Kind, w: Widget) {
    && (kind == SingleSelection ==> w.OptionPick? && w.letter in ["A", "B", "C", "D"])
    && (kind == TrueFalse ==> w.RadioPick? && w.choice in ["True", "False"])
    && (kind == YesNo ==> w.RadioPick? && w.choice in ["Yes", "No"])
    && (kind == FillInTheGap || kind == Theory ==> w.TextEntry?)
  }

  /**
    The answer the page stores for a question of type `kind`, or None when
    the type is unknown and nothing is rendered or stored.
   */
  function Captured(kind: Kind, w: Widget): (r: Option<string>)
    requires Fits(kind, w)
    ensures r.Some? <==> KnownKind(kind)
    ensures kind == SingleSelection ==> r == Some(w.letter) && r.value in ["A", "B", "C", "D"]
    ensures kind == TrueFalse ==> r == Some(w.choice) && r.value in ["True", "False"]
    ensures kind == YesNo ==> r == Some(w.choice) && r.value in ["Yes", "No"]
    ensures kind == FillInTheGap || kind == Theory ==> IsStripped(r.value) && r.value == Strip(w.raw)
  {
    if kind == SingleSelection then Some(w.letter)
    else if kind == TrueFalse || kind == YesNo then Some(w.choice)
    else if kind == FillInTheGap || kind == Theory then Some(Strip(w.raw))
    else None
  }

  /** Grading strips the stored answer again; a captured answer is unchanged by that. */
  lemma CapturedIsGradedAsStored(kind: Kind, w: Widget)
    requires Fits(kind, w) && KnownKind(kind)
    ensures Strip(Captured(kind, w).value) == Captured(kind, w).value
  {
    if kind == FillInTheGap || kind == Theory {
      StripIdempotent(w.raw);
    } else if kind == SingleSelection {
      StripKeepsStripped(w.letter);
    } else {
      StripKeepsStripped(w.choice);
    }
  }

  // ---------------------------------------------------------------------------
  // Navigation

  /** Previous: disabled at the first question, otherwise one step back. */
  function PreviousIndex(i: nat): (j: nat)
    ensures i == 0 ==> j == 0
    ensures i > 0 ==> j + 1 == i
  {
    if i == 0 then 0 else i - 1
  }

  /** Next: disabled at the last question `count - 1`, otherwise one step forward. */
  function NextIndex(i: nat, count: int): (j: nat)
    ensures i == count - 1 ==> j == i
    ensures i != count - 1 ==> j == i + 1
  {
    if i == count - 1 then i else i + 1
  }

  /** Both moves keep an index that starts on a question on a question. */
  lemma NavigationStaysInRange(i: nat, count: int)
    requires i < count
    ensures PreviousIndex(i) < count
    ensures NextIndex(i, count) < count
  {
  }

  /** Away from the ends, Next undoes Previous and Previous undoes Next. */
  lemma NavigationRoundTrip(i: nat, count: int)
    requires i < count
    ensures 0 < i ==> NextIndex(PreviousIndex(i), count) == i
    ensures i < count - 1 ==> PreviousIndex(NextIndex(i, count)) == i
  {
  }

  // ---------------------------------------------------------------------------
  // Grading

  /** `answers.get(id, "")`: an unanswered question reads as "". */
  function Lookup(answers: map<int, string>, id: int): string {
    if id in answers then answers[id] else ""
  }

  /** The user's answer as grading reads it: looked up, then stripped. */
  function Given(answers: map<int, string>, id: int): string {
    Strip(Lookup(answers, id))
  }

  /** The type-specific comparison of the answer grading reads with the stored correct answer. */
  predicate Accepts(kind: Kind, given: string, correct: string) {
    match kind
    case SingleSelection => given == correct
    case TrueFalse | YesNo | FillInTheGap => Lower(given) == Lower(correct)
    case _ => false
  }

  /** The marks one question contributes to the total. */
  function Points(q: Question, answers: map<int, string>): (p: int)
    ensures q.kind == Theory || !KnownKind(q.kind) ==> p == 0
  {
    if Accepts(q.kind, Given(answers, q.id), q.correct) then q.marks else 0
  }

  /** The total of the points over a question list. */
  function Score(qs: seq<Question>, answers: map<int, string>): int {
    if qs == [] then 0 else Score(qs[..|qs| - 1], answers) + Points(qs[|qs| - 1], answers)
  }

  /** Appending a question adds exactly its points. */
  lemma ScoreAppend(qs: seq<Question>, q: Question, answers: map<int, string>)
    ensures Score(qs + [q], answers) == Score(qs, answers) + Points(q, answers)
  {
    assert (qs + [q])[..|qs|] == qs;
  }

  /** The marks of every question that is not Theory (unknown types included). */
  function MaxScore(qs: seq<Question>): int {
    if qs == [] then 0
    else MaxScore(qs[..|qs| - 1]) + (if qs[|qs| - 1].kind != Theory then qs[|qs| - 1].marks else 0)
  }

  predicate NonNegativeMarks(qs: seq<Question>) {
    forall i :: 0 <= i < |qs| ==> qs[i].marks >= 0
  }

  /** With non-negative marks the total lies between zero and the maximum. */
  lemma {:induction false} ScoreWithinMax(qs: seq<Question>, answers: map<int, string>)
    requires NonNegativeMarks(qs)
    ensures 0 <= Score(qs, answers) <= MaxScore(qs)
  {
    if qs != [] {
      var init := qs[..|qs| - 1];
      assert NonNegativeMarks(init) by {
        forall i | 0 <= i < |init| ensures init[i].marks >= 0 {
          assert init[i] == qs[i];
        }
      }
      ScoreWithinMax(init, answers);
    }
  }

  /** A question's points only depend on the answer recorded under its id. */
  lemma PointsReadOnlyOwnAnswer(q: Question, a1: map<int, string>, a2: map<int, string>)
    requires Lookup(a1, q.id) == Lookup(a2, q.id)
    ensures Points(q, a1) == Points(q, a2)
  {
  }

  /** The total only depends on the answers recorded for the listed questions. */
  lemma {:induction false} ScoreReadsOnlyListedAnswers(qs: seq<Question>, a1: map<int, string>, a2: map<int, string>)
    requires forall i :: 0 <= i < |qs| ==> Lookup(a1, qs[i].id) == Lookup(a2, qs[i].id)
    ensures Score(qs, a1) == Score(qs, a2)
  {
    if qs != [] {
      var init := qs[..|qs| - 1];
      forall i | 0 <= i < |init| ensures Lookup(a1, init[i].id) == Lookup(a2, init[i].id) {
        assert init[i] == qs[i];
      }
      ScoreReadsOnlyListedAnswers(init, a1, a2);
      PointsReadOnlyOwnAnswer(qs[|qs| - 1], a1, a2);
    }
  }

  /** An unanswered question is graded exactly as if "" had been answered. */
  lemma MissingAnswerIsEmpty(q: Question, answers: map<int, string>)
    requires q.id !in answers
    ensures Points(q, answers) == Points(q, answers[q.id := ""])
  {
  }

  /** True/False, Yes/No and fill-in-the-gap answers that agree up to surrounding whitespace and ASCII case score alike. */
  lemma CaseAndSpaceInsensitive(q: Question, a1: map<int, string>, a2: map<int, string>)
    requires q.kind == TrueFalse || q.kind == YesNo || q.kind == FillInTheGap
    requires Lower(Strip(Lookup(a1, q.id))) == Lower(Strip(Lookup(a2, q.id)))
    ensures Points(q, a1) == Points(q, a2)
  {
  }

  /** A single-selection answer scores only on an exact, case-sensitive match of the stripped answer. */
  lemma SingleSelectionIsCaseSensitive(q: Question, answers: map<int, string>)
    requires q.kind == SingleSelection && Given(answers, q.id) != q.correct
    ensures Points(q, answers) == 0
  {
  }

  /** Matching after case folding is not enough: "b" does not answer "B", although both fold to "b". */
  lemma CaseFoldedLetterDoesNotScore()
    ensures Lower("b") == Lower("B")
    ensures Points(Question(1, SingleSelection, "Pick one", "w", "x", "y", "z", "B", 5), map[1 := "b"]) == 0
  {
    var q := Question(1, SingleSelection, "Pick one", "w", "x", "y", "z", "B", 5);
    StripKeepsStripped("b");
    assert Lower("b")[0] == Lower("B")[0];
    assert "b" != "B" by { assert "b"[0] != "B"[0]; }
    SingleSelectionIsCaseSensitive(q, map[1 := "b"]);
  }

  /**
    An unanswered question reads as "", so one whose stored correct answer is
    empty scores its marks although nothing was answered.
   */
  lemma UnansweredMatchesEmptyKey(q: Question, answers: map<int, string>)
    requires q.kind == TrueFalse || q.kind == YesNo || q.kind == FillInTheGap || q.kind == SingleSelection
    requires q.correct == "" && q.id !in answers
    ensures Points(q, answers) == q.marks
  {
    StripKeepsStripped("");
  }

  /**
    Only the user's answer is stripped: a stored correct answer that ends in
    whitespace is never matched, whatever is answered.
   */
  lemma PaddedKeyNeverMatches(q: Question, answers: map<int, string>)
    requires q.kind == TrueFalse || q.kind == YesNo || q.kind == FillInTheGap
    requires q.correct != [] && IsSpace(q.correct[|q.correct| - 1])
    ensures Points(q, answers) == 0
  {
    var given := Given(answers, q.id);
    var n := |q.correct| - 1;
    if |given| == |q.correct| {
      assert !IsSpace(given[n]);
      assert Lower(given)[n] != Lower(q.correct)[n];
    }
  }

  /** The grading loop of the page: accumulate the points question by question. */
  method Grade(questions: seq<Question>, answers: map<int, string>) returns (total: int)
    ensures total == Score(questions, answers)
    ensures NonNegativeMarks(questions) ==> 0 <= total <= MaxScore(questions)
  {
    total := 0;
    var i := 0;
    while i < |questions|
      invariant 0 <= i <= |questions|
      invariant total == Score(questions[..i], answers)
    {
      var q := questions[i];
      var userAns := Strip(Lookup(answers, q.id));
      ghost var before := total;
      if q.kind == SingleSelection && userAns == q.correct {
        total := total + q.marks;
      } else if (q.kind == TrueFalse || q.kind == YesNo) && Lower(userAns) == Lower(q.correct) {
        total := total + q.marks;
      } else if q.kind == FillInTheGap && Lower(userAns) == Lower(q.correct) {
        total := total + q.marks;
      }
      assert total == before + Points(q, answers);
      assert questions[..i + 1] == questions[..i] + [q];
      ScoreAppend(questions[..i], q, answers);
      i := i + 1;
    }
    assert questions[..i] == questions;
    if NonNegativeMarks(questions) {
      ScoreWithinMax(questions, answers);
    }
  }

  /** Appending a question adds its marks to the maximum unless it is Theory. */
  lemma MaxScoreAppend(qs: seq<Question>, q: Question)
    ensures MaxScore(qs + [q]) == MaxScore(qs) + (if q.kind != Theory then q.marks else 0)
  {
    assert (qs + [q])[..|qs|] == qs;
  }

  /** The total and the maximum of a two-question list, one question at a time. */
  lemma ScoreOfPair(q1: Question, q2: Question, answers: map<int, string>)
    ensures Score([q1, q2], answers) == Points(q1, answers) + Points(q2, answers)
    ensures MaxScore([q1, q2]) == (if q1.kind != Theory then q1.marks else 0) + (if q2.kind != Theory then q2.marks else 0)
  {
    assert [q1, q2] == [q1] + [q2];
    assert [q1] == [] + [q1];
    ScoreAppend([q1], q2, answers);
    ScoreAppend([], q1, answers);
    MaxScoreAppend([q1], q2);
    MaxScoreAppend([], q1);
  }

  /** The sample assignment: two single-selection questions worth 5, both keyed "B", answered "B" and "A". */
  lemma SampleAssignmentScoresFiveOfTen()
    ensures var qs := [Question(1, SingleSelection, "What is 2 + 2?", "3", "4", "5", "6", "B", 5),
                       Question(2, SingleSelection, "What is x if x + 3 = 5?", "1", "2", "3", "4", "B", 5)];
            Score(qs, map[1 := "B", 2 := "A"]) == 5 && MaxScore(qs) == 10
  {
    var q1 := Question(1, SingleSelection, "What is 2 + 2?", "3", "4", "5", "6", "B", 5);
    var q2 := Question(2, SingleSelection, "What is x if x + 3 = 5?", "1", "2", "3", "4", "B", 5);
    var answers := map[1 := "B", 2 := "A"];
    assert Lookup(answers, 1) == "B" && Lookup(answers, 2) == "A";
    StripKeepsStripped("B");
    StripKeepsStripped("A");
    assert Points(q1, answers) == 5;
    assert "A" != "B" by { assert "A"[0] != "B"[0]; }
    assert Points(q2, answers) == 0;
    ScoreOfPair(q1, q2, answers);
  }

  /** A correctly answered True/False question beside a Theory question: Theory adds to neither figure. */
  lemma TheoryExcludedFromMax()
    ensures var qs := [Question(1, Theory, "Explain.", "", "", "", "", "anything", 10),
                       Question(2, TrueFalse, "2 + 2 = 4", "", "", "", "", "True", 5)];
            Score(qs, map[1 := "my essay", 2 := "true"]) == 5 && MaxScore(qs) == 5
  {
    var q1 := Question(1, Theory, "Explain.", "", "", "", "", "anything", 10);
    var q2 := Question(2, TrueFalse, "2 + 2 = 4", "", "", "", "", "True", 5);
    var answers := map[1 := "my essay", 2 := "true"];
    assert Lookup(answers, 2) == "true";
    StripKeepsStripped("true");
    assert Lower("True") == Lower("true");
    assert Points(q2, answers) == 5;
    ScoreOfPair(q1, q2, answers);
  }

  // ---------------------------------------------------------------------------
  // The session

  /** The time is up at `now` for a run whose start time is `start`. */
  predicate TimedOut(start: Option<int>, durationMinutes: int, now: int) {
    start.Some? && TimeUp(durationMinutes, now - start.value)
  }

  /** The answers after the captured value of question `q` is stored. */
  function WithCaptured(answers: map<int, string>, q: Question, w: Widget): (r: map<int, string>)
    requires Fits(q.kind, w)
    ensures Captured(q.kind, w).None? ==> r == answers
    ensures Captured(q.kind, w).Some? ==> q.id in r && r[q.id] == Captured(q.kind, w).value
    ensures r.Keys == answers.Keys + (if Captured(q.kind, w).Some? then {q.id} else {})
    ensures forall id :: id in answers && id != q.id ==> r[id] == answers[id]
  {
    match Captured(q.kind, w)
    case Some(v) => answers[q.id := v]
    case None => answers
  }

  /** What one run of the page script ends with. */
  datatype RenderOutcome =
    | TimerFailed                          // `start_time` holds None: the subtraction raises
    | NoSuchQuestion                       // `questions[q_index]` raises IndexError
    | Moved                                // Previous or Next changed the index; the page reruns
    | Submitted(submission: Submission)    // graded, recorded and reset
    | Showing(minutes: nat, seconds: nat)  // the question is shown with the countdown

  /** The button pressed during a run, if any. */
  datatype Press = NoPress | PressPrevious | PressNext | PressSubmit

  /**
    The per-user session fields of the page. A session key can be absent,
    which is not the same as holding None: `hasProgress` records whether
    `q_index` (with `answers` and `auto_submit`) was set up, `hasStartTime`
    whether the `start_time` key exists.
   */
  class Session {
    var hasProgress: bool
    var qIndex: nat
    var answers: map<int, string>
    var autoSubmit: bool
    var hasStartTime: bool
    var startTime: Option<int>

    /** A fresh browser session: no key set. */
    constructor ()
      ensures !hasProgress && !hasStartTime
      ensures qIndex == 0 && answers == map[] && !autoSubmit && startTime == None
    {
      hasProgress := false;
      qIndex := 0;
      answers := map[];
      autoSubmit := false;
      hasStartTime := false;
      startTime := None;
    }

    /** The question at the current index, or None where indexing raises. */
    function Current(questions: seq<Question>): (q: Option<Question>)
      reads this
      ensures q.Some? <==> qIndex < |questions|
      ensures q.Some? ==> q.value == questions[qIndex]
    {
      if qIndex < |questions| then Some(questions[qIndex]) else None
    }

    /** The index a run works on: `q_index`, or 0 where set-up creates it. */
    function RunIndex(): nat
      reads this
    {
      if hasProgress then qIndex else 0
    }

    /** The answers a run starts from: the stored ones, or none where set-up creates them. */
    function RunAnswers(): map<int, string>
      reads this
    {
      if hasProgress then answers else map[]
    }

    /** The start time a run reads: the stored one, or `now` where the key is absent. */
    function RunStart(now: int): Option<int>
      reads this
    {
      if hasStartTime then startTime else Some(now)
    }

    /**
      The auto-submit flag once the timer and the set-up have run: the timer
      raises it when the time is up, and a first run's set-up clears it again.
     */
    function RunFlag(durationMinutes: int, now: int): bool
      reads this
    {
      hasProgress && (autoSubmit || TimedOut(RunStart(now), durationMinutes, now))
    }

    /**
      Arm the timer when the key is absent, then compute the countdown at
      clock reading `now`. Once the time is up the flag is raised and the
      display shows zero. Returns None when `start_time` holds None.
     */
    method Tick(durationMinutes: int, now: int) returns (shown: Option<(nat, nat)>)
      modifies this
      ensures hasStartTime
      ensures startTime == (if old(hasStartTime) then old(startTime) else Some(now))
      ensures shown.None? <==> startTime.None?
      ensures shown.Some? ==> shown.value == Countdown(Remaining(durationMinutes, now - startTime.value))
      ensures autoSubmit == (old(autoSubmit) || (startTime.Some? && TimeUp(durationMinutes, now - startTime.value)))
      ensures hasProgress == old(hasProgress) && qIndex == old(qIndex) && answers == old(answers)
    {
      if !hasStartTime {
        hasStartTime := true;
        startTime := Some(now);
      }
      match startTime {
        case None =>
          shown := None;
        case Some(start) =>
          var remaining := durationMinutes * 60 - (now - start);
          if remaining <= 0 {
            autoSubmit := true;
            remaining := 0;
          }
          shown := Some((remaining / 60, remaining % 60));
      }
    }

    /** Set up the progress fields only when they are absent; later runs keep them. */
    method Begin()
      modifies this
      ensures hasProgress
      ensures !old(hasProgress) ==> qIndex == 0 && answers == map[] && !autoSubmit
      ensures old(hasProgress) ==> qIndex == old(qIndex) && answers == old(answers) && autoSubmit == old(autoSubmit)
      ensures hasStartTime == old(hasStartTime) && startTime == old(startTime)
    {
      if !hasProgress {
        hasProgress := true;
        qIndex := 0;
        answers := map[];
        autoSubmit := false;
      }
    }

    /**
      Store the widget value for the current question under its id, and no
      other entry. Returns false where the current index has no question.
     */
    method Record(questions: seq<Question>, w: Widget) returns (ok: bool)
      requires qIndex < |questions| ==> Fits(questions[qIndex].kind, w)
      modifies this
      ensures hasProgress == old(hasProgress) && qIndex == old(qIndex) && autoSubmit == old(autoSubmit)
      ensures ok <==> old(Current(questions)).Some?
      ensures ok ==> answers == WithCaptured(old(answers), questions[qIndex], w)
      ensures !ok ==> answers == old(answers)
      ensures hasStartTime == old(hasStartTime) && startTime == old(startTime)
    {
      if qIndex >= |questions| {
        return false;
      }
      var q := questions[qIndex];
      var kind := q.kind;
      if kind == SingleSelection {
        answers := answers[q.id := w.letter];
      } else if kind == TrueFalse {
        answers := answers[q.id := w.choice];
      } else if kind == YesNo {
        answers := answers[q.id := w.choice];
      } else if kind == FillInTheGap {
        answers := answers[q.id := Strip(w.raw)];
      } else if kind == Theory {
        answers := answers[q.id := Strip(w.raw)];
      }
      ok := true;
    }

    /** The Previous button: a no-op at the first question. */
    method Previous()
      modifies this
      ensures qIndex == PreviousIndex(old(qIndex))
      ensures hasProgress == old(hasProgress) && answers == old(answers) && autoSubmit == old(autoSubmit)
      ensures hasStartTime == old(hasStartTime) && startTime == old(startTime)
    {
      if qIndex != 0 {
        qIndex := qIndex - 1;
      }
    }

    /** The Next button: a no-op at the last of `count` questions. */
    method Next(count: int)
      modifies this
      ensures qIndex == NextIndex(old(qIndex), count)
      ensures hasProgress == old(hasProgress) && answers == old(answers) && autoSubmit == old(autoSubmit)
      ensures hasStartTime == old(hasStartTime) && startTime == old(startTime)
    {
      if qIndex != count - 1 {
        qIndex := qIndex + 1;
      }
    }

    /**
      Submission: only at the last question, and only when the button was
      pressed or the flag is raised. Grades, builds the result record and
      resets the session, writing None into `start_time`.
     */
    method Submit(assignmentId: int, questions: seq<Question>, pressed: bool) returns (r: Option<Submission>)
      modifies this
      ensures r.Some? <==> old(qIndex) == |questions| - 1 && (pressed || old(autoSubmit))
      ensures r.Some? ==> r.value.score == Score(questions, old(answers))
      ensures r.Some? ==> r.value.maxScore == MaxScore(questions)
      ensures r.Some? ==> r.value.record == ResultRecord(assignmentId, RecordedUser, r.value.score)
      ensures r.Some? && NonNegativeMarks(questions) ==> 0 <= r.value.score <= r.value.maxScore
      ensures r.Some? ==> qIndex == 0 && answers == map[] && !autoSubmit
      ensures r.Some? ==> hasStartTime && startTime == None
      ensures r.None? ==> qIndex == old(qIndex) && answers == old(answers) && autoSubmit == old(autoSubmit)
      ensures r.None? ==> hasStartTime == old(hasStartTime) && startTime == old(startTime)
      ensures hasProgress == old(hasProgress)
    {
      if qIndex == |questions| - 1 && (pressed || autoSubmit) {
        var total := Grade(questions, answers);
        var maxScore := MaxScore(questions);
        r := Some(Submission(total, maxScore, ResultRecord(assignmentId, RecordedUser, total)));
        qIndex := 0;
        answers := map[];
        autoSubmit := false;
        hasStartTime := true;
        startTime := None;
      } else {
        r := None;
      }
    }

    /**
      One run of the page for the selected assignment: timer, set-up, answer
      capture, navigation, then submission, in the page's order.
     */
    method Render(assignmentId: int, durationMinutes: int, questions: seq<Question>,
                  now: int, w: Widget, press: Press) returns (out: RenderOutcome)
      requires RunIndex() < |questions| ==> Fits(questions[RunIndex()].kind, w)
      modifies this
      // After a submission `start_time` holds None, so every later run fails at the timer and changes nothing.
      ensures out == TimerFailed <==> old(RunStart(now)).None?
      ensures out == TimerFailed ==> && hasProgress == old(hasProgress) && qIndex == old(qIndex)
                                     && answers == old(answers) && autoSubmit == old(autoSubmit)
                                     && hasStartTime == old(hasStartTime) && startTime == old(startTime)
      ensures out != TimerFailed ==> hasProgress && hasStartTime
      // An empty question list (or an index left past its end) fails at indexing, after the timer and set-up.
      ensures out == NoSuchQuestion <==> old(RunStart(now)).Some? && old(RunIndex()) >= |questions|
      ensures out == NoSuchQuestion ==> qIndex == old(RunIndex()) && answers == old(RunAnswers())
      ensures out == NoSuchQuestion || out == Moved || out.Showing? ==>
                startTime == old(RunStart(now)) && autoSubmit == old(RunFlag(durationMinutes, now))
      // The answer on screen is stored before the buttons act.
      ensures out == Moved || out.Showing? ==>
                && old(RunIndex()) < |questions|
                && answers == WithCaptured(old(RunAnswers()), questions[old(RunIndex())], w)
      // An enabled Previous or Next moves by one.
      ensures out == Moved <==> && old(RunStart(now)).Some? && old(RunIndex()) < |questions|
                                && (|| (press == PressPrevious && old(RunIndex()) != 0)
                                    || (press == PressNext && old(RunIndex()) != |questions| - 1))
      ensures out == Moved ==> qIndex == if press == PressPrevious then PreviousIndex(old(RunIndex()))
                                         else NextIndex(old(RunIndex()), |questions|)
      ensures out.Showing? ==> qIndex == old(RunIndex())
      ensures out.Showing? ==> && startTime.Some?
                               && (out.minutes, out.seconds) == Countdown(Remaining(durationMinutes, now - startTime.value))
      // Submission happens at the last question, on the button or the raised flag, unless Previous moved away.
      ensures out.Submitted? <==> && old(RunStart(now)).Some? && old(RunIndex()) == |questions| - 1
                                  && !(press == PressPrevious && old(RunIndex()) != 0)
                                  && (press == PressSubmit || old(RunFlag(durationMinutes, now)))
      // What is graded includes the answer captured in this run.
      ensures out.Submitted? ==> && old(RunIndex()) < |questions|
                                 && out.submission.score
                                    == Score(questions, WithCaptured(old(RunAnswers()), questions[old(RunIndex())], w))
      ensures out.Submitted? ==> && out.submission.maxScore == MaxScore(questions)
                                 && out.submission.record == ResultRecord(assignmentId, RecordedUser, out.submission.score)
      ensures out.Submitted? && NonNegativeMarks(questions) ==>
                0 <= out.submission.score <= out.submission.maxScore
      ensures out.Submitted? ==> qIndex == 0 && answers == map[] && !autoSubmit && startTime == None
      // The time ran out at the last question of a run already in progress, and no
      // button moved away: the answers are submitted without pressing Submit.
      ensures old(hasProgress) && old(hasStartTime) && old(startTime).Some?
              && TimeUp(durationMinutes, now - old(startTime).value)
              && old(qIndex) == |questions| - 1 && press != PressPrevious
              ==> out.Submitted?
      // Away from the last question nothing is submitted, whatever the flag says.
      ensures old(hasProgress) && old(qIndex) != |questions| - 1 ==> !out.Submitted?
    {
      var shown := Tick(durationMinutes, now);
      if shown.None? {
        return TimerFailed;
      }
      Begin();
      var ok := Record(questions, w);
      if !ok {
        return NoSuchQuestion;
      }
      if press == PressPrevious && qIndex != 0 {
        Previous();
        return Moved;
      }
      if press == PressNext && qIndex != |questions| - 1 {
        Next(|questions|);
        return Moved;
      }
      var submitted := Submit(assignmentId, questions, press == PressSubmit);
      if submitted.Some? {
        return Submitted(submitted.value);
      }
      return Showing(shown.value.0, shown.value.1);
    }
  }
}
