/** The quiz handler of code/quiz_logic.py: range selection that tags each
    selected question with its 1-based bank position, answer recording, grading
    by question kind, and a summary that also reports how far the user got.
    The nested handlers show_question, check_answer and record_wrong_answer
    become methods of class Session. */
module QuizLogic {
  import opened Questions

  const RangeError := "Start question number must be less than or equal to end question number."

  /** A selected question together with its 1-based position in the bank. */
  datatype Item = Item(question: Question, originalIndex: int)

  /** One entry of the wrong-answer log, copied from the item when it was graded. */
  datatype WrongAnswer = WrongAnswer(
    originalIndex: int,
    question: string,
    yourAnswer: Value,
    correctAnswer: Value,
    keywords: seq<string>,
    explanation: string)

  /** What grading does with a submission. A question that is neither free text
      nor has options falls through both branches and is not counted at all. */
  datatype Outcome = Correct | Incorrect | Ungraded

  /** What the end-of-quiz summary shows. */
  datatype Report = Report(total: nat, answered: int, correct: nat, score: real, endedEarly: bool)

  /** The selection of Start Quiz: positions start..end of the bank, in bank
      order, each tagged with its own 1-based position. */
  function SelectRange(allQuestions: seq<Question>, startIndex: int, endIndex: int): (items: seq<Item>)
    requires 1 <= startIndex <= endIndex <= |allQuestions|
    ensures |items| == endIndex - startIndex + 1
    ensures forall i :: 0 <= i < |items| ==> items[i].originalIndex == startIndex + i
    ensures forall i :: 0 <= i < |items| ==> items[i].question == allQuestions[items[i].originalIndex - 1]
  {
    var selectedRange := allQuestions[startIndex - 1..endIndex];
    seq(|selectedRange|, i requires 0 <= i < |selectedRange| => Item(selectedRange[i], i + startIndex))
  }

  /** Questions that one of the two grading branches handles. */
  predicate Gradable(q: Question)
  {
    q.inputField || |q.options| > 0
  }

  /** How this variant decides an answer. Free text is compared with the stripped
      canonical answer (which must be a string, or `.strip()` fails); a question
      with options compares a list answer as a set and any other exactly. */
  function Grade(q: Question, answer: Value): (o: Outcome)
    requires q.inputField ==> q.answer.Str?
    ensures o == Ungraded <==> !Gradable(q)
    ensures q.inputField ==> (o == Correct <==> answer == Str(Strip(q.answer.s)))
    ensures !q.inputField && Gradable(q) && q.answer.List? ==> (o == Correct <==> SameSet(answer, q.answer))
    ensures !q.inputField && Gradable(q) && q.answer.Str? ==> (o == Correct <==> answer == q.answer)
  {
    if q.inputField then
      if answer == Str(Strip(q.answer.s)) then Correct else Incorrect
    else if |q.options| > 0 then
      if q.answer.List? then
        if SameSet(answer, q.answer) then Correct else Incorrect
      else
        if answer == q.answer then Correct else Incorrect
    else
      Ungraded
  }

  /** Free text: both the typed input and the canonical answer are stripped. */
  lemma FreeTextStripsBoth(q: Question, typed: string)
    requires q.inputField && q.answer.Str?
    ensures Grade(q, Received(q, Str(typed))) == Correct <==> Strip(typed) == Strip(q.answer.s)
  {
  }

  /** Consequence: whitespace around the typed answer never changes the grade,
      and typing the canonical answer itself is always accepted. */
  lemma FreeTextPaddingIgnored(q: Question, typed: string, a: string, b: string)
    requires q.inputField && q.answer.Str? && AllSpace(a) && AllSpace(b)
    ensures Grade(q, Received(q, Str(a + typed + b))) == Grade(q, Received(q, Str(typed)))
    ensures Grade(q, Received(q, Str(q.answer.s))) == Correct
  {
    StripIgnoresPadding(typed, a, b);
  }

  /** `" Paris "` matches `"Paris"`, `"paris"` does not. */
  lemma ParisExample(q: Question)
    requires q.inputField && q.answer == Str("Paris")
    ensures Grade(q, Received(q, Str(" Paris "))) == Correct
    ensures Grade(q, Received(q, Str("paris"))) == Incorrect
  {
    StripPaddedParis();
    StripTrimmed("Paris");
    StripTrimmed("paris");
    assert "paris" != "Paris" by { assert "paris"[0] != "Paris"[0]; }
  }

  lemma StripPaddedParis()
    ensures Strip(" Paris ") == "Paris"
  {
    StripUnique(" Paris ", " ", "Paris", " ");
  }

  /** A multi-select question with canonical answer A, C: C, A is right and A alone is wrong. */
  lemma MultiSelectExample(q: Question)
    requires !q.inputField && |q.options| > 0 && q.answer == List(["A", "C"])
    ensures Grade(q, List(["C", "A"])) == Correct
    ensures Grade(q, List(["A"])) == Incorrect
  {
    SameSetOfLists(["C", "A"], ["A", "C"]);
    SameSetOfLists(["A"], ["A", "C"]);
    assert "C" in ["A", "C"] && "C" !in ["A"];
  }

  /** The number of recorded answers. */
  function CountAnswered(answers: seq<Option<Value>>): (n: nat)
    ensures n <= |answers|
  {
    if answers == [] then 0
    else CountAnswered(answers[..|answers| - 1]) + (if answers[|answers| - 1].Some? then 1 else 0)
  }

  /** The number of recorded answers to questions that grading counts. */
  function GradedCount(items: seq<Item>, answers: seq<Option<Value>>): (n: nat)
    requires |items| == |answers|
    ensures n <= CountAnswered(answers)
  {
    if answers == [] then 0
    else
      GradedCount(items[..|items| - 1], answers[..|answers| - 1])
      + (if answers[|answers| - 1].Some? && Gradable(items[|items| - 1].question) then 1 else 0)
  }

  /** Before any answer is recorded nothing is graded. */
  lemma {:induction false} GradedCountOfUnanswered(items: seq<Item>, answers: seq<Option<Value>>)
    requires |items| == |answers|
    requires forall j :: 0 <= j < |answers| ==> answers[j] == None
    ensures GradedCount(items, answers) == 0
  {
    if answers != [] {
      GradedCountOfUnanswered(items[..|items| - 1], answers[..|answers| - 1]);
    }
  }

  /** Recording an answer at an empty position adds one graded answer exactly
      when the question there is gradable. */
  lemma {:induction false} GradedCountAfterWrite(items: seq<Item>, answers: seq<Option<Value>>, k: nat, v: Value)
    requires |items| == |answers| && k < |answers| && answers[k] == None
    ensures GradedCount(items, answers[k := Some(v)])
            == GradedCount(items, answers) + (if Gradable(items[k].question) then 1 else 0)
  {
    var last := |answers| - 1;
    var written := answers[k := Some(v)];
    if k < last {
      assert written[..last] == answers[..last][k := Some(v)];
      GradedCountAfterWrite(items[..last], answers[..last], k, v);
    } else {
      assert written[..last] == answers[..last];
    }
  }

  /** When every position before k is answered and every position after k is
      not, the answers number k, plus one if k itself is answered. */
  lemma {:induction false} CountAnsweredOfProgress(answers: seq<Option<Value>>, k: nat)
    requires k < |answers|
    requires forall j :: 0 <= j < k ==> answers[j].Some?
    requires forall j :: k < j < |answers| ==> answers[j] == None
    ensures CountAnswered(answers) == k + (if answers[k].Some? then 1 else 0)
  {
    var last := |answers| - 1;
    if k < last {
      CountAnsweredOfProgress(answers[..last], k);
    } else {
      CountAnsweredAll(answers[..last]);
    }
  }

  /** In the same shape, some position is unanswered exactly when the count
      falls short of the length. */
  lemma UnansweredOfProgress(answers: seq<Option<Value>>, k: nat)
    requires k < |answers|
    requires forall j :: 0 <= j < k ==> answers[j].Some?
    requires forall j :: k < j < |answers| ==> answers[j] == None
    ensures CountAnswered(answers) == k + (if answers[k].Some? then 1 else 0)
    ensures CountAnswered(answers) < |answers| <==> exists j :: 0 <= j < |answers| && answers[j] == None
  {
    CountAnsweredOfProgress(answers, k);
    if CountAnswered(answers) < |answers| {
      if answers[k].Some? { assert answers[|answers| - 1] == None; }
    }
    if exists j :: 0 <= j < |answers| && answers[j] == None {
      var j :| 0 <= j < |answers| && answers[j] == None;
      assert k <= j;
    }
  }

  /** With every position answered, the count is the length. */
  lemma {:induction false} CountAnsweredAll(answers: seq<Option<Value>>)
    requires forall j :: 0 <= j < |answers| ==> answers[j].Some?
    ensures CountAnswered(answers) == |answers|
  {
    if answers != [] {
      CountAnsweredAll(answers[..|answers| - 1]);
    }
  }

  /** The quiz session: the fields the handler keeps in the session dictionary. */
  class Session {
    var selectedQuestions: seq<Item>
    var userAnswers: seq<Option<Value>>
    var currentQuestionIndex: nat
    var correctCount: nat
    var wrongAnswers: seq<WrongAnswer>
    var rangeSelected: bool
    var quizEnded: bool

    /** The defaults a fresh or reset session starts from. */
    ghost predicate Initial()
      reads this
    {
      && selectedQuestions == [] && userAnswers == [] && currentQuestionIndex == 0
      && correctCount == 0 && wrongAnswers == [] && !rangeSelected && !quizEnded
    }

    ghost predicate Valid()
      reads this
    {
      && |userAnswers| == |selectedQuestions|
      && (!rangeSelected ==> Initial())
      && (rangeSelected ==> currentQuestionIndex < |selectedQuestions|)
      // the selection is a run of consecutive bank positions
      && (forall i :: 0 <= i < |selectedQuestions| ==>
            selectedQuestions[i].originalIndex == selectedQuestions[0].originalIndex + i)
      // positions before the current one are answered, later ones are not,
      // and the current one only once the quiz has ended
      && (forall j :: 0 <= j < currentQuestionIndex && j < |userAnswers| ==> userAnswers[j].Some?)
      && (forall j :: currentQuestionIndex < j < |userAnswers| ==> userAnswers[j] == None)
      && (rangeSelected && !quizEnded ==> userAnswers[currentQuestionIndex] == None)
      // every graded answer is counted once: as correct or as a logged wrong answer
      && correctCount + |wrongAnswers| == GradedCount(selectedQuestions, userAnswers)
    }

    constructor ()
      ensures Valid() && Initial()
    {
      selectedQuestions, userAnswers, currentQuestionIndex := [], [], 0;
      correctCount, wrongAnswers := 0, [];
      rangeSelected, quizEnded := false, false;
    }

    /** The Reset button deletes every key; the next run restores the defaults. */
    method Reset()
      modifies this
      ensures Valid() && Initial()
    {
      selectedQuestions, userAnswers, currentQuestionIndex := [], [], 0;
      correctCount, wrongAnswers := 0, [];
      rangeSelected, quizEnded := false, false;
    }

    /** Start Quiz. The number inputs keep both numbers between 1 and the bank
        size. The position is not reset here; a fresh session has it at 0. */
    method StartQuiz(allQuestions: seq<Question>, startIndex: int, endIndex: int) returns (error: Option<string>)
      requires Valid() && !rangeSelected
      requires 1 <= startIndex <= |allQuestions| && 1 <= endIndex <= |allQuestions|
      modifies this
      ensures Valid()
      ensures error == None <==> startIndex <= endIndex
      ensures error.Some? ==> error.value == RangeError && unchanged(this)
      ensures error == None ==>
        && selectedQuestions == SelectRange(allQuestions, startIndex, endIndex)
        && |userAnswers| == |selectedQuestions|
        && (forall j :: 0 <= j < |userAnswers| ==> userAnswers[j] == None)
        && rangeSelected
        && currentQuestionIndex == old(currentQuestionIndex) && correctCount == old(correctCount)
        && wrongAnswers == old(wrongAnswers) && quizEnded == old(quizEnded)
    {
      if startIndex <= endIndex {
        selectedQuestions := SelectRange(allQuestions, startIndex, endIndex);
        userAnswers := seq(|selectedQuestions|, _ => None);
        GradedCountOfUnanswered(selectedQuestions, userAnswers);
        rangeSelected := true;
        error := None;
      } else {
        error := Some(RangeError);
      }
    }

    /** record_wrong_answer: append a copy of the item's fields and the submission. */
    method RecordWrongAnswer(index: nat, userAnswer: Value)
      requires index < |selectedQuestions|
      modifies this`wrongAnswers
      ensures var item := selectedQuestions[index];
              wrongAnswers == old(wrongAnswers) + [WrongAnswer(
                item.originalIndex, item.question.text, userAnswer, item.question.answer,
                item.question.keywords, item.question.explanation)]
    {
      var question := selectedQuestions[index].question;
      var originalIndex := selectedQuestions[index].originalIndex;
      wrongAnswers := wrongAnswers + [WrongAnswer(
        originalIndex, question.text, userAnswer, question.answer, question.keywords, question.explanation)];
    }

    /** check_answer: store the submission at its position, then grade it; a
        right answer bumps the count, a wrong one is logged, an ungradable
        question changes neither. */
    method CheckAnswer(index: nat, userAnswer: Value) returns (outcome: Outcome)
      requires |userAnswers| == |selectedQuestions| && index < |selectedQuestions|
      requires selectedQuestions[index].question.inputField ==> selectedQuestions[index].question.answer.Str?
      modifies this`userAnswers, this`correctCount, this`wrongAnswers
      ensures userAnswers == old(userAnswers)[index := Some(userAnswer)]
      ensures var item := selectedQuestions[index];
              && outcome == Grade(item.question, userAnswer)
              && correctCount == old(correctCount) + (if outcome == Correct then 1 else 0)
              && wrongAnswers == old(wrongAnswers) + (if outcome == Incorrect then [WrongAnswer(
                   item.originalIndex, item.question.text, userAnswer, item.question.answer,
                   item.question.keywords, item.question.explanation)] else [])
    {
      var question := selectedQuestions[index].question;
      userAnswers := userAnswers[index := Some(userAnswer)];
      outcome := Grade(question, userAnswer);
      if outcome == Correct {
        correctCount := correctCount + 1;
      } else if outcome == Incorrect {
        RecordWrongAnswer(index, userAnswer);
      }
    }

    /** Submit/Next of show_question: check the current answer, then move to
        the next position, or end the quiz after the last one. */
    method SubmitNext(raw: Value) returns (outcome: Outcome)
      requires Valid() && rangeSelected && !quizEnded
      requires var q := selectedQuestions[currentQuestionIndex].question;
               q.inputField ==> raw.Str? && q.answer.Str?
      modifies this
      ensures Valid()
      ensures selectedQuestions == old(selectedQuestions) && rangeSelected
      ensures var i := old(currentQuestionIndex);
              var item := old(selectedQuestions[currentQuestionIndex]);
              var answer := Received(item.question, raw);
              && outcome == Grade(item.question, answer)
              && userAnswers == old(userAnswers)[i := Some(answer)]
              && correctCount == old(correctCount) + (if outcome == Correct then 1 else 0)
              && wrongAnswers == old(wrongAnswers) + (if outcome == Incorrect then [WrongAnswer(
                   item.originalIndex, item.question.text, answer, item.question.answer,
                   item.question.keywords, item.question.explanation)] else [])
      ensures if old(currentQuestionIndex) < |selectedQuestions| - 1
              then currentQuestionIndex == old(currentQuestionIndex) + 1 && !quizEnded
              else currentQuestionIndex == old(currentQuestionIndex) && quizEnded
    {
      var index := currentQuestionIndex;
      var userAnswer := Received(selectedQuestions[index].question, raw);
      GradedCountAfterWrite(selectedQuestions, userAnswers, index, userAnswer);
      outcome := CheckAnswer(index, userAnswer);
      if currentQuestionIndex < |selectedQuestions| - 1 {
        currentQuestionIndex := currentQuestionIndex + 1;
      } else {
        quizEnded := true;
      }
    }

    /** End Quiz: only the terminal flag changes; the current position stays unanswered. */
    method EndQuiz()
      requires Valid() && rangeSelected && !quizEnded
      modifies this`quizEnded
      ensures Valid() && quizEnded
    {
      quizEnded := true;
    }

    /** The summary as show_quiz_summary computes it: the answered count is the
        current position plus one, and the early-end warning is shown when that
        is below the total. The warning is never shown while every question is
        answered, but see IntendedSummary for the case it misses. */
    function Summary(): (r: Report)
      reads this
      requires Valid() && quizEnded
      ensures r.total == |selectedQuestions| && r.correct == correctCount
      ensures r.answered == currentQuestionIndex + 1 <= r.total
      ensures r.score * (r.total as real) == 100.0 * (r.correct as real)
      ensures r.endedEarly <==> r.answered < r.total
      ensures r.endedEarly ==> exists j :: 0 <= j < |userAnswers| && userAnswers[j] == None
    {
      var total := |selectedQuestions|;
      var answered := currentQuestionIndex + 1;
      assert answered < total ==> userAnswers[total - 1] == None;
      Report(total, answered, correctCount, Percent(correctCount, total), answered < total)
    }

    /** The summary with the answered count taken from the recorded answers: the
        early-end flag is raised exactly when some question was left unanswered. */
    function IntendedSummary(): (r: Report)
      reads this
      requires Valid() && quizEnded
      ensures r.total == Summary().total && r.correct == Summary().correct && r.score == Summary().score
      ensures r.answered == currentQuestionIndex + (if userAnswers[currentQuestionIndex].Some? then 1 else 0)
      ensures r.correct + |wrongAnswers| <= r.answered <= r.total
      ensures r.endedEarly <==> exists j :: 0 <= j < |userAnswers| && userAnswers[j] == None
    {
      assert rangeSelected && currentQuestionIndex < |userAnswers|;
      UnansweredOfProgress(userAnswers, currentQuestionIndex);
      var total := |selectedQuestions|;
      var answered := CountAnswered(userAnswers);
      assert GradedCount(selectedQuestions, userAnswers) <= answered;
      Report(total, answered, correctCount, Percent(correctCount, total), answered < total)
    }
  }

  /** A bank of five equal questions, range 2..4: the first answered right,
      the second wrong, then End Quiz before the third. The logged number comes
      from the stored `original_index`, not from question equality. The summary as written
      reports 3 answered and no early end; the intended one reports 2 and an early end. */
  method EarlyEndScenario() returns (asWritten: Report, intended: Report, log: seq<WrongAnswer>)
    ensures asWritten.total == 3 && asWritten.correct == 1 && asWritten.score == 100.0 / 3.0
    ensures asWritten.answered == 3 && !asWritten.endedEarly
    ensures intended.answered == 2 && intended.endedEarly
    ensures |log| == 1 && log[0].originalIndex == 3
  {
    var q := Question("Q", ["A", "B"], Str("A"), false, [], "", None);
    var session := new Session();
    var error := session.StartQuiz([q, q, q, q, q], 2, 4);
    assert error == None;
    assert session.selectedQuestions == [Item(q, 2), Item(q, 3), Item(q, 4)];
    assert session.currentQuestionIndex == 0 && !session.quizEnded;
    var outcome := session.SubmitNext(Str("A"));
    assert outcome == Correct;
    assert session.currentQuestionIndex == 1 && !session.quizEnded;
    outcome := session.SubmitNext(Str("B"));
    assert outcome == Incorrect;
    assert session.wrongAnswers == [WrongAnswer(3, "Q", Str("B"), Str("A"), [], "")];
    session.EndQuiz();
    assert session.currentQuestionIndex == 2 && session.userAnswers[2] == None;
    asWritten := session.Summary();
    intended := session.IntendedSummary();
    log := session.wrongAnswers;
  }
}
