/** Range Mode (code/range_quiz.py): the user picks a 1-based inclusive range of
    the bank, then answers the questions of that range one at a time. The session
    dictionary of the web framework becomes the fields of class Session. */
module RangeQuiz {
  import opened Questions

  const RangeError := "Start number must be less than or equal to end number."

  /** One entry of the wrong-answer log, a copy of the question's fields at the
      moment it was graded incorrect. */
  datatype WrongAnswer = WrongAnswer(
    question: string,
    correctAnswer: Value,
    yourAnswer: Value,
    keywords: seq<string>,
    explanation: string,
    originalNumber: int,
    options: seq<string>)

  /** What the end-of-quiz summary shows. */
  datatype Report = Report(total: nat, correct: nat, score: real, review: seq<WrongAnswer>)

  /** Python's `list.index(x)`: the position of the first element equal to x. */
  function FirstIndex<T(==)>(s: seq<T>, x: T): (i: nat)
    requires x in s
    ensures i < |s| && s[i] == x
    ensures forall k :: 0 <= k < i ==> s[k] != x
  {
    if s[0] == x then 0 else 1 + FirstIndex(s[1..], x)
  }

  /** Among pairwise distinct elements, `list.index` finds the element's own position. */
  lemma FirstIndexOfDistinct<T>(s: seq<T>, i: nat)
    requires i < |s|
    requires forall a, b :: 0 <= a < b < |s| ==> s[a] != s[b]
    ensures FirstIndex(s, s[i]) == i
  {
  }

  /** How this variant decides an answer: a list-valued canonical answer is
      compared with the submission as a set, any other by exact equality. */
  predicate Accepts(q: Question, answer: Value)
    // the canonical answer itself is always accepted
    ensures answer == q.answer ==> Accepts(q, answer)
    // a list submission never matches a string canonical answer
    ensures q.answer.Str? && answer.List? ==> !Accepts(q, answer)
  {
    if q.answer.List? then SameSet(answer, q.answer) else answer == q.answer
  }

  /** A list-valued canonical answer accepts exactly the lists with the same members. */
  lemma ListAnswerGradedAsSet(q: Question, xs: seq<string>)
    requires q.answer.List?
    ensures Accepts(q, List(xs)) <==> (forall x :: x in xs <==> x in q.answer.items)
  {
    SameSetOfLists(xs, q.answer.items);
  }

  /** Free text: only the typed input is stripped, the canonical answer is taken as is. */
  lemma FreeTextStripsInputOnly(q: Question, typed: string)
    requires q.inputField && q.answer.Str?
    ensures Accepts(q, Received(q, Str(typed))) <==> Strip(typed) == q.answer.s
  {
  }

  /** Consequence: a free-text question whose canonical answer carries surrounding
      whitespace can never be answered correctly in this variant. */
  lemma PaddedCanonicalNeverAccepted(q: Question, typed: string)
    requires q.inputField && q.answer.Str? && Strip(q.answer.s) != q.answer.s
    ensures !Accepts(q, Received(q, Str(typed)))
  {
    StripIdempotent(typed);
  }

  /** The displayed form of a canonical answer: a string as it is, a list as
      Python's `str()` of a list of strings. The options are not consulted. */
  function FormatAnswerDisplay(answer: Value, options: seq<string>): (r: string)
    ensures answer.Str? ==> r == answer.s
    ensures answer.List? ==> |r| >= 2 && r[0] == '[' && r[|r| - 1] == ']'
    ensures answer.List? && answer.items == [] ==> r == "[]"
  {
    match answer
    case Str(s) => s
    case List(xs) => "[" + QuotedItems(xs) + "]"
  }

  /** `'a', 'b', 'c'`: the items of a list as Python prints them (plain strings). */
  function QuotedItems(xs: seq<string>): string
  {
    if xs == [] then ""
    else if |xs| == 1 then "'" + xs[0] + "'"
    else "'" + xs[0] + "', " + QuotedItems(xs[1..])
  }

  /** A two-item answer is shown the way Python prints the list. */
  lemma FormatTwoItems(a: string, b: string, options: seq<string>)
    ensures FormatAnswerDisplay(List([a, b]), options) == "['" + a + "', '" + b + "']"
  {
    assert [a, b][1..] == [b];
    assert QuotedItems([b]) == "'" + b + "'";
    assert QuotedItems([a, b]) == "'" + a + "', " + "'" + b + "'";
  }

  /** The quiz session: the fields the handler keeps in the session dictionary. */
  class Session {
    var selectedQuestions: seq<Question>
    var userAnswers: seq<Option<Value>>
    var currentQuestionIndex: nat
    var correctCount: nat
    var wrongAnswers: seq<WrongAnswer>
    var rangeSelected: bool
    var quizEnded: bool
    /** Absent until a range is started. */
    var startNumber: Option<int>
    /** How many times Submit/Next has been pressed. */
    ghost var submissions: nat

    /** The defaults a fresh or reset session starts from. */
    ghost predicate Initial()
      reads this
    {
      && selectedQuestions == [] && userAnswers == [] && currentQuestionIndex == 0
      && correctCount == 0 && wrongAnswers == [] && !rangeSelected && !quizEnded
      && startNumber == None && submissions == 0
    }

    ghost predicate Valid()
      reads this
    {
      && |userAnswers| == |selectedQuestions|
      // the handler never writes an answer after starting the range
      && (forall j :: 0 <= j < |userAnswers| ==> userAnswers[j] == None)
      // every submission is counted once: as correct or as a logged wrong answer
      && correctCount + |wrongAnswers| == submissions
      && (!rangeSelected ==> Initial())
      && (rangeSelected ==> startNumber.Some? && currentQuestionIndex < |selectedQuestions|)
      // a logged question number lies between the range start and the current position
      && (forall k :: 0 <= k < |wrongAnswers| ==>
            startNumber.Some? &&
            startNumber.value <= wrongAnswers[k].originalNumber <= startNumber.value + currentQuestionIndex)
    }

    constructor ()
      ensures Valid() && Initial()
    {
      selectedQuestions, userAnswers, currentQuestionIndex := [], [], 0;
      correctCount, wrongAnswers := 0, [];
      rangeSelected, quizEnded, startNumber := false, false, None;
      submissions := 0;
    }

    /** The Reset button deletes every key; the next run restores the defaults. */
    method Reset()
      modifies this
      ensures Valid() && Initial()
    {
      selectedQuestions, userAnswers, currentQuestionIndex := [], [], 0;
      correctCount, wrongAnswers := 0, [];
      rangeSelected, quizEnded, startNumber := false, false, None;
      submissions := 0;
    }

    /** Start Quiz. The number inputs keep both numbers between 1 and the bank size. */
    method StartQuiz(allQuestions: seq<Question>, startIndex: int, endIndex: int) returns (error: Option<string>)
      requires Valid() && !rangeSelected
      requires 1 <= startIndex <= |allQuestions| && 1 <= endIndex <= |allQuestions|
      modifies this
      ensures Valid()
      ensures error == None <==> startIndex <= endIndex
      ensures error.Some? ==> error.value == RangeError && unchanged(this)
      ensures error == None ==>
        && selectedQuestions == allQuestions[startIndex - 1..endIndex]
        && |selectedQuestions| == endIndex - startIndex + 1
        && (forall i :: 0 <= i < |selectedQuestions| ==> selectedQuestions[i] == allQuestions[startIndex - 1 + i])
        && |userAnswers| == |selectedQuestions|
        && (forall j :: 0 <= j < |userAnswers| ==> userAnswers[j] == None)
        && currentQuestionIndex == 0 && rangeSelected && startNumber == Some(startIndex)
        && correctCount == old(correctCount) && wrongAnswers == old(wrongAnswers)
        && quizEnded == old(quizEnded) && submissions == old(submissions)
    {
      if startIndex <= endIndex {
        var selectedRange := allQuestions[startIndex - 1..endIndex];
        selectedQuestions := selectedRange;
        userAnswers := seq(|selectedRange|, _ => None);
        currentQuestionIndex := 0;
        rangeSelected := true;
        startNumber := Some(startIndex);
        error := None;
      } else {
        error := Some(RangeError);
      }
    }

    /** Appends the wrong-answer record; the question number is the range start
        plus the position of the first question equal to this one. */
    method RecordWrongAnswer(userAnswer: Value, question: Question)
      requires question in selectedQuestions && startNumber.Some?
      modifies this`wrongAnswers
      ensures wrongAnswers == old(wrongAnswers) + [WrongAnswer(
        question.text, question.answer, userAnswer, question.keywords, question.explanation,
        FirstIndex(selectedQuestions, question) + startNumber.value, question.options)]
    {
      var startIndex := FirstIndex(selectedQuestions, question);
      var actualQuestionNumber := startIndex + startNumber.value;
      wrongAnswers := wrongAnswers + [WrongAnswer(
        question.text, question.answer, userAnswer, question.keywords, question.explanation,
        actualQuestionNumber, question.options)];
    }

    /** Submit/Next: grade the current question, count it, and move on unless
        this is the last question of the range. The quiz is never ended here. */
    method Submit(raw: Value) returns (correct: bool)
      requires Valid() && rangeSelected && !quizEnded
      requires selectedQuestions[currentQuestionIndex].inputField ==> raw.Str?
      modifies this
      ensures Valid()
      ensures var q := old(selectedQuestions[currentQuestionIndex]);
              var answer := Received(q, raw);
              && correct == Accepts(q, answer)
              && correctCount == old(correctCount) + (if correct then 1 else 0)
              && wrongAnswers == old(wrongAnswers) + (if correct then [] else [WrongAnswer(
                   q.text, q.answer, answer, q.keywords, q.explanation,
                   old(startNumber.value) + FirstIndex(old(selectedQuestions), q), q.options)])
      ensures currentQuestionIndex ==
                if old(currentQuestionIndex) < |selectedQuestions| - 1
                then old(currentQuestionIndex) + 1 else old(currentQuestionIndex)
      ensures submissions == old(submissions) + 1
      ensures selectedQuestions == old(selectedQuestions) && userAnswers == old(userAnswers)
      ensures rangeSelected && !quizEnded && startNumber == old(startNumber)
    {
      var question := selectedQuestions[currentQuestionIndex];
      var userAnswer := Received(question, raw);
      correct := Accepts(question, userAnswer);
      if correct {
        correctCount := correctCount + 1;
      } else {
        RecordWrongAnswer(userAnswer, question);
      }
      submissions := submissions + 1;
      if currentQuestionIndex < |selectedQuestions| - 1 {
        currentQuestionIndex := currentQuestionIndex + 1;
      }
    }

    /** End Practice: only the terminal flag changes. */
    method EndPractice()
      requires Valid() && rangeSelected && !quizEnded
      modifies this`quizEnded
      ensures Valid() && quizEnded
    {
      quizEnded := true;
    }

    /** The end-of-quiz summary: the score is taken over the whole range. */
    function Summary(): (r: Report)
      reads this
      requires Valid() && quizEnded
      ensures r.total == |selectedQuestions| && r.total > 0
      ensures r.correct == correctCount
      ensures r.score * (r.total as real) == 100.0 * (r.correct as real)
      ensures r.review == wrongAnswers
    {
      Report(|selectedQuestions|, correctCount, Percent(correctCount, |selectedQuestions|), wrongAnswers)
    }
  }

  /** A bank of five distinct questions, range 2..4: the first answered right,
      the second wrong, then End Practice. */
  method RangeScenario() returns (s: Report)
    ensures s.total == 3 && s.correct == 1 && s.score == 100.0 / 3.0
    ensures |s.review| == 1 && s.review[0].originalNumber == 3
  {
    var bank := seq(5, i requires 0 <= i < 5 => Question([(i + 'a' as int) as char], ["A", "B"], Str("A"), false, [], "", None));
    var session := new Session();
    var error := session.StartQuiz(bank, 2, 4);
    assert session.selectedQuestions == bank[1..4];
    var ok := session.Submit(Str("A"));
    ok := session.Submit(Str("B"));
    assert bank[2].text != bank[1].text;
    session.EndPractice();
    s := session.Summary();
  }

  /** Submitting again at the last position grades the same question again:
      a one-question range answered right twice reports 2 correct out of 1. */
  method ResubmitLastScenario() returns (s: Report)
    ensures s.total == 1 && s.correct == 2 && s.score == 200.0
  {
    var q := Question("Q", ["A", "B"], Str("A"), false, [], "", None);
    var session := new Session();
    var error := session.StartQuiz([q], 1, 1);
    var ok := session.Submit(Str("A"));
    ok := session.Submit(Str("A"));
    session.EndPractice();
    s := session.Summary();
  }

  /** With two equal questions in the range, a wrong answer to the second is
      logged under the number of the first. */
  method DuplicateQuestionScenario() returns (s: Report)
    ensures |s.review| == 1 && s.review[0].originalNumber == 1
  {
    var q := Question("Q", ["A", "B"], Str("A"), false, [], "", None);
    var session := new Session();
    var error := session.StartQuiz([q, q], 1, 2);
    var ok := session.Submit(Str("A"));
    ok := session.Submit(Str("B"));
    session.EndPractice();
    s := session.Summary();
  }

  /** Two records that differ only in their `code` snippet are different
      questions to `list.index`: a wrong answer to the second is logged under
      its own number. */
  method CodeOnlyDifferenceScenario() returns (s: Report)
    ensures |s.review| == 1 && s.review[0].originalNumber == 2
  {
    var q1 := Question("Q", ["A", "B"], Str("A"), false, [], "", None);
    var q2 := Question("Q", ["A", "B"], Str("A"), false, [], "", Some("print(1)"));
    var session := new Session();
    var error := session.StartQuiz([q1, q2], 1, 2);
    var ok := session.Submit(Str("A"));
    ok := session.Submit(Str("B"));
    session.EndPractice();
    s := session.Summary();
  }
}
