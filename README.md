# AWS-Quiz session state machine in Dafny

This project models the quiz session of the AWS-Quiz practice application. The
user picks a 1-based, inclusive range of questions from a question bank. The
session walks through that range one question at a time. Each submission is
graded at once: a right answer bumps a counter, a wrong one is copied into a
wrong-answer log. The session ends on request (or, in one variant, after the
last question). A summary then reports the score.

The source keeps this state in the web framework's session dictionary. Here each
handler file becomes a Dafny module, and its dictionary keys become the fields
of a `Session` class:

- `questions.dfy`, module `Questions`: the question record, the answer value (a
  string or a list of strings), Python's `str.strip()` and `str.isspace()`,
  Python's `set()` of an answer, and the percentage score. Both variants use these.
- `range_quiz.dfy`, module `RangeQuiz`: Range Mode (`code/range_quiz.py`).
- `quiz_logic.dfy`, module `QuizLogic`: the handler of `code/quiz_logic.py`. Its
  selected items carry their bank position. It stores every answer, grades by
  question kind, and its summary also reports how far the user got.

The two variants differ on purpose, and the model keeps the differences:

| | `RangeQuiz` | `QuizLogic` |
|---|---|---|
| Submit at the last position | index stays, quiz not ended | quiz ended |
| free-text comparison | only the input is stripped | input and canonical answer stripped |
| `user_answers` | never written after Start Quiz | the submission is stored at its position |
| question number in a wrong record | range start + `list.index` of the question | the item's stored `original_index` |
| question with neither options nor free text | graded like any other: a list-valued canonical answer as a set, a string by equality | not graded, no counter changes |

Each class has a `Valid()` invariant. The button handlers (constructor, Reset,
Start Quiz, Submit, End) are proved to preserve it. The inner helpers
(`RecordWrongAnswer` in both modules, `CheckAnswer` in `QuizLogic`) neither
require nor ensure it: their contracts give only the new fields, and the
handler that calls them re-establishes the invariant.

- `RangeQuiz.Session`: `correct_count + len(wrong_answers)` equals the number of
  submissions, and the index stays inside the range.
- `QuizLogic.Session`: the positions before the current one are answered and the
  later ones are not. `correct_count + len(wrong_answers)` equals the number of
  answers to gradable questions.

Where the code differs from the application's stated intent, the model follows
the code:
- `range_quiz.py` never ends the quiz on Submit, and it lets the last question
  be graded again and again.
- `quiz_logic.py` reports `answered = current_question_index + 1`.
- Start Quiz does not reset the counters. Start Quiz can only be reached from
  the initial state, so this changes nothing inside one mode.

Wrong records copy only the fields the code copies. The record in
`quiz_logic.py` has no options.

## Model

| member | source | states |
|---|---|---|
| `Questions.Strip` | code/range_quiz.py:74 | `strip()` returns a contiguous part of the input with only whitespace cut from either end, and the result has no whitespace at either end |
| `Questions.StripUnique` | code/range_quiz.py:74 | whatever lies between two runs of whitespace, with no whitespace at its own ends, is exactly what `strip()` returns |
| `Questions.StripTrimmed` | code/quiz_logic.py:95 | a string with no surrounding whitespace is unchanged by `strip()` |
| `Questions.StripIdempotent` | code/quiz_logic.py:64 | stripping an already stripped input changes nothing |
| `Questions.StripIgnoresPadding` | code/quiz_logic.py:64 | adding whitespace around a string never changes its stripped form |
| `Questions.SameSetOfLists` | code/range_quiz.py:87-88 | `set(a) == set(b)` holds for two lists exactly when they have the same members, in both directions |
| `Questions.SameSetIgnoresOrder` | code/range_quiz.py:88 | a reordered submission gets the same set comparison |
| `Questions.SameSetIgnoresDuplicates` | code/range_quiz.py:88 | repeating an item of the submission does not change the set comparison |
| `Questions.SameSetRejectsMissingOrExtra` | code/range_quiz.py:88 | a submission missing a canonical item, or adding one, fails (so does a strict subset or superset) |
| `Questions.IsSpace` | code/range_quiz.py:74 | Python's `str.isspace()` for one character: space, tab, newline and carriage return are whitespace, ASCII letters and digits are not |
| `Questions.Received` | code/range_quiz.py:71-74 | a typed answer to a free-text question is stripped, leaving no whitespace at either end; any other submission is taken unchanged |
| `Questions.AsSet` | code/range_quiz.py:88 | Python's `set()` of an answer: the items of a list, or the one-character strings of a string |
| `Questions.SameSet` | code/quiz_logic.py:104 | `set(a) == set(b)`: equal values compare equal, and a typed string can match a list only when every item is one character |
| `Questions.Percent` | code/range_quiz.py:141 | the score times the total is 100 times the correct count, and it lies in 0..100 when correct does not exceed total |
| `RangeQuiz.FirstIndex` | code/range_quiz.py:119 | `list.index` returns a position holding the question, and no earlier position holds it |
| `RangeQuiz.FirstIndexOfDistinct` | code/range_quiz.py:119-120 | with pairwise distinct questions, the logged number is the range start plus the current position |
| `RangeQuiz.Accepts` | code/range_quiz.py:87-100 | how an answer is judged: a list-valued canonical answer is compared as a set, anything else by equality; the canonical answer itself is accepted and a list never matches a string canonical answer |
| `RangeQuiz.ListAnswerGradedAsSet` | code/range_quiz.py:87-88 | a list-valued canonical answer accepts exactly the lists with the same members |
| `RangeQuiz.FreeTextStripsInputOnly` | code/range_quiz.py:71-95 | a free-text answer is right iff the stripped input equals the unstripped canonical answer |
| `RangeQuiz.PaddedCanonicalNeverAccepted` | code/range_quiz.py:94-95 | if the canonical free-text answer has surrounding whitespace, no typed input is ever graded right |
| `RangeQuiz.FormatAnswerDisplay` | code/range_quiz.py:132-136 | a string answer is shown unchanged; a list is shown in brackets (`[]` when empty); the options are not consulted |
| `RangeQuiz.FormatTwoItems` | code/range_quiz.py:132-136 | a two-item list is shown as Python prints it: `['a', 'b']` |
| `RangeQuiz.Session.constructor` | code/range_quiz.py:18-31 | a new session has the default values of every key and satisfies the invariant |
| `RangeQuiz.Session.Reset` | app.py:48-50 | Reset returns the session to the defaults of code/range_quiz.py:18-31 from any state |
| `RangeQuiz.Session.StartQuiz` | code/range_quiz.py:42-51 | with start <= end it selects exactly positions start..end in bank order. It sets end-start+1 empty answers, index 0, `range_selected` and `start_number`. With start > end it returns the error message and changes nothing |
| `RangeQuiz.Session.RecordWrongAnswer` | code/range_quiz.py:117-130 | appends one record copying the question's text, answer, keywords, explanation and options, numbered start + first index of an equal question |
| `RangeQuiz.Session.Submit` | code/range_quiz.py:83-110 | grades the current answer and grows exactly one of the count or the log by one; the log only grows at its end. The index advances only below the last position, and the quiz is never ended |
| `RangeQuiz.Session.EndPractice` | code/range_quiz.py:113-114 | sets `quiz_ended` and nothing else |
| `RangeQuiz.Session.Summary` | code/range_quiz.py:138-161 | total is the range size (never 0), score times total is 100 times correct, and the review list is the wrong-answer log in order |
| `RangeQuiz.RangeScenario` | code/range_quiz.py:42-114 | bank of 5, range 2..4, one right then one wrong, End Practice: 3 questions, 1 correct, score 100/3, one logged wrong answer numbered 3 |
| `RangeQuiz.ResubmitLastScenario` | code/range_quiz.py:109-110 | a one-question range answered right twice reports 2 correct of 1, score 200 |
| `RangeQuiz.DuplicateQuestionScenario` | code/range_quiz.py:119-120 | with two equal questions in the range, a wrong answer to the second is logged as number 1 |
| `RangeQuiz.CodeOnlyDifferenceScenario` | code/range_quiz.py:119-120 | two records that differ only in `code` are different to `list.index`: a wrong answer to the second is logged as number 2 |
| `QuizLogic.SelectRange` | code/quiz_logic.py:40-43 | the selection has end-start+1 items; item i carries `original_index` start+i, and that bank position holds its question |
| `QuizLogic.Grade` | code/quiz_logic.py:93-114 | free text is right iff it equals the stripped canonical answer. With options, a list answer is compared as a set and any other answer exactly. Without either, nothing is graded |
| `QuizLogic.FreeTextStripsBoth` | code/quiz_logic.py:61-99 | a typed answer is right iff its stripped form equals the stripped canonical answer |
| `QuizLogic.FreeTextPaddingIgnored` | code/quiz_logic.py:64 | whitespace around the typed answer never changes the grade, and typing the canonical answer is always right |
| `QuizLogic.ParisExample` | code/quiz_logic.py:94-99 | `" Paris "` matches `"Paris"`, `"paris"` does not |
| `QuizLogic.MultiSelectExample` | code/quiz_logic.py:102-108 | with canonical `["A", "C"]`, `["C", "A"]` is right and `["A"]` is wrong |
| `QuizLogic.CountAnswered` | code/quiz_logic.py:142 | the number of recorded answers, never more than the number of questions; the corrected summary reports it in place of `current_question_index + 1` |
| `QuizLogic.GradedCountOfUnanswered` | code/quiz_logic.py:44 | after Start Quiz no answer is counted as graded |
| `QuizLogic.GradedCountAfterWrite` | code/quiz_logic.py:91-114 | storing an answer at an empty position adds one graded answer iff the question is gradable |
| `QuizLogic.CountAnsweredOfProgress` | code/quiz_logic.py:75-79 | when positions before k are answered and later ones are not, the answers number k, plus one if k is answered |
| `QuizLogic.UnansweredOfProgress` | code/quiz_logic.py:152 | in that shape, some question is unanswered exactly when the answer count is below the total |
| `QuizLogic.Session.constructor` | code/quiz_logic.py:14-27 | a new session has the default values of every key and satisfies the invariant |
| `QuizLogic.Session.Reset` | app.py:48-50 | Reset returns the session to the defaults of code/quiz_logic.py:14-27 from any state |
| `QuizLogic.Session.StartQuiz` | code/quiz_logic.py:38-47 | with start <= end it stores the selection with original indices start..end and that many empty answers, and sets `range_selected`. With start > end it returns the error message and changes nothing |
| `QuizLogic.Session.RecordWrongAnswer` | code/quiz_logic.py:123-134 | appends one record copying the item's `original_index`, text, answer, keywords and explanation, plus the submission |
| `QuizLogic.Session.CheckAnswer` | code/quiz_logic.py:87-114 | writes the submission into `user_answers[index]` and no other entry. A right answer adds one to the count, a wrong one appends its record, and an ungradable question changes neither |
| `QuizLogic.Session.SubmitNext` | code/quiz_logic.py:60-79 | strips typed input and checks it at the current position, then advances when not last and otherwise ends the quiz; the invariant is kept |
| `QuizLogic.Session.EndQuiz` | code/quiz_logic.py:82-83 | sets `quiz_ended` and nothing else; the current question stays unanswered |
| `QuizLogic.Session.Summary` | code/quiz_logic.py:140-153 | answered is the index plus one and never exceeds the total, and score times total is 100 times correct. Early end is flagged iff answered < total, and only when some question is unanswered |
| `QuizLogic.Session.IntendedSummary` | code/quiz_logic.py:141-153 | same total, correct and score as `Summary`. Answered counts the recorded answers and is at least correct plus wrong. Early end is flagged exactly when some question is unanswered |
| `QuizLogic.EarlyEndScenario` | code/quiz_logic.py:142-152 | range 2..4 of 5, one right, one wrong, End Quiz: 1 correct of 3, score 100/3, and the log has one entry with `original_index` 3. As written it reports answered 3 and no early end; the intended summary reports answered 2 and an early end |

## Left out

- `load_questions` in both files: file reading and JSON parsing. The bank arrives as a sequence of `Question` records.
- All rendering: subheaders, code blocks, hint lines, success and error banners, and the summary's text. Submit and CheckAnswer therefore return only the grade, not the keywords and explanation the page shows.
- Widget choice, including the "SELECT TWO" test. The submission is a parameter. For a free-text question it is the typed string; otherwise it is the widget's string or list. A radio over an empty option list would yield `None`; submissions here are never `None`.
- The number inputs' 1..bank-size bounds are preconditions of StartQuiz. With an empty bank the widget itself fails, so an empty bank is excluded.
- RangeQuiz.Session.RecordWrongAnswer: `list.index` compares whole records. The model's question equality covers text, options, answer, `input_field`, keywords, explanation and `code`. It does not distinguish a record that omits `options` or `input_field` from one that gives `[]` or `false`, nor records that differ only in keys neither handler reads. Such records get different numbers in the source and the same number here. The same holds for the record Submit logs.
- Records always carry `keywords` and `explanation`. The `.get` defaults in code/range_quiz.py and the `KeyError` in code/quiz_logic.py for a record without them are not modelled.
- QuizLogic.Grade: a free-text question whose canonical answer is a list makes `.strip()` fail in the source. This is a precondition here.
- The dispatch of `quiz_logic()`: it reads an undefined `file_path`, and it nests `show_question` under the `quiz_ended` branch. `show_question` also reads an undefined `questions`, taken here as `selected_questions`. The handlers are modelled as operations on the session; the broken dispatch is not.
- Customer Mode and Random Mode. code/customer_quiz.py and code/random_30_quiz.py are not part of this model, and random sampling is not deterministic.
- app.py's page setup, file listing and mode dispatch. Its Reset button is modelled as a return to the defaults.
- Sharing of one session dictionary between modes, and the framework's rerun model: each class models one mode's keys in isolation.
- The score is an exact `real`; the `:.2f` float formatting is not modelled.
- RangeQuiz.FormatAnswerDisplay: for a list the contract states the bracketed shape, and the full text only for the empty list and for two items (FormatTwoItems). Python's choice of quote character and its escaping are not modelled.

## Findings

| source | as written | input that shows it | evidently intended | confidence | as-written member | corrected member |
|---|---|---|---|---|---|---|
| code/quiz_logic.py:142 | `answered_questions = current_question_index + 1`, with the early-end warning when that is below the total | range 2..4 of a 5-question bank; answer the first two, then End Quiz at the third: the summary says 3 answered and shows no early-end warning, though the third question has no answer | answered is the number of recorded answers, so the warning shows exactly when a question was left unanswered | medium, not executed | `QuizLogic.EarlyEndScenario` | `QuizLogic.Session.IntendedSummary` |
