# Quiz game: a verified model

This project models the core of `QuizGame.py`, a console quiz game:

- **the quiz runner** (`play_quiz`). Each question is asked in order. The typed answer is trimmed and upper-cased and then compared with the stored answer letter. The score is the number of matches out of the number of questions.
- **the question editor** (`view_and_add_questions`). It asks whether to add a question, then reads:
  - the question text;
  - an option count, re-prompted until it is 2, 3 or 4;
  - one text per option, labelled `A)`, `B)`, … by position;
  - a correct-answer letter, re-prompted until it is one of those letters.

  It then appends the new record to the shared list and saves the whole list.
- **the menu** (`quiz_game_with_menu`). It loads the list once. Its loop reads a choice:
  - `1` plays;
  - `2` edits;
  - `3` says goodbye and ends;
  - anything else is rejected and the loop goes on.

## How the model is built

- **Console input.** Console input is the sequence of lines the user types, consumed from left to right. Every reading step returns a `Read<T>` (module `Console`):
  - `Done(value, used)` gives the value and the number of lines it consumed;
  - `Exhausted` means the lines ran out before the step could finish. This is where `input()` would raise `EOFError`.

  The re-prompt loops of the source end as soon as a line qualifies, and loop forever only when no line ever does. Here they end on the first qualifying line as well. When no line qualifies, they end in `Exhausted` once the lines run out.
- **Python's `int()`** is the parameter `parse: string -> Option<int>`. `None` stands for `ValueError`.
- **The shared list** is the class `Questions.QuestionList`. The menu allocates one and passes it, by reference, to the editor. The editor appends to it in place.
- **The question file** is the class `Store.QuestionFile`. Its state is `Missing`, `Stored(list)` or `Malformed`.
- **Specification functions.** Each behaviour is first defined as a function:
  - `Quiz.PlayResult`;
  - `Editor.CountPrompt`, `Editor.OptionsPrompt`, `Editor.AnswerPrompt` and `Editor.AddFlow`, whose meaning is stated by the lemmas beside them (`Editor.CountPromptFirstMatch`, `Editor.AnswerPromptFirstMatch`, `Editor.AddFlowCompletes`, `Editor.AddFlowBuildsTheRecord`);
  - `Menu.MenuRound` and `Menu.MenuSession`.

  The loops of the source are then methods with the same loops. Each method is proved to compute its specification function. The properties of the source are proved about those functions.
- **Strings.** `str.strip` uses Python's whitespace set: the characters for which `str.isspace()` holds. `str.upper`/`str.lower` map the ASCII letters (module `Text`).
- **Concrete runs.** Module `Scenarios` checks concrete runs against the specification functions.

## Model

| member | source | states |
|---|---|---|
| Text.Strip | QuizGame.py:38 | `str.strip()` never makes a line longer |
| Text.StripShape | QuizGame.py:105 | the stripped line is the slice of the input that drops the leading and trailing whitespace; everything dropped is whitespace; the result neither starts nor ends with whitespace |
| Text.StripPadded | QuizGame.py:58 | a text without surrounding whitespace, padded on both sides with whitespace, strips back to exactly that text |
| Text.StripIdempotent | QuizGame.py:38 | stripping twice is stripping once |
| Text.TrimStartShape | QuizGame.py:105 | the left trim drops exactly the leading whitespace |
| Text.TrimEndShape | QuizGame.py:105 | the right trim drops exactly the trailing whitespace |
| Text.TrimStartPadded | QuizGame.py:105 | leading whitespace in front of a text that does not start with whitespace is removed exactly |
| Text.TrimEndPadded | QuizGame.py:105 | trailing whitespace after a text that does not end with whitespace is removed exactly |
| Text.Upper | QuizGame.py:105 | upper-casing keeps the length |
| Text.Lower | QuizGame.py:56 | lower-casing keeps the length |
| Text.UpperShape | QuizGame.py:105 | the upper-cased line equals the input up to letter case and holds no lower-case letter |
| Text.LowerShape | QuizGame.py:56 | the lower-cased line equals the input up to letter case and holds no upper-case letter |
| Text.UpperMatches | QuizGame.py:105-107 | for a target without lower-case letters, the upper-cased line equals the target exactly when it equals it ignoring case |
| Text.LowerMatches | QuizGame.py:56-57 | for a target without upper-case letters, the lower-cased line equals the target exactly when it equals it ignoring case |
| Questions.Letter | QuizGame.py:69-70 | `chr(65 + i)` is a one-character capital letter |
| Questions.ValidAnswersAreFirstLetters | QuizGame.py:73 | `valid_answers` holds exactly the one-letter strings from `A` up to the n-th capital letter |
| Questions.AnswerLabelsAnOption | QuizGame.py:67-82 | the answer of a record the editor builds is the label at the front of one of its own options |
| Questions.QuestionList.constructor | QuizGame.py:120 | the shared list starts as the loaded list |
| Store.QuestionFile.Load | QuizGame.py:3-17 | a missing file loads as the empty list; a stored list loads as itself; a malformed file is the only case that fails |
| Store.QuestionFile.Save | QuizGame.py:19-28 | the file is overwritten with the whole list, and a later load yields that list back |
| Quiz.Judge | QuizGame.py:105-111 | the verdict is "Correct" exactly when the trimmed, upper-cased line equals the stored answer; otherwise it is "Wrong", naming the stored answer |
| Quiz.Verdicts | QuizGame.py:100-111 | one verdict per question, in order; verdict i is "Correct" exactly when answer i matches question i |
| Quiz.Score | QuizGame.py:98-109 | the counter never exceeds the number of questions |
| Quiz.PlayResult | QuizGame.py:86-113 | an empty list gives the "no questions" outcome and reads no line; otherwise it reads one line per question (`Exhausted` exactly when there are fewer lines than questions) and reports one verdict per question and the score out of `len(questions)`, with score ≤ total |
| Quiz.ScoreStep | QuizGame.py:105-109 | answering one more question adds one to the score exactly when that answer matches |
| Quiz.VerdictsStep | QuizGame.py:105-111 | answering one more question appends that question's verdict to the verdicts so far |
| Quiz.PlayQuiz | QuizGame.py:86-113 | the scoring loop computes `PlayResult`: same verdicts, same counter, same lines consumed |
| Quiz.ScoreCountsCorrect | QuizGame.py:98-113 | the final score equals the number of questions whose trimmed, upper-cased answer equals the stored answer |
| Quiz.ScoreExtremes | QuizGame.py:98-113 | full marks exactly when every answer matches; zero exactly when none does |
| Quiz.VerdictsMatchScore | QuizGame.py:107-113 | the final score equals the number of "Correct!" verdicts printed |
| Quiz.JudgeIgnoresCaseAndSpace | QuizGame.py:105-111 | for a stored answer without lower-case letters, a line is judged correct exactly when, once trimmed, it equals the answer ignoring case |
| Quiz.LowerCaseAnswerNeverMatches | QuizGame.py:105-111 | a stored answer containing a lower-case letter is judged wrong whatever is typed |
| Editor.CountPrompt | QuizGame.py:60-65 | a completed option-count prompt has read at least one line and no more than were typed, and its count is 2, 3 or 4 |
| Editor.CountPromptFirstMatch | QuizGame.py:60-65 | the option-count prompt stops at the first line that parses to 2, 3 or 4, and the count is what that line parses to; every earlier line fails to parse or is out of range; `Exhausted` exactly when no line qualifies |
| Editor.ReadOptionCount | QuizGame.py:60-65 | the `while num_options not in [2, 3, 4]` loop computes `CountPrompt`, a failed parse leaving `num_options` as it was |
| Editor.OptionsPrompt | QuizGame.py:67-70 | the options prompt completes exactly when n lines are available, reads exactly n of them and yields n options |
| Editor.OptionsArePositional | QuizGame.py:67-70 | the options prompt reads exactly n lines when there are that many; entry i is letter i, then `") "`, then line i trimmed |
| Editor.ReadOptions | QuizGame.py:67-70 | the `for` loop that appends the labelled options computes `OptionsPrompt` |
| Editor.AnswerPrompt | QuizGame.py:72-75 | a completed answer prompt has read at least one line and no more than were typed |
| Editor.AnswerPromptFirstMatch | QuizGame.py:72-75 | the answer prompt stops at the first line whose trimmed, upper-cased form is one of the first n letters, and that letter is the answer; no earlier line is one; `Exhausted` exactly when no line qualifies |
| Editor.AnswerPromptCompletesFrom | QuizGame.py:72-75 | the answer prompt started at a given line completes exactly when some line from there on names one of the n options |
| Editor.AnswerPromptFrom | QuizGame.py:72-75 | the answer prompt started at a given line stops at the first line from there on that names one of the n options, and its answer is that line trimmed and upper-cased |
| Editor.OptionsFrom | QuizGame.py:67-70 | the options prompt started at a given line labels the n lines from there on, in order |
| Editor.ReadCorrectAnswer | QuizGame.py:72-75 | the `while correct_answer not in valid_answers` loop, starting from `""`, computes `AnswerPrompt` |
| Editor.AddFlow | QuizGame.py:56-84 | the dialogue declines exactly when the first line, trimmed and lower-cased, is not `yes`/`y`, and then reads one line; a record is added only after a yes, and its text is the second line trimmed; a completed dialogue reads no more lines than were typed |
| Editor.AddFlowStagesComplete | QuizGame.py:58-75 | after a yes, the dialogue completes exactly when the count prompt, the n option lines and the answer prompt each complete, each started where the previous one stopped |
| Editor.AddFlowStagesRecord | QuizGame.py:58-82 | a completed dialogue's record is the trimmed question line, the options prompt's labels and the answer prompt's letter, and it reads exactly the lines of the three prompts after the first two |
| Editor.AddFlowCompletes | QuizGame.py:56-82 | after a yes, the dialogue completes exactly when a question line follows, the count prompt completes, the n option lines follow it, and a later line names one of the n letters |
| Editor.AddFlowCompletesAfterQuestion | QuizGame.py:58-82 | once the question line is typed, the dialogue completes exactly when the count prompt completes, the n option lines follow it, and a later line names one of the n letters |
| Editor.AddFlowRecordOptions | QuizGame.py:60-70 | the added record has as many options as the count prompt gave, and option i is line i after the count, trimmed and labelled with letter i |
| Editor.AddFlowRecordAnswer | QuizGame.py:72-82 | the added record's answer is the letter of the first line after the options that names one of them; that line is the last one the dialogue reads |
| Editor.AddFlowBuildsTheRecord | QuizGame.py:56-82 | the added record holds exactly the counted, labelled option lines and the letter of the first later line that names one of them, which is the last line read |
| Editor.AddedIsWellFormed | QuizGame.py:60-82 | every record the dialogue adds is well formed: 2 to 4 options labelled by position, and an answer among their letters |
| Editor.ViewAndAddQuestions | QuizGame.py:56-84 | computes `AddFlow`; on an added record the shared list becomes the old list with that record appended at the end, and the file holds the new list; otherwise neither the list nor the file changes |
| Editor.WantsToAdd | QuizGame.py:56-57 | the reply to the add prompt, trimmed and lower-cased, is `yes` or `y` |
| Editor.WantsToAddIgnoresCaseAndSpace | QuizGame.py:56-57 | the add prompt accepts exactly `yes` and `y` in any letter case, with any surrounding whitespace |
| Menu.MenuRound | QuizGame.py:122-133 | one pass reads the trimmed choice and consumes at least that line; only `3` exits; a rejected choice is never `1`, `2` or `3`; the next list is the current one plus what the round added |
| Menu.RoundAddsWellFormed | QuizGame.py:127-128 | every record one round adds is well formed |
| Menu.MenuSession | QuizGame.py:122-133 | the `while True` loop: round after round on the list each round leaves, until a round stops |
| Menu.ChoiceDecidesRound | QuizGame.py:123-133 | choice `1` plays the quiz on the current list and goes back to the loop with the list unchanged and that quiz's outcome, exactly when the quiz completes; choice `2` goes back to the loop with the editor's outcome and the edited list, exactly when the dialogue completes; a choice is rejected exactly when it is none of `1`, `2`, `3`, and rejecting it reads only the choice line and leaves the list as it is; a stop that is not an exit happens only on an empty input or when the quiz or the dialogue of `1` or `2` runs out of lines |
| Menu.DispatchExit | QuizGame.py:129-131 | choice `3` ends the session with the farewell, whatever lines follow |
| Menu.FarewellIsLast | QuizGame.py:122-133 | a session exits exactly when its last event is the farewell; no earlier event is a farewell; no rejected choice is `1`, `2` or `3` |
| Menu.LastRoundStart | QuizGame.py:122-133 | the position where the last round of a session reads its choice lies within the input |
| Menu.SessionStep | QuizGame.py:122-133 | after a round that does not stop, the session is that round's event followed by the session on the lines after it, and its last round starts that many lines later |
| Menu.LastRoundStops | QuizGame.py:122-133 | the round starting there, on the final list, is the one that stops the session, with the session's exit flag |
| Menu.ExitNeedsThree | QuizGame.py:122-133 | a session exits only when the choice line its last round reads trims to `3`; any other end is the lines running out, either before a choice or inside the quiz or dialogue that a `1` or `2` began |
| Menu.AppendOnly | QuizGame.py:119-133 | the final list is the loaded list followed by the records the rounds added, in order |
| Menu.AddedWellFormed | QuizGame.py:122-133 | every record a session adds is well formed |
| Menu.RoundKeepsAccount | QuizGame.py:122-133 | after one more round, the whole session is still the rounds so far followed by the session from the remaining lines |
| Menu.MenuPass | QuizGame.py:122-133 | one pass of the loop computes `MenuRound` on the shared list; the list changes only as the round says; the file changes only when a record was added |
| Menu.QuizGameWithMenu | QuizGame.py:115-133 | loading fails (no session) exactly on a malformed file, and then the file is left as it was; otherwise the run is `MenuSession` of the loaded list; the file is left untouched unless a record was added, and then holds the final list |
| Scenarios.TwoPlusTwo | QuizGame.py:77-81 | the record `2+2?` with options `A) 3`, `B) 4` and answer `B` is well formed |
| Scenarios.DeclineThenExit | QuizGame.py:115-133 | no file, lines `2`, `no`, `3`: one declined edit, then the farewell; the list stays empty and nothing is added, so the file is not written |
| Scenarios.AnswerLowerCaseB | QuizGame.py:105-113 | that question answered `b` is correct, with a score of 1/1 |
| Scenarios.AnswerLowerCaseA | QuizGame.py:105-113 | that question answered `a` is wrong (expected `B`), with a score of 0/1 |
| Scenarios.AddThreeOptions | QuizGame.py:56-84 | `y`, a text, count `3`, three options and `c` add the record with options `A)` to `C)` and answer `C`, using seven lines |

## Notes on the program

- The code upper-cases only the typed answer (QuizGame.py:105-107), so a stored answer that holds a lower-case letter never matches (`Quiz.LowerCaseAnswerNeverMatches`). Matching ignores case only for stored answers without lower-case letters (`Quiz.JudgeIgnoresCaseAndSpace`).
- Loaded records are used as they are (QuizGame.py:13-15): a record with missing fields is not rejected when the file is loaded.

## Left out

- **Display loops.** The display loop of `view_and_add_questions` (QuizGame.py:49-54) is left out. So are all printed menus and prompts, including the printing part of `display_menu` (QuizGame.py:30-39), and the notices "Please enter a valid number." and "New question added successfully!". These only print. The outcome of each round is kept instead:
  - a verdict per question;
  - the score;
  - an invalid choice;
  - the farewell.
- **JSON encoding and decoding** (`json.load`/`json.dump`). The file is modelled as a list of records, as missing, or as malformed. Consequences:
  - content that parses as JSON but is not a list of three-field records is not modelled;
  - the key errors it would cause later are not modelled either.
- **The file name and the module-level call.** The fixed file name `questions.json` (QuizGame.py:119) and the call at QuizGame.py:135 are left out. The file is a parameter.
- **Write failures and partial writes during a save.** Not modelled: a save always succeeds.
- **Python's `int()`.** It is the parameter `parse`. Its own rules are not modelled: signs, underscores, Unicode digits.
- **Text.Upper and Text.Lower** map only the ASCII letters. Python's full Unicode case mapping is not modelled. That mapping can change length (`'ß'.upper() == 'SS'`) and maps some non-ASCII letters to ASCII ones (`'ı'.upper() == 'I'`).
- **Quiz.PlayResult**, when the lines run out in the middle of a quiz, reports only `Exhausted`. It drops the verdicts already printed for the earlier questions, because `EOFError` ends the program there.
- **End of input.** `input()` raising `EOFError` is modelled as the outcome `Exhausted`, which ends the session. The traceback is not modelled.
