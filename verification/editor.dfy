/**
 * view_and_add_questions: the prompts that build a new record and the
 * in-place append to the shared list, followed by a save of the whole list.
 */
module Editor {
  import opened Console
  import opened Text
  import opened Questions
  import opened Store

  /** Python's int() on a trimmed line, left abstract: None stands for ValueError. */
  type Parser = string -> Option<int>

  /** What the editor did: nothing (the user declined) or append this record. */
  datatype EditOutcome = Declined | Added(question: Question)

  /** The list after an edit. */
  function Applied(questions: seq<Question>, outcome: EditOutcome): seq<Question>
  {
    match outcome
    case Declined => questions
    case Added(q) => questions + [q]
  }

  /** The reply to "Do you want to add a new question?", trimmed and lower-cased, is "yes" or "y". */
  predicate WantsToAdd(line: string)
  {
    Lower(Strip(line)) in ["yes", "y"]
  }

  /** The number a typed line parses to, as int(line.strip()) would give it. */
  function CountOf(parse: Parser, line: string): Option<int>
  {
    parse(Strip(line))
  }

  /** A typed line that ends the option-count prompt: it parses to 2, 3 or 4. */
  predicate AcceptsCount(parse: Parser, line: string)
  {
    CountOf(parse, line).Some? && ValidCount(CountOf(parse, line).value)
  }

  /**
   * The option-count prompt: lines are consumed up to and including the
   * first one that parses to 2, 3 or 4, and that number is the count. Lines
   * that do not parse or parse to another number only cause a new prompt.
   */
  function CountPrompt(input: seq<string>, parse: Parser): (r: Read<int>)
    ensures r.Done? ==> 1 <= r.used <= |input| && ValidCount(r.value)
    decreases |input|
  {
    if input == [] then Exhausted
    else if AcceptsCount(parse, input[0]) then Done(CountOf(parse, input[0]).value, 1)
    else Shift(CountPrompt(input[1..], parse), 1)
  }

  /**
   * The option-count prompt stops at the first line that qualifies: the
   * count is what that line parses to, every line before it fails to parse
   * or is out of range, and the prompt runs out of lines exactly when no
   * line qualifies.
   */
  lemma {:induction false} CountPromptFirstMatch(input: seq<string>, parse: Parser)
    ensures var r := CountPrompt(input, parse);
            r.Done? ==> CountOf(parse, input[r.used - 1]) == Some(r.value)
    ensures var r := CountPrompt(input, parse);
            r.Done? ==> forall j {:trigger AcceptsCount(parse, input[j])} :: 0 <= j < r.used - 1 ==> !AcceptsCount(parse, input[j])
    ensures var r := CountPrompt(input, parse);
            r.Exhausted? <==> forall j {:trigger AcceptsCount(parse, input[j])} :: 0 <= j < |input| ==> !AcceptsCount(parse, input[j])
    decreases |input|
  {
    if input != [] {
      if AcceptsCount(parse, input[0]) {
        assert CountPrompt(input, parse) == Done(CountOf(parse, input[0]).value, 1);
      } else {
        var tail := input[1..];
        CountPromptFirstMatch(tail, parse);
        forall j | 1 <= j < |input|
          ensures AcceptsCount(parse, input[j]) == AcceptsCount(parse, tail[j - 1])
        {
          assert tail[j - 1] == input[j];
        }
      }
    }
  }

  /** The option prompts: line i, trimmed, becomes option "<letter i>) <line>". */
  function OptionsPrompt(input: seq<string>, n: nat): (r: Read<seq<string>>)
    requires n <= 26
    ensures r.Done? <==> n <= |input|
    ensures r.Done? ==> r.used == n && |r.value| == n
  {
    if |input| < n then Exhausted
    else Done(seq(n, i requires 0 <= i < n => OptionLabel(i, Strip(input[i]))), n)
  }

  /** A typed line that ends the correct-answer prompt: trimmed and upper-cased, it is the letter of one of the n options. */
  predicate NamesOption(line: string, n: nat)
    requires n <= 26
  {
    TypedAnswer(line) in ValidAnswers(n)
  }

  /**
   * The correct-answer prompt: lines are consumed up to and including the
   * first one that, trimmed and upper-cased, is the letter of one of the n
   * options, and that letter is the answer.
   */
  function AnswerPrompt(input: seq<string>, n: nat): (r: Read<string>)
    requires n <= 26
    ensures r.Done? ==> 1 <= r.used <= |input|
    decreases |input|
  {
    if input == [] then Exhausted
    else if NamesOption(input[0], n) then Done(TypedAnswer(input[0]), 1)
    else Shift(AnswerPrompt(input[1..], n), 1)
  }

  /**
   * The correct-answer prompt stops at the first line that names an option:
   * the answer is that line trimmed and upper-cased, one of the n letters;
   * no line before it names one, and the prompt runs out of lines exactly
   * when no line does.
   */
  lemma {:induction false} AnswerPromptFirstMatch(input: seq<string>, n: nat)
    requires n <= 26
    ensures var r := AnswerPrompt(input, n);
            r.Done? ==> r.value in ValidAnswers(n) && r.value == TypedAnswer(input[r.used - 1])
    ensures var r := AnswerPrompt(input, n);
            r.Done? ==> forall j {:trigger NamesOption(input[j], n)} :: 0 <= j < r.used - 1 ==> !NamesOption(input[j], n)
    ensures var r := AnswerPrompt(input, n);
            r.Exhausted? <==> forall j {:trigger NamesOption(input[j], n)} :: 0 <= j < |input| ==> !NamesOption(input[j], n)
    decreases |input|
  {
    if input != [] {
      if NamesOption(input[0], n) {
        assert AnswerPrompt(input, n) == Done(TypedAnswer(input[0]), 1);
      } else {
        var tail := input[1..];
        AnswerPromptFirstMatch(tail, n);
        forall j | 1 <= j < |input|
          ensures NamesOption(input[j], n) == NamesOption(tail[j - 1], n)
        {
          assert tail[j - 1] == input[j];
        }
      }
    }
  }

  /**
   * The whole add-question dialogue: the yes/no reply, the question text,
   * the option count, the options and the correct answer, in that order.
   * A record is added only after a "yes" or "y"; AddFlowBuildsTheRecord
   * says what it holds and AddedIsWellFormed that it is well formed.
   */
  function AddFlow(input: seq<string>, parse: Parser): (r: Read<EditOutcome>)
    ensures r.Done? ==> 1 <= r.used <= |input|
    ensures (r.Done? && r.value.Declined?) <==> (input != [] && !WantsToAdd(input[0]))
    ensures r.Done? && r.value.Declined? ==> r.used == 1
    ensures r.Done? && r.value.Added? ==>
              && 2 <= |input|
              && WantsToAdd(input[0])
              && r.value.question.text == Strip(input[1])
  {
    if input == [] then Exhausted
    else if !WantsToAdd(input[0]) then Done(Declined, 1)
    else if |input| < 2 then Exhausted
    else
      match CountPrompt(input[2..], parse)
      case Exhausted => Exhausted
      case Done(n, k) =>
        match OptionsPrompt(input[2 + k..], n)
        case Exhausted => Exhausted
        case Done(options, m) =>
          match AnswerPrompt(input[2 + k + m..], n)
          case Exhausted => Exhausted
          case Done(answer, l) =>
            Done(Added(Question(Strip(input[1]), options, answer)), 2 + k + m + l)
  }

  /**
   * The options prompt reads exactly n lines when there are that many; entry
   * i carries letter i (A, B, ... in order), then ") ", then line i trimmed.
   */
  lemma OptionsArePositional(input: seq<string>, n: nat)
    requires n <= 26
    ensures OptionsPrompt(input, n).Done? <==> n <= |input|
    ensures OptionsPrompt(input, n).Done? ==>
              var options := OptionsPrompt(input, n).value;
              && OptionsPrompt(input, n).used == n
              && |options| == n
              && forall i :: 0 <= i < n ==>
                   && options[i][0] as int == 65 + i
                   && options[i][1..3] == ") "
                   && options[i][3..] == Strip(input[i])
  {
  }

  /** Some line of input from line from on names one of the n options. */
  predicate SomeLineNamesOption(input: seq<string>, from: nat, n: nat)
    requires n <= 26
  {
    exists j {:trigger NamesOption(input[j], n)} :: from <= j < |input| && NamesOption(input[j], n)
  }

  /**
   * The correct-answer prompt started at line base of input succeeds exactly
   * when some line from base on names one of the n letters.
   */
  lemma AnswerPromptCompletesFrom(input: seq<string>, base: nat, n: nat)
    requires base <= |input| && n <= 26
    ensures AnswerPrompt(input[base..], n).Done? <==> SomeLineNamesOption(input, base, n)
  {
    var tail := input[base..];
    AnswerPromptFirstMatch(tail, n);
    if AnswerPrompt(tail, n).Done? {
      var last := AnswerPrompt(tail, n).used - 1;
      assert tail[last] == input[base + last];
    } else {
      forall j | base <= j < |input|
        ensures !NamesOption(input[j], n)
      {
        assert tail[j - base] == input[j];
      }
    }
  }

  /**
   * The correct-answer prompt started at line base of input stops at the
   * first line from base on that names one of the n letters, and that
   * line's letter is the answer.
   */
  lemma AnswerPromptFrom(input: seq<string>, base: nat, n: nat)
    requires base <= |input| && n <= 26
    ensures var a := AnswerPrompt(input[base..], n);
            a.Done? ==>
              && base + a.used <= |input|
              && a.value in ValidAnswers(n)
              && a.value == TypedAnswer(input[base + a.used - 1])
              && forall j {:trigger NamesOption(input[j], n)} :: base <= j < base + a.used - 1 ==> !NamesOption(input[j], n)
  {
    var tail := input[base..];
    AnswerPromptFirstMatch(tail, n);
    if AnswerPrompt(tail, n).Done? {
      var used := AnswerPrompt(tail, n).used;
      assert tail[used - 1] == input[base + used - 1];
      forall j | base <= j < base + used - 1
        ensures !NamesOption(input[j], n)
      {
        assert tail[j - base] == input[j];
      }
    }
  }

  /** The options prompt started at line start reads lines start to start + n - 1, in order. */
  lemma OptionsFrom(input: seq<string>, start: nat, n: nat)
    requires start <= |input| && n <= 26
    ensures var o := OptionsPrompt(input[start..], n);
            o.Done? ==> forall i :: 0 <= i < n ==> o.value[i] == OptionLabel(i, Strip(input[start + i]))
  {
    var tail := input[start..];
    if n <= |tail| {
      forall i | 0 <= i < n
        ensures OptionsPrompt(tail, n).value[i] == OptionLabel(i, Strip(input[start + i]))
      {
        assert tail[i] == input[start + i];
      }
    }
  }

  /** After a "yes", the dialogue runs out of lines when the option-count prompt does. */
  lemma AddFlowNoCount(input: seq<string>, parse: Parser)
    requires 2 <= |input| && WantsToAdd(input[0])
    requires CountPrompt(input[2..], parse).Exhausted?
    ensures AddFlow(input, parse).Exhausted?
  {
  }

  /** After a "yes" and a count, the dialogue runs out of lines when the options prompt does. */
  lemma AddFlowNoOptions(input: seq<string>, parse: Parser, n: nat, k: nat)
    requires 2 <= |input| && WantsToAdd(input[0])
    requires CountPrompt(input[2..], parse) == Done(n, k)
    requires 2 + k <= |input| && n <= 26
    requires OptionsPrompt(input[2 + k..], n).Exhausted?
    ensures AddFlow(input, parse).Exhausted?
  {
  }

  /** After a "yes", a count and the options, the dialogue runs out of lines when the correct-answer prompt does. */
  lemma AddFlowNoAnswer(input: seq<string>, parse: Parser, n: nat, k: nat, options: seq<string>)
    requires 2 <= |input| && WantsToAdd(input[0])
    requires CountPrompt(input[2..], parse) == Done(n, k)
    requires 2 + k <= |input| && n <= 26
    requires OptionsPrompt(input[2 + k..], n) == Done(options, n)
    requires 2 + k + n <= |input|
    requires AnswerPrompt(input[2 + k + n..], n).Exhausted?
    ensures AddFlow(input, parse).Exhausted?
  {
  }

  /** The dialogue's result once each of its three prompts has ended. */
  lemma AddFlowAdds(input: seq<string>, parse: Parser, n: nat, k: nat, options: seq<string>, answer: string, l: nat)
    requires 2 <= |input| && WantsToAdd(input[0])
    requires CountPrompt(input[2..], parse) == Done(n, k)
    requires 2 + k <= |input| && n <= 26
    requires OptionsPrompt(input[2 + k..], n) == Done(options, n)
    requires 2 + k + n <= |input|
    requires AnswerPrompt(input[2 + k + n..], n) == Done(answer, l)
    ensures AddFlow(input, parse) == Done(Added(Question(Strip(input[1]), options, answer)), 2 + k + n + l)
  {
  }

  /**
   * After a "yes" and the question line, the dialogue completes exactly when
   * its three prompts do, each started where the previous one stopped.
   */
  lemma AddFlowStagesComplete(input: seq<string>, parse: Parser)
    requires 2 <= |input| && WantsToAdd(input[0])
    ensures var c := CountPrompt(input[2..], parse);
            AddFlow(input, parse).Done? <==>
              && c.Done?
              && 2 + c.used + c.value <= |input|
              && AnswerPrompt(input[2 + c.used + c.value..], c.value).Done?
  {
    if CountPrompt(input[2..], parse).Exhausted? {
      AddFlowNoCount(input, parse);
    } else {
      var n: nat, k := CountPrompt(input[2..], parse).value, CountPrompt(input[2..], parse).used;
      if OptionsPrompt(input[2 + k..], n).Exhausted? {
        AddFlowNoOptions(input, parse, n, k);
      } else if AnswerPrompt(input[2 + k + n..], n).Exhausted? {
        AddFlowNoAnswer(input, parse, n, k, OptionsPrompt(input[2 + k..], n).value);
      } else {
        AddFlowAdds(input, parse, n, k, OptionsPrompt(input[2 + k..], n).value,
                    AnswerPrompt(input[2 + k + n..], n).value, AnswerPrompt(input[2 + k + n..], n).used);
      }
    }
  }

  /** A completed dialogue's record is made of the question line and what the three prompts read. */
  lemma AddFlowStagesRecord(input: seq<string>, parse: Parser)
    requires 2 <= |input| && WantsToAdd(input[0])
    ensures var r := AddFlow(input, parse);
            var c := CountPrompt(input[2..], parse);
            r.Done? ==>
              && c.Done?
              && 2 + c.used + c.value <= |input|
              && var a := AnswerPrompt(input[2 + c.used + c.value..], c.value);
                 r == Done(Added(Question(Strip(input[1]), OptionsPrompt(input[2 + c.used..], c.value).value, a.value)),
                           2 + c.used + c.value + a.used)
  {
    AddFlowStagesComplete(input, parse);
    if AddFlow(input, parse).Done? {
      var n: nat, k := CountPrompt(input[2..], parse).value, CountPrompt(input[2..], parse).used;
      AddFlowAdds(input, parse, n, k, OptionsPrompt(input[2 + k..], n).value,
                  AnswerPrompt(input[2 + k + n..], n).value, AnswerPrompt(input[2 + k + n..], n).used);
    }
  }

  /**
   * After a "yes", the dialogue completes exactly when a question line
   * follows, the option-count prompt ends at some line, the n option lines
   * follow it, and a later line names one of the n letters.
   */
  lemma AddFlowCompletes(input: seq<string>, parse: Parser)
    requires input != [] && WantsToAdd(input[0])
    ensures AddFlow(input, parse).Done? <==>
              && 2 <= |input|
              && var c := CountPrompt(input[2..], parse);
                 && c.Done?
                 && 2 + c.used + c.value <= |input|
                 && SomeLineNamesOption(input, 2 + c.used + c.value, c.value)
  {
    if |input| < 2 {
      assert !AddFlow(input, parse).Done?;
    } else {
      AddFlowCompletesAfterQuestion(input, parse);
    }
  }

  /** AddFlowCompletes once the question line has been typed. */
  lemma AddFlowCompletesAfterQuestion(input: seq<string>, parse: Parser)
    requires 2 <= |input| && WantsToAdd(input[0])
    ensures var c := CountPrompt(input[2..], parse);
            AddFlow(input, parse).Done? <==>
              && c.Done?
              && 2 + c.used + c.value <= |input|
              && SomeLineNamesOption(input, 2 + c.used + c.value, c.value)
  {
    AddFlowStagesComplete(input, parse);
    if CountPrompt(input[2..], parse).Done? {
      var base := 2 + CountPrompt(input[2..], parse).used + CountPrompt(input[2..], parse).value;
      if base <= |input| {
        AnswerPromptCompletesFrom(input, base, CountPrompt(input[2..], parse).value);
      } else {
        assert !AddFlow(input, parse).Done?;
      }
    } else {
      assert !AddFlow(input, parse).Done?;
    }
  }

  /**
   * The options of the record a completed dialogue adds: as many as the
   * option count, and option i is line i after the count, trimmed and
   * labelled with letter i.
   */
  lemma AddFlowRecordOptions(input: seq<string>, parse: Parser)
    requires 2 <= |input| && WantsToAdd(input[0])
    ensures var r := AddFlow(input, parse);
            var c := CountPrompt(input[2..], parse);
            r.Done? ==>
              && r.value.Added?
              && c.Done?
              && var q := r.value.question;
                 && c == Done(|q.options|, c.used)
                 && forall i :: 0 <= i < c.value ==> q.options[i] == OptionLabel(i, Strip(input[2 + c.used + i]))
  {
    AddFlowStagesRecord(input, parse);
    if AddFlow(input, parse).Done? {
      OptionsFrom(input, 2 + CountPrompt(input[2..], parse).used, CountPrompt(input[2..], parse).value);
    }
  }

  /**
   * The answer of the record a completed dialogue adds: the letter of the
   * first line after the options that names one of them, which is the last
   * line the dialogue reads.
   */
  lemma AddFlowRecordAnswer(input: seq<string>, parse: Parser)
    requires 2 <= |input| && WantsToAdd(input[0])
    ensures var r := AddFlow(input, parse);
            var c := CountPrompt(input[2..], parse);
            r.Done? ==>
              && r.value.Added?
              && c.Done?
              && var q := r.value.question;
                 var start := 2 + c.used + c.value;
                 && start < r.used
                 && q.answer in ValidAnswers(c.value)
                 && q.answer == TypedAnswer(input[r.used - 1])
                 && forall j {:trigger NamesOption(input[j], c.value)} :: start <= j < r.used - 1 ==> !NamesOption(input[j], c.value)
  {
    AddFlowStagesRecord(input, parse);
    if AddFlow(input, parse).Done? {
      var n: nat := CountPrompt(input[2..], parse).value;
      var base := 2 + CountPrompt(input[2..], parse).used + n;
      AnswerPromptFrom(input, base, n);
      var last := base + AnswerPrompt(input[base..], n).used - 1;
      assert AddFlow(input, parse).used - 1 == last;
      assert AddFlow(input, parse).value.question.answer == AnswerPrompt(input[base..], n).value;
    }
  }

  /**
   * The record a completed dialogue adds holds the n option lines that
   * follow the option count, trimmed and labelled A) onwards, and the letter
   * of the first line after them that names one of the n options, which is
   * the last line read.
   */
  lemma AddFlowBuildsTheRecord(input: seq<string>, parse: Parser)
    ensures var r := AddFlow(input, parse);
            r.Done? && r.value.Added? ==>
              && CountPrompt(input[2..], parse).Done?
              && var c := CountPrompt(input[2..], parse);
                 var q := r.value.question;
                 var k := c.used;
                 var n := c.value;
                 && c == Done(|q.options|, k)
                 && (forall i :: 0 <= i < n ==> q.options[i] == OptionLabel(i, Strip(input[2 + k + i])))
                 && 2 + k + n < r.used
                 && q.answer in ValidAnswers(n)
                 && q.answer == TypedAnswer(input[r.used - 1])
                 && forall j {:trigger NamesOption(input[j], n)} :: 2 + k + n <= j < r.used - 1 ==> !NamesOption(input[j], n)
  {
    if AddFlow(input, parse).Done? && AddFlow(input, parse).value.Added? {
      AddFlowRecordOptions(input, parse);
      AddFlowRecordAnswer(input, parse);
    }
  }

  /** Every record the dialogue adds is well formed: 2 to 4 options labelled by position, and an answer among their letters. */
  lemma AddedIsWellFormed(input: seq<string>, parse: Parser)
    ensures var r := AddFlow(input, parse);
            r.Done? && r.value.Added? ==> WellFormed(r.value.question)
  {
    var r := AddFlow(input, parse);
    if r.Done? && r.value.Added? {
      AddFlowBuildsTheRecord(input, parse);
      var q := r.value.question;
      var k := CountPrompt(input[2..], parse).used;
      forall i | 0 <= i < |q.options|
        ensures Letter(i) + ") " <= q.options[i]
      {
        assert q.options[i] == Letter(i) + ") " + Strip(input[2 + k + i]);
      }
    }
  }

  /** The add prompt accepts "yes" and "y" in any letter case, with any whitespace around them. */
  lemma WantsToAddIgnoresCaseAndSpace(line: string)
    ensures WantsToAdd(line) <==> SameIgnoringCase(Strip(line), "yes") || SameIgnoringCase(Strip(line), "y")
  {
    LowerMatches(Strip(line), "yes");
    LowerMatches(Strip(line), "y");
  }

  /** Reading line i of the option-count prompt: it ends the prompt, or the prompt goes on from line i + 1. */
  lemma CountPromptStep(input: seq<string>, parse: Parser, i: nat)
    requires i < |input|
    ensures Shift(CountPrompt(input[i..], parse), i) ==
            if AcceptsCount(parse, input[i]) then Done(CountOf(parse, input[i]).value, i + 1)
            else Shift(CountPrompt(input[i + 1..], parse), i + 1)
  {
    assert input[i..][1..] == input[i + 1..];
    assert input[i..][0] == input[i];
  }

  /** The option-count loop of view_and_add_questions. */
  method ReadOptionCount(input: seq<string>, parse: Parser) returns (r: Read<int>)
    ensures r == CountPrompt(input, parse)
  {
    var numOptions := 0;
    var i := 0;
    while !ValidCount(numOptions)
      invariant 0 <= i <= |input|
      invariant CountPrompt(input, parse) ==
                if ValidCount(numOptions) then Done(numOptions, i)
                else Shift(CountPrompt(input[i..], parse), i)
      decreases |input| - i
    {
      if i == |input| {
        return Exhausted;
      }
      CountPromptStep(input, parse, i);
      var parsed := CountOf(parse, input[i]);
      if parsed.Some? {
        numOptions := parsed.value;
      }
      i := i + 1;
    }
    return Done(numOptions, i);
  }

  /** The loop of view_and_add_questions that reads and labels the options. */
  method ReadOptions(input: seq<string>, n: nat) returns (r: Read<seq<string>>)
    requires n <= 26
    ensures r == OptionsPrompt(input, n)
  {
    var options := [];
    for i := 0 to n
      invariant i <= |input|
      invariant |options| == i
      invariant forall j :: 0 <= j < i ==> options[j] == OptionLabel(j, Strip(input[j]))
    {
      if i == |input| {
        return Exhausted;
      }
      var option := Strip(input[i]);
      options := options + [OptionLabel(i, option)];
    }
    assert options == seq(n, i requires 0 <= i < n => OptionLabel(i, Strip(input[i])));
    return Done(options, n);
  }

  /** The correct-answer loop of view_and_add_questions. */
  method ReadCorrectAnswer(input: seq<string>, n: nat) returns (r: Read<string>)
    requires n <= 26
    ensures r == AnswerPrompt(input, n)
  {
    var validAnswers := ValidAnswers(n);
    var correctAnswer := "";
    ValidAnswersAreFirstLetters(n, correctAnswer);
    var i := 0;
    while correctAnswer !in validAnswers
      invariant 0 <= i <= |input|
      invariant AnswerPrompt(input, n) ==
                if correctAnswer in validAnswers then Done(correctAnswer, i)
                else Shift(AnswerPrompt(input[i..], n), i)
      decreases |input| - i
    {
      if i == |input| {
        return Exhausted;
      }
      assert input[i..][1..] == input[i + 1..];
      correctAnswer := TypedAnswer(input[i]);
      i := i + 1;
    }
    return Done(correctAnswer, i);
  }

  /**
   * view_and_add_questions after its display loop: on a "yes" it reads a new
   * record, appends it to the shared list and saves the whole list; otherwise
   * neither the list nor the file changes.
   */
  method ViewAndAddQuestions(questions: QuestionList, file: QuestionFile, input: seq<string>, parse: Parser)
    returns (r: Read<EditOutcome>)
    modifies questions, file
    ensures r == AddFlow(input, parse)
    ensures questions.items == if r.Done? then Applied(old(questions.items), r.value) else old(questions.items)
    ensures file.state == if r.Done? && r.value.Added? then Stored(questions.items) else old(file.state)
  {
    if input == [] {
      return Exhausted;
    }
    var addNew := Lower(Strip(input[0]));
    if addNew !in ["yes", "y"] {
      return Done(Declined, 1);
    }
    if |input| < 2 {
      return Exhausted;
    }
    var questionText := Strip(input[1]);
    var count := ReadOptionCount(input[2..], parse);
    if count.Exhausted? {
      AddFlowNoCount(input, parse);
      return Exhausted;
    }
    var numOptions, k := count.value, count.used;
    var options := ReadOptions(input[2 + k..], numOptions);
    if options.Exhausted? {
      AddFlowNoOptions(input, parse, numOptions, k);
      return Exhausted;
    }
    var m := options.used;
    var answer := ReadCorrectAnswer(input[2 + k + m..], numOptions);
    if answer.Exhausted? {
      AddFlowNoAnswer(input, parse, numOptions, k, options.value);
      return Exhausted;
    }
    var newQuestion := Question(questionText, options.value, answer.value);
    AddFlowAdds(input, parse, numOptions, k, options.value, answer.value, answer.used);
    questions.items := questions.items + [newQuestion];
    file.Save(questions.items);
    r := Done(Added(newQuestion), 2 + k + m + answer.used);
  }
}
