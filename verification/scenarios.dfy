/**
 * Whole runs of the game on concrete typed lines.
 */
module Scenarios {
  import opened Console
  import opened Text
  import opened Questions
  import opened Quiz
  import opened Editor
  import opened Menu

  /** The record {"question": "2+2?", "options": ["A) 3", "B) 4"], "answer": "B"}. */
  function TwoPlusTwo(): (q: Question)
    ensures WellFormed(q)
  {
    assert ValidAnswers(2)[1] == "B";
    Question("2+2?", ["A) 3", "B) 4"], "B")
  }

  /**
   * No file, choose "2", decline, choose "3": the game says farewell with an
   * empty list, and since nothing was added the file is never written.
   */
  lemma DeclineThenExit(parse: Parser)
    ensures MenuSession([], ["2", "no", "3"], parse) == Session([Edited(Declined), Farewell], [], true)
    ensures AddedBy(MenuSession([], ["2", "no", "3"], parse).events) == []
  {
    DeclineRound(parse);
    assert ["2", "no", "3"][2..] == ["3"];
    DispatchExit([], ["3"], parse);
    assert MenuSession([], ["2", "no", "3"], parse) == Then(Edited(Declined), Session([Farewell], [], true));
    assert AddedBy([Edited(Declined), Farewell]) == AddedBy([Farewell]) == [];
  }

  /** Choice "2" followed by "no" is one round that declines and reads two lines. */
  lemma DeclineRound(parse: Parser)
    ensures MenuRound([], ["2", "no", "3"], parse) == Step(Edited(Declined), [], 2)
  {
    assert Strip("2") == "2";
    assert Strip("no") == "no" && Lower("no") == "no";
    assert !WantsToAdd("no");
    assert ["2", "no", "3"][1..] == ["no", "3"];
    assert AddFlow(["no", "3"], parse) == Done(Declined, 1);
  }

  /** One stored question, answered "b": "Correct!" and a score of 1/1. */
  lemma AnswerLowerCaseB()
    ensures PlayResult([TwoPlusTwo()], ["b"]) == Done(Finished([Correct], 1, 1), 1)
  {
    assert Strip("b") == "b";
    assert TypedAnswer("b") == "B";
    assert ["b"][..1] == ["b"];
    assert Verdicts([TwoPlusTwo()], ["b"]) == [Correct];
    assert Score([TwoPlusTwo()], ["b"]) == Score([], []) + 1;
  }

  /** The same question answered "a": "Wrong! The correct answer was B." and a score of 0/1. */
  lemma AnswerLowerCaseA()
    ensures PlayResult([TwoPlusTwo()], ["a"]) == Done(Finished([Wrong("B")], 0, 1), 1)
  {
    assert Strip("a") == "a";
    assert TypedAnswer("a") == "A";
    assert ["a"][..1] == ["a"];
    assert Verdicts([TwoPlusTwo()], ["a"]) == [Wrong("B")];
    assert Score([TwoPlusTwo()], ["a"]) == Score([], []) + 0;
  }

  /** Options "x", "y" and "z" are stored as "A) x", "B) y" and "C) z"; the fourth line is left unread. */
  lemma ThreeOptions()
    ensures OptionsPrompt(["x", "y", "z", "c"], 3) == Done(["A) x", "B) y", "C) z"], 3)
  {
    var lines := ["x", "y", "z", "c"];
    assert Strip("x") == "x" && Strip("y") == "y" && Strip("z") == "z";
    assert OptionLabel(0, "x") == "A) x" && OptionLabel(1, "y") == "B) y" && OptionLabel(2, "z") == "C) z";
    assert seq(3, i requires 0 <= i < 3 => OptionLabel(i, Strip(lines[i]))) == ["A) x", "B) y", "C) z"];
  }

  /** With three options, "c" is accepted at once as answer "C". */
  lemma AnswerC()
    ensures AnswerPrompt(["c"], 3) == Done("C", 1)
  {
    assert Strip("c") == "c";
    assert TypedAnswer("c") == "C";
    assert ValidAnswers(3)[2] == "C";
  }

  /** "y" is a yes to the add prompt. */
  lemma AcceptY()
    ensures WantsToAdd("y")
  {
    assert Strip("y") == "y";
    assert Lower("y") == "y";
  }

  /**
   * Accept, type a question, choose three options, fill them and pick "c":
   * the record appended has options A) to C) and answer "C".
   */
  lemma AddThreeOptions(parse: Parser)
    requires parse("3") == Some(3)
    ensures AddFlow(["y", "Q", "3", "x", "y", "z", "c"], parse) ==
            Done(Added(Question("Q", ["A) x", "B) y", "C) z"], "C")), 7)
  {
    var input := ["y", "Q", "3", "x", "y", "z", "c"];
    AcceptY();
    assert Strip("Q") == "Q";
    var rest := input[2..];
    assert rest == ["3", "x", "y", "z", "c"];
    CountThree(parse);
    assert rest[1..] == ["x", "y", "z", "c"];
    ThreeOptions();
    assert rest[1..][3..] == ["c"];
    AnswerC();
  }

  /** "3" is accepted at once as the option count. */
  lemma CountThree(parse: Parser)
    requires parse("3") == Some(3)
    ensures CountPrompt(["3", "x", "y", "z", "c"], parse) == Done(3, 1)
  {
    assert Strip("3") == "3";
    assert AcceptsCount(parse, "3");
  }
}
