/**
 * The question record and the rules that tie its answer to its options.
 */
module Questions {
  import opened Text

  /** One record of the question list: {"question": text, "options": options, "answer": answer}. */
  datatype Question = Question(text: string, options: seq<string>, answer: string)

  /** The option counts the editor accepts. */
  predicate ValidCount(n: int)
  {
    n == 2 || n == 3 || n == 4
  }

  /** chr(65 + i): the capital letter of option i. */
  function Letter(i: nat): (l: string)
    requires i < 26
    ensures |l| == 1 && IsUpperLetter(l[0])
  {
    [(65 + i) as char]
  }

  /** The stored form of option i: "<Letter>) <text>". */
  function OptionLabel(i: nat, text: string): string
    requires i < 26
  {
    Letter(i) + ") " + text
  }

  /** The answers the editor accepts for n options: the letters of those options, in order. */
  function ValidAnswers(n: nat): seq<string>
    requires n <= 26
  {
    seq(n, i requires 0 <= i < n => Letter(i))
  }

  /** The valid answers are exactly the first n capital letters. */
  lemma ValidAnswersAreFirstLetters(n: nat, x: string)
    requires n <= 26
    ensures x in ValidAnswers(n) <==> |x| == 1 && 65 <= x[0] as int < 65 + n
  {
    if x in ValidAnswers(n) {
      var i :| 0 <= i < n && ValidAnswers(n)[i] == x;
    }
    if |x| == 1 && 65 <= x[0] as int < 65 + n {
      var i := x[0] as int - 65;
      assert ValidAnswers(n)[i] == x;
    }
  }

  /** A typed answer as the game compares it: trimmed, then upper-cased. */
  function TypedAnswer(line: string): string
  {
    Upper(Strip(line))
  }

  /**
   * A record as the editor builds it: 2 to 4 options, option i labelled with
   * letter i, and an answer that is the letter of one of the options.
   */
  predicate WellFormed(q: Question)
  {
    && ValidCount(|q.options|)
    && (forall i :: 0 <= i < |q.options| ==> Letter(i) + ") " <= q.options[i])
    && q.answer in ValidAnswers(|q.options|)
  }

  /** The answer of a well-formed record is the label at the front of one of its own options. */
  lemma AnswerLabelsAnOption(q: Question)
    requires WellFormed(q)
    ensures exists i :: 0 <= i < |q.options| && q.answer + ") " <= q.options[i]
  {
    var i :| 0 <= i < |q.options| && ValidAnswers(|q.options|)[i] == q.answer;
    assert q.answer + ") " == Letter(i) + ") ";
  }

  /**
   * The game's in-memory question list: one object, loaded at start and
   * appended to in place by the editor.
   */
  class QuestionList {
    var items: seq<Question>

    constructor (loaded: seq<Question>)
      ensures items == loaded
    {
      items := loaded;
    }
  }
}
