/**
 * quiz_game_with_menu: the question list is loaded once, then a loop reads
 * a menu choice per round and dispatches on it until the user picks "3".
 */
module Menu {
  import opened Console
  import opened Text
  import opened Questions
  import opened Store
  import opened Quiz
  import opened Editor

  /** What one round of the menu did. */
  datatype MenuEvent =
    | Played(report: QuizReport)
    | Edited(outcome: EditOutcome)
    | Invalid(choice: string)
    | Farewell

  /**
   * A whole run of the menu: the rounds in order, the list at the end, and
   * whether the user chose to exit (false: the typed lines ran out first).
   */
  datatype Session = Session(events: seq<MenuEvent>, questions: seq<Question>, exited: bool)

  function Then(e: MenuEvent, s: Session): Session
  {
    s.(events := [e] + s.events)
  }

  function Continue(events: seq<MenuEvent>, s: Session): Session
  {
    s.(events := events + s.events)
  }

  /** The records the rounds appended, in order. */
  function AddedBy(events: seq<MenuEvent>): seq<Question>
  {
    if events == [] then []
    else
      (match events[0]
       case Edited(Added(q)) => [q]
       case _ => [])
      + AddedBy(events[1..])
  }

  /** What one pass of the menu loop does: stop (exit, or the lines ran out) or one round. */
  datatype Round = Stop(exited: bool) | Step(event: MenuEvent, next: seq<Question>, used: nat)

  /**
   * One pass of the menu loop: read a choice (display_menu trims it) and
   * dispatch on it. A round consumes at least the choice line; only "3"
   * exits; "1" plays and leaves the list as it is; "2" may append one well
   * formed record; any other choice is rejected.
   */
  function MenuRound(questions: seq<Question>, input: seq<string>, parse: Parser): (r: Round)
    ensures r.Step? ==> 1 <= r.used <= |input| && !r.event.Farewell?
    ensures r.Stop? && r.exited ==> input != [] && Strip(input[0]) == "3"
    ensures r.Step? && r.event.Invalid? ==>
              r.event.choice != "1" && r.event.choice != "2" && r.event.choice != "3"
    ensures r.Step? ==> r.next == questions + AddedBy([r.event])
  {
    if input == [] then Stop(false)
    else
      var choice := Strip(input[0]);
      var rest := input[1..];
      if choice == "1" then
        match PlayResult(questions, rest)
        case Exhausted => Stop(false)
        case Done(report, k) => Step(Played(report), questions, 1 + k)
      else if choice == "2" then
        match AddFlow(rest, parse)
        case Exhausted => Stop(false)
        case Done(outcome, k) => Step(Edited(outcome), Applied(questions, outcome), 1 + k)
      else if choice == "3" then Stop(true)
      else Step(Invalid(choice), questions, 1)
  }

  /** A round adds only well-formed records: the editor's validation holds of everything it appends. */
  lemma RoundAddsWellFormed(questions: seq<Question>, input: seq<string>, parse: Parser)
    ensures var r := MenuRound(questions, input, parse);
            r.Step? ==> forall q :: q in AddedBy([r.event]) ==> WellFormed(q)
  {
    if input != [] {
      AddedIsWellFormed(input[1..], parse);
    }
  }

  /** The menu loop over the given list and typed lines, round after round. */
  function MenuSession(questions: seq<Question>, input: seq<string>, parse: Parser): Session
    decreases |input|
  {
    match MenuRound(questions, input, parse)
    case Stop(exited) => Session(if exited then [Farewell] else [], questions, exited)
    case Step(e, next, k) => Then(e, MenuSession(next, input[k..], parse))
  }

  lemma {:induction false} AddedByAppend(events: seq<MenuEvent>, e: MenuEvent)
    ensures AddedBy(events + [e]) == AddedBy(events) + AddedBy([e])
  {
    if events != [] {
      assert (events + [e])[0] == events[0];
      assert (events + [e])[1..] == events[1..] + [e];
      AddedByAppend(events[1..], e);
    } else {
      assert events + [e] == [e];
    }
  }

  lemma AddedByPrepend(e: MenuEvent, events: seq<MenuEvent>)
    ensures AddedBy([e] + events) == AddedBy([e]) + AddedBy(events)
  {
    assert ([e] + events)[1..] == events;
    assert ([e] + events)[0] == e;
  }

  /**
   * A session exits exactly when its last event is the farewell, no earlier
   * event is a farewell, and no rejected choice is "1", "2" or "3".
   */
  predicate FarewellOnlyAtExit(s: Session)
  {
    && (s.exited <==> (s.events != [] && s.events[|s.events| - 1] == Farewell))
    && (forall i :: 0 <= i < |s.events| - 1 ==> s.events[i] != Farewell)
    && (forall i :: 0 <= i < |s.events| && s.events[i].Invalid? ==>
          s.events[i].choice != "1" && s.events[i].choice != "2" && s.events[i].choice != "3")
  }

  /** The menu says farewell only as its last round and only when it exits. */
  lemma {:induction false} FarewellIsLast(questions: seq<Question>, input: seq<string>, parse: Parser)
    ensures FarewellOnlyAtExit(MenuSession(questions, input, parse))
    decreases |input|
  {
    match MenuRound(questions, input, parse)
    case Stop(_) =>
    case Step(e, next, k) =>
      FarewellIsLast(next, input[k..], parse);
      ThenKeepsFarewellLast(e, MenuSession(next, input[k..], parse));
  }

  /** A round that is neither a farewell nor a rejected "1", "2" or "3" keeps the property in front of a session. */
  lemma ThenKeepsFarewellLast(e: MenuEvent, t: Session)
    requires !e.Farewell?
    requires e.Invalid? ==> e.choice != "1" && e.choice != "2" && e.choice != "3"
    requires FarewellOnlyAtExit(t)
    ensures FarewellOnlyAtExit(Then(e, t))
  {
    var s := Then(e, t);
    assert s.events == [e] + t.events;
    assert |s.events| == 1 + |t.events|;
    assert forall i :: 1 <= i < |s.events| ==> s.events[i] == t.events[i - 1];
    if t.events != [] {
      assert s.events[|s.events| - 1] == t.events[|t.events| - 1];
    }
  }

  /**
   * Where the last round of a session starts: the position of the choice
   * line it reads, after every line the earlier rounds consumed.
   */
  function LastRoundStart(questions: seq<Question>, input: seq<string>, parse: Parser): (m: nat)
    ensures m <= |input|
    decreases |input|
  {
    match MenuRound(questions, input, parse)
    case Stop(_) => 0
    case Step(e, next, k) => k + LastRoundStart(next, input[k..], parse)
  }

  /** The last round of a session starts at LastRoundStart, with the final list, and stops there. */
  lemma {:induction false} LastRoundStops(questions: seq<Question>, input: seq<string>, parse: Parser)
    ensures var s := MenuSession(questions, input, parse);
            var m := LastRoundStart(questions, input, parse);
            MenuRound(s.questions, input[m..], parse) == Stop(s.exited)
    decreases |input|
  {
    var r := MenuRound(questions, input, parse);
    if r.Stop? {
      assert input[0..] == input;
    } else {
      var rest := input[r.used..];
      SessionStep(questions, input, parse);
      LastRoundStops(r.next, rest, parse);
      var m' := LastRoundStart(r.next, rest, parse);
      assert rest[m'..] == input[r.used + m'..];
    }
  }

  /** After a round that does not stop, the session and its last round's start continue from what the round left. */
  lemma SessionStep(questions: seq<Question>, input: seq<string>, parse: Parser)
    ensures var r := MenuRound(questions, input, parse);
            r.Step? ==>
              && MenuSession(questions, input, parse) == Then(r.event, MenuSession(r.next, input[r.used..], parse))
              && LastRoundStart(questions, input, parse) == r.used + LastRoundStart(r.next, input[r.used..], parse)
  {
  }

  /**
   * How a session ends. An exit is the last round's choice line trimming to
   * "3"; any other end is the lines running out, either before a choice or
   * inside the quiz or the editor that choice "1" or "2" began.
   */
  lemma ExitNeedsThree(questions: seq<Question>, input: seq<string>, parse: Parser)
    ensures var s := MenuSession(questions, input, parse);
            var m := LastRoundStart(questions, input, parse);
            s.exited ==> m < |input| && Strip(input[m]) == "3"
    ensures var s := MenuSession(questions, input, parse);
            var m := LastRoundStart(questions, input, parse);
            !s.exited ==>
              || m == |input|
              || (Strip(input[m]) == "1" && PlayResult(s.questions, input[m + 1..]).Exhausted?)
              || (Strip(input[m]) == "2" && AddFlow(input[m + 1..], parse).Exhausted?)
  {
    var s := MenuSession(questions, input, parse);
    var m := LastRoundStart(questions, input, parse);
    LastRoundStops(questions, input, parse);
    ChoiceDecidesRound(s.questions, input[m..], parse);
    if m < |input| {
      assert input[m..][0] == input[m];
      assert input[m..][1..] == input[m + 1..];
    }
  }

  /**
   * The list only grows at its end: the final list is the loaded one
   * followed by the records the rounds added, in order.
   */
  lemma {:induction false} AppendOnly(questions: seq<Question>, input: seq<string>, parse: Parser)
    ensures var s := MenuSession(questions, input, parse);
            s.questions == questions + AddedBy(s.events)
    decreases |input|
  {
    match MenuRound(questions, input, parse)
    case Stop(exited) =>
      assert AddedBy(MenuSession(questions, input, parse).events) == [];
      assert questions + [] == questions;
    case Step(e, next, k) =>
      AppendOnly(next, input[k..], parse);
      var t := MenuSession(next, input[k..], parse);
      assert MenuSession(questions, input, parse) == Then(e, t);
      RoundAppends(questions, e, next, t);
  }

  lemma RoundAppends(questions: seq<Question>, e: MenuEvent, next: seq<Question>, t: Session)
    requires next == questions + AddedBy([e])
    requires t.questions == next + AddedBy(t.events)
    ensures Then(e, t).questions == questions + AddedBy(Then(e, t).events)
  {
    assert Then(e, t).events == [e] + t.events;
    AddedByPrepend(e, t.events);
    assert (questions + AddedBy([e])) + AddedBy(t.events) == questions + (AddedBy([e]) + AddedBy(t.events));
  }

  /** Every record a menu session adds is well formed. */
  lemma {:induction false} AddedWellFormed(questions: seq<Question>, input: seq<string>, parse: Parser)
    ensures forall q :: q in AddedBy(MenuSession(questions, input, parse).events) ==> WellFormed(q)
    decreases |input|
  {
    match MenuRound(questions, input, parse)
    case Stop(exited) =>
      assert AddedBy(MenuSession(questions, input, parse).events) == [];
    case Step(e, next, k) =>
      AddedWellFormed(next, input[k..], parse);
      RoundAddsWellFormed(questions, input, parse);
      var t := MenuSession(next, input[k..], parse);
      assert MenuSession(questions, input, parse) == Then(e, t);
      AddedByPrepend(e, t.events);
  }

  /**
   * What the trimmed choice decides. "1" plays the quiz on the current list
   * and goes back to the loop with the list unchanged, unless the lines run
   * out during the quiz; "2" runs the editor and goes back to the loop with
   * the edited list, unless the lines run out during the dialogue; a choice
   * is rejected exactly when it is none of "1", "2" and "3", and rejecting it
   * reads only the choice line and keeps the list; and the loop
   * stops without an exit only on an empty input or on lines running out.
   */
  lemma ChoiceDecidesRound(questions: seq<Question>, input: seq<string>, parse: Parser)
    ensures var r := MenuRound(questions, input, parse);
            input != [] && Strip(input[0]) == "1" ==>
              var p := PlayResult(questions, input[1..]);
              && (r.Step? <==> p.Done?)
              && (r.Step? ==> r.event == Played(p.value) && r.next == questions && r.used == 1 + p.used)
    ensures var r := MenuRound(questions, input, parse);
            input != [] && Strip(input[0]) == "2" ==>
              var a := AddFlow(input[1..], parse);
              && (r.Step? <==> a.Done?)
              && (r.Step? ==> r.event == Edited(a.value) && r.next == Applied(questions, a.value) && r.used == 1 + a.used)
    ensures var r := MenuRound(questions, input, parse);
            (r.Step? && r.event.Invalid?) <==> (input != [] && Strip(input[0]) !in ["1", "2", "3"])
    ensures input != [] && Strip(input[0]) !in ["1", "2", "3"] ==>
              MenuRound(questions, input, parse) == Step(Invalid(Strip(input[0])), questions, 1)
    ensures var r := MenuRound(questions, input, parse);
            r.Stop? && !r.exited ==>
              || input == []
              || (Strip(input[0]) == "1" && PlayResult(questions, input[1..]).Exhausted?)
              || (Strip(input[0]) == "2" && AddFlow(input[1..], parse).Exhausted?)
  {
  }

  /** Choice "3" says farewell and ends the loop, whatever lines follow. */
  lemma DispatchExit(questions: seq<Question>, input: seq<string>, parse: Parser)
    requires input != [] && Strip(input[0]) == "3"
    ensures MenuSession(questions, input, parse) == Session([Farewell], questions, true)
  {
  }

  lemma ContinueNothing(s: Session)
    ensures Continue([], s) == s
  {
    assert [] + s.events == s.events;
  }

  /**
   * One round of the menu loop keeps the account: the whole session equals
   * the events so far followed by the session still to come.
   */
  lemma RoundKeepsAccount(whole: Session, events: seq<MenuEvent>, current: seq<Question>, rest: seq<string>,
                          parse: Parser, e: MenuEvent, next: seq<Question>, k: nat)
    requires whole == Continue(events, MenuSession(current, rest, parse))
    requires MenuRound(current, rest, parse) == Step(e, next, k)
    ensures whole == Continue(events + [e], MenuSession(next, rest[k..], parse))
  {
    var t := MenuSession(next, rest[k..], parse);
    assert MenuSession(current, rest, parse) == Then(e, t);
    assert (events + [e]) + t.events == events + ([e] + t.events);
  }

  /** A pass that stops closes the account: the whole session is the rounds so far, plus the farewell on exit. */
  lemma RoundEndsSession(whole: Session, events: seq<MenuEvent>, current: seq<Question>, rest: seq<string>,
                         parse: Parser, exited: bool)
    requires whole == Continue(events, MenuSession(current, rest, parse))
    requires MenuRound(current, rest, parse) == Stop(exited)
    ensures whole == Session(events + (if exited then [Farewell] else []), current, exited)
    ensures AddedBy(events + (if exited then [Farewell] else [])) == AddedBy(events)
  {
    AddedByAppend(events, Farewell);
    assert AddedBy([Farewell]) == [];
    assert events + [] == events;
  }

  /**
   * One pass of the loop of quiz_game_with_menu: read a choice and dispatch
   * on it. Only choice "2" can change the shared list and the file.
   */
  method MenuPass(questions: QuestionList, file: QuestionFile, input: seq<string>, parse: Parser) returns (round: Round)
    modifies questions, file
    ensures round == MenuRound(old(questions.items), input, parse)
    ensures questions.items == if round.Step? then round.next else old(questions.items)
    ensures file.state == if round.Step? && AddedBy([round.event]) != [] then Stored(questions.items) else old(file.state)
  {
    if input == [] {
      return Stop(false);
    }
    var choice := Strip(input[0]);
    var rest := input[1..];
    if choice == "1" {
      var r := PlayQuiz(questions.items, rest);
      round := if r.Exhausted? then Stop(false) else Step(Played(r.value), questions.items, 1 + r.used);
    } else if choice == "2" {
      var r := ViewAndAddQuestions(questions, file, rest, parse);
      round := if r.Exhausted? then Stop(false) else Step(Edited(r.value), questions.items, 1 + r.used);
    } else if choice == "3" {
      round := Stop(true);
    } else {
      round := Step(Invalid(choice), questions.items, 1);
    }
  }

  /**
   * quiz_game_with_menu: load the file (a malformed one ends the program),
   * then run the menu on one shared list. The file is written only when a
   * record was added, and then holds the final list.
   */
  method QuizGameWithMenu(file: QuestionFile, input: seq<string>, parse: Parser) returns (s: Option<Session>)
    modifies file
    ensures old(file.state).Malformed? <==> s.None?
    ensures s.None? ==> file.state == old(file.state)
    ensures s.Some? ==> Loaded(old(file.state)).Some?
    ensures s.Some? ==> s.value == MenuSession(Loaded(old(file.state)).value, input, parse)
    ensures s.Some? ==>
              file.state == if AddedBy(s.value.events) == [] then old(file.state) else Stored(s.value.questions)
  {
    var loaded := file.Load();
    if loaded.None? {
      return None;
    }
    var questions := new QuestionList(loaded.value);
    ghost var start := questions.items;
    var events: seq<MenuEvent> := [];
    var rest := input;
    ContinueNothing(MenuSession(start, input, parse));
    while true
      invariant MenuSession(start, input, parse) == Continue(events, MenuSession(questions.items, rest, parse))
      invariant file.state == if AddedBy(events) == [] then old(file.state) else Stored(questions.items)
      decreases |rest|
    {
      ghost var before := questions.items;
      var round := MenuPass(questions, file, rest, parse);
      match round
      case Stop(exited) =>
        RoundEndsSession(MenuSession(start, input, parse), events, before, rest, parse, exited);
        if exited {
          AddedByAppend(events, Farewell);
          events := events + [Farewell];
        }
        return Some(Session(events, questions.items, exited));
      case Step(e, next, k) =>
        RoundKeepsAccount(MenuSession(start, input, parse), events, before, rest, parse, e, next, k);
        AddedByAppend(events, e);
        events := events + [e];
        rest := rest[k..];
    }
  }
}
