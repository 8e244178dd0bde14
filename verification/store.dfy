/**
 * The question file: load_questions and save_questions. The JSON text is
 * not modelled; the file holds either a list of records, nothing (the file
 * does not exist) or content that does not parse.
 */
module Store {
  import opened Console
  import opened Questions

  datatype FileState = Missing | Stored(questions: seq<Question>) | Malformed

  /** The questions a load yields; None when loading fails and ends the program. */
  function Loaded(state: FileState): Option<seq<Question>>
  {
    match state
    case Missing => Some([])
    case Stored(qs) => Some(qs)
    case Malformed => None
  }

  class QuestionFile {
    var state: FileState

    /** A missing file loads as an empty list; a malformed one makes loading fail. */
    method Load() returns (r: Option<seq<Question>>)
      ensures state.Missing? ==> r == Some([])
      ensures state.Stored? ==> r == Some(state.questions)
      ensures state.Malformed? <==> r.None?
    {
      match state
      case Missing => r := Some([]);
      case Stored(qs) => r := Some(qs);
      case Malformed => r := None;
    }

    /** Overwrites the whole file with the given list, so that a later Load yields it back. */
    method Save(questions: seq<Question>)
      modifies this
      ensures state == Stored(questions)
      ensures Loaded(state) == Some(questions)
    {
      state := Stored(questions);
    }
  }
}
