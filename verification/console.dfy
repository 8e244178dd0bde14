/**
 * The console as the model sees it. Every prompt of the game reads one line
 * typed by the user; the model receives those lines up front, as a sequence
 * consumed from left to right, and every step that reads reports how many
 * lines it consumed.
 */
module Console {

  datatype Option<+T> = None | Some(value: T)

  /**
   * What a step that reads console lines produced: its value and the number
   * of lines it consumed, or Exhausted when the lines ran out before the step
   * was over (in the game, input() raises EOFError and the program stops).
   */
  datatype Read<+T> = Done(value: T, used: nat) | Exhausted

  /** The same outcome, seen by a caller that had already consumed `skipped` lines. */
  function Shift<T>(r: Read<T>, skipped: nat): Read<T>
  {
    match r
    case Done(v, k) => Done(v, k + skipped)
    case Exhausted => Exhausted
  }
}
