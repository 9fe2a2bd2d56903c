/** The loaded corpus rows that the core consumes. */
module Corpus {

  /**
   * One conversation as `load_data_context` appends it: the three cleaned turns
   * followed by the three raw turns.
   */
  datatype Conversation = Conversation(a: string, b: string, c: string,
                                       rawA: string, rawB: string, rawC: string)

  /** The three conversation turns, as the datasets address them. */
  datatype Turn = A | B | C

  function Cleaned(conv: Conversation, t: Turn): string
  {
    match t
    case A => conv.a
    case B => conv.b
    case C => conv.c
  }
}
