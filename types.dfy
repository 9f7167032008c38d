/** The records shared by the chat client (types.ts): who wrote a message,
    the citations attached to an answer, and a message itself. */
module ChatTypes {

  datatype Option<+T> = None | Some(value: T) {
    function GetOr(default: T): T {
      match this
      case Some(v) => v
      case None => default
    }
  }

  datatype Author = User | AI

  /** The two ratings a reader can give an answer. */
  datatype Vote = Up | Down

  /** The `feedback` field of a message: `Unset` is the property being
      absent (`undefined`, as on user messages), `Cleared` is `null`,
      `Rated(v)` is `'up'` or `'down'`. */
  datatype Feedback = Unset | Cleared | Rated(vote: Vote)

  /** A grounding citation `{uri, title}`. */
  datatype Source = Source(uri: string, title: string)

  /** A conversation turn; `sources` is `None` when the property is absent. */
  datatype Message = Message(
    id: string,
    author: Author,
    content: string,
    sources: Option<seq<Source>>,
    feedback: Feedback)

  /** A document the user attached; its bytes are passed on untouched. */
  datatype File = File(name: string, data: seq<bv8>)

  /** The string form of an author, as used inside synthesized ids. */
  function AuthorTag(a: Author): (tag: string)
    ensures |tag| > 0
    ensures a == User <==> tag == "user"
  {
    match a
    case User => "user"
    case AI => "ai"
  }
}
