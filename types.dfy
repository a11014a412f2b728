/**
 The records of the game: who said what, the static suspect roster, the
 (never populated) evidence list and the session state the page holds.
 Also the Option and Result wrappers the other modules use for JavaScript's
 `undefined` and for a thrown error.
 */
module Types {

  datatype Option<+T> = None | Some(value: T)

  datatype Result<+T, +E> = Ok(value: T) | Err(error: E)

  /** Who authored a message: the Dungeon Master, the detective or the page itself. */
  datatype Role = DM | Player | System

  /**
   One entry of the chat log. `image` is a data URI when present;
   `timestamp` is a clock reading that no operation inspects.
   */
  datatype Message = Message(role: Role, content: string, image: Option<string>, timestamp: int)

  datatype Suspect = Suspect(id: string, name: string, role: string, description: string, image: string)

  datatype Evidence = Evidence(id: string, description: string, imageUrl: Option<string>)

  /** The state object the page replaces wholesale on every update. */
  datatype GameState = GameState(
    messages: seq<Message>,
    suspects: seq<Suspect>,
    evidence: seq<Evidence>,
    isThinking: bool,
    gameStarted: bool)
}
