/**
 * The records the two collections hold: documents of the document-question mode and
 * conversations (with their messages) of the chat mode. Identifiers and timestamps are
 * opaque strings supplied from outside; nothing assumes they are unique.
 */
module Records {
  import opened Wrappers
  import opened Completion

  datatype Document = Document(
    id: string,
    filename: string,
    content: string,
    summary: Option<string>,
    createdAt: string)

  /** A chat message; the chat mode only ever creates `User` and `Assistant` messages. */
  datatype Message = Message(id: string, role: Role, content: string)

  datatype Conversation = Conversation(id: string, title: string, messages: seq<Message>)
}
