/**
 * The boundary to the completion provider that every mode calls: the request a handler
 * builds (`POST /openai/v1/chat/completions` with a bearer credential, a model name, a
 * role-tagged message list and an optional temperature), the response it gets back, and the
 * one way all four modes classify that response.
 */
module Completion {
  import opened Wrappers

  /** The model every request names. */
  const MODEL := "llama-3.3-70b-versatile"

  /** The message raised when a non-ok response carries no usable error message. */
  const GENERIC_ERROR := "Groq API error"

  datatype Role = System | User | Assistant

  datatype ChatMessage = ChatMessage(role: Role, content: string)

  /** The request body, plus the credential sent in the `Authorization: Bearer` header. */
  datatype Request = Request(
    apiKey: string,
    model: string,
    messages: seq<ChatMessage>,
    temperature: Option<real>)

  /** What `fetch` and `response.json()` deliver: either a reply, with the HTTP `ok` flag, the
      body's `error.message` if any and the `message.content` of each entry of `choices`,
      or a transport failure (the promise rejects). */
  datatype Response =
    | Reply(ok: bool, errorMessage: Option<string>, choices: seq<string>)
    | NetworkFailure

  /** Why a request produced no text. */
  datatype Failure =
    | ProviderError(message: string)   // `!response.ok`: thrown explicitly
    | MissingChoice                    // ok, but `data.choices[0]` is undefined
    | TransportError                   // `fetch` rejected

  datatype Outcome = Completed(text: string) | Failed(failure: Failure)

  /** The message of the error thrown on `!response.ok`: `data.error?.message || 'Groq API error'`
      (an absent or empty message is falsy and falls back to the generic one). */
  function ProviderMessage(errorMessage: Option<string>): (m: string)
    ensures m != ""
    ensures errorMessage.Some? && errorMessage.value != "" ==> m == errorMessage.value
    ensures errorMessage.None? || errorMessage.value == "" ==> m == GENERIC_ERROR
  {
    match errorMessage
    case Some(msg) => if msg != "" then msg else GENERIC_ERROR
    case None => GENERIC_ERROR
  }

  /** The classification every handler applies: a non-ok reply fails with the provider's
      message, an ok reply yields the content of its first choice, an ok reply with no
      choice throws on `choices[0].message` and fails, and a rejected fetch fails. */
  function Classify(response: Response): (o: Outcome)
    ensures o.Completed? <==> response.Reply? && response.ok && |response.choices| > 0
    ensures o.Completed? ==> o.text == response.choices[0]
    ensures response.Reply? && !response.ok ==>
              o == Failed(ProviderError(ProviderMessage(response.errorMessage)))
  {
    match response
    case NetworkFailure => Failed(TransportError)
    case Reply(ok, errorMessage, choices) =>
      if !ok then Failed(ProviderError(ProviderMessage(errorMessage)))
      else if |choices| == 0 then Failed(MissingChoice)
      else Completed(choices[0])
  }
}
