/**
 * The browser's `localStorage`, shared by every component: a map from item key to stored
 * value. The JSON text that `JSON.stringify` writes for a collection is represented by the
 * collection itself (`DocumentList`, `ConversationList`); a credential is stored as raw text.
 */
module Storage {
  import opened Wrappers
  import opened Records

  /** The three item keys the application uses. */
  const API_KEY_ITEM := "user_api_key"
  const DOCUMENTS_ITEM := "rag_documents"
  const CONVERSATIONS_ITEM := "chat_conversations"

  datatype Stored =
    | Raw(text: string)
    | DocumentList(docs: seq<Document>)
    | ConversationList(convs: seq<Conversation>)

  /** What `localStorage.getItem(key)` finds for the credential, read through the
      truthiness test `if (apiKey)`: a stored non-empty text, or nothing. */
  function Credential(items: map<string, Stored>): (k: Option<string>)
    ensures k.Some? <==> API_KEY_ITEM in items && items[API_KEY_ITEM].Raw? && items[API_KEY_ITEM].text != ""
    ensures k.Some? ==> items[API_KEY_ITEM] == Raw(k.value)
  {
    if API_KEY_ITEM in items && items[API_KEY_ITEM].Raw? && items[API_KEY_ITEM].text != ""
    then Some(items[API_KEY_ITEM].text)
    else None
  }

  class LocalStorage {
    var items: map<string, Stored>

    constructor (initial: map<string, Stored>)
      ensures items == initial
    {
      items := initial;
    }

    /** `localStorage.setItem(key, value)`: overwrites one item and leaves the others alone. */
    method SetItem(key: string, value: Stored)
      modifies this
      ensures items == old(items)[key := value]
      ensures key in items && items[key] == value
      ensures forall k :: k in old(items) && k != key ==> k in items && items[k] == old(items)[k]
    {
      items := items[key := value];
    }
  }
}
