/**
 * The chat mode (`ChatMode`): a newest-first collection of conversations written through to
 * the `chat_conversations` storage item, the id of the selected conversation, and the text
 * being typed. Sending appends the user's message, sends the whole conversation, and on a
 * reply appends the assistant's message and, for a conversation that was empty, sets its
 * title from the first 40 characters of the message.
 */
module Chat {
  import opened Wrappers
  import opened JsString
  import opened Completion
  import opened Records
  import opened Storage
  import opened Collections

  const NEW_CHAT_TITLE := "New Chat"
  const TITLE_LENGTH := 40
  const CHAT_TEMPERATURE := 0.7

  function HasId(id: string): Conversation -> bool
  {
    (c: Conversation) => c.id == id
  }

  function ReplaceBy(updated: Conversation): Conversation -> Conversation
  {
    (_: Conversation) => updated
  }

  /** `updateConversation(id, updated)`: `conversations.map(c => c.id === id ? updated : c)`,
      over the collection the handler was created with. */
  function UpdateConversation(convs: seq<Conversation>, id: string, updated: Conversation): seq<Conversation>
  {
    ReplaceWhere(convs, HasId(id), ReplaceBy(updated))
  }

  /** `conversations.filter(c => c.id !== id)`. */
  function WithoutConversation(convs: seq<Conversation>, id: string): seq<Conversation>
  {
    Remove(convs, HasId(id))
  }

  /** `conversations.find(c => c.id === selectedId)`: the first conversation with the selected
      id; nothing when no id is selected or no conversation has it. */
  function SelectedConversation(convs: seq<Conversation>, selectedId: Option<string>): Option<Conversation>
  {
    if selectedId.None? then None else Find(convs, HasId(selectedId.value))
  }

  /** The selection is the first conversation carrying the selected id; there is none when no
      id is selected or no conversation carries it. */
  lemma SelectedConversationSpec(convs: seq<Conversation>, selectedId: Option<string>)
    ensures var r := SelectedConversation(convs, selectedId);
            (r.None? <==> selectedId.None? || forall j :: 0 <= j < |convs| ==> convs[j].id != selectedId.value) &&
            (r.Some? ==>
              exists i :: 0 <= i < |convs| && convs[i] == r.value && r.value.id == selectedId.value &&
                          forall j :: 0 <= j < i ==> convs[j].id != selectedId.value)
  {
  }

  /** `updatedMessages.map(m => ({ role: m.role, content: m.content }))`. */
  function ToRequestMessages(ms: seq<Message>): (r: seq<ChatMessage>)
    ensures |r| == |ms|
    ensures forall i :: 0 <= i < |ms| ==> r[i] == ChatMessage(ms[i].role, ms[i].content)
  {
    if ms == [] then [] else [ChatMessage(ms[0].role, ms[0].content)] + ToRequestMessages(ms[1..])
  }

  function SendRequest(apiKey: string, messages: seq<Message>): Request
  {
    Request(apiKey, MODEL, ToRequestMessages(messages), Some(CHAT_TEMPERATURE))
  }

  /** The conversation after the user's message is appended, before any reply. */
  function WithUserMessage(conv: Conversation, user: Message): Conversation
  {
    conv.(messages := conv.messages + [user])
  }

  /** The conversation after a reply: both messages appended, and the title taken from the
      user's message when the conversation had no messages before. */
  function WithReply(conv: Conversation, user: Message, assistant: Message): Conversation
  {
    Conversation(conv.id,
                 if |conv.messages| == 0 then Prefix(user.content, TITLE_LENGTH) else conv.title,
                 conv.messages + [user, assistant])
  }

  /** The user's message for what was typed: the input, trimmed. */
  function UserMessage(id: string, input: string): Message
  {
    Message(id, User, Trim(input))
  }

  /** The conversation once a send has finished: with the reply (its id is `replyTime + "-ai"`)
      when one came, and with only the user's message when the request failed. */
  function Sent(conv: Conversation, user: Message, replyTime: string, outcome: Outcome): Conversation
  {
    if outcome.Completed?
    then WithReply(conv, user, Message(replyTime + "-ai", Assistant, outcome.text))
    else WithUserMessage(conv, user)
  }

  /** The title is derived once: a reply to the first message of a conversation sets it to the
      first 40 characters of that message, and every later reply leaves it as it is. Messages
      are only ever appended. */
  lemma TitleSetOnce(conv: Conversation, u1: Message, a1: Message, u2: Message, a2: Message)
    ensures |conv.messages| == 0 ==>
              WithReply(conv, u1, a1).title == u1.content[..if |u1.content| < 40 then |u1.content| else 40]
    ensures |conv.messages| > 0 ==> WithReply(conv, u1, a1).title == conv.title
    ensures WithReply(WithReply(conv, u1, a1), u2, a2).title == WithReply(conv, u1, a1).title
    ensures WithReply(WithUserMessage(conv, u1), u2, a2).title == conv.title
    ensures WithReply(conv, u1, a1).messages[..|conv.messages|] == conv.messages
    ensures WithUserMessage(conv, u1).messages[..|conv.messages|] == conv.messages
  {
  }

  /** Replacing by id keeps the length, the order and every other conversation; when the
      replacement keeps the id, the selection then finds the replacement. */
  lemma UpdateConversationSpec(convs: seq<Conversation>, id: string, updated: Conversation)
    requires updated.id == id
    ensures |UpdateConversation(convs, id, updated)| == |convs|
    ensures forall i :: 0 <= i < |convs| ==>
              UpdateConversation(convs, id, updated)[i] == if convs[i].id == id then updated else convs[i]
    ensures SelectedConversation(UpdateConversation(convs, id, updated), Some(id)) ==
              if SelectedConversation(convs, Some(id)).Some? then Some(updated) else None
  {
    FindAfterReplace(convs, HasId(id), updated);
    assert ReplaceBy(updated) == (_ => updated);
  }

  /** Deleting keeps exactly the conversations with another id, in their order. */
  lemma WithoutConversationKeepsOthers(convs: seq<Conversation>, id: string)
    ensures forall c :: c in WithoutConversation(convs, id) <==> c in convs && c.id != id
    ensures forall a, b :: WithoutConversation(a + b, id) == WithoutConversation(a, id) + WithoutConversation(b, id)
    ensures SelectedConversation(WithoutConversation(convs, id), Some(id)) == None
  {
    RemoveMembers(convs, HasId(id));
    forall a, b {
      RemoveAppend(a, b, HasId(id));
    }
    var r := WithoutConversation(convs, id);
    forall j | 0 <= j < |r| ensures r[j].id != id {
      assert r[j] in r;
    }
  }

  /** The stored value the mount effect can read: nothing, an empty text (falsy, skipped), or a
      conversation list. */
  predicate ConversationsReadable(items: map<string, Stored>)
  {
    CONVERSATIONS_ITEM !in items || items[CONVERSATIONS_ITEM] == Raw("") ||
    items[CONVERSATIONS_ITEM].ConversationList?
  }

  /** The conversations the mount effect loads: the stored list, or the empty list when the
      item is absent or is the empty text, which truthiness skips. */
  function LoadedConversations(items: map<string, Stored>): (convs: seq<Conversation>)
    ensures !(CONVERSATIONS_ITEM in items && items[CONVERSATIONS_ITEM].ConversationList?) ==> convs == []
    ensures CONVERSATIONS_ITEM in items && items[CONVERSATIONS_ITEM].ConversationList? ==>
              convs == items[CONVERSATIONS_ITEM].convs
  {
    if CONVERSATIONS_ITEM in items && items[CONVERSATIONS_ITEM].ConversationList?
    then items[CONVERSATIONS_ITEM].convs
    else []
  }

  class ChatMode {
    var conversations: seq<Conversation>
    var selectedId: Option<string>
    var input: string
    var loading: bool
    const storage: LocalStorage

    /** Write-through: the stored conversation list is the one in memory. */
    ghost predicate Valid()
      reads this, storage
    {
      CONVERSATIONS_ITEM in storage.items &&
      storage.items[CONVERSATIONS_ITEM] == ConversationList(conversations)
    }

    /** `selectedConv`, recomputed on every render. */
    function SelectedConv(): Option<Conversation>
      reads this
    {
      SelectedConversation(conversations, selectedId)
    }

    /** Mounting: the initial state, the load effect, then the save effect. */
    constructor (storage: LocalStorage)
      requires ConversationsReadable(storage.items)
      modifies storage
      ensures this.storage == storage
      ensures conversations == LoadedConversations(old(storage.items))
      ensures selectedId == None && input == "" && !loading
      ensures storage.items == old(storage.items)[CONVERSATIONS_ITEM := ConversationList(conversations)]
      ensures Valid()
    {
      this.storage := storage;
      conversations := LoadedConversations(storage.items);
      selectedId := None;
      input := "";
      loading := false;
      new;
      storage.SetItem(CONVERSATIONS_ITEM, ConversationList(conversations));
    }

    /** `createNewConversation`: an empty conversation titled "New Chat", whose id is the
        current time `now`, goes to the front and is selected. */
    method CreateNewConversation(now: string)
      requires Valid()
      modifies this, storage
      ensures Valid()
      ensures conversations == [Conversation(now, NEW_CHAT_TITLE, [])] + old(conversations)
      ensures selectedId == Some(now)
      ensures SelectedConv() == Some(Conversation(now, NEW_CHAT_TITLE, []))
      ensures storage.items == old(storage.items)[CONVERSATIONS_ITEM := ConversationList(conversations)]
      ensures input == old(input) && loading == old(loading)
    {
      var newConv := Conversation(now, NEW_CHAT_TITLE, []);
      conversations := [newConv] + conversations;
      storage.SetItem(CONVERSATIONS_ITEM, ConversationList(conversations));
      selectedId := Some(newConv.id);
      assert conversations[0] == newConv;
    }

    /** Clicking a conversation selects its id. */
    method SelectConversation(id: string)
      requires Valid()
      modifies this
      ensures Valid()
      ensures selectedId == Some(id)
      ensures conversations == old(conversations) && input == old(input) && loading == old(loading)
    {
      selectedId := Some(id);
    }

    /** Typing in the message box replaces the input and nothing else. */
    method EditInput(text: string)
      requires Valid()
      modifies this
      ensures Valid()
      ensures input == text
      ensures conversations == old(conversations) && selectedId == old(selectedId) && loading == old(loading)
    {
      input := text;
    }

    /** `deleteConversation`, gated by the user's answer to the confirmation. When confirmed,
        every conversation with the id is removed and a selection of that id is cleared. */
    method DeleteConversation(id: string, confirmed: bool)
      requires Valid()
      modifies this, storage
      ensures Valid()
      ensures !confirmed ==>
                conversations == old(conversations) && selectedId == old(selectedId) &&
                storage.items == old(storage.items)
      ensures confirmed ==>
                conversations == WithoutConversation(old(conversations), id) &&
                selectedId == (if old(selectedId) == Some(id) then None else old(selectedId)) &&
                storage.items == old(storage.items)[CONVERSATIONS_ITEM := ConversationList(conversations)]
      ensures input == old(input) && loading == old(loading)
    {
      if !confirmed {
        return;
      }
      conversations := WithoutConversation(conversations, id);
      storage.SetItem(CONVERSATIONS_ITEM, ConversationList(conversations));
      if selectedId == Some(id) {
        selectedId := None;
      }
    }

    /** `setConversations(convs)` followed by the save effect it triggers. */
    method SetConversations(convs: seq<Conversation>)
      modifies this, storage
      ensures conversations == convs
      ensures storage.items == old(storage.items)[CONVERSATIONS_ITEM := ConversationList(convs)]
      ensures Valid()
      ensures selectedId == old(selectedId) && input == old(input) && loading == old(loading)
    {
      conversations := convs;
      storage.SetItem(CONVERSATIONS_ITEM, ConversationList(convs));
    }

    /** What `handleSend` does once the response is in: on a reply, the conversation with both
        messages replaces the selected one in the collection captured at the start. */
    method FinishSend(snapshot: seq<Conversation>, sel: Conversation, user: Message, replyTime: string,
                      result: Outcome, ghost items0: map<string, Stored>)
      requires conversations == UpdateConversation(snapshot, sel.id, WithUserMessage(sel, user))
      requires storage.items == items0[CONVERSATIONS_ITEM := ConversationList(conversations)]
      modifies this, storage
      ensures conversations == UpdateConversation(snapshot, sel.id, Sent(sel, user, replyTime, result))
      ensures storage.items == items0[CONVERSATIONS_ITEM := ConversationList(conversations)]
      ensures Valid()
      ensures selectedId == old(selectedId) && input == old(input) && loading == old(loading)
    {
      if result.Completed? {
        SetConversations(UpdateConversation(snapshot, sel.id, Sent(sel, user, replyTime, result)));
      } else {
        assert Sent(sel, user, replyTime, result) == WithUserMessage(sel, user);
      }
    }

    /** `handleSend`. Nothing happens with a blank input, no selected conversation or no
        stored credential. Otherwise the trimmed input becomes a user message appended to the
        selected conversation, the input is cleared, and the whole updated conversation is
        sent. A reply appends the assistant's message (id `replyTime + "-ai"`) and may set the
        title; a failure leaves the user's message in place. Both updates replace by id over
        the collection as it was when the handler started. */
    method HandleSend(userMessageId: string, replyTime: string, response: Response)
      returns (sent: Option<Request>, outcome: Option<Outcome>)
      requires Valid()
      modifies this, storage
      ensures Valid()
      ensures sent.Some? <==>
                !IsBlank(old(input)) && SelectedConversation(old(conversations), old(selectedId)).Some? && Credential(old(storage.items)).Some?
      ensures sent.None? ==>
                outcome.None? && conversations == old(conversations) && input == old(input) &&
                loading == old(loading) && storage.items == old(storage.items)
      ensures sent.Some? ==>
                sent.value == SendRequest(Credential(old(storage.items)).value,
                                          SelectedConversation(old(conversations), old(selectedId)).value.messages + [UserMessage(userMessageId, old(input))])
      ensures sent.Some? ==> outcome == Some(Classify(response)) && input == "" && !loading
      ensures sent.Some? ==>
                conversations == UpdateConversation(old(conversations), SelectedConversation(old(conversations), old(selectedId)).value.id,
                  Sent(SelectedConversation(old(conversations), old(selectedId)).value, UserMessage(userMessageId, old(input)), replyTime, outcome.value))
      ensures sent.Some? ==>
                storage.items == old(storage.items)[CONVERSATIONS_ITEM := ConversationList(conversations)]
      ensures selectedId == old(selectedId)
    {
      sent, outcome := None, None;
      var selected := SelectedConversation(conversations, selectedId);
      if IsBlank(input) || selected.None? {
        return;
      }
      var apiKey := Credential(storage.items);
      if apiKey.None? {
        return;
      }
      var sel := selected.value;
      var snapshot := conversations;
      var user := UserMessage(userMessageId, input);
      ghost var items0 := storage.items;
      SetConversations(UpdateConversation(snapshot, sel.id, WithUserMessage(sel, user)));
      input := "";
      loading := true;
      sent := Some(SendRequest(apiKey.value, sel.messages + [user]));
      var result := Classify(response);
      outcome := Some(result);
      FinishSend(snapshot, sel, user, replyTime, result, items0);
      loading := false;
    }
  }
}
