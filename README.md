# AllinOne AI workspace — a Dafny model

This is a Dafny model of the client-side core of a browser application. The application offers four modes that call a hosted chat-completion provider (Groq):

- a chat mode with stored conversations;
- a document question-answering mode ("RAG") over uploaded files;
- a blog writer;
- a code assistant.

All of them share one credential kept in the browser's `localStorage`. The model covers:

- **JavaScript string semantics the handlers rely on** (`js_string.dfy`). `trim` uses the ECMAScript whitespace set. The blank test `!s.trim()` is modelled, and so is `slice` with its clamping.
- **The completion boundary** (`completion.dfy`). It covers the request every handler sends (credential, model `llama-3.3-70b-versatile`, role-tagged messages, optional temperature), the response, and the single classification all modes apply:
  - `!ok` fails with the provider's message or `"Groq API error"`;
  - `ok` yields the first choice;
  - `ok` with no choice fails;
  - a rejected fetch fails.
- **Storage** (`storage.dfy`). `localStorage` is a class holding a map from item key to stored value, and `setItem` updates it in place. The three keys are `user_api_key`, `rag_documents` and `chat_conversations`. Reading the credential goes through JavaScript truthiness, so an empty string counts as no credential.
- **The array operations** the two collection stores use (`collections.dfy`): `filter`, a conditional `map` and `find`.
- **The text chunker** (`chunk_text.dfy`). It is a `while` loop proved equal to a reference windowing. Its count, each window, window lengths, the overlap between neighbours, reconstruction, and non-termination when `overlap >= size` are proved.
- **The four modes and the shell**, one class each, with handlers as methods that update the fields:
  - the document mode (`rag_mode.dfy`);
  - the chat mode (`chat_mode.dfy`);
  - the code assistant (`code_mode.dfy`), with the fence pattern `/```[\w]*\n([\s\S]*?)```/` as a leftmost string search, proved sound and complete against a declarative definition of a match;
  - the blog writer (`blog_mode.dfy`);
  - the application shell (`app.dfy`);
  - the credential context (`api_key_manager.dfy`);
  - the credential input box (`api_key_input.dfy`).

Each asynchronous handler is one atomic step. Everything the handler gets from outside is a parameter:

- the provider's `Response`;
- the chosen file's name and extracted text;
- the answer to `confirm`;
- the fresh id and timestamps.

A handler returns the request it sent (`None` when a guard stops it first) and how the response was classified. The two collection stores keep a write-through invariant `Valid()`: the stored list is the one in memory.

## Model

| member | source | states |
|---|---|---|
| JsString.Trim | src/App.tsx:38 | The model of `trim`: it never lengthens the string. What it removes and keeps is stated in `TrimSpec`. |
| JsString.TrimSpec | src/App.tsx:33-38 | `trim` removes exactly the leading and trailing ECMAScript whitespace. What is left is a contiguous part of the input with no whitespace at either end, and it is empty exactly when the input is all whitespace. |
| JsString.TrimStartSpec | src/App.tsx:38 | Removing leading whitespace leaves a suffix. Everything removed was whitespace, and the rest does not start with whitespace. |
| JsString.TrimEndSpec | src/App.tsx:38 | Removing trailing whitespace leaves a prefix. Everything removed was whitespace, and the rest does not end with whitespace. |
| JsString.TrimIdempotent | src/App.tsx:38 | Trimming a trimmed key changes nothing. |
| JsString.BlankIffAllWhitespace | src/App.tsx:33 | The guard `!s.trim()` holds exactly for all-whitespace strings, the empty string included. |
| JsString.Slice | src/lib/chunkText.ts:7 | `slice(from, to)` clamps both ends to the length: it is the exact substring inside the bounds, the tail when the end is past the length, and empty when the range is empty. |
| JsString.Prefix | src/components/modes/ChatMode.tsx:123 | `slice(0, n)` is the first `min(n, length)` characters. |
| Completion.ProviderMessage | src/components/modes/ChatMode.tsx:107-109 | The thrown message is never empty. It is the provider's message when that is non-empty, and otherwise `"Groq API error"`. |
| Completion.Classify | src/components/modes/BlogMode.tsx:58-69 | A response completes if and only if it is ok and has a choice, and the text is then the first choice. A non-ok response fails with the provider message. |
| Storage.Credential | src/components/modes/CodeMode.tsx:15-20 | There is a credential if and only if a non-empty text is stored under `user_api_key`, and it is that text. |
| Storage.LocalStorage.SetItem | src/contexts/ApiKeyManager.tsx:20 | `setItem` overwrites one item and leaves every other item as it was. |
| Collections.Remove | src/components/modes/ChatMode.tsx:56 | `filter` never lengthens the list. |
| Collections.RemoveMembers | src/components/modes/ChatMode.tsx:56 | `filter` keeps exactly the elements that are not dropped. |
| Collections.RemoveAppend | src/components/modes/RagMode.tsx:200-209 | `filter` distributes over concatenation, so the kept elements stay in order. |
| Collections.RemoveNothing | src/components/modes/RagMode.tsx:200-209 | Filtering a list in which nothing is dropped returns it unchanged. |
| Collections.ReplaceWhere | src/components/modes/ChatMode.tsx:137-141 | The conditional `map` keeps the length. Each element is replaced if and only if it is hit. |
| Collections.FirstIndex | src/components/modes/ChatMode.tsx:40 | Gives the first index whose element is hit, or nothing if and only if no element is hit. |
| Collections.Find | src/components/modes/ChatMode.tsx:40 | `find` returns nothing if and only if no element is hit, and otherwise the element at the first hit. |
| Collections.FindAfterReplace | src/components/modes/ChatMode.tsx:40 | After every hit is replaced by a hit `x`, `find` returns `x` exactly when it found something before. |
| Chunking.Chunks | src/lib/chunkText.ts:1-12 | The reference windowing the loop is proved equal to. Its count, windows, lengths, overlap and reassembly are stated in `ChunkCount`, `ChunkAt`, `ChunkLengths`, `ChunksOverlap` and `ReassembleChunks`. |
| Chunking.ChunkText | src/lib/chunkText.ts:1-12 | For `0 <= overlap < size`, the loop returns exactly the reference windowing `Chunks`, with ceil(length / (size - overlap)) chunks. |
| Chunking.ChunkCount | src/lib/chunkText.ts:5-9 | The number of chunks is ceil(length / (size - overlap)). |
| Chunking.ChunkAt | src/lib/chunkText.ts:6-8 | Chunk `i` starts at `i * (size - overlap)`, inside the text, and runs to `min(start + size, length)`. |
| Chunking.ChunkLengths | src/lib/chunkText.ts:6-7 | Every chunk is non-empty and at most `size` long. A chunk is shorter than `size` exactly when its window passes the end of the text, and it then ends at the end of the text. |
| Chunking.ChunksOverlap | src/lib/chunkText.ts:8 | What chunk `i` holds past its first `size - overlap` characters is at most `overlap` long and is a prefix of chunk `i + 1`. |
| Chunking.ReassembleChunks | src/lib/chunkText.ts:5-9 | Concatenating the first `size - overlap` characters of every chunk gives back the text exactly. |
| Chunking.EmptyTextNoChunks | src/lib/chunkText.ts:5 | An empty text gives no chunks. |
| Chunking.DefaultsOn1100Characters | src/lib/chunkText.ts:1 | With the defaults 1200/200, a 1100-character text gives `[text, text[1000..]]`. |
| Chunking.StartNeverAdvances | src/lib/chunkText.ts:5-8 | When `size <= overlap`, `start` never exceeds 0, so on a non-empty text the loop never ends. |
| Chunking.WindowsFromCount | src/lib/chunkText.ts:5-9 | The windows from any start number ceil(remaining / step). |
| Chunking.WindowAt | src/lib/chunkText.ts:6-8 | Window `i` from a start begins `i` steps later. |
| Rag.SummarizeRequest | src/components/modes/RagMode.tsx:109-121 | The summarize request: the fixed instruction and the document context, with no temperature. `RequestsCarryContext` states what the context is. |
| Rag.AskRequest | src/components/modes/RagMode.tsx:166-182 | The question request: the fixed instruction and the prompt that frames the context and the question. `RequestsCarryContext` states that framing. |
| Rag.WithSummary | src/components/modes/RagMode.tsx:132-136 | The conditional `map` that stores a summary by id. `WithSummaryChangesOnlySummaries` states what it changes. |
| Rag.WithoutDocument | src/components/modes/RagMode.tsx:203 | The `filter` that deletes by id. `WithoutDocumentKeepsOthers` states what it keeps. |
| Rag.DocumentContext | src/components/modes/RagMode.tsx:118 | The context sent is the first `min(12000, length)` characters of the document. |
| Rag.RequestsCarryContext | src/components/modes/RagMode.tsx:110-120 | The summarize request carries the whole document when it has at most 12000 characters, and never more than 12000 characters. The question prompt frames the same context and the untrimmed question. |
| Rag.WithSummaryChangesOnlySummaries | src/components/modes/RagMode.tsx:132-136 | Storing a summary keeps the order, ids, names, contents and dates. Exactly the documents with that id get the summary. |
| Rag.WithoutDocumentKeepsOthers | src/components/modes/RagMode.tsx:200-209 | Deleting keeps exactly the documents with another id, in order, and removes nothing when no document has the id. |
| Rag.LoadedDocuments | src/components/modes/RagMode.tsx:32-37 | Mounting with nothing stored or the empty text stored gives an empty collection, and with a stored list gives that list. |
| Rag.RagMode.constructor | src/components/modes/RagMode.tsx:22-42 | The initial state, followed by the load and save effects. The stored list ends up equal to the loaded one. |
| Rag.RagMode.HandleFileUpload | src/components/modes/RagMode.tsx:44-87 | A document is added if and only if a file was chosen and its text is not blank. It goes to the front, is selected, clears the answer and closes the sidebar, and it is stored. Otherwise nothing changes. `uploading` is false after any chosen file. |
| Rag.RagMode.SelectDocument | src/components/modes/RagMode.tsx:238-241 | Selecting a document closes the sidebar and changes nothing else, and the stored list still matches. |
| Rag.RagMode.EditQuestion | src/components/modes/RagMode.tsx:355 | Typing in the question box replaces the question and changes nothing else, and the stored list still matches. |
| Rag.RagMode.HandleSummarize | src/components/modes/RagMode.tsx:89-144 | A request is sent if and only if a document is selected and a credential is stored. On success the summary goes to the documents with that id and to the selection. On failure nothing changes. |
| Rag.RagMode.HandleAskQuestion | src/components/modes/RagMode.tsx:146-198 | A request is sent if and only if a document is selected, the question is not blank and a credential is stored. On success the answer is set and the question cleared. On failure both are kept. |
| Rag.RagMode.HandleDeleteDocument | src/components/modes/RagMode.tsx:200-209 | Only when confirmed: the documents with the id are removed and stored, the selection is cleared if it had that id, and the answer is cleared with it. |
| Chat.SelectedConversation | src/components/modes/ChatMode.tsx:40 | The `find` by selected id. `SelectedConversationSpec` states which conversation it gives. |
| Chat.UpdateConversation | src/components/modes/ChatMode.tsx:137-141 | The conditional `map` that replaces by id. `UpdateConversationSpec` states what it keeps and what the selection then finds. |
| Chat.WithoutConversation | src/components/modes/ChatMode.tsx:56 | The `filter` that deletes by id. `WithoutConversationKeepsOthers` states what it keeps. |
| Chat.UserMessage | src/components/modes/ChatMode.tsx:69-73 | The user's message: the given id, the user role and the trimmed input. |
| Chat.WithUserMessage | src/components/modes/ChatMode.tsx:75-80 | The conversation with the user's message appended and the title kept. `TitleSetOnce` states this. |
| Chat.SendRequest | src/components/modes/ChatMode.tsx:85-101 | The send request at temperature 0.7, listing the conversation's messages as `ToRequestMessages` states. |
| Chat.WithReply | src/components/modes/ChatMode.tsx:111-126 | The conversation with both messages appended. The title is derived only when there were no messages before. `TitleSetOnce` states this. |
| Chat.Sent | src/components/modes/ChatMode.tsx:111-126 | The conversation after the response: `WithReply` on a reply, `WithUserMessage` on a failure. `FinishSend` and `TitleSetOnce` state the effect. |
| Chat.SelectedConversationSpec | src/components/modes/ChatMode.tsx:40 | The selected conversation is the first one with the selected id. There is none if and only if no id is selected or no conversation has it. |
| Chat.ToRequestMessages | src/components/modes/ChatMode.tsx:96-99 | The request lists exactly the roles and contents of the conversation's messages, in order. |
| Chat.TitleSetOnce | src/components/modes/ChatMode.tsx:117-126 | A reply to the first message sets the title to the first 40 characters of that message, and later replies keep it. After a failed first send the title is never derived. Messages are only appended. |
| Chat.UpdateConversationSpec | src/components/modes/ChatMode.tsx:137-141 | Replacing by id keeps length and order and changes only conversations with that id. The selection then finds the replacement exactly when it found a conversation before. |
| Chat.WithoutConversationKeepsOthers | src/components/modes/ChatMode.tsx:53-58 | Deleting keeps exactly the conversations with another id, in order, and afterwards nothing has that id. |
| Chat.LoadedConversations | src/components/modes/ChatMode.tsx:24-29 | Mounting with nothing stored or the empty text stored gives no conversations, and with a stored list gives that list. |
| Chat.ChatMode.constructor | src/components/modes/ChatMode.tsx:17-34 | The initial state, followed by the load and save effects. The stored list equals the loaded one. |
| Chat.ChatMode.CreateNewConversation | src/components/modes/ChatMode.tsx:42-51 | An empty "New Chat" conversation with the current time as id goes to the front, is stored and is selected. |
| Chat.ChatMode.SelectConversation | src/components/modes/ChatMode.tsx:158 | Clicking a conversation selects its id and changes nothing else, and the stored list still matches. |
| Chat.ChatMode.EditInput | src/components/modes/ChatMode.tsx:217 | Typing in the message box replaces the input and changes nothing else, and the stored list still matches. |
| Chat.ChatMode.DeleteConversation | src/components/modes/ChatMode.tsx:53-58 | Only when confirmed: the conversations with the id are removed and stored, and the selection is cleared if it had that id. |
| Chat.ChatMode.SetConversations | src/components/modes/ChatMode.tsx:31-34 | Replacing the collection also stores it, so memory and storage agree. Nothing else changes. |
| Chat.ChatMode.FinishSend | src/components/modes/ChatMode.tsx:111-126 | Once the response is in, a reply makes the conversation with both messages replace the selected one in the collection captured at the start. A failure keeps the user's message only. |
| Chat.ChatMode.HandleSend | src/components/modes/ChatMode.tsx:60-135 | A request is sent if and only if the input is not blank, a conversation is selected and a credential is stored. The request carries the whole conversation plus the trimmed input, at temperature 0.7. The input is cleared. On success both messages are appended and the title may be set. On failure the user's message stays. Both updates replace by id over the collection captured at the start. |
| Code.WordRunEnd | src/components/modes/CodeMode.tsx:59 | `[\w]*` stops at the first character that is not a word character. |
| Code.CloseFrom | src/components/modes/CodeMode.tsx:59 | The lazy body ends at the first three backticks at or after its start, or there is none. |
| Code.MatchAt | src/components/modes/CodeMode.tsx:59 | The match tried at one position. `MatchAtExact` states that it is the unique match there. |
| Code.FindFence | src/components/modes/CodeMode.tsx:59 | The leftmost match. `FindFenceLeftmost` states that it is leftmost and that nothing is missed. |
| Code.MatchAtExact | src/components/modes/CodeMode.tsx:59 | The match found at a position satisfies the pattern, and any match of the pattern at that position is the one found, so the match is unique. |
| Code.FindFenceLeftmost | src/components/modes/CodeMode.tsx:59 | The match found is the leftmost one, and when none is found the reply has no match at all. |
| Code.FenceBodyHasNoBackticks | src/components/modes/CodeMode.tsx:59 | The body of a match never contains three backticks in a row. |
| Code.NonWordOpenerDoesNotMatch | src/components/modes/CodeMode.tsx:59 | An opener whose word run is followed by anything other than a line feed, as in "```c++", has no match at that position. |
| Code.SplitReply | src/components/modes/CodeMode.tsx:59-69 | The split of a reply into code and explanation. `SplitReplySpec` states it in terms of the pattern. |
| Code.SplitReplySpec | src/components/modes/CodeMode.tsx:59-69 | With a match, the code is the trimmed body of the leftmost match and the explanation is the text around that match, trimmed. With no match, the code is the untrimmed reply and the explanation is "". |
| Code.CPlusPlusFenceIsNotCode | src/components/modes/CodeMode.tsx:59-68 | A reply fenced with "```c++" is left whole as code with an empty explanation. |
| Code.FencedReplyLocated | src/components/modes/CodeMode.tsx:59-65 | In a reply with text around one fence, the match is that fence: the code is its body trimmed and the explanation is the text before and after it, trimmed. |
| Code.FencedReplySplit | src/components/modes/CodeMode.tsx:59-65 | For a reply with text around one fence, the code is the body without its closing line feed, and the explanation is the surrounding text with its inner blank line kept. |
| Code.CodeRequest | src/components/modes/CodeMode.tsx:33-46 | The system prompt names the language. The user message is `task` verbatim. The temperature is 0.5. |
| Code.CodeMode.constructor | src/components/modes/CodeMode.tsx:5-10 | The language starts as "javascript" and every other field starts empty. |
| Code.CodeMode.EditLanguage | src/components/modes/CodeMode.tsx:100 | Choosing a language replaces it and changes nothing else. |
| Code.CodeMode.EditTask | src/components/modes/CodeMode.tsx:122 | Typing in the task box replaces the task and changes nothing else. |
| Code.CodeMode.HandleGenerate | src/components/modes/CodeMode.tsx:12-78 | A request is sent if and only if `task` is not blank and a credential is stored. A reply is split into code and explanation. A failure leaves both as they were. `loading` ends false. |
| Blog.LengthGuide | src/components/modes/BlogMode.tsx:25-30 | The word-count phrase for a length option. `LengthGuideCases` states its three cases. |
| Blog.BlogPrompt | src/components/modes/BlogMode.tsx:50 | The user prompt template. `BlogPromptPlaces` states where the tone, topic and guide sit. |
| Blog.LengthGuideCases | src/components/modes/BlogMode.tsx:25-30 | "short" maps to "300-500 words" and "medium" to "700-1000 words". Every other option maps to "1500-2000 words". |
| Blog.BlogPromptPlaces | src/components/modes/BlogMode.tsx:50 | The prompt puts the tone, the quoted topic and the guide at the offsets the template gives. |
| Blog.BlogRequest | src/components/modes/BlogMode.tsx:40-54 | The request has the fixed system instruction and, as the user's message, the prompt built from the tone, the topic and the length guide, at temperature 0.7. |
| Blog.BlogMode.constructor | src/components/modes/BlogMode.tsx:5-10 | The tone starts as "professional" and the length as "medium". Topic and content start empty. |
| Blog.BlogMode.EditTopic | src/components/modes/BlogMode.tsx:100 | Typing in the topic box replaces the topic and changes nothing else. |
| Blog.BlogMode.EditTone | src/components/modes/BlogMode.tsx:113 | Choosing a tone replaces it and changes nothing else. |
| Blog.BlogMode.EditLength | src/components/modes/BlogMode.tsx:132 | Choosing a length option replaces it and changes nothing else. |
| Blog.BlogMode.HandleGenerate | src/components/modes/BlogMode.tsx:12-73 | A request is sent if and only if the topic is not blank and a credential is stored. A reply becomes the content. A failure keeps the content. `loading` ends false. |
| AppShell.RenderedModes | src/App.tsx:167-170 | The mode components the four conditionals render. `ExactlyOneModeRendered` states that it is the active one alone. |
| AppShell.ExactlyOneModeRendered | src/App.tsx:167-170 | Exactly one mode component is rendered: the active one. |
| AppShell.SavedKeyReadsBack | src/App.tsx:38 | A saved key is read back as the credential, in trimmed form, and saving it again stores the same value. |
| AppShell.App.constructor | src/App.tsx:21-23 | The shell starts in the chat mode with an empty key and the sidebar closed. |
| AppShell.App.LoadSavedKey | src/App.tsx:25-30 | A stored non-empty credential becomes the key. Otherwise the key is kept. |
| AppShell.App.EditKey | src/App.tsx:87 | Typing changes the in-memory key only. |
| AppShell.App.HandleSaveKey | src/App.tsx:32-40 | Saves if and only if the key is not blank. It stores the trimmed key, which then is the credential. A blank key leaves storage unchanged. |
| AppShell.App.SelectMode | src/App.tsx:126-129 | Choosing a mode makes it the one rendered and closes the sidebar. Mounting and unmounting the mode components is under "Mode switching" in "## Left out". |
| AppShell.App.OpenSidebar | src/App.tsx:61 | The menu button opens the sidebar. |
| AppShell.App.CloseSidebar | src/App.tsx:113 | The close button closes the sidebar. So does the overlay (line 162). |
| ApiKeyManager.ApiKeyProvider.constructor | src/contexts/ApiKeyManager.tsx:11 | The key starts empty. |
| ApiKeyManager.ApiKeyProvider.LoadSaved | src/contexts/ApiKeyManager.tsx:13-16 | A stored non-empty credential becomes the key. Otherwise the key is kept. |
| ApiKeyManager.ApiKeyProvider.SetApiKey | src/contexts/ApiKeyManager.tsx:18-21 | The key is taken untrimmed and unchecked into memory and storage, which then agree. |
| ApiKeyManager.UseApiKey | src/contexts/ApiKeyManager.tsx:30-34 | Gives the context if and only if a provider is present. Otherwise it fails with "useApiKey must be used inside ApiKeyProvider". |
| ApiKeyManager.SetThenLoad | src/contexts/ApiKeyManager.tsx:13-21 | A key that was set reads back unchanged exactly when it is non-empty. An empty key reads back as no credential. |
| KeyInput.ApiKeyInput.constructor | src/components/ApiKeyInput.tsx:5-6 | The draft starts as the context's key. |
| KeyInput.ApiKeyInput.Edit | src/components/ApiKeyInput.tsx:20 | Typing replaces the draft. |
| KeyInput.ApiKeyInput.HandleSave | src/components/ApiKeyInput.tsx:8-12 | Saves if and only if the draft is not blank. The untrimmed draft becomes both the context key and the stored credential. Otherwise nothing changes. |
| KeyInput.SavedDraftIsCredential | src/components/ApiKeyInput.tsx:9-10 | A saved draft is always read back as the credential, including any surrounding whitespace. |

## Left out

- **Browser side effects.** `fetch`, the PDF text extraction, `file.text()`, `confirm`, `alert`, `crypto.randomUUID` and `Date.now()` are parameters of the handlers. The alert texts are not modelled.
- **JSON text.** Collections are stored as the lists themselves (`DocumentList`, `ConversationList`), not as the text `JSON.stringify` produces.
- **Unreadable stored collections.** A stored non-empty text either makes `JSON.parse` throw during mounting or yields a value that is not a list, such as `{}`, `5` or `null`. In the second case the component fails later, when it renders (`documents.map`, `conversations.find`). The mount constructors therefore require a readable item (`DocumentsReadable`, `ConversationsReadable`).
- **Non-text credential item.** A list stored under `user_api_key` is read as no credential.
- **Characters.** Strings are sequences of characters. JavaScript counts UTF-16 code units in `slice`, `length` and the 40-character title, so they differ for text outside the Basic Multilingual Plane.
- **Chunking.ChunkText:** it requires `0 <= overlap < size`. The source also returns `[]` for an empty text with any parameters, and it loops forever for `overlap >= size` on a non-empty text. `StartNeverAdvances` states that, and the loop is not modelled for those inputs. The parameters are taken as integers; a fractional `size` or `overlap` would be truncated by `slice` but kept in `start`, which shifts the windows. No caller passes anything but the defaults. A negative `overlap` is also excluded. The source terminates on it, but its windows start more than `size` apart and leave gaps, so `ReassembleChunks` would not hold.
- **Development double mount.** `src/main.tsx` mounts the tree under `StrictMode`, so a development build runs the mount effects twice. The second load then reads back the text `[]` that the first save wrote, which empties the stored collection. The constructors' claim that the stored list equals the loaded one describes the production build only.
- **Mode switching.** `src/App.tsx:167-170` renders each mode as `activeMode === m && <M />`, so a mode switch unmounts the old mode component and mounts the new one. `App` holds no mode instances and `SelectMode` changes only `activeMode` and the sidebar. The model does not capture three effects of this:
  - the old mode's in-memory state is discarded: the chat selection and input; the selected document, question and answer; the task, code and explanation; the blog topic and content;
  - the new mode's constructor, with its load and save effects, runs on every switch, not once;
  - a reply that arrives after its mode was switched away is dropped, because React ignores state updates on an unmounted component, so a chat reply or a summary is then never stored.
- **Scheduling.** React effect scheduling, render batching and handlers that interleave while awaiting are not modelled. Each handler is one atomic step. The chat handler's replace-by-id over the collection captured at its start is modelled, but the concurrent edits that would expose it are not.
- **Mount order of the key box.** `ApiKeyInput` reads the context's key once, when it is created. The model takes that value as given. No component of the application renders the box.
- **Presentation.** This covers JSX, styling, the sidebar animation, the document sidebar's open and overlay-close buttons, scroll-into-view, clipboard copy and the `copied` timer. The `e.target.value = ''` reset after an upload is also left out.
- **`src/main.tsx`.** It only mounts the component tree under the provider and `StrictMode`; the double mount above is its one effect on the model.
