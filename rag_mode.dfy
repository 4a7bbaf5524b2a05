/**
 * The document question-answering mode (`RagMode`): a collection of uploaded documents kept
 * newest-first and written through to the `rag_documents` storage item, a selected document,
 * a question and an answer. Summarize and ask send the selected document's text, cut to its
 * first 12000 characters, to the completion provider.
 */
module Rag {
  import opened Wrappers
  import opened JsString
  import opened Completion
  import opened Records
  import opened Storage
  import opened Collections

  /** How many characters of a document are sent with a request. */
  const CONTEXT_LIMIT := 12000

  const SUMMARIZE_INSTRUCTION := "Summarize clearly and concisely."
  const ANSWER_INSTRUCTION := "Answer only using the provided document context."

  /** `content.slice(0, 12000)`: the part of a document a request carries. */
  function DocumentContext(content: string): (r: string)
    ensures |r| == (if |content| < CONTEXT_LIMIT then |content| else CONTEXT_LIMIT)
    ensures r == content[..|r|]
  {
    Prefix(content, CONTEXT_LIMIT)
  }

  /** The user message of a question: the document context and the question, untrimmed. */
  function AskPrompt(content: string, question: string): string
  {
    "Document:\n" + DocumentContext(content) + "\n\nQuestion: " + question
  }

  function SummarizeRequest(apiKey: string, content: string): Request
  {
    Request(apiKey, MODEL,
            [ChatMessage(System, SUMMARIZE_INSTRUCTION), ChatMessage(User, DocumentContext(content))],
            None)
  }

  function AskRequest(apiKey: string, content: string, question: string): Request
  {
    Request(apiKey, MODEL,
            [ChatMessage(System, ANSWER_INSTRUCTION), ChatMessage(User, AskPrompt(content, question))],
            None)
  }

  /** Both requests carry the document cut to `min(12000, |content|)` characters: the whole
      document when it is short enough, never more than 12000 characters of it. */
  lemma RequestsCarryContext(apiKey: string, content: string, question: string)
    ensures SummarizeRequest(apiKey, content).messages[1].content == content[..|DocumentContext(content)|]
    ensures |content| <= CONTEXT_LIMIT ==> SummarizeRequest(apiKey, content).messages[1].content == content
    ensures |SummarizeRequest(apiKey, content).messages[1].content| <= CONTEXT_LIMIT
    ensures AskRequest(apiKey, content, question).messages[1].content ==
              "Document:\n" + content[..|DocumentContext(content)|] + "\n\nQuestion: " + question
  {
  }

  function HasId(id: string): Document -> bool
  {
    (d: Document) => d.id == id
  }

  function SetSummary(summary: string): Document -> Document
  {
    (d: Document) => d.(summary := Some(summary))
  }

  /** `prev.map(doc => doc.id === id ? { ...doc, summary } : doc)`. */
  function WithSummary(docs: seq<Document>, id: string, summary: string): seq<Document>
  {
    ReplaceWhere(docs, HasId(id), SetSummary(summary))
  }

  /** `prev.filter(doc => doc.id !== id)`. */
  function WithoutDocument(docs: seq<Document>, id: string): seq<Document>
  {
    Remove(docs, HasId(id))
  }

  /** Summarizing keeps the length and order of the collection and every document's id,
      name, content and date; exactly the documents with the given id get the new summary. */
  lemma WithSummaryChangesOnlySummaries(docs: seq<Document>, id: string, summary: string)
    ensures |WithSummary(docs, id, summary)| == |docs|
    ensures forall i :: 0 <= i < |docs| ==>
              var d, e := docs[i], WithSummary(docs, id, summary)[i];
              e.id == d.id && e.filename == d.filename && e.content == d.content &&
              e.createdAt == d.createdAt &&
              e.summary == (if d.id == id then Some(summary) else d.summary)
  {
  }

  /** Deleting keeps exactly the documents with another id, in their order. */
  lemma WithoutDocumentKeepsOthers(docs: seq<Document>, id: string)
    ensures forall d :: d in WithoutDocument(docs, id) <==> d in docs && d.id != id
    ensures forall a, b :: WithoutDocument(a + b, id) == WithoutDocument(a, id) + WithoutDocument(b, id)
    ensures (forall i :: 0 <= i < |docs| ==> docs[i].id != id) ==> WithoutDocument(docs, id) == docs
  {
    RemoveMembers(docs, HasId(id));
    forall a, b {
      RemoveAppend(a, b, HasId(id));
    }
    if forall i :: 0 <= i < |docs| ==> docs[i].id != id {
      RemoveNothing(docs, HasId(id));
    }
  }

  /** The stored value the mount effect can read: nothing, an empty text (falsy, skipped), or a
      document list. Anything else makes `JSON.parse` fail or yield a non-list. */
  predicate DocumentsReadable(items: map<string, Stored>)
  {
    DOCUMENTS_ITEM !in items || items[DOCUMENTS_ITEM] == Raw("") || items[DOCUMENTS_ITEM].DocumentList?
  }

  /** The documents the mount effect loads: the stored list, or the empty list when the item
      is absent or is the empty text, which truthiness skips. */
  function LoadedDocuments(items: map<string, Stored>): (docs: seq<Document>)
    ensures !(DOCUMENTS_ITEM in items && items[DOCUMENTS_ITEM].DocumentList?) ==> docs == []
    ensures DOCUMENTS_ITEM in items && items[DOCUMENTS_ITEM].DocumentList? ==>
              docs == items[DOCUMENTS_ITEM].docs
  {
    if DOCUMENTS_ITEM in items && items[DOCUMENTS_ITEM].DocumentList?
    then items[DOCUMENTS_ITEM].docs
    else []
  }

  class RagMode {
    var documents: seq<Document>
    var selectedDoc: Option<Document>
    var question: string
    var answer: string
    var loading: bool
    var summarizing: bool
    var uploading: bool
    var showSidebar: bool
    const storage: LocalStorage

    /** Write-through: the stored document list is the one in memory. */
    ghost predicate Valid()
      reads this, storage
    {
      DOCUMENTS_ITEM in storage.items && storage.items[DOCUMENTS_ITEM] == DocumentList(documents)
    }

    /** Mounting: the initial state, the load effect, then the save effect, which writes the
        loaded list back. */
    constructor (storage: LocalStorage)
      requires DocumentsReadable(storage.items)
      modifies storage
      ensures this.storage == storage
      ensures documents == LoadedDocuments(old(storage.items))
      ensures selectedDoc == None && question == "" && answer == ""
      ensures !loading && !summarizing && !uploading && !showSidebar
      ensures storage.items == old(storage.items)[DOCUMENTS_ITEM := DocumentList(documents)]
      ensures Valid()
    {
      this.storage := storage;
      documents := LoadedDocuments(storage.items);
      selectedDoc := None;
      question, answer := "", "";
      loading, summarizing, uploading, showSidebar := false, false, false, false;
      new;
      storage.SetItem(DOCUMENTS_ITEM, DocumentList(documents));
    }

    /** `handleFileUpload`. `fileName` is the chosen file (none when the picker was cancelled);
        `text` is what PDF extraction or `file.text()` produced (none when it threw); `id` and
        `createdAt` are the fresh identifier and timestamp. A blank text is rejected. */
    method HandleFileUpload(fileName: Option<string>, text: Option<string>, id: string, createdAt: string)
      returns (added: Option<Document>)
      requires Valid()
      modifies this, storage
      ensures Valid()
      ensures added.Some? <==> fileName.Some? && text.Some? && !IsBlank(text.value)
      ensures added.Some? ==>
                added.value == Document(id, fileName.value, text.value, None, createdAt) &&
                documents == [added.value] + old(documents) &&
                selectedDoc == added && answer == "" && !showSidebar &&
                storage.items == old(storage.items)[DOCUMENTS_ITEM := DocumentList(documents)]
      ensures added.None? ==>
                documents == old(documents) && selectedDoc == old(selectedDoc) &&
                answer == old(answer) && showSidebar == old(showSidebar) &&
                storage.items == old(storage.items)
      ensures uploading == (if fileName.Some? then false else old(uploading))
      ensures question == old(question) && loading == old(loading) && summarizing == old(summarizing)
    {
      added := None;
      if fileName.None? {
        return;
      }
      uploading := true;
      var readable := text.Some? && !IsBlank(text.value);
      if readable {
        var newDoc := Document(id, fileName.value, text.value, None, createdAt);
        documents := [newDoc] + documents;
        selectedDoc := Some(newDoc);
        answer := "";
        showSidebar := false;
        added := Some(newDoc);
        storage.SetItem(DOCUMENTS_ITEM, DocumentList(documents));
      }
      uploading := false;
    }

    /** Clicking a document in the list selects it and closes the sidebar. */
    method SelectDocument(doc: Document)
      requires Valid()
      modifies this
      ensures Valid()
      ensures selectedDoc == Some(doc) && !showSidebar
      ensures documents == old(documents) && answer == old(answer) && question == old(question)
      ensures loading == old(loading) && summarizing == old(summarizing) && uploading == old(uploading)
    {
      selectedDoc := Some(doc);
      showSidebar := false;
    }

    /** Typing in the question box replaces the question and nothing else. */
    method EditQuestion(text: string)
      requires Valid()
      modifies this
      ensures Valid()
      ensures question == text
      ensures documents == old(documents) && selectedDoc == old(selectedDoc) && answer == old(answer)
      ensures loading == old(loading) && summarizing == old(summarizing) && uploading == old(uploading)
      ensures showSidebar == old(showSidebar)
    {
      question := text;
    }

    /** `handleSummarize`. Nothing happens without a selected document or a stored credential;
        otherwise the selected document's context is sent, and on success every document with
        the selected id, and the selection itself, get the returned summary. */
    method HandleSummarize(response: Response) returns (sent: Option<Request>, outcome: Option<Outcome>)
      requires Valid()
      modifies this, storage
      ensures Valid()
      ensures sent.Some? <==> old(selectedDoc).Some? && Credential(old(storage.items)).Some?
      ensures sent.None? ==>
                outcome.None? && documents == old(documents) && selectedDoc == old(selectedDoc) &&
                summarizing == old(summarizing) && storage.items == old(storage.items)
      ensures sent.Some? ==>
                var sel := old(selectedDoc).value;
                sent.value == SummarizeRequest(Credential(old(storage.items)).value, sel.content) &&
                outcome == Some(Classify(response)) && !summarizing &&
                if outcome.value.Completed? then
                  documents == WithSummary(old(documents), sel.id, outcome.value.text) &&
                  selectedDoc == Some(sel.(summary := Some(outcome.value.text))) &&
                  storage.items == old(storage.items)[DOCUMENTS_ITEM := DocumentList(documents)]
                else
                  documents == old(documents) && selectedDoc == old(selectedDoc) &&
                  storage.items == old(storage.items)
      ensures answer == old(answer) && question == old(question) && loading == old(loading)
      ensures uploading == old(uploading) && showSidebar == old(showSidebar)
    {
      sent, outcome := None, None;
      if selectedDoc.None? {
        return;
      }
      var apiKey := Credential(storage.items);
      if apiKey.None? {
        return;
      }
      var sel := selectedDoc.value;
      summarizing := true;
      sent := Some(SummarizeRequest(apiKey.value, sel.content));
      var result := Classify(response);
      outcome := Some(result);
      if result.Completed? {
        documents := WithSummary(documents, sel.id, result.text);
        storage.SetItem(DOCUMENTS_ITEM, DocumentList(documents));
        selectedDoc := Some(sel.(summary := Some(result.text)));
      }
      summarizing := false;
    }

    /** `handleAskQuestion`. Nothing happens without a selected document, with a blank question
        or without a stored credential; otherwise the question is sent with the document
        context, and on success the answer is set and the question cleared. */
    method HandleAskQuestion(response: Response) returns (sent: Option<Request>, outcome: Option<Outcome>)
      requires Valid()
      modifies this
      ensures Valid()
      ensures sent.Some? <==>
                old(selectedDoc).Some? && !IsBlank(old(question)) && Credential(storage.items).Some?
      ensures sent.None? ==>
                outcome.None? && answer == old(answer) && question == old(question) &&
                loading == old(loading)
      ensures sent.Some? ==>
                sent.value == AskRequest(Credential(storage.items).value,
                                         old(selectedDoc).value.content, old(question)) &&
                outcome == Some(Classify(response)) && !loading &&
                if outcome.value.Completed? then answer == outcome.value.text && question == ""
                else answer == old(answer) && question == old(question)
      ensures documents == old(documents) && selectedDoc == old(selectedDoc)
      ensures summarizing == old(summarizing) && uploading == old(uploading)
      ensures showSidebar == old(showSidebar)
    {
      sent, outcome := None, None;
      if selectedDoc.None? || IsBlank(question) {
        return;
      }
      var apiKey := Credential(storage.items);
      if apiKey.None? {
        return;
      }
      loading := true;
      sent := Some(AskRequest(apiKey.value, selectedDoc.value.content, question));
      var result := Classify(response);
      outcome := Some(result);
      if result.Completed? {
        answer := result.text;
        question := "";
      }
      loading := false;
    }

    /** `handleDeleteDocument`, gated by the user's answer to the confirmation. When confirmed,
        every document with the id is removed, and the selection and the answer are cleared
        when the selected document had that id. */
    method HandleDeleteDocument(id: string, confirmed: bool)
      requires Valid()
      modifies this, storage
      ensures Valid()
      ensures !confirmed ==>
                documents == old(documents) && selectedDoc == old(selectedDoc) &&
                answer == old(answer) && storage.items == old(storage.items)
      ensures confirmed ==>
                documents == WithoutDocument(old(documents), id) &&
                storage.items == old(storage.items)[DOCUMENTS_ITEM := DocumentList(documents)]
      ensures confirmed && old(selectedDoc).Some? && old(selectedDoc).value.id == id ==>
                selectedDoc == None && answer == ""
      ensures !(confirmed && old(selectedDoc).Some? && old(selectedDoc).value.id == id) ==>
                selectedDoc == old(selectedDoc) && answer == old(answer)
      ensures question == old(question) && loading == old(loading)
      ensures summarizing == old(summarizing) && uploading == old(uploading)
      ensures showSidebar == old(showSidebar)
    {
      if !confirmed {
        return;
      }
      documents := WithoutDocument(documents, id);
      storage.SetItem(DOCUMENTS_ITEM, DocumentList(documents));
      if selectedDoc.Some? && selectedDoc.value.id == id {
        selectedDoc := None;
        answer := "";
      }
    }
  }
}
