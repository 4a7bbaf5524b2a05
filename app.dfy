/**
 * The application shell (`App`): which of the four modes is shown, the sidebar, and the
 * header's credential box, which keeps its own copy of the key and saves it trimmed.
 */
module AppShell {
  import opened Wrappers
  import opened JsString
  import opened Storage

  /** The four modes; exactly one is shown at a time. */
  datatype Mode = Rag | Chat | Blog | Code

  const ALL_MODES: seq<Mode> := [Rag, Chat, Blog, Code]

  /** The modes whose conditional `activeMode === mode && <Mode />` renders a component. */
  function RenderedModes(activeMode: Mode): (r: seq<Mode>)
  {
    (if activeMode == Rag then [Rag] else []) +
    (if activeMode == Chat then [Chat] else []) +
    (if activeMode == Blog then [Blog] else []) +
    (if activeMode == Code then [Code] else [])
  }

  /** Exactly one component is rendered, the one for the active mode. */
  lemma ExactlyOneModeRendered(activeMode: Mode)
    ensures RenderedModes(activeMode) == [activeMode]
    ensures forall m :: m in ALL_MODES ==> (m in RenderedModes(activeMode) <==> m == activeMode)
  {
  }

  /** What the header saves for a typed key is its trimmed value; it is a credential the next
      load reads back, and saving that value once more stores the same thing. */
  lemma SavedKeyReadsBack(items: map<string, Stored>, typed: string)
    requires !IsBlank(typed)
    ensures Credential(items[API_KEY_ITEM := Raw(Trim(typed))]) == Some(Trim(typed))
    ensures !IsBlank(Trim(typed)) && Trim(Trim(typed)) == Trim(typed)
  {
    TrimIdempotent(typed);
  }

  class App {
    var activeMode: Mode
    var apiKey: string
    var sidebarOpen: bool
    const storage: LocalStorage

    /** The first render: the chat mode, an empty key, the sidebar closed. */
    constructor (storage: LocalStorage)
      ensures this.storage == storage
      ensures activeMode == Chat && apiKey == "" && !sidebarOpen
    {
      this.storage := storage;
      activeMode := Chat;
      apiKey := "";
      sidebarOpen := false;
    }

    /** The mount effect: a stored non-empty credential replaces the key; otherwise the key
        keeps its value. */
    method LoadSavedKey()
      modifies this
      ensures apiKey == Credential(storage.items).GetOr(old(apiKey))
      ensures activeMode == old(activeMode) && sidebarOpen == old(sidebarOpen)
    {
      var savedKey := Credential(storage.items);
      if savedKey.Some? {
        apiKey := savedKey.value;
      }
    }

    /** Typing in the header's box replaces the key in memory only. */
    method EditKey(text: string)
      modifies this
      ensures apiKey == text
      ensures activeMode == old(activeMode) && sidebarOpen == old(sidebarOpen)
    {
      apiKey := text;
    }

    /** `handleSaveKey`. A blank key changes nothing. Otherwise the trimmed key is stored,
        after which it is the credential every mode reads; the typed key in memory keeps its
        untrimmed value. */
    method HandleSaveKey() returns (saved: bool)
      modifies storage
      ensures saved <==> !IsBlank(apiKey)
      ensures saved ==> storage.items == old(storage.items)[API_KEY_ITEM := Raw(Trim(apiKey))]
      ensures saved ==> Credential(storage.items) == Some(Trim(apiKey))
      ensures !saved ==> storage.items == old(storage.items)
    {
      if IsBlank(apiKey) {
        return false;
      }
      storage.SetItem(API_KEY_ITEM, Raw(Trim(apiKey)));
      return true;
    }

    /** Choosing a mode shows it and closes the sidebar. */
    method SelectMode(mode: Mode)
      modifies this
      ensures activeMode == mode && !sidebarOpen
      ensures RenderedModes(activeMode) == [mode]
      ensures apiKey == old(apiKey)
    {
      activeMode := mode;
      sidebarOpen := false;
    }

    /** The menu button opens the sidebar. */
    method OpenSidebar()
      modifies this
      ensures sidebarOpen
      ensures activeMode == old(activeMode) && apiKey == old(apiKey)
    {
      sidebarOpen := true;
    }

    /** The close button and the overlay close the sidebar. */
    method CloseSidebar()
      modifies this
      ensures !sidebarOpen
      ensures activeMode == old(activeMode) && apiKey == old(apiKey)
    {
      sidebarOpen := false;
    }
  }
}
