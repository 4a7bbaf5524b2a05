/**
 * The credential context (`ApiKeyProvider`, `useApiKey`): an in-memory copy of the stored
 * credential that components below the provider can read and replace.
 */
module ApiKeyManager {
  import opened Wrappers
  import opened Storage

  const OUTSIDE_PROVIDER := "useApiKey must be used inside ApiKeyProvider"

  class ApiKeyProvider {
    var apiKey: string
    const storage: LocalStorage

    /** The in-memory key and the stored item agree. */
    ghost predicate InSync()
      reads this, storage
    {
      API_KEY_ITEM in storage.items && storage.items[API_KEY_ITEM] == Raw(apiKey)
    }

    /** The first render: the key starts empty. */
    constructor (storage: LocalStorage)
      ensures this.storage == storage && apiKey == ""
    {
      this.storage := storage;
      apiKey := "";
    }

    /** The mount effect: a stored non-empty credential replaces the key; otherwise the key
        keeps its value. Storage is only read. */
    method LoadSaved()
      modifies this
      ensures apiKey == Credential(storage.items).GetOr(old(apiKey))
    {
      var saved := Credential(storage.items);
      if saved.Some? {
        apiKey := saved.value;
      }
    }

    /** `setApiKey(key)`: the key is taken as it is, with no trimming and no emptiness test,
        into memory and then into storage, so afterwards the two agree. */
    method SetApiKey(key: string)
      modifies this, storage
      ensures apiKey == key
      ensures storage.items == old(storage.items)[API_KEY_ITEM := Raw(key)]
      ensures InSync()
    {
      apiKey := key;
      storage.SetItem(API_KEY_ITEM, Raw(key));
    }
  }

  /** `useApiKey()`: the context when a provider is above the caller, and otherwise the error
      it throws. */
  function UseApiKey(context: Option<ApiKeyProvider>): (r: Result<ApiKeyProvider, string>)
    ensures r.Success? <==> context.Some?
    ensures r.Success? ==> r.value == context.value
    ensures r.Failure? ==> r.error == OUTSIDE_PROVIDER
  {
    match context
    case None => Failure(OUTSIDE_PROVIDER)
    case Some(c) => Success(c)
  }

  /** What `setApiKey` stores is read back by the next load unchanged, exactly when it is not
      empty: the empty key is stored but reads back as no credential. */
  lemma SetThenLoad(items: map<string, Stored>, key: string, previous: string)
    ensures Credential(items[API_KEY_ITEM := Raw(key)]).GetOr(previous) ==
              if key == "" then previous else key
  {
  }
}
