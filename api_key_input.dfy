/**
 * The credential entry box (`ApiKeyInput`): a draft key, initialised from the context, that
 * replaces the context's key when it is not blank.
 */
module KeyInput {
  import opened Wrappers
  import opened JsString
  import opened Storage
  import opened ApiKeyManager

  class ApiKeyInput {
    const provider: ApiKeyProvider
    var tempKey: string

    /** The draft starts as the context's key at the time the box is created. */
    constructor (provider: ApiKeyProvider)
      ensures this.provider == provider && tempKey == provider.apiKey
    {
      this.provider := provider;
      tempKey := provider.apiKey;
    }

    /** Typing replaces the draft. */
    method Edit(text: string)
      modifies this
      ensures tempKey == text
    {
      tempKey := text;
    }

    /** `handleSave`. A blank draft changes nothing. Otherwise the draft, untrimmed, becomes
        the context's key and the stored credential. */
    method HandleSave() returns (saved: bool)
      modifies provider, provider.storage
      ensures saved <==> !IsBlank(tempKey)
      ensures saved ==>
                provider.apiKey == tempKey && provider.InSync() &&
                provider.storage.items == old(provider.storage.items)[API_KEY_ITEM := Raw(tempKey)]
      ensures !saved ==>
                provider.apiKey == old(provider.apiKey) &&
                provider.storage.items == old(provider.storage.items)
    {
      if IsBlank(tempKey) {
        return false;
      }
      provider.SetApiKey(tempKey);
      return true;
    }
  }

  /** A saved draft is never empty, so it always reads back as the credential, and it reads
      back with any surrounding whitespace it had. */
  lemma SavedDraftIsCredential(items: map<string, Stored>, draft: string)
    requires !IsBlank(draft)
    ensures Credential(items[API_KEY_ITEM := Raw(draft)]) == Some(draft)
  {
  }
}
