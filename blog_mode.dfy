/**
 * The blog mode (`BlogMode`): a topic, a tone and a length option become one completion
 * request, and the reply becomes the blog content.
 */
module Blog {
  import opened Wrappers
  import opened JsString
  import opened Completion
  import opened Storage

  const DEFAULT_TONE := "professional"
  const DEFAULT_LENGTH := "medium"
  const BLOG_TEMPERATURE := 0.7
  const BLOG_INSTRUCTION :=
    "You are a professional blog writer who writes structured, engaging, SEO-friendly blog posts with headings and proper formatting."

  /** The word-count phrase for a length option. */
  function LengthGuide(length: string): string
  {
    if length == "short" then "300-500 words"
    else if length == "medium" then "700-1000 words"
    else "1500-2000 words"
  }

  /** Only "short" and "medium" are recognised; every other option, the empty one included,
      asks for the longest post. The guide is always one of the three phrases. */
  lemma LengthGuideCases(length: string)
    ensures LengthGuide(length) in {"300-500 words", "700-1000 words", "1500-2000 words"}
    ensures LengthGuide(length) == "300-500 words" <==> length == "short"
    ensures LengthGuide(length) == "700-1000 words" <==> length == "medium"
    ensures LengthGuide(length) == "1500-2000 words" <==> length != "short" && length != "medium"
  {
  }

  /** The user prompt: the tone, the topic in double quotes (not escaped) and the guide. */
  function BlogPrompt(tone: string, topic: string, guide: string): (r: string)
  {
    "Write a " + tone + " blog about \"" + topic + "\" in " + guide +
    ". Use clear headings, subheadings, and proper paragraph formatting."
  }

  /** Where the three inputs sit in the prompt: the tone at offset 8, the topic after the
      opening quote, the guide after the closing quote and " in ". */
  lemma BlogPromptPlaces(tone: string, topic: string, guide: string)
    ensures var r := BlogPrompt(tone, topic, guide);
            var t := 8 + |tone| + 13;
            var g := t + |topic| + 5;
            g + |guide| < |r| &&
            r[..8] == "Write a " && r[8..8 + |tone|] == tone &&
            r[t - 1] == '"' && r[t..t + |topic|] == topic && r[t + |topic|] == '"' &&
            r[g..g + |guide|] == guide
  {
  }

  /** The request: the fixed instruction, the prompt as the user's message, temperature 0.7. */
  function BlogRequest(apiKey: string, tone: string, topic: string, length: string): (r: Request)
    ensures r.apiKey == apiKey && r.model == MODEL && r.temperature == Some(0.7)
    ensures |r.messages| == 2 && r.messages[0] == ChatMessage(System, BLOG_INSTRUCTION)
    ensures r.messages[1] == ChatMessage(User, BlogPrompt(tone, topic, LengthGuide(length)))
  {
    Request(apiKey, MODEL,
            [ChatMessage(System, BLOG_INSTRUCTION),
             ChatMessage(User, BlogPrompt(tone, topic, LengthGuide(length)))],
            Some(BLOG_TEMPERATURE))
  }

  class BlogMode {
    var topic: string
    var tone: string
    var length: string
    var blogContent: string
    var loading: bool
    const storage: LocalStorage

    constructor (storage: LocalStorage)
      ensures this.storage == storage
      ensures topic == "" && tone == DEFAULT_TONE && length == DEFAULT_LENGTH
      ensures blogContent == "" && !loading
    {
      this.storage := storage;
      topic := "";
      tone := DEFAULT_TONE;
      length := DEFAULT_LENGTH;
      blogContent := "";
      loading := false;
    }

    /** Typing in the topic box replaces the topic and nothing else. */
    method EditTopic(text: string)
      modifies this
      ensures topic == text
      ensures tone == old(tone) && length == old(length)
      ensures blogContent == old(blogContent) && loading == old(loading)
    {
      topic := text;
    }

    /** Choosing a tone replaces it and nothing else. */
    method EditTone(text: string)
      modifies this
      ensures tone == text
      ensures topic == old(topic) && length == old(length)
      ensures blogContent == old(blogContent) && loading == old(loading)
    {
      tone := text;
    }

    /** Choosing a length option replaces it and nothing else. */
    method EditLength(text: string)
      modifies this
      ensures length == text
      ensures topic == old(topic) && tone == old(tone)
      ensures blogContent == old(blogContent) && loading == old(loading)
    {
      length := text;
    }

    /** `handleGenerate`. A blank topic or no stored credential sends nothing. Otherwise the
        request goes out; a reply becomes the content and a failure leaves it as it was.
        `loading` is false again afterwards. */
    method HandleGenerate(response: Response) returns (sent: Option<Request>, outcome: Option<Outcome>)
      modifies this
      ensures sent.Some? <==> !IsBlank(old(topic)) && Credential(storage.items).Some?
      ensures sent.Some? ==>
                sent.value == BlogRequest(Credential(storage.items).value, old(tone), old(topic), old(length)) &&
                outcome == Some(Classify(response)) && !loading
      ensures sent.None? ==> outcome.None? && loading == old(loading)
      ensures if outcome.Some? && outcome.value.Completed?
              then blogContent == outcome.value.text
              else blogContent == old(blogContent)
      ensures topic == old(topic) && tone == old(tone) && length == old(length)
    {
      sent, outcome := None, None;
      if IsBlank(topic) {
        return;
      }
      var apiKey := Credential(storage.items);
      if apiKey.None? {
        return;
      }
      loading := true;
      sent := Some(BlogRequest(apiKey.value, tone, topic, length));
      var result := Classify(response);
      outcome := Some(result);
      if result.Completed? {
        blogContent := result.text;
      }
      loading := false;
    }
  }
}
