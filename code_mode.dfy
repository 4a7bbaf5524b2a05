/**
 * The code mode (`CodeMode`): a task and a language are sent as one completion request, and
 * the reply is split into `code` and `explanation` by the first match of the fence pattern
 * `/```[\w]*\n([\s\S]*?)```/`, three backticks, a run of word characters, a line feed, the
 * shortest body, and three closing backticks.
 */
module Code {
  import opened Wrappers
  import opened JsString
  import opened Completion
  import opened Storage

  const DEFAULT_LANGUAGE := "javascript"
  const CODE_TEMPERATURE := 0.5

  /** `\w` without the `u` flag: ASCII letters, digits and the underscore. */
  predicate IsWordChar(c: char)
  {
    ('a' <= c <= 'z') || ('A' <= c <= 'Z') || ('0' <= c <= '9') || c == '_'
  }

  /** Three backticks start at index `i` of `s`. */
  predicate Backticks(s: string, i: int)
  {
    0 <= i && i + 3 <= |s| && s[i] == '`' && s[i + 1] == '`' && s[i + 2] == '`'
  }

  /** A match of the fence pattern, as the regular expression defines it, starting at `p`:
      the opener `s[p..b]` is three backticks, word characters and a line feed, the body is
      `s[b..e]`, the closing backticks start at `e`, and the body is the shortest possible,
      since no three backticks start inside it. */
  predicate IsFenceMatch(s: string, p: int, b: int, e: int)
  {
    Backticks(s, p) && p + 4 <= b <= e && Backticks(s, e) &&
    (forall k :: p + 3 <= k < b - 1 ==> IsWordChar(s[k])) && s[b - 1] == '\n' &&
    (forall j :: b <= j < e ==> !Backticks(s, j))
  }

  /** Where a match found in a reply sits: its start, and the bounds of its body. The whole
      match is `s[start .. bodyEnd + 3]`. */
  datatype Fence = Fence(start: nat, bodyStart: nat, bodyEnd: nat)

  /** The end of the run of word characters that begins at `k`. */
  function WordRunEnd(s: string, k: nat): (q: nat)
    requires k <= |s|
    ensures k <= q <= |s|
    ensures forall i :: k <= i < q ==> IsWordChar(s[i])
    ensures q < |s| ==> !IsWordChar(s[q])
    decreases |s| - k
  {
    if k == |s| || !IsWordChar(s[k]) then k else WordRunEnd(s, k + 1)
  }

  /** The first index at or after `j` where three backticks start: the lazy `[\s\S]*?`
      stops at the first closing fence. */
  function CloseFrom(s: string, j: nat): (e: Option<nat>)
    ensures e.Some? ==> j <= e.value && Backticks(s, e.value) &&
                        forall i :: j <= i < e.value ==> !Backticks(s, i)
    ensures e.None? ==> forall i :: j <= i ==> !Backticks(s, i)
    decreases |s| - j
  {
    if j + 3 > |s| then None
    else if Backticks(s, j) then Some(j)
    else CloseFrom(s, j + 1)
  }

  /** The match the regular expression finds when it tries position `p`, if any. The greedy
      `[\w]*` can only be followed by the line feed where the word run ends, so backtracking
      into it finds nothing more. */
  function MatchAt(s: string, p: nat): Option<Fence>
  {
    if !Backticks(s, p) then None
    else
      var q := WordRunEnd(s, p + 3);
      if q < |s| && s[q] == '\n' then
        match CloseFrom(s, q + 1)
        case None => None
        case Some(e) => Some(Fence(p, q + 1, e))
      else None
  }

  /** The leftmost match at or after `p`. */
  function FindFence(s: string, p: nat): Option<Fence>
    decreases |s| - p
  {
    if p >= |s| then None
    else match MatchAt(s, p)
      case Some(f) => Some(f)
      case None => FindFence(s, p + 1)
  }

  /** What `MatchAt` finds is a match of the pattern, and any match of the pattern at `p` is
      the one `MatchAt` finds: the fence at a position is unique. */
  lemma MatchAtExact(s: string, p: nat, b: int, e: int)
    ensures MatchAt(s, p).Some? ==>
              var f := MatchAt(s, p).value;
              f.start == p && IsFenceMatch(s, p, f.bodyStart, f.bodyEnd)
    ensures IsFenceMatch(s, p, b, e) ==> MatchAt(s, p) == Some(Fence(p, b, e))
  {
  }

  /** `FindFence` is the leftmost match: what it returns is a match, no match starts between
      `p` and it, and when it returns nothing there is no match at or after `p`. */
  lemma {:induction false} FindFenceLeftmost(s: string, p: nat)
    ensures FindFence(s, p).Some? ==>
              var f := FindFence(s, p).value;
              p <= f.start && IsFenceMatch(s, f.start, f.bodyStart, f.bodyEnd) &&
              forall p', b, e :: p <= p' < f.start ==> !IsFenceMatch(s, p', b, e)
    ensures FindFence(s, p).None? ==>
              forall p', b, e :: p <= p' ==> !IsFenceMatch(s, p', b, e)
    decreases |s| - p
  {
    if p < |s| {
      MatchAtExact(s, p, 0, 0);
      if MatchAt(s, p).None? {
        FindFenceLeftmost(s, p + 1);
        forall b, e ensures !IsFenceMatch(s, p, b, e) {
          MatchAtExact(s, p, b, e);
        }
      }
    }
  }

  /** The body of a match never holds three backticks in a row: the lazy body ends at the
      first closing fence. */
  lemma FenceBodyHasNoBackticks(s: string, p: int, b: int, e: int)
    requires IsFenceMatch(s, p, b, e)
    ensures forall j :: !Backticks(s[b..e], j)
  {
    forall j | Backticks(s[b..e], j)
      ensures false
    {
      assert Backticks(s, b + j);
    }
  }

  /** An opener whose word run is followed by anything but a line feed, as in "```c++\n",
      does not match at that position. */
  lemma NonWordOpenerDoesNotMatch(s: string, p: nat, k: nat)
    requires Backticks(s, p) && p + 3 <= k < |s|
    requires forall i :: p + 3 <= i < k ==> IsWordChar(s[i])
    requires !IsWordChar(s[k]) && s[k] != '\n'
    ensures MatchAt(s, p) == None
    ensures forall b, e :: !IsFenceMatch(s, p, b, e)
  {
  }

  /** The split of a reply into code and explanation: with a match, the trimmed body and the
      reply with the whole match cut out, trimmed; with none, the reply as it is and "". */
  function SplitReply(reply: string): (r: (string, string))
  {
    match FindFence(reply, 0)
    case None => (reply, "")
    case Some(f) =>
      FindFenceLeftmost(reply, 0);
      (Trim(reply[f.bodyStart..f.bodyEnd]), Trim(reply[..f.start] + reply[f.bodyEnd + 3..]))
  }

  /** The split in terms of the pattern: when the reply holds a match, the code is the trimmed
      body of the leftmost match and the explanation is what surrounds that match, trimmed;
      when it holds none, the code is the untrimmed reply and the explanation is empty. */
  lemma SplitReplySpec(reply: string)
    ensures (forall p, b, e :: !IsFenceMatch(reply, p, b, e)) ==> SplitReply(reply) == (reply, "")
    ensures forall p, b, e ::
              IsFenceMatch(reply, p, b, e) &&
              (forall p', b', e' :: 0 <= p' < p ==> !IsFenceMatch(reply, p', b', e')) ==>
              SplitReply(reply) == (Trim(reply[b..e]), Trim(reply[..p] + reply[e + 3..]))
  {
    FindFenceLeftmost(reply, 0);
    forall p, b, e |
      IsFenceMatch(reply, p, b, e) &&
      (forall p', b', e' :: 0 <= p' < p ==> !IsFenceMatch(reply, p', b', e'))
      ensures SplitReply(reply) == (Trim(reply[b..e]), Trim(reply[..p] + reply[e + 3..]))
    {
      var f := FindFence(reply, 0).value;
      assert f.start >= p;
      assert p >= f.start;
      MatchAtExact(reply, p, b, e);
      assert f == Fence(p, b, e);
    }
  }

  /** A reply opening with "```c++\n" and holding no other fence is not split at all. */
  lemma CPlusPlusFenceIsNotCode()
    ensures SplitReply("```c++\nx```") == ("```c++\nx```", "")
  {
    var s := "```c++\nx```";
    NonWordOpenerDoesNotMatch(s, 0, 4);
    forall p, b, e ensures !IsFenceMatch(s, p, b, e) {
      if 0 < p < 8 {
        assert !Backticks(s, p);
      } else if p == 8 {
        assert !(p + 4 <= b <= e && Backticks(s, e));
      }
    }
    SplitReplySpec(s);
  }

  /** Where the split of the reply below comes from: its only fence starts at 6 and its body
      is "f()\n"; the explanation is what surrounds the fence. */
  lemma FencedReplyLocated()
    ensures SplitReply("Here:\n```js\nf()\n```\nDone") == (Trim("f()\n"), Trim("Here:\n\nDone"))
  {
    var s := "Here:\n```js\nf()\n```\nDone";
    assert IsFenceMatch(s, 6, 12, 16) by {
      assert forall j :: 12 <= j < 16 ==> !Backticks(s, j);
    }
    assert forall p', b', e' :: 0 <= p' < 6 ==> !IsFenceMatch(s, p', b', e') by {
      assert forall p' :: 0 <= p' < 6 ==> !Backticks(s, p');
    }
    assert s[12..16] == "f()\n";
    assert s[..6] + s[19..] == "Here:\n\nDone";
    SplitReplySpec(s);
  }

  /** A reply with one well-formed fence: its code is the body without the line feed that
      closes it, and its explanation is the text around the fence, which keeps its inner blank
      line. */
  lemma FencedReplySplit()
    ensures SplitReply("Here:\n```js\nf()\n```\nDone") == ("f()", "Here:\n\nDone")
  {
    assert Trim("f()\n") == "f()" by {
      assert TrimStart("f()\n") == "f()\n";
      assert "f()\n"[..3] == "f()";
      assert TrimEnd("f()") == "f()";
    }
    assert Trim("Here:\n\nDone") == "Here:\n\nDone" by {
      assert TrimStart("Here:\n\nDone") == "Here:\n\nDone";
      assert TrimEnd("Here:\n\nDone") == "Here:\n\nDone";
    }
    FencedReplyLocated();
  }

  const CODE_INSTRUCTION_HEAD :=
    "You are an expert programmer. Generate clean, efficient, and well-commented code in "
  const CODE_INSTRUCTION_TAIL :=
    ". Always provide the code inside triple backticks first, then a brief explanation."

  /** The request for a `task`: the system instruction with the chosen language in it, `task`
      verbatim as the user's message, temperature 0.5. */
  function CodeRequest(apiKey: string, language: string, task: string): (r: Request)
    ensures r.model == MODEL && r.apiKey == apiKey && r.temperature == Some(0.5)
    ensures |r.messages| == 2 && r.messages[0].role == System && r.messages[1] == ChatMessage(User, task)
    ensures var h := |CODE_INSTRUCTION_HEAD|;
            h + |language| <= |r.messages[0].content| &&
            r.messages[0].content[h..h + |language|] == language
  {
    var instruction := CODE_INSTRUCTION_HEAD + language + CODE_INSTRUCTION_TAIL;
    assert instruction[|CODE_INSTRUCTION_HEAD|..|CODE_INSTRUCTION_HEAD| + |language|] == language;
    Request(apiKey, MODEL,
            [ChatMessage(System, instruction), ChatMessage(User, task)],
            Some(CODE_TEMPERATURE))
  }

  class CodeMode {
    var language: string
    var task: string
    var code: string
    var explanation: string
    var loading: bool
    const storage: LocalStorage

    constructor (storage: LocalStorage)
      ensures this.storage == storage
      ensures language == DEFAULT_LANGUAGE && task == "" && code == "" && explanation == "" && !loading
    {
      this.storage := storage;
      language := DEFAULT_LANGUAGE;
      task := "";
      code := "";
      explanation := "";
      loading := false;
    }

    /** Choosing a language replaces it and nothing else. */
    method EditLanguage(text: string)
      modifies this
      ensures language == text
      ensures task == old(task) && code == old(code) && explanation == old(explanation)
      ensures loading == old(loading)
    {
      language := text;
    }

    /** Typing in the task box replaces the task and nothing else. */
    method EditTask(text: string)
      modifies this
      ensures task == text
      ensures language == old(language) && code == old(code) && explanation == old(explanation)
      ensures loading == old(loading)
    {
      task := text;
    }

    /** `handleGenerate`. A blank task or no stored credential sends nothing. Otherwise the
        request goes out; a reply is split into `code` and `explanation`, and a failure leaves
        both as they were. `loading` is false again afterwards. */
    method HandleGenerate(response: Response) returns (sent: Option<Request>, outcome: Option<Outcome>)
      modifies this
      ensures sent.Some? <==> !IsBlank(old(task)) && Credential(storage.items).Some?
      ensures sent.Some? ==>
                sent.value == CodeRequest(Credential(storage.items).value, old(language), old(task)) &&
                outcome == Some(Classify(response)) && !loading
      ensures sent.None? ==> outcome.None? && loading == old(loading)
      ensures if outcome.Some? && outcome.value.Completed?
              then (code, explanation) == SplitReply(outcome.value.text)
              else code == old(code) && explanation == old(explanation)
      ensures language == old(language) && task == old(task)
    {
      sent, outcome := None, None;
      if IsBlank(task) {
        return;
      }
      var apiKey := Credential(storage.items);
      if apiKey.None? {
        return;
      }
      loading := true;
      sent := Some(CodeRequest(apiKey.value, language, task));
      var result := Classify(response);
      outcome := Some(result);
      if result.Completed? {
        var split := SplitReply(result.text);
        code := split.0;
        explanation := split.1;
      }
      loading := false;
    }
  }
}
