/** The text service: cached generation, chat with an in-memory conversation store, and
    the prompts it assembles for summarising, translating and completing. Every upstream
    call goes through `generate_text` with its retry loop; the cache is the in-memory
    cache service, read when a request arrives and written when the answer is back. */
module TextServices {
  import opened Wrappers
  import opened PyText
  import opened Exceptions
  import Config
  import Canonical
  import Caching
  import Client

  /** A keyword-argument value as `str(...)` of the sorted items can show it. */
  datatype KeyValue = KStr(s: string) | KReal(r: real) | KInt(i: int) | KNone

  /** The fields of `TextGenerationRequest` that reach the service. */
  datatype GenerationRequest = GenerationRequest(
    prompt: string, temperature: real, maxTokens: Option<int>, topP: Option<real>, topK: Option<int>,
    stopSequences: Option<seq<string>>, model: Option<string>)

  /** The cached and returned `TextGenerationResponse` (without its timestamp and finish reason). */
  datatype GenerationResponse = GenerationResponse(text: string, model: string, usage: map<string, int>)

  datatype ChatMessage = ChatMessage(role: string, content: string)

  datatype ChatRequest = ChatRequest(messages: seq<ChatMessage>, systemInstruction: Option<string>,
                                     temperature: real, maxTokens: Option<int>, model: Option<string>)

  datatype ChatResponse = ChatResponse(message: ChatMessage, conversationId: string, usage: map<string, int>,
                                       model: string)

  /** Keyword arguments can never be named `prompt`: Python refuses a second value for it. */
  predicate NoPromptKeyword(kwargs: seq<(string, KeyValue)>) {
    forall i :: 0 <= i < |kwargs| ==> kwargs[i].0 != "prompt"
  }

  /** `_get_cache_key(prompt, **kwargs)`: the digest of `str(sorted({"prompt": prompt, **kwargs}.items()))`;
      the rendering and the digest are given as functions. */
  function CacheKey(prompt: string, kwargs: seq<(string, KeyValue)>,
                    show: seq<(string, KeyValue)> -> string, digest: string -> string): string
  {
    digest(show(Canonical.SortByKey([("prompt", KStr(prompt))] + kwargs)))
  }

  /** The key does not depend on the order in which the keyword arguments were passed. */
  lemma CacheKeyOrderIndependent(prompt: string, kw1: seq<(string, KeyValue)>, kw2: seq<(string, KeyValue)>,
                                 show: seq<(string, KeyValue)> -> string, digest: string -> string)
    requires Canonical.KeysUnique(kw1) && Canonical.KeysUnique(kw2)
    requires NoPromptKeyword(kw1) && NoPromptKeyword(kw2)
    requires multiset(kw1) == multiset(kw2)
    ensures CacheKey(prompt, kw1, show, digest) == CacheKey(prompt, kw2, show, digest)
  {
    var p: (string, KeyValue) := ("prompt", KStr(prompt));
    assert Canonical.KeysUnique([p] + kw1) by {
      forall i, j | 0 <= i < j < |[p] + kw1| ensures ([p] + kw1)[i].0 != ([p] + kw1)[j].0 {
        if i > 0 {
          assert ([p] + kw1)[i] == kw1[i - 1];
        }
      }
    }
    assert Canonical.KeysUnique([p] + kw2) by {
      forall i, j | 0 <= i < j < |[p] + kw2| ensures ([p] + kw2)[i].0 != ([p] + kw2)[j].0 {
        if i > 0 {
          assert ([p] + kw2)[i] == kw2[i - 1];
        }
      }
    }
    assert multiset([p] + kw1) == multiset([p] + kw2);
    Canonical.SortByKeyOrderIndependent([p] + kw1, [p] + kw2);
  }

  /** With an injective rendering and digest, different prompts get different keys. */
  lemma CacheKeySeparatesPrompts(p1: string, p2: string, kwargs: seq<(string, KeyValue)>,
                                 show: seq<(string, KeyValue)> -> string, digest: string -> string)
    requires forall x, y :: digest(x) == digest(y) ==> x == y
    requires forall x, y :: show(x) == show(y) ==> x == y
    requires p1 != p2
    ensures CacheKey(p1, kwargs, show, digest) != CacheKey(p2, kwargs, show, digest)
  {
    var a: seq<(string, KeyValue)> := [("prompt", KStr(p1))] + kwargs;
    var b: seq<(string, KeyValue)> := [("prompt", KStr(p2))] + kwargs;
    assert ("prompt", KStr(p1)) in multiset(a);
    if ("prompt", KStr(p1)) in multiset(b) {
      assert ("prompt", KStr(p1)) in b;
      var k :| 0 <= k < |b| && b[k] == ("prompt", KStr(p1));
      assert k > 0;
      assert kwargs[k - 1].0 == "prompt";
    }
    assert multiset(Canonical.SortByKey(a)) != multiset(Canonical.SortByKey(b));
  }

  /** The key of `generate`: the prompt with temperature, max_tokens and model. */
  function GenerationKey(request: GenerationRequest, show: seq<(string, KeyValue)> -> string,
                         digest: string -> string): string
  {
    CacheKey(request.prompt,
             [("temperature", KReal(request.temperature)),
              ("max_tokens", if request.maxTokens.Some? then KInt(request.maxTokens.value) else KNone),
              ("model", if request.model.Some? then KStr(request.model.value) else KNone)],
             show, digest)
  }

  /** top_p, top_k and the stop sequences do not enter the key, so two requests differing
      only in them share one cache entry. */
  lemma GenerationKeyIgnoresSampling(r1: GenerationRequest, r2: GenerationRequest,
                                     show: seq<(string, KeyValue)> -> string, digest: string -> string)
    requires r1.prompt == r2.prompt && r1.temperature == r2.temperature
    requires r1.maxTokens == r2.maxTokens && r1.model == r2.model
    ensures GenerationKey(r1, show, digest) == GenerationKey(r2, show, digest)
  {
  }

  /** One `generate` call over the cache's dictionary: the lookup at `requestedAt`; on a hit,
      the cached response and no upstream call; on a miss, `generate_text` and, when it
      succeeds, its text, model and usage returned and stored under the key that was looked
      up, with the default TTL at `completedAt`. A failure stores nothing. */
  function GenerateStep(entries: map<string, Caching.Entry<GenerationResponse>>, cacheSettings: Config.Settings,
                        settings: Config.Settings, key: string, request: GenerationRequest,
                        upstream: nat -> Result<Client.Reply, Client.UpstreamError>, requestedAt: int, completedAt: int)
    : (r: (Result<GenerationResponse, GatewayError>, map<string, Caching.Entry<GenerationResponse>>))
    ensures var hit := cacheSettings.enableCache && key in entries && requestedAt < entries[key].expiresAt;
            && (hit ==> r == (Success(entries[key].value), entries))
            && (!hit ==> (r.0.Success? <==> Client.GenerateText(upstream, request.prompt, request.model, settings).Success?))
            && (!hit && r.0.Success? ==>
                  var g := Client.GenerateText(upstream, request.prompt, request.model, settings).value;
                  var response := GenerationResponse(g.text, g.model, g.usage);
                  && r.0.value == response
                  && r.1 == (if cacheSettings.enableCache
                             then Caching.Store(Caching.Lookup(entries, key, requestedAt).1, key, response,
                                                Caching.EffectiveTtl(None, cacheSettings), completedAt,
                                                cacheSettings.cacheMaxSize)
                             else entries))
            && (r.0.Failure? ==>
                  r.1.Keys <= entries.Keys
                  && r.0.error == Client.GenerateText(upstream, request.prompt, request.model, settings).error)
  {
    var looked := if cacheSettings.enableCache then Caching.Lookup(entries, key, requestedAt) else (None, entries);
    if looked.0.Some? then (Success(looked.0.value), looked.1)
    else match Client.GenerateText(upstream, request.prompt, request.model, settings)
      case Failure(e) => (Failure(e), looked.1)
      case Success(res) =>
        var response := GenerationResponse(res.text, res.model, res.usage);
        var stored := if cacheSettings.enableCache
                      then Caching.Store(looked.1, key, response, Caching.EffectiveTtl(None, cacheSettings), completedAt,
                                         cacheSettings.cacheMaxSize)
                      else looked.1;
        (Success(response), stored)
  }

  /** A miss that succeeds makes the same request, within the cache TTL of the answer, a hit
      that returns the same response whatever the upstream would do the second time. */
  lemma GenerateMissThenHit(entries: map<string, Caching.Entry<GenerationResponse>>, cacheSettings: Config.Settings,
                            settings: Config.Settings, key: string, request: GenerationRequest,
                            u1: nat -> Result<Client.Reply, Client.UpstreamError>, u2: nat -> Result<Client.Reply, Client.UpstreamError>,
                            t0: int, t1: int, t2: int, t3: int)
    requires cacheSettings.enableCache && cacheSettings.Valid()
    requires t2 < t1 + cacheSettings.cacheTtlSeconds
    requires GenerateStep(entries, cacheSettings, settings, key, request, u1, t0, t1).0.Success?
    requires !(key in entries && t0 < entries[key].expiresAt)
    ensures var first := GenerateStep(entries, cacheSettings, settings, key, request, u1, t0, t1);
            GenerateStep(first.1, cacheSettings, settings, key, request, u2, t2, t3).0 == first.0
  {
    var looked := Caching.Lookup(entries, key, t0);
    var first := GenerateStep(entries, cacheSettings, settings, key, request, u1, t0, t1);
    var ttl := Caching.EffectiveTtl(None, cacheSettings);
    Caching.GetAfterSet(looked.1, key, first.0.value, ttl, t1, cacheSettings.cacheMaxSize, t2);
  }

  /** With the cache disabled, every `generate` goes upstream and the dictionary is never touched. */
  lemma GenerateWithoutCache(entries: map<string, Caching.Entry<GenerationResponse>>, cacheSettings: Config.Settings,
                             settings: Config.Settings, key: string, request: GenerationRequest,
                             upstream: nat -> Result<Client.Reply, Client.UpstreamError>, t0: int, t1: int)
    requires !cacheSettings.enableCache
    ensures var s := GenerateStep(entries, cacheSettings, settings, key, request, upstream, t0, t1);
            s.1 == entries
            && (s.0.Success? <==> Client.GenerateText(upstream, request.prompt, request.model, settings).Success?)
  {
  }

  /** One line of the chat transcript, `f"{role}: {content}\n"`. */
  function MessageLine(m: ChatMessage): string {
    m.role + ": " + m.content + "\n"
  }

  /** The transcript of a message list, one line per message in order. */
  function ConversationText(messages: seq<ChatMessage>): (t: string)
    ensures |t| >= 3 * |messages|
    ensures |messages| > 0 ==> t[|t| - 1] == '\n'
    decreases |messages|
  {
    if |messages| == 0 then ""
    else ConversationText(messages[..|messages| - 1]) + MessageLine(messages[|messages| - 1])
  }

  /** The transcript of two message lists in a row is the two transcripts one after the other. */
  lemma {:induction false} ConversationTextAppend(a: seq<ChatMessage>, b: seq<ChatMessage>)
    ensures ConversationText(a + b) == ConversationText(a) + ConversationText(b)
    decreases |b|
  {
    if |b| == 0 {
      assert a + b == a;
      assert ConversationText(b) == "";
    } else {
      var b' := b[..|b| - 1];
      var last := b[|b| - 1];
      assert (a + b)[..|a + b| - 1] == a + b' && (a + b)[|a + b| - 1] == last;
      assert ConversationText(a + b) == ConversationText(a + b') + MessageLine(last);
      assert ConversationText(b) == ConversationText(b') + MessageLine(last);
      ConversationTextAppend(a, b');
      assert ConversationText(a) + (ConversationText(b') + MessageLine(last))
          == (ConversationText(a) + ConversationText(b')) + MessageLine(last);
    }
  }

  /** The chat prompt: the transcript, preceded by a `System:` line when a system
      instruction is given and not empty. */
  function ChatPrompt(messages: seq<ChatMessage>, systemInstruction: Option<string>): (p: string)
    ensures TruthyStr(systemInstruction) ==>
              p == "System: " + systemInstruction.value + "\n" + ConversationText(messages)
    ensures !TruthyStr(systemInstruction) ==> p == ConversationText(messages)
  {
    var text := ConversationText(messages);
    if TruthyStr(systemInstruction) then "System: " + systemInstruction.value + "\n" + text else text
  }

  /** `summarize`'s prompt: the style, the approximate word count when one is given and
      not zero, then a colon, a blank line and the text. */
  function SummarizePrompt(style: string, maxLength: Option<int>, text: string): string {
    "Summarize the following text in a " + style + " style"
    + (if TruthyInt(maxLength) then " in approximately " + IntToString(maxLength.value) + " words" else "")
    + ":\n\n" + text
  }

  /** The summarising prompt always ends with the text after a blank line, and the word
      count clause appears exactly when a non-zero length is given. */
  lemma SummarizePromptShape(style: string, maxLength: Option<int>, text: string)
    ensures var p := SummarizePrompt(style, maxLength, text);
            var head := "Summarize the following text in a " + style + " style";
            && |p| >= |head| + 3 + |text|
            && p[..|head|] == head
            && p[|p| - |text| - 3..] == ":\n\n" + text
            && (TruthyInt(maxLength) <==> p[|head|] == ' ')
  {
    var head := "Summarize the following text in a " + style + " style";
    var mid := if TruthyInt(maxLength) then " in approximately " + IntToString(maxLength.value) + " words" else "";
    var tail := ":\n\n" + text;
    var p := SummarizePrompt(style, maxLength, text);
    assert p == (head + mid) + tail;
    assert p == head + (mid + tail);
    SplitAt(head + mid, tail);
    SplitAt(head, mid + tail);
    assert p[|head|] == (mid + tail)[0];
    assert TruthyInt(maxLength) ==> (mid + tail)[0] == mid[0];
  }

  /** The two halves of a concatenation can be read back by slicing. */
  lemma SplitAt(a: string, b: string)
    ensures (a + b)[..|a|] == a && (a + b)[|a|..] == b
  {
  }

  /** `summary_length / original_length`, or 0 for an empty original. */
  function CompressionRatio(originalLength: nat, summaryLength: nat): (ratio: real)
    ensures originalLength > 0 ==> ratio * originalLength as real == summaryLength as real
    ensures originalLength == 0 ==> ratio == 0.0
    ensures ratio >= 0.0
  {
    if originalLength > 0 then summaryLength as real / originalLength as real else 0.0
  }

  datatype SummarizeResponse = SummarizeResponse(summary: string, originalLength: nat, summaryLength: nat,
                                                 compressionRatio: real)

  /** `summarize`: the prompt goes through `generate_text`; the response records both
      lengths and their ratio. */
  function Summarize(upstream: nat -> Result<Client.Reply, Client.UpstreamError>, text: string, style: string,
                     maxLength: Option<int>, settings: Config.Settings): (r: Result<SummarizeResponse, GatewayError>)
    ensures var g := Client.GenerateText(upstream, SummarizePrompt(style, maxLength, text), None, settings);
            && (r.Success? <==> g.Success?)
            && (r.Failure? ==> r.error == g.error)
            && (r.Success? ==> r.value.summary == g.value.text && r.value.originalLength == |text|
                               && r.value.summaryLength == |g.value.text|
                               && r.value.compressionRatio == CompressionRatio(|text|, |g.value.text|))
  {
    match Client.GenerateText(upstream, SummarizePrompt(style, maxLength, text), None, settings)
    case Failure(e) => Failure(e)
    case Success(res) =>
      Success(SummarizeResponse(res.text, |text|, |res.text|, CompressionRatio(|text|, |res.text|)))
  }

  /** `source_language or "auto"`, the source named in the translation prompt. */
  function PromptSource(sourceLanguage: Option<string>): string {
    if TruthyStr(sourceLanguage) then sourceLanguage.value else "auto"
  }

  /** `source_language or "en"`, the source reported in the translation response. */
  function ReportedSource(sourceLanguage: Option<string>): string {
    if TruthyStr(sourceLanguage) then sourceLanguage.value else "en"
  }

  /** `translate`'s prompt. */
  function TranslatePrompt(sourceLanguage: Option<string>, targetLanguage: string, text: string): string {
    "Translate the following text from " + PromptSource(sourceLanguage) + " to " + targetLanguage + ": " + text
  }

  /** A given source language is both asked for and reported; without one the prompt asks
      for automatic detection while the response claims English. */
  lemma TranslateSourceReporting(sourceLanguage: Option<string>)
    ensures TruthyStr(sourceLanguage) ==> PromptSource(sourceLanguage) == ReportedSource(sourceLanguage) == sourceLanguage.value
    ensures !TruthyStr(sourceLanguage) ==> PromptSource(sourceLanguage) == "auto" && ReportedSource(sourceLanguage) == "en"
    ensures PromptSource(sourceLanguage) == ReportedSource(sourceLanguage) <==> TruthyStr(sourceLanguage)
  {
  }

  datatype TranslateResponse = TranslateResponse(translatedText: string, sourceLanguage: string,
                                                 targetLanguage: string, confidence: real)

  /** `translate`: a fixed confidence of 0.9. */
  function Translate(upstream: nat -> Result<Client.Reply, Client.UpstreamError>, text: string,
                     sourceLanguage: Option<string>, targetLanguage: string, settings: Config.Settings)
    : (r: Result<TranslateResponse, GatewayError>)
    ensures var g := Client.GenerateText(upstream, TranslatePrompt(sourceLanguage, targetLanguage, text), None, settings);
            && (r.Success? <==> g.Success?)
            && (r.Failure? ==> r.error == g.error)
            && (r.Success? ==> r.value == TranslateResponse(g.value.text, ReportedSource(sourceLanguage), targetLanguage, 0.9))
  {
    match Client.GenerateText(upstream, TranslatePrompt(sourceLanguage, targetLanguage, text), None, settings)
    case Failure(e) => Failure(e)
    case Success(res) => Success(TranslateResponse(res.text, ReportedSource(sourceLanguage), targetLanguage, 0.9))
  }

  /** `complete`'s prompt: a non-empty context is put in front of the prompt first, then a
      non-empty language header in front of that. */
  function CompletePrompt(prompt: string, context: Option<string>, language: Option<string>): string {
    var withContext := if TruthyStr(context) then "Context: " + context.value + "\n\n" + prompt else prompt;
    if TruthyStr(language) then "Complete the following " + language.value + " code:\n\n" + withContext
    else withContext
  }

  /** The language header is outermost and the context block sits between it and the prompt;
      both are dropped when empty, and the prompt itself always comes last. */
  lemma CompletePromptLayers(prompt: string, context: Option<string>, language: Option<string>)
    ensures TruthyStr(language) ==>
              CompletePrompt(prompt, context, language)
              == "Complete the following " + language.value + " code:\n\n" + CompletePrompt(prompt, context, None)
    ensures TruthyStr(context) ==>
              CompletePrompt(prompt, context, None) == "Context: " + context.value + "\n\n" + prompt
    ensures !TruthyStr(context) && !TruthyStr(language) ==> CompletePrompt(prompt, context, language) == prompt
    ensures var p := CompletePrompt(prompt, context, language);
            |p| >= |prompt| && p[|p| - |prompt|..] == prompt
  {
    var withContext := CompletePrompt(prompt, context, None);
    var p := CompletePrompt(prompt, context, language);
    if TruthyStr(context) {
      assert withContext == ("Context: " + context.value + "\n\n") + prompt;
    }
    if TruthyStr(language) {
      assert p == ("Complete the following " + language.value + " code:\n\n") + withContext;
    }
  }

  /** The text service: the cache it reads and writes, and the conversations it remembers. */
  class TextService {
    const settings: Config.Settings
    const cache: Caching.CacheService<GenerationResponse>
    const show: seq<(string, KeyValue)> -> string
    const digest: string -> string
    var conversations: map<string, seq<ChatMessage>>

    constructor (settings: Config.Settings, cache: Caching.CacheService<GenerationResponse>,
                 show: seq<(string, KeyValue)> -> string, digest: string -> string)
      ensures this.settings == settings && this.cache == cache && this.show == show && this.digest == digest
      ensures conversations == map[]
    {
      this.settings := settings;
      this.cache := cache;
      this.show := show;
      this.digest := digest;
      conversations := map[];
    }

    /** `generate`: the cache lookup when the request arrives, the upstream call on a miss,
        and the cache write when the answer is back. */
    method Generate(request: GenerationRequest, upstream: nat -> Result<Client.Reply, Client.UpstreamError>,
                    requestedAt: int, completedAt: int)
      returns (r: Result<GenerationResponse, GatewayError>)
      modifies cache
      ensures (r, cache.entries)
              == GenerateStep(old(cache.entries), cache.settings, settings, GenerationKey(request, show, digest),
                              request, upstream, requestedAt, completedAt)
    {
      var key := GenerationKey(request, show, digest);
      var cached := cache.Get(key, requestedAt);
      if cached.Some? {
        return Success(cached.value);
      }
      var result := Client.GenerateText(upstream, request.prompt, request.model, settings);
      if result.Failure? {
        return Failure(result.error);
      }
      var response := GenerationResponse(result.value.text, result.value.model, result.value.usage);
      cache.Set(key, response, None, completedAt);
      r := Success(response);
    }

    /** `chat`: the transcript is built message by message, the system line put in front,
        and on success the conversation is stored under the new id with the reply appended.
        A failed call stores nothing. */
    method Chat(request: ChatRequest, upstream: nat -> Result<Client.Reply, Client.UpstreamError>, conversationId: string)
      returns (r: Result<ChatResponse, GatewayError>)
      modifies this
      ensures var g := Client.GenerateText(upstream, ChatPrompt(request.messages, request.systemInstruction),
                                           request.model, settings);
              && (g.Failure? ==> r == Failure(g.error) && conversations == old(conversations))
              && (g.Success? ==>
                    var reply := ChatMessage("assistant", g.value.text);
                    r == Success(ChatResponse(reply, conversationId, g.value.usage, g.value.model))
                    && conversations == old(conversations)[conversationId := request.messages + [reply]])
    {
      var conversationText := "";
      var i := 0;
      while i < |request.messages|
        invariant 0 <= i <= |request.messages|
        invariant conversationText == ConversationText(request.messages[..i])
      {
        assert request.messages[..i + 1][..i] == request.messages[..i];
        conversationText := conversationText + MessageLine(request.messages[i]);
        i := i + 1;
      }
      assert request.messages[..i] == request.messages;
      if TruthyStr(request.systemInstruction) {
        conversationText := "System: " + request.systemInstruction.value + "\n" + conversationText;
      }
      var result := Client.GenerateText(upstream, conversationText, request.model, settings);
      if result.Failure? {
        return Failure(result.error);
      }
      var reply := ChatMessage("assistant", result.value.text);
      conversations := conversations[conversationId := request.messages + [reply]];
      r := Success(ChatResponse(reply, conversationId, result.value.usage, result.value.model));
    }
  }
}
