/** The two handlers of the chat routes over the conversation store and the
    response cache.  Each returns its HTTP response together with the list of
    effects it had on the outside world, in order. */
module ChatHandlers {
  import opened Wrappers
  import opened JsText
  import Store
  import Cache
  import Llm
  import opened ChatRoute

  /** What the handler does, in order, to the outside world. */
  datatype Effect =
    | CacheGet(key: JsString)
    | ConversationFor(sessionId: JsString)
    | SaveTurn(role: Store.Role, content: JsString)
    | LoadHistory(conversationId: Store.Id)
    | Provider(call: Llm.ProviderCall)
    | CacheSet(key: JsString, value: JsString)

  datatype Body =
    | Reply(response: JsString, sessionId: JsString, conversationId: Store.Id)
    | ErrorBody(error: string)
    | HistoryBody(messages: seq<Store.Message>)

  datatype HttpResponse = HttpResponse(status: int, body: Body)

  function ProviderEffects(calls: seq<Llm.ProviderCall>): (r: seq<Effect>)
    ensures |r| == |calls| && forall i :: 0 <= i < |r| ==> r[i] == Provider(calls[i])
  {
    seq(|calls|, i requires 0 <= i < |calls| => Provider(calls[i]))
  }

  /** A stored message is this turn of this conversation. */
  predicate IsTurn(m: Store.Message, conversationId: Store.Id, role: Store.Role, content: JsString) {
    m.conversationId == conversationId && m.role == role && m.content == content
  }

  /** The conversations table and the counters after a request resolved its
      session into conversation `id` and recorded `saves` turns there: the
      row that resolving may have inserted, stamped by the last save, and one
      id and two timestamps (the insert and the update) per save. */
  ghost predicate TurnsRecorded(store: Store.ConversationStore, convs: seq<Store.Conversation>, nextId: Store.Id,
                                clock: nat, sessionId: JsString, id: Store.Id, saves: nat)
    reads store
  {
    var k := Store.Created(convs, sessionId);
    && saves >= 1
    && store.conversations == Store.Touch(Store.Opened(convs, sessionId, nextId, clock), id, clock + k + 2 * saves - 1)
    && store.nextId == nextId + k + saves
    && store.clock == clock + k + 2 * saves
  }

  /** Both paths begin alike: resolve the session's conversation and record
      the user's message in it, which becomes the last message of the table
      and of the conversation. */
  method OpenTurn(store: Store.ConversationStore, sessionId: JsString, message: JsString)
    returns (id: Store.Id, ghost saved: Store.Message)
    requires store.Valid()
    modifies store
    ensures store.Valid() && store.HasConversation(id)
    ensures id == old(store.ResolvedId(sessionId))
    ensures IsTurn(saved, id, Store.User, message)
    ensures store.messages == old(store.messages) + [saved]
    ensures store.History(id) == old(store.History(id)) + [saved]
    ensures TurnsRecorded(store, old(store.conversations), old(store.nextId), old(store.clock), sessionId, id, 1)
  {
    ghost var before := store.messages;
    id := store.GetOrCreateConversation(sessionId);
    ghost var earlier := store.History(id);
    var user := store.SaveMessage(id, Store.User, message);
    saved := user.value;
    Store.MessagesOfAppend(before, saved, id);
  }

  /** Saving the assistant's reply as one more turn of the conversation the
      request resolved. */
  method SaveReply(store: Store.ConversationStore, id: Store.Id, reply: JsString, ghost convs: seq<Store.Conversation>,
                   ghost nextId: Store.Id, ghost clock: nat, ghost sessionId: JsString, ghost saves: nat)
    returns (ghost saved: Store.Message)
    requires store.Valid() && store.HasConversation(id)
    requires TurnsRecorded(store, convs, nextId, clock, sessionId, id, saves)
    modifies store
    ensures store.Valid() && store.HasConversation(id)
    ensures IsTurn(saved, id, Store.Assistant, reply) && store.messages == old(store.messages) + [saved]
    ensures TurnsRecorded(store, convs, nextId, clock, sessionId, id, saves + 1)
  {
    var row := store.SaveMessage(id, Store.Assistant, reply);
    saved := row.value;
    ghost var k := Store.Created(convs, sessionId);
    Store.TouchTwice(Store.Opened(convs, sessionId, nextId, clock), id, clock + k + 2 * saves - 1, clock + k + 2 * saves + 1);
  }

  /** The cache-hit path: record the user's message and the cached reply in
      the session's conversation and answer with the cached reply. */
  method ServeCached(store: Store.ConversationStore, sessionId: JsString, message: JsString, cached: JsString)
    returns (id: Store.Id, response: HttpResponse, ghost stored: seq<Store.Message>)
    requires store.Valid()
    modifies store
    ensures store.Valid()
    ensures id == old(store.ResolvedId(sessionId))
    ensures response == HttpResponse(200, Reply(cached, sessionId, id))
    ensures |stored| == 2 && IsTurn(stored[0], id, Store.User, message) && IsTurn(stored[1], id, Store.Assistant, cached)
    ensures store.messages == old(store.messages) + stored
    ensures TurnsRecorded(store, old(store.conversations), old(store.nextId), old(store.clock), sessionId, id, 2)
  {
    ghost var convs, nextId, clock := store.conversations, store.nextId, store.clock;
    ghost var before := store.messages;
    ghost var saved;
    id, saved := OpenTurn(store, sessionId, message);
    ghost var reply := SaveReply(store, id, cached, convs, nextId, clock, sessionId, 1);
    stored := [saved, reply];
    Regroup(before, [saved], [reply]);
    response := HttpResponse(200, Reply(cached, sessionId, id));
  }

  /** The response of the cache-miss path once the completion service has
      been asked: its answer, or the error it failed with. */
  function AnswerResponse(c: Llm.Attempt, sessionId: JsString, id: Store.Id): (r: HttpResponse)
    ensures r.status == 200 <==> r.body.Reply?
    ensures r.status != 200 ==> r == HttpResponse(500, ErrorBody(Llm.BOTH_FAILED)) && c.reply.Err?
    ensures r.status == 200 ==> c.reply.Ok? && r.body == Reply(c.reply.value, sessionId, id)
  {
    if c.reply.Ok? then HttpResponse(200, Reply(c.reply.value, sessionId, id))
    else HttpResponse(500, ErrorBody(Llm.BOTH_FAILED))
  }

  /** The effects of the cache-miss path from the completion request on:
      the provider calls, then on an answer its recording and caching. */
  function AnswerEffects(c: Llm.Attempt, key: JsString): (r: seq<Effect>)
    ensures |r| >= |c.calls| && r[..|c.calls|] == ProviderEffects(c.calls)
    ensures c.reply.Ok? ==> r[|c.calls|..] == [SaveTurn(Store.Assistant, c.reply.value), CacheSet(key, c.reply.value)]
    ensures c.reply.Err? ==> r == ProviderEffects(c.calls)
  {
    ProviderEffects(c.calls)
      + (if c.reply.Ok? then [SaveTurn(Store.Assistant, c.reply.value), CacheSet(key, c.reply.value)] else [])
  }

  /** The cache entries after the cache-miss path: an answer is written when
      Redis can be reached. */
  function AnswerEntries(c: Llm.Attempt, key: JsString, entries: map<JsString, Cache.Entry>, writes: bool): (r: map<JsString, Cache.Entry>)
    ensures c.reply.Ok? && writes ==> key in r && r[key] == Cache.Entry(c.reply.value, Cache.DEFAULT_TTL)
    ensures r.Keys == entries.Keys + {key} || r == entries
    ensures c.reply.Err? || !writes ==> r == entries
  {
    if c.reply.Ok? && writes then entries[key := Cache.Entry(c.reply.value, Cache.DEFAULT_TTL)] else entries
  }

  /** Saving an answer and writing it to the cache: one more assistant turn
      in the conversation, and the cache entry when Redis is writable. */
  method RecordAnswer(store: Store.ConversationStore, cache: Cache.ResponseCache, faults: Cache.Faults,
                      id: Store.Id, key: JsString, answer: JsString, ghost convs: seq<Store.Conversation>,
                      ghost nextId: Store.Id, ghost clock: nat, ghost sessionId: JsString, ghost saves: nat)
    returns (ghost saved: Store.Message)
    requires store.Valid() && cache.Valid() && store.HasConversation(id)
    requires TurnsRecorded(store, convs, nextId, clock, sessionId, id, saves)
    modifies store, cache
    ensures store.Valid() && cache.Valid()
    ensures cache.Connected(faults.connectOk) == old(cache.Connected(faults.connectOk))
    ensures cache.entries == if old(cache.Writes(faults)) then old(cache.entries)[key := Cache.Entry(answer, Cache.DEFAULT_TTL)] else old(cache.entries)
    ensures IsTurn(saved, id, Store.Assistant, answer) && store.messages == old(store.messages) + [saved]
    ensures TurnsRecorded(store, convs, nextId, clock, sessionId, id, saves + 1)
  {
    saved := SaveReply(store, id, answer, convs, nextId, clock, sessionId, saves);
    cache.SetCachedResponse(key, answer, faults);
  }

  /** The end of the cache-miss path once the completion service has
      replied: an answer is recorded, cached and returned; a failure is
      reported with the status its text calls for, and nothing changes. */
  method Conclude(store: Store.ConversationStore, cache: Cache.ResponseCache, faults: Cache.Faults,
                  id: Store.Id, sessionId: JsString, key: JsString,
                  reply: Result<JsString, Llm.Thrown>, calls: seq<Llm.ProviderCall>, ghost convs: seq<Store.Conversation>,
                  ghost nextId: Store.Id, ghost clock: nat, ghost saves: nat)
    returns (response: HttpResponse, effects: seq<Effect>, ghost stored: seq<Store.Message>)
    requires store.Valid() && cache.Valid() && store.HasConversation(id)
    requires TurnsRecorded(store, convs, nextId, clock, sessionId, id, saves)
    modifies store, cache
    ensures store.Valid() && cache.Valid()
    ensures cache.Connected(faults.connectOk) == old(cache.Connected(faults.connectOk))
    ensures reply.Ok? ==> response == HttpResponse(200, Reply(reply.value, sessionId, id))
    ensures reply.Err? ==> response == HttpResponse(StatusFor(ErrorText(reply.error)), ErrorBody(ErrorText(reply.error)))
    ensures effects == AnswerEffects(Llm.Attempt(reply, calls), key)
    ensures cache.entries == AnswerEntries(Llm.Attempt(reply, calls), key, old(cache.entries), old(cache.Writes(faults)))
    ensures store.messages == old(store.messages) + stored
    ensures reply.Ok? ==> |stored| == 1 && IsTurn(stored[0], id, Store.Assistant, reply.value)
    ensures reply.Err? ==> stored == []
    ensures TurnsRecorded(store, convs, nextId, clock, sessionId, id, saves + |stored|)
  {
    if reply.Err? {
      var text := ErrorText(reply.error);
      response := HttpResponse(StatusFor(text), ErrorBody(text));
      effects := ProviderEffects(calls);
      stored := [];
    } else {
      var assistant := RecordAnswer(store, cache, faults, id, key, reply.value, convs, nextId, clock, sessionId, saves);
      stored := [assistant];
      effects := ProviderEffects(calls) + [SaveTurn(Store.Assistant, reply.value), CacheSet(key, reply.value)];
      response := HttpResponse(200, Reply(reply.value, sessionId, id));
    }
  }

  /** The end of the cache-miss path, once the history is loaded: ask the
      completion service; on an answer record it and cache it, on a failure
      report the error with its status and change nothing. */
  method Answer(store: Store.ConversationStore, cache: Cache.ResponseCache, providers: Llm.Providers,
                faults: Cache.Faults, id: Store.Id, sessionId: JsString, message: JsString, key: JsString,
                history: seq<Store.Message>, ghost convs: seq<Store.Conversation>, ghost nextId: Store.Id,
                ghost clock: nat, ghost saves: nat)
    returns (response: HttpResponse, effects: seq<Effect>, ghost c: Llm.Attempt, ghost stored: seq<Store.Message>)
    requires store.Valid() && cache.Valid() && store.HasConversation(id)
    requires TurnsRecorded(store, convs, nextId, clock, sessionId, id, saves)
    modifies store, cache
    ensures c == Llm.Completion(providers, message, history)
    ensures store.Valid() && cache.Valid()
    ensures cache.Connected(faults.connectOk) == old(cache.Connected(faults.connectOk))
    ensures response == AnswerResponse(c, sessionId, id) && effects == AnswerEffects(c, key)
    ensures cache.entries == AnswerEntries(c, key, old(cache.entries), old(cache.Writes(faults)))
    ensures store.messages == old(store.messages) + stored
    ensures c.reply.Ok? ==> |stored| == 1 && IsTurn(stored[0], id, Store.Assistant, c.reply.value)
    ensures c.reply.Err? ==> stored == []
    ensures TurnsRecorded(store, convs, nextId, clock, sessionId, id, saves + |stored|)
  {
    var reply, calls := Llm.GetAIResponse(providers, message, history);
    c := Llm.Attempt(reply, calls);
    if reply.Err? {
      BothFailedIs500();
    }
    response, effects, stored := Conclude(store, cache, faults, id, sessionId, key, reply, calls, convs, nextId, clock, saves);
  }

  /** The cache-miss path: record the user's message, read the conversation
      back (now ending with that message), then answer from the completion
      service.  When the service fails, the user's turn stays recorded. */
  method ServeFresh(store: Store.ConversationStore, cache: Cache.ResponseCache, providers: Llm.Providers,
                    faults: Cache.Faults, sessionId: JsString, message: JsString, key: JsString)
    returns (id: Store.Id, response: HttpResponse, rest: seq<Effect>, ghost c: Llm.Attempt, ghost stored: seq<Store.Message>)
    requires store.Valid() && cache.Valid()
    modifies store, cache
    ensures store.Valid() && cache.Valid()
    ensures cache.Connected(faults.connectOk) == old(cache.Connected(faults.connectOk))
    ensures id == old(store.ResolvedId(sessionId))
    ensures stored != [] && IsTurn(stored[0], id, Store.User, message)
    ensures c == Llm.Completion(providers, message, old(store.History(id)) + [stored[0]])
    ensures response == AnswerResponse(c, sessionId, id) && rest == AnswerEffects(c, key)
    ensures c.reply.Ok? ==> |stored| == 2 && IsTurn(stored[1], id, Store.Assistant, c.reply.value)
    ensures c.reply.Err? ==> |stored| == 1
    ensures cache.entries == AnswerEntries(c, key, old(cache.entries), old(cache.Writes(faults)))
    ensures store.messages == old(store.messages) + stored
    ensures TurnsRecorded(store, old(store.conversations), old(store.nextId), old(store.clock), sessionId, id, |stored|)
  {
    ghost var convs, nextId, clock := store.conversations, store.nextId, store.clock;
    ghost var before := store.messages;
    ghost var connected, writes, entries := cache.Connected(faults.connectOk), cache.Writes(faults), cache.entries;
    ghost var saved;
    id, saved := OpenTurn(store, sessionId, message);
    var history := store.GetConversationHistory(id);
    assert cache.Connected(faults.connectOk) == connected && cache.Writes(faults) == writes && cache.entries == entries;
    ghost var later;
    response, rest, c, later := Answer(store, cache, providers, faults, id, sessionId, message, key, history, convs, nextId, clock, 1);
    assert cache.entries == AnswerEntries(c, key, entries, writes);
    stored := [saved] + later;
    Regroup(before, [saved], later);
  }

  /** The effects of a request answered from the cache. */
  function HitEffects(key: JsString, sessionId: JsString, message: JsString, reply: JsString): seq<Effect> {
    [CacheGet(key), ConversationFor(sessionId), SaveTurn(Store.User, message), SaveTurn(Store.Assistant, reply)]
  }

  /** `POST /`: rejections come first and touch nothing; then the cache
      decides between the two paths.  An empty cached reply counts as a
      miss.  The cache lookup, the session lookup and the history read enter
      `effects` as written here, in the order of the route's statements;
      that the completion sees the history read after the user's turn was
      saved is stated by the clause on `c`. */
  method HandleChat(store: Store.ConversationStore, cache: Cache.ResponseCache, providers: Llm.Providers,
                    faults: Cache.Faults, env: Env, request: ChatRequest)
    returns (response: HttpResponse, effects: seq<Effect>, ghost c: Llm.Attempt, ghost stored: seq<Store.Message>)
    requires store.Valid() && cache.Valid()
    modifies store, cache
    ensures store.Valid() && cache.Valid()
    ensures cache.Connected(faults.connectOk) == old(cache.Connected(faults.connectOk))
    ensures store.messages == old(store.messages) + stored
    ensures Validate(request, env).Err? ==>
      && response == HttpResponse(400, ErrorBody(Validate(request, env).error)) && effects == []
      && unchanged(store) && unchanged(cache)
    ensures Validate(request, env).Ok? ==>
      var v := Validate(request, env).value;
      var key := Cache.CacheKey(v.sessionId, v.message);
      var cached := old(cache.Lookup(key, faults));
      var id := old(store.ResolvedId(v.sessionId));
      && stored != [] && IsTurn(stored[0], id, Store.User, v.message)
      && TurnsRecorded(store, old(store.conversations), old(store.nextId), old(store.clock), v.sessionId, id, |stored|)
      && (cached.Some? && cached.value != [] ==>
            && response == HttpResponse(200, Reply(cached.value, v.sessionId, id))
            && effects == HitEffects(key, v.sessionId, v.message, cached.value)
            && |stored| == 2 && IsTurn(stored[1], id, Store.Assistant, cached.value)
            && cache.entries == old(cache.entries))
      && (cached.None? || cached.value == [] ==>
            && c == Llm.Completion(providers, v.message, old(store.History(id)) + [stored[0]])
            && response == AnswerResponse(c, v.sessionId, id)
            && effects == [CacheGet(key), ConversationFor(v.sessionId), SaveTurn(Store.User, v.message),
                           LoadHistory(id)] + AnswerEffects(c, key)
            && cache.entries == AnswerEntries(c, key, old(cache.entries), old(cache.Writes(faults))))
  {
    var validated := Validate(request, env);
    if validated.Err? {
      return HttpResponse(400, ErrorBody(validated.error)), [], Llm.Attempt(Err(Llm.Fresh(validated.error)), []), [];
    }
    var message, sessionId := validated.value.message, validated.value.sessionId;
    var key := Cache.CacheKey(sessionId, message);
    ghost var entries, writes := cache.entries, cache.Writes(faults);
    var cached := cache.GetCachedResponse(key, faults);
    assert cache.entries == entries && cache.Writes(faults) == writes;
    if cached.Some? && cached.value != [] {
      var id;
      id, response, stored := ServeCached(store, sessionId, message, cached.value);
      c := Llm.Attempt(Ok(cached.value), []);
      effects := HitEffects(key, sessionId, message, cached.value);
    } else {
      var id, rest;
      id, response, rest, c, stored := ServeFresh(store, cache, providers, faults, sessionId, message, key);
      assert cache.entries == AnswerEntries(c, key, entries, writes);
      effects := [CacheGet(key), ConversationFor(sessionId), SaveTurn(Store.User, message), LoadHistory(id)] + rest;
    }
  }

  /** `GET /history/:sessionId`: a blank session id is refused; otherwise the
      session's conversation is resolved, which creates one when the session
      has none, and its messages are returned oldest first. */
  method HandleHistory(store: Store.ConversationStore, sessionId: JsString) returns (response: HttpResponse)
    requires store.Valid()
    modifies store
    ensures store.Valid() && store.messages == old(store.messages)
    ensures Trim(sessionId) == [] ==> response == HttpResponse(400, ErrorBody(INVALID_SESSION)) && unchanged(store)
    ensures Trim(sessionId) != [] ==>
      && response == HttpResponse(200, HistoryBody(store.History(old(store.ResolvedId(sessionId)))))
      && (old(store.Latest(sessionId)).Some? ==>
            store.conversations == old(store.conversations) && store.nextId == old(store.nextId) && store.clock == old(store.clock))
      && (old(store.Latest(sessionId)).None? ==>
            && store.conversations == old(store.conversations) + [Store.Conversation(old(store.nextId), sessionId, old(store.clock), old(store.clock))]
            && store.nextId == old(store.nextId) + 1 && store.clock == old(store.clock) + 1)
  {
    if sessionId == [] || |Trim(sessionId)| == 0 {
      return HttpResponse(400, ErrorBody(INVALID_SESSION));
    }
    var id := store.GetOrCreateConversation(sessionId);
    var history := store.GetConversationHistory(id);
    response := HttpResponse(200, HistoryBody(history));
  }

  // ---------------------------------------------------------------------
  // Properties across modules

  /** On the miss path the history handed to the completion service already
      ends with the user's message (the row just saved), and the OpenAI
      request adds it once more: the request ends with two identical user
      entries. */
  lemma {:induction false} UserMessageSentTwice(p: Llm.Providers, message: JsString, earlier: seq<Store.Message>, saved: Store.Message)
    requires saved.role == Store.User && saved.content == message
    ensures var input := Llm.BuildChatHistory(p.systemPrompt, message, Llm.LastTurns(earlier + [saved]));
      |input| >= 3 && input[|input| - 2] == Llm.ChatEntry(Llm.User, message) && input[|input| - 1] == Llm.ChatEntry(Llm.User, message)
  {
    var h := earlier + [saved];
    var turns := Llm.LastTurns(h);
    assert turns[|turns| - 1] == h[|h| - 1] == saved;
    var input := Llm.BuildChatHistory(p.systemPrompt, message, turns);
    assert input[|turns|] == Llm.EntryOf(turns[|turns| - 1]);
  }

  /** The Gemini prompt repeats it the same way: the transcript's last line
      is the user's message, just before the prompt's own "USER:" line. */
  lemma {:induction false} UserMessageInTranscript(message: JsString, earlier: seq<Store.Message>, saved: Store.Message)
    requires saved.role == Store.User && saved.content == message
    ensures var turns := Llm.LastTurns(earlier + [saved]);
      turns != [] && Llm.Transcript(turns) ==
        (if |turns| == 1 then [] else Llm.Transcript(turns[..|turns| - 1]) + Lit("\n")) + Lit("USER: ") + message
  {
    var turns := Llm.LastTurns(earlier + [saved]);
    Llm.LastTurnsSnoc(earlier, saved);
    Llm.TranscriptEndsWithUser(turns[..|turns| - 1], saved);
  }

  /** The cache key of a request that passes validation. */
  function RequestKey(request: ChatRequest, env: Env): (key: JsString)
    requires Validate(request, env).Ok?
    ensures key == Cache.CacheKey(Validate(request, env).value.sessionId, Validate(request, env).value.message)
  {
    var v := Validate(request, env).value;
    Cache.CacheKey(v.sessionId, v.message)
  }

  /** Redis reachable, `get` and `setEx` succeeding. */
  const WORKING := Cache.Faults(true, false, false)

  /** With a cache that works, a request answered with 200 leaves its reply
      where the next identical request looks first. */
  method AnswerIsRemembered(store: Store.ConversationStore, cache: Cache.ResponseCache, providers: Llm.Providers,
                            env: Env, request: ChatRequest)
    returns (response: HttpResponse)
    requires store.Valid() && cache.Valid() && cache.Connected(true)
    modifies store, cache
    ensures store.Valid() && cache.Valid() && cache.Connected(true)
    ensures response.status == 200 ==>
      && Validate(request, env).Ok? && response.body.Reply? && response.body.response != []
      && cache.Lookup(RequestKey(request, env), WORKING) == Some(response.body.response)
  {
    ghost var c, stored;
    var effects;
    response, effects, c, stored := HandleChat(store, cache, providers, WORKING, env, request);
  }

  /** A request whose reply the cache holds is answered with that reply and
      asks no provider. */
  method RepeatIsAnsweredFromCache(store: Store.ConversationStore, cache: Cache.ResponseCache, providers: Llm.Providers,
                                   env: Env, request: ChatRequest, earlier: HttpResponse)
    returns (response: HttpResponse, effects: seq<Effect>)
    requires store.Valid() && cache.Valid()
    requires earlier.status == 200 ==>
      && Validate(request, env).Ok? && earlier.body.Reply? && earlier.body.response != []
      && cache.Lookup(RequestKey(request, env), WORKING) == Some(earlier.body.response)
    modifies store, cache
    ensures earlier.status == 200 ==>
      && response.status == 200 && response.body.Reply? && response.body.response == earlier.body.response
      && forall e :: e in effects ==> !e.Provider?
  {
    ghost var c, stored;
    ghost var cached := if earlier.status == 200 then cache.Lookup(RequestKey(request, env), WORKING) else None;
    response, effects, c, stored := HandleChat(store, cache, providers, WORKING, env, request);
    if earlier.status == 200 {
      var v := Validate(request, env).value;
      assert effects == HitEffects(RequestKey(request, env), v.sessionId, v.message, cached.value);
      HitAsksNoProvider(RequestKey(request, env), v.sessionId, v.message, cached.value);
    }
  }

  lemma {:induction false} HitAsksNoProvider(key: JsString, sessionId: JsString, message: JsString, reply: JsString)
    ensures forall e :: e in HitEffects(key, sessionId, message, reply) ==> !e.Provider?
  {
  }

  /** The same request twice, with a cache that works: once the first is
      answered, the second is answered from the cache with the same reply and
      asks no provider.  Both requests are read in the same environment
      `env`, so a request without a session id names the same fresh id
      twice and so the same cache key.  Two separate requests without one
      would each be given their own id, and the second would miss. */
  method RepeatIsServedFromCache(store: Store.ConversationStore, cache: Cache.ResponseCache, providers: Llm.Providers,
                                 env: Env, request: ChatRequest)
    returns (first: HttpResponse, second: HttpResponse, effects: seq<Effect>)
    requires store.Valid() && cache.Valid() && cache.Connected(true)
    modifies store, cache
    ensures first.status == 200 ==>
      && first.body.Reply? && second.status == 200 && second.body.Reply? && second.body.response == first.body.response
      && forall e :: e in effects ==> !e.Provider?
  {
    first := AnswerIsRemembered(store, cache, providers, env, request);
    second, effects := RepeatIsAnsweredFromCache(store, cache, providers, env, request, first);
  }
}
