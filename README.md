# Chat pipeline of a support-chat service, in Dafny

This project models the part of a customer-support chat service that handles
one chat message from start to end:

- the `POST /` and `GET /history/:sessionId` routes of the backend (module
  `ChatRoute` for the pure checks and the status table, module `ChatHandlers`
  for the two handlers as methods over the store and the cache);
- the completion service, which asks OpenAI and falls back once to Gemini
  (module `Llm`): the chat-message list, the Gemini prompt, the bound of
  twenty history turns, each provider's error table and the fallback;
- the Redis response cache (module `Cache`): the cache key, the memoised
  client handle, and lookups and writes that turn every failure into a miss
  or a no-op; the key needs the UTF-8 encoding of RFC 3629 as Node's
  `Buffer.from` does it (module `Utf8`) and the base 64 encoding of RFC 4648,
  section 4 (module `Base64`);
- the conversation store (module `Store`): the `conversations` and
  `messages` tables as sequences of rows in a class, and its three queries;
- the message input box of the chat page (module `ChatInput`): a class whose
  `input` field is edited, sent and cleared.

JavaScript strings are sequences of UTF-16 code units (`JsText.JsString`);
`trim` strips the ECMAScript white-space set from both ends. Error texts
that are only searched for ASCII substrings are Dafny strings. Providers are
functions from a request to an answer or an error; ids come from a counter
and `CURRENT_TIMESTAMP` from a clock that each writing statement advances; the
Redis outcomes (connect, `get`, `setEx` throwing or not), `Date.now()` and the
random session suffix are inputs.

What the proofs show about the code as written:

- On the miss path the user's message is saved before the history is read,
  so it reaches each provider twice (`ChatHandlers.UserMessageSentTwice`,
  `ChatHandlers.UserMessageInTranscript`).
- Every provider failure leaves the completion service as the single text
  "Failed to get AI response from both OpenAI and Gemini", which the route
  reports as 500 (`ChatRoute.BothFailedIs500`). Even taken on their own, the
  provider messages would not give the statuses their wording suggests:
  "Rate limit exceeded." does not contain the lower-case "rate limit"
  (`ChatRoute.RateLimitedIs500`), and "Request timed out." does not contain
  "timeout" (`ChatRoute.TimedOutIs500`). A design that kept the provider's
  category would answer 429 or 504 in these cases; the model follows the
  code, in which 504 is unreachable from the completion service.
- The input box can never hold more than 5000 code units, so its over-limit
  flag never shows (`ChatInput.NeverOverLimit`).
- A Redis connection that failed once is kept and never retried
  (`Cache.FailedConnectionIsNeverRetried`).
- The cache key keeps only fifty base 64 characters, so two messages that
  open with the same thirty-eight ASCII characters share a cache entry
  (`Cache.AsciiOpeningCollides`). In one session, distinct well-formed messages
  (no lone surrogates) of at most thirty-six UTF-8 bytes get distinct keys (`Cache.DistinctShortMessagesDistinctKeys`).

## Model

| member | source | states |
|---|---|---|
| ChatRoute.ValidateMessage | backend/src/routes/chat.ts:26-43 | a message is accepted exactly when it is a string whose trimmed length is between 1 and 5000, and the accepted value is the processed (trimmed, possibly truncated) message |
| ChatRoute.RejectionReasons | backend/src/routes/chat.ts:26-39 | a missing, non-string or empty message gets "Message is required and must be a string", a white-space-only one "Message cannot be empty", and one over 5000 trimmed characters the "too long" text with its actual length |
| ChatRoute.Truncate | backend/src/routes/chat.ts:41-43 | a text of at most 4000 code units is kept; a longer one becomes its first 4000 code units followed by "...", 4003 in all |
| ChatRoute.AcceptedMessageShape | backend/src/routes/chat.ts:30-43 | an accepted message is non-empty, at most 4003 long, and neither starts nor ends with white space |
| ChatRoute.ProcessedMessageStable | backend/src/routes/chat.ts:30-43 | validating the processed message again accepts it and gives it back unchanged |
| ChatRoute.GeneratedSessionId | backend/src/routes/chat.ts:49 | a generated session id starts with "session_" |
| ChatRoute.ResolveSession | backend/src/routes/chat.ts:45-49 | a truthy non-string session id is refused, a non-empty string is kept as given, and a falsy value is replaced by a generated id |
| ChatRoute.Validate | backend/src/routes/chat.ts:26-49 | a message error wins over a session error; a valid request yields the processed message and the resolved session id |
| ChatRoute.ErrorText | backend/src/routes/chat.ts:87 | the reported error text is never empty |
| ChatRoute.StatusFor | backend/src/routes/chat.ts:89-98 | the status is one of 400, 429, 500, 503, 504, and 503 exactly when the text mentions "API key" or "not configured" |
| ChatRoute.UnrecognisedIs500 | backend/src/routes/chat.ts:89-98 | a text containing none of the six probes maps to 500 |
| ChatRoute.BothFailedIs500 | backend/src/routes/chat.ts:89-98 | the aggregate completion failure maps to 500 |
| ChatRoute.TimedOutIs500 | backend/src/routes/chat.ts:94-95 | "Request timed out. Please try again." maps to 500, never 504 |
| ChatRoute.RateLimitedIs500 | backend/src/routes/chat.ts:92-93 | "Rate limit exceeded. Please try again in a moment." maps to 500, not 429 |
| ChatRoute.LowerCaseRateLimitIs429 | backend/src/routes/chat.ts:92-93 | a lower-case "rate limit exceeded" maps to 429 |
| ChatRoute.GeminiQuotaIs429 | backend/src/routes/chat.ts:92-93 | Gemini's quota message maps to 429 |
| ChatRoute.KeyProblemsAre503 | backend/src/routes/chat.ts:90-91 | both invalid-key messages and the missing OpenAI key message map to 503 |
| ChatRoute.InvalidRequestIs400 | backend/src/routes/chat.ts:96-97 | OpenAI's invalid-request message falls through to the last row and maps to 400 |
| ChatRoute.TrimmedInputAccepted | backend/src/routes/chat.ts:30-43 | a trimmed, non-empty text of at most 5000 code units passes every message check and is forwarded as its truncation |
| ChatHandlers.OpenTurn | backend/src/routes/chat.ts:67-69 | the session's conversation is resolved and the user's message becomes the last row of the table and of that conversation; the conversations table is the one resolving the session left (the session's row, inserted with the next id and the current time when it had none), with that conversation's `updated_at` set by the last save; `nextId` and the clock advance by one id and one timestamp for that inserted row, if any, and by one id and two timestamps (insert and update) per saved turn (one save) |
| ChatHandlers.SaveReply | backend/src/routes/chat.ts:58 | the assistant's reply becomes one more message of the conversation, the last of the table, and the conversations table and counters are those of one more save |
| ChatHandlers.ServeCached | backend/src/routes/chat.ts:54-64 | on a hit the user turn and the cached reply are appended, in that order, to the messages table in the resolved conversation, and the reply is answered with 200; the conversations table is the one resolving the session left (the session's row, inserted with the next id and the current time when it had none), with that conversation's `updated_at` set by the last save; `nextId` and the clock advance by one id and one timestamp for that inserted row, if any, and by one id and two timestamps (insert and update) per saved turn (two saves) |
| ChatHandlers.AnswerResponse | backend/src/routes/chat.ts:73-98 | the response is 200 with the reply exactly when the completion succeeded; otherwise it is 500 with the aggregate error |
| ChatHandlers.AnswerEffects | backend/src/routes/chat.ts:73-77 | the provider requests come first; on an answer they are followed by saving it and writing it to the cache, on a failure by nothing |
| ChatHandlers.AnswerEntries | backend/src/routes/chat.ts:77 | an answer is stored under the key with a TTL of 3600 when Redis is writable; otherwise the entries are unchanged |
| ChatHandlers.RecordAnswer | backend/src/routes/chat.ts:75-77 | the answer is appended as an assistant turn, the conversations table and counters are those of one more save, and the cache holds the answer under the key with a TTL of 3600 exactly when Redis is writable |
| ChatHandlers.Conclude | backend/src/routes/chat.ts:75-103 | an answer is recorded, cached and returned with 200; a failure is answered with the status its text maps to and its text, and appends no message, writes no cache entry and leaves the conversations table and counters as they were |
| ChatHandlers.Answer | backend/src/routes/chat.ts:73-83 | asking the completion service, then saving and caching its answer, matches AnswerResponse, AnswerEffects and AnswerEntries; a failure appends nothing and leaves the conversations table and counters as they were |
| ChatHandlers.ServeFresh | backend/src/routes/chat.ts:67-83 | on a miss the user turn is saved first, the completion sees the history ending with it, and the assistant turn is saved only on an answer; the messages table grows by exactly those turns, the cache entries are AnswerEntries', and the conversations table is the one resolving the session left (the session's row, inserted with the next id and the current time when it had none), with that conversation's `updated_at` set by the last save; `nextId` and the clock advance by one id and one timestamp for that inserted row, if any, and by one id and two timestamps (insert and update) per saved turn |
| ChatHandlers.HandleChat | backend/src/routes/chat.ts:22-105 | a rejected request answers 400 and touches nothing; otherwise a non-empty cached reply short-circuits with no provider call and no cache write, and a miss runs the full effect order under the same key; in both cases the messages table grows by the saved turns and the conversations table is the one resolving the session left (the session's row, inserted with the next id and the current time when it had none), with that conversation's `updated_at` set by the last save; `nextId` and the clock advance by one id and one timestamp for that inserted row, if any, and by one id and two timestamps (insert and update) per saved turn |
| ChatHandlers.HandleHistory | backend/src/routes/chat.ts:107-118 | a blank session id answers 400 and changes nothing; otherwise the session's conversation is returned oldest first, the messages table is unchanged, and the conversations table, `nextId` and the clock are unchanged for an existing session and gain exactly one row, one id and one timestamp for a new one |
| ChatHandlers.UserMessageSentTwice | backend/src/routes/chat.ts:69-73 | the OpenAI request of the miss path ends with the user's message twice |
| ChatHandlers.UserMessageInTranscript | backend/src/services/llm.ts:125-129 | the Gemini transcript of the miss path already ends with the user's "USER:" line |
| ChatHandlers.AnswerIsRemembered | backend/src/routes/chat.ts:73-77 | with working Redis, a 200 answer leaves its reply cached under the request's key |
| ChatHandlers.RepeatIsAnsweredFromCache | backend/src/routes/chat.ts:51-64 | once a reply is cached under a request's key, the same request is answered with that reply and asks no provider |
| ChatHandlers.HitAsksNoProvider | backend/src/routes/chat.ts:54-64 | the effects of a cache hit contain no provider request |
| ChatHandlers.RepeatIsServedFromCache | backend/src/routes/chat.ts:51-83 | sending the same request twice with working Redis: when the first gets 200, the second gets the same reply from the cache without any provider request |
| Llm.EntryOf | backend/src/services/llm.ts:50-53 | content is kept, "user" stays user and every other role becomes assistant, never system |
| Llm.BuildChatHistory | backend/src/services/llm.ts:47-56 | n + 2 entries: the system prompt first, the history in order, the user's message last |
| Llm.ChatHistoryTurns | backend/src/services/llm.ts:47-56 | only the first entry is a system entry, and the middle entries carry each turn's content and user/assistant split |
| Llm.Transcript | backend/src/services/llm.ts:125-127 | the transcript is empty exactly for an empty history, and one turn gives its own line |
| Llm.UserLine | backend/src/services/llm.ts:126 | a user turn's line is "USER: " followed by its content |
| Llm.TranscriptAppend | backend/src/services/llm.ts:125-127 | one more turn adds a newline and its line at the end |
| Llm.TranscriptEndsWithUser | backend/src/services/llm.ts:125-127 | a history ending with a user turn gives a transcript ending with that turn's "USER: " line |
| Llm.GeminiPrompt | backend/src/services/llm.ts:129 | the prompt has the length of its parts plus 42, starts with the system prompt and ends with "\nASSISTANT:" |
| Llm.LastTurns | backend/src/services/llm.ts:161-162 | the bounded history is the suffix of min(n, 20) turns |
| Llm.LastTurnsStable | backend/src/services/llm.ts:161-162 | bounding twice is bounding once, and the newest turn is kept |
| Llm.LastTurnsSnoc | backend/src/services/llm.ts:162 | a turn just appended is the last turn of the bounded history |
| Llm.ClassifyOpenAI | backend/src/services/llm.ts:94-111 | the error is rethrown unchanged or replaced by one of the five table messages |
| Llm.OpenAITableRows | backend/src/services/llm.ts:94-110 | the first matching row decides: status 401 or code "invalid_api_key" gives the invalid-key message, then 429 or "rate_limit_exceeded" the rate-limit message, then 503 or "server_error" the unavailability message, then code "timeout" or a message containing "timeout" the time-out message, then status 400 the invalid-request message |
| Llm.OpenAIRethrowsUnmatched | backend/src/services/llm.ts:94-111 | the error comes back unchanged exactly when no row matches it |
| Llm.ClassifyGemini | backend/src/services/llm.ts:140-154 | the error is rethrown unchanged or replaced by one of the four table messages |
| Llm.GeminiTableRows | backend/src/services/llm.ts:140-152 | the first matching row decides: status 401 or a message containing "API key" gives the invalid-key message, then 429 or "quota" the quota message, then 503 the unavailability message, then "timeout" in the message or code "ECONNABORTED" the time-out message |
| Llm.GeminiRethrowsUnmatched | backend/src/services/llm.ts:140-154 | the error comes back unchanged exactly when no row matches it or it is already the key or quota message, which map to themselves |
| Llm.UnauthorisedWins | backend/src/services/llm.ts:95-97 | a 401 gives the invalid-key message whatever the error's code and text |
| Llm.TimedOutMatchesNoRow | backend/src/services/llm.ts:150-152 | the time-out message does not contain "timeout", "API key" or "quota" |
| Llm.OpenAIMessagesLackTimeout | backend/src/services/llm.ts:104-106 | none of the OpenAI table's messages, nor its no-response error, contains "timeout" |
| Llm.ClassifyOpenAIStable | backend/src/services/llm.ts:94-111 | the OpenAI table passes its own output through unchanged |
| Llm.OpenAINoResponseRethrown | backend/src/services/llm.ts:88-110 | the empty-answer error raised inside the try is not recognised by the table and is rethrown as it is |
| Llm.GeminiKeyAndQuotaMessages | backend/src/services/llm.ts:141-146 | Gemini's key message mentions "API key" and its quota message mentions "quota" and not "API key" |
| Llm.GeminiUnavailableMessage | backend/src/services/llm.ts:147-149 | Gemini's unavailability message matches none of the table's text probes |
| Llm.ClassifyGeminiStable | backend/src/services/llm.ts:140-154 | the Gemini table passes its own output through unchanged |
| Llm.GeminiNoResponseRethrown | backend/src/services/llm.ts:135-153 | Gemini's empty-answer error is rethrown as it is |
| Llm.OpenAIAttempt | backend/src/services/llm.ts:58-112 | without a key nothing is sent; with one exactly the built chat history is sent once; a reply is never empty |
| Llm.GeminiAttempt | backend/src/services/llm.ts:114-155 | without a key nothing is sent; with one exactly the prompt is sent once; a reply is never empty |
| Llm.OpenAIReply | backend/src/services/llm.ts:58-112 | without a key the result is the "not configured" error; with one, a non-empty answer is returned as it is, an empty one is the no-response error, and a failure is the error as the table classifies it |
| Llm.GeminiReply | backend/src/services/llm.ts:114-155 | without a key the result is the "not configured" error; with one, a non-empty answer is returned as it is, an empty one is the no-response error, and a failure is the error as the table classifies it |
| Llm.MissingKeyOrEmptyAnswerFails | backend/src/services/llm.ts:62-137 | a missing key fails with "... is not configured" before any request, and an empty answer fails with the provider's no-response error |
| Llm.Completion | backend/src/services/llm.ts:157-176 | a reply is non-empty, a failure is always the aggregate error, at most two requests are sent, and each carries the bounded history |
| Llm.PrimaryAnswerStands | backend/src/services/llm.ts:164-165 | an OpenAI reply is the result and Gemini is not asked |
| Llm.FallbackOnce | backend/src/services/llm.ts:166-175 | after any OpenAI failure, Gemini's reply is the result, its failure gives the aggregate error, Gemini's request (if any) is sent after the OpenAI request, and Gemini is asked exactly when its key is set |
| Llm.ReplyComesFromAProvider | backend/src/services/llm.ts:157-176 | a successful reply is what a provider answered to a request that was sent |
| Llm.CallOpenAI | backend/src/services/llm.ts:58-112 | the method returns the reply and requests of OpenAIAttempt |
| Llm.CallGemini | backend/src/services/llm.ts:114-155 | the method returns the reply and requests of GeminiAttempt |
| Llm.GetAIResponse | backend/src/services/llm.ts:157-176 | the method returns the reply and requests of Completion |
| Cache.Prefix | backend/src/services/cache.ts:64 | `substring(0, n)`: the opening of the text, of length n, or the whole text when it is no longer than n |
| Cache.Fingerprint | backend/src/services/cache.ts:64 | the key's message part is the opening of the base 64 text of the message's UTF-8 bytes: all of it when that has at most 50 characters, otherwise its first 50 |
| Cache.FingerprintIsOpening | backend/src/services/cache.ts:64 | the key's message part is the opening of the message's base 64 text: all of it when that has at most 50 characters, otherwise its first 50, and exactly 50 for a message of more than 36 UTF-8 bytes |
| Cache.FingerprintHasNoColon | backend/src/services/cache.ts:64 | the key's message part contains no ':' |
| Cache.CacheKey | backend/src/services/cache.ts:63-65 | the key starts with "chat:", the session id and ':', and its length is between the session id's plus 6 and plus 56 |
| Cache.KeyDeterminesSession | backend/src/services/cache.ts:63-65 | equal keys have equal session ids and equal message parts |
| Cache.ShortMessageKeptWhole | backend/src/services/cache.ts:64 | a message of at most 36 UTF-8 bytes keeps its whole base 64 text in the key |
| Cache.DistinctShortMessagesDistinctKeys | backend/src/services/cache.ts:63-65 | in one session, distinct well-formed messages of at most 36 UTF-8 bytes get distinct keys |
| Cache.SharedOpeningSharesKey | backend/src/services/cache.ts:63-65 | messages whose UTF-8 bytes agree on the first 38 get the same key |
| Cache.AsciiOpeningCollides | backend/src/services/cache.ts:63-65 | messages opening with the same 38 ASCII characters get the same key whatever follows |
| Cache.LoneSurrogateSharesKey | backend/src/services/cache.ts:64 | a lone surrogate and U+FFFD get the same key |
| Cache.ResponseCache.constructor | backend/src/services/cache.ts:6 | the cache starts with no client handle |
| Cache.ResponseCache.Usable | backend/src/services/cache.ts:8-33 | a handle is handed out only if it is connected or was already memoised, and never without REDIS_URL and a memoised handle |
| Cache.ResponseCache.GetRedisClient | backend/src/services/cache.ts:8-33 | a memoised handle is returned as is; without REDIS_URL none is made; otherwise the handle is stored before connecting and null is returned when connecting fails |
| Cache.ResponseCache.Lookup | backend/src/services/cache.ts:35-46 | a hit needs REDIS_URL and a `get` that does not throw, and returns the value stored under the key; conversely, with a connected client, a `get` that does not throw and the key present, the stored value is found, and a miss means one of these fails |
| Cache.ResponseCache.GetCachedResponse | backend/src/services/cache.ts:35-46 | the method returns Lookup's answer, never fails and does not change the entries |
| Cache.ResponseCache.SetCachedResponse | backend/src/services/cache.ts:48-61 | the value is stored with its TTL (3600 by default) exactly when Redis is writable; otherwise nothing changes and nothing is raised |
| Cache.FailedConnectionIsNeverRetried | backend/src/services/cache.ts:19-31 | after one failed connection every later lookup misses and every later write is dropped, whatever later connection attempts would do |
| Base64.Encode | backend/src/services/cache.ts:64 | the text is whole groups of four characters; its exact length, alphabet and inverse are stated by `Base64.EncodeLength`, `Base64.EncodedChars` and `Base64.DecodeEncode` |
| Base64.EncodeLength | backend/src/services/cache.ts:64 | the base 64 text has four characters per started group of three bytes |
| Base64.EncodedChars | backend/src/services/cache.ts:64 | every character is in the alphabet or is the pad |
| Base64.DecodeEncode | backend/src/services/cache.ts:64 | decoding gives back the encoded bytes |
| Base64.EncodeInjective | backend/src/services/cache.ts:64 | distinct byte strings have distinct base 64 texts |
| Base64.EncodeAppend | backend/src/services/cache.ts:64 | a prefix of whole three-byte groups is encoded on its own |
| Base64.FirstFiftyChars | backend/src/services/cache.ts:64 | the first 50 characters come from the first 38 bytes |
| Base64.SharedOpening | backend/src/services/cache.ts:64 | byte strings that agree on their first 38 bytes agree on their first 50 characters |
| Utf8.Encode | backend/src/services/cache.ts:64 | `Buffer.from(message)`: every code unit takes one to three bytes; the inverse and the lone-surrogate replacement are stated by `Utf8.DecodeEncode` and `Utf8.LoneSurrogateIsReplaced` |
| Utf8.DecodeEncode | backend/src/services/cache.ts:64 | decoding the UTF-8 bytes of a string without lone surrogates gives it back |
| Utf8.EncodeInjective | backend/src/services/cache.ts:64 | distinct strings without lone surrogates have distinct UTF-8 bytes |
| Utf8.LoneSurrogateIsReplaced | backend/src/services/cache.ts:64 | a lone surrogate is encoded as EF BF BD, like U+FFFD |
| Utf8.EncodeAsciiPrefix | backend/src/services/cache.ts:64 | an ASCII prefix is encoded on its own, whatever follows |
| Utf8.EncodeAscii | backend/src/services/cache.ts:64 | ASCII text is encoded byte for byte |
| JsText.Trim | backend/src/routes/chat.ts:30 | `trim()` never lengthens the text; what it removes and keeps is stated by the `JsText.Trim*` lemmas below (also used for frontend/app/components/ChatInput.tsx:18, 50-52) |
| JsText.TrimStartDrops | backend/src/routes/chat.ts:30 | the start is stripped of a run of white space only, and what is left does not start with white space |
| JsText.TrimEndDrops | backend/src/routes/chat.ts:30 | the end is stripped of a run of white space only, and what is left does not end with white space |
| JsText.TrimEdges | backend/src/routes/chat.ts:30 | a non-empty trimmed text neither starts nor ends with white space |
| JsText.TrimIsSlice | backend/src/routes/chat.ts:30 | the trimmed text is one contiguous slice of the original |
| JsText.TrimIdempotent | backend/src/routes/chat.ts:30 | trimming twice is trimming once |
| JsText.TrimEmptyIffWhiteSpace | backend/src/routes/chat.ts:30-33 | a string trims to nothing exactly when it is all white space |
| Store.LastOfSession | backend/src/db/queries.ts:20-25 | a match is a row of the session |
| Store.LastOfSessionIsLast | backend/src/db/queries.ts:20-25 | no later row belongs to the session, and none at all when nothing matches |
| Store.LatestIsNewest | backend/src/db/queries.ts:20-29 | the latest conversation is the session's most recently created one, and there is none exactly when the session has no conversation |
| Store.MessagesOfMembers | backend/src/db/queries.ts:61-69 | the history holds exactly the conversation's messages |
| Store.MessagesOfOrdered | backend/src/db/queries.ts:61-69 | the history is in ascending creation time |
| Store.MessagesOfNone | backend/src/db/queries.ts:61-69 | a conversation without messages has an empty history |
| Store.MessagesOfAppend | backend/src/db/queries.ts:61-69 | a new message of another conversation leaves a history as it was; one of this conversation extends it by that message |
| Store.Touch | backend/src/db/queries.ts:52-56 | the `UPDATE` of `updated_at` keeps the number of rows; which rows change is stated by `Store.TouchRows` |
| Store.TouchRows | backend/src/db/queries.ts:52-56 | the update stamps exactly the rows with that id and keeps every other column |
| Store.TouchTwice | backend/src/db/queries.ts:52-56 | stamping a conversation twice leaves only the later stamp |
| Store.LastOfSessionTouched | backend/src/db/queries.ts:52-56 | stamping `updated_at` does not change which conversation a session resolves to |
| Store.InsertConversationValid | backend/src/db/queries.ts:31-35 | inserting a fresh, current conversation keeps the tables' invariant and the new conversation has no messages |
| Store.InsertMessageValid | backend/src/db/queries.ts:45-56 | inserting a fresh, current message and then stamping its conversation keeps the tables' invariant |
| Store.ConversationStore.Latest | backend/src/db/queries.ts:20-25 | the selected row belongs to the session |
| Store.ConversationStore.ResolvedId | backend/src/db/queries.ts:19-38 | the next fresh id is used exactly when the session has no conversation |
| Store.ConversationStore.GetOrCreateConversation | backend/src/db/queries.ts:19-38 | an existing session gets its latest conversation and nothing is inserted; otherwise exactly one conversation with a fresh id is inserted, with an empty history |
| Store.ConversationStore.SaveMessage | backend/src/db/queries.ts:40-59 | exactly one message with a fresh id is appended and returned, and only that conversation's `updated_at` changes; a missing conversation is refused and nothing changes |
| Store.ConversationStore.GetConversationHistory | backend/src/db/queries.ts:61-69 | the method returns the conversation's history |
| Store.HistoryIsConversation | backend/src/db/queries.ts:61-69 | a history holds exactly the conversation's messages, oldest first |
| Store.ResolveTwice | backend/src/db/queries.ts:19-38 | two calls in a row for one session return the same id and insert at most one row |
| ChatInput.InputBox.constructor | frontend/app/components/ChatInput.tsx:14 | the box starts empty with nothing sent |
| ChatInput.InputBox.HandleInputChange | frontend/app/components/ChatInput.tsx:43-48 | a value of at most 5000 code units is stored; a longer one leaves the input as it was |
| ChatInput.InputBox.HandleSend | frontend/app/components/ChatInput.tsx:17-26 | when the three guards hold, the trimmed input is sent once and the input is cleared; otherwise nothing changes |
| ChatInput.InputBox.HandleKeyDown | frontend/app/components/ChatInput.tsx:28-33 | the default is prevented exactly for Enter without Shift, which sends; any other key changes nothing |
| ChatInput.InputBox.CharCount | frontend/app/components/ChatInput.tsx:52 | the count shown is the trimmed length, never more than the input's length |
| ChatInput.InputBox.IsOverLimit | frontend/app/components/ChatInput.tsx:50 | over the 5000 limit implies near it |
| ChatInput.InputBox.IsNearLimit | frontend/app/components/ChatInput.tsx:51 | near the limit implies the input itself holds more than 4000 code units |
| ChatInput.InputBox.CanSend | frontend/app/components/ChatInput.tsx:18 | whenever `handleSend`'s guard holds, the over-limit flag is off |
| ChatInput.InputBox.SendButtonDisabled | frontend/app/components/ChatInput.tsx:94 | the button is disabled exactly when `handleSend`'s guard fails |
| ChatInput.NeverOverLimit | frontend/app/components/ChatInput.tsx:45-50 | in every reachable state the input is at most 5000 long and the over-limit flag is off |
| ChatInput.LimitFlags | frontend/app/components/ChatInput.tsx:50-111 | over the limit implies near it, and in a reachable state the near-limit warning shows exactly when more than 4000 trimmed code units are typed |
| ChatInput.ButtonEnabledIffSendFires | frontend/app/components/ChatInput.tsx:94 | the send button is enabled exactly when clicking it sends |
| ChatInput.SentMessagesAccepted | frontend/app/components/ChatInput.tsx:17-19 | every text the box has sent passes the server's message checks and is forwarded as its truncation |

## Left out

- The OpenAI, Gemini, Redis and Postgres client libraries: providers are functions given as parameters, Redis is a map with its faults as inputs, and the tables are sequences in a class.
- The 30-second abort of the OpenAI request: a time-out is one of the errors a provider function may return.
- Redis TTL expiry: the TTL is stored with each entry but entries never expire.
- `temperature`, `max_tokens` and the model names sent to the providers.
- The SYSTEM_PROMPT text: it is a field of `Llm.Providers`, taken as given.
- UUIDs, `CURRENT_TIMESTAMP`, `Date.now()` and `Math.random()`: a counter, a clock advanced by each writing statement, and inputs of `ChatRoute.Env`. Two statements never share a timestamp in the model.
- Console logging, and the `details` field of error responses, which depends on NODE_ENV.
- Storage errors: on the route's paths the store never fails (`Store.ConversationStore.SaveMessage` refuses only a missing conversation, which the routes never pass), so the catch branch of `GET /history/:sessionId` and the storage failures of `POST /` are not modelled. In particular the `session_id VARCHAR(255)` column of backend/src/db/init.ts:14 is not modelled: a client-supplied session id longer than 255 characters makes the `INSERT` of backend/src/db/queries.ts:32-35 throw, and the service answers 500 where the model answers 200.
- A provider answer without content (`undefined`) is modelled as the empty text, and an error without a message as the empty message; both behave as in the code (falsy, no substring match).
- `substring(0, 4000)` may split a surrogate pair; the model cuts code units in the same way and does not look further at what such a text encodes to.
- The textarea auto-resize effect (frontend/app/components/ChatInput.tsx:36-41), the page around the input box, and the message rendering: DOM and styling.
- backend/src/db/init.ts and backend/src/index.ts are not part of this model; the schema facts used (two roles, the foreign key of messages) are written into `Store`.
- Llm.GeminiPrompt: its contract states the length, the opening and the closing of the prompt; the lines in between are stated by `Llm.TranscriptEndsWithUser` and `ChatHandlers.UserMessageInTranscript`.
- Llm.Completion: its contract bounds and shapes the requests; which requests are sent, and in which order, is stated by `Llm.PrimaryAnswerStands` (OpenAI alone) and `Llm.FallbackOnce` (the OpenAI request, then Gemini's).
- Llm.OpenAIAttempt: its contract states the requests and that a reply is non-empty; the reply itself is stated by `Llm.OpenAIReply`.
- Llm.GeminiAttempt: its contract states the requests and that a reply is non-empty; the reply itself is stated by `Llm.GeminiReply`.
- Llm.ClassifyOpenAI: its contract states the possible outcomes; the rows and the rethrow are stated by `Llm.OpenAITableRows` and `Llm.OpenAIRethrowsUnmatched`.
- Llm.ClassifyGemini: its contract states the possible outcomes; the rows and the rethrow are stated by `Llm.GeminiTableRows` and `Llm.GeminiRethrowsUnmatched`.
- ChatRoute.StatusFor: its contract states the set of statuses and the 503 row; the other rows are stated for the messages the code can produce by the status lemmas.
- ChatHandlers.HandleChat: the rows of the tables themselves (rather than the turns appended and the conversation stamped) are stated through `Store.MessagesOfAppend` and `Store.TouchRows`.
