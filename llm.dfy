/** The completion service: the chat-message list sent to OpenAI, the prompt
    sent to Gemini, the bound on history, each provider's error
    classification and the OpenAI-then-Gemini fallback.  The providers
    themselves are oracles: a function from the request to an outcome. */
module Llm {
  import opened Wrappers
  import opened JsText
  import Store

  /** An error value as JavaScript code sees it: optional `status` and `code`
      properties and a `message` (the empty string when absent). */
  datatype Thrown = Thrown(status: Option<int>, code: Option<string>, message: string)

  /** `new Error(message)`: no status and no code. */
  function Fresh(message: string): Thrown {
    Thrown(None, None, message)
  }

  /** What a provider does with one request: it answers with a text (empty
      when the answer has no content) or raises an error. */
  datatype Outcome = Answered(text: JsString) | Failed(error: Thrown)

  datatype ChatRole = System | User | Assistant

  /** One entry of an OpenAI chat-completion request. */
  datatype ChatEntry = ChatEntry(role: ChatRole, content: JsString)

  /** The environment of the service: which API keys are set, the system
      prompt, and the two providers. */
  datatype Providers = Providers(
    openAIKeySet: bool,
    geminiKeySet: bool,
    systemPrompt: JsString,
    openai: seq<ChatEntry> -> Outcome,
    gemini: JsString -> Outcome)

  /** A request made to a provider. */
  datatype ProviderCall = AskOpenAI(messages: seq<ChatEntry>) | AskGemini(prompt: JsString)

  const MAX_HISTORY_MESSAGES := 20

  // The longer messages are written in pieces of at most about thirty
  // characters, which keeps the proofs about their contents small.
  const OPENAI_NOT_CONFIGURED := "OPENAI_API_KEY is " + "not configured"
  const NO_OPENAI_RESPONSE := "No response from OpenAI"
  const INVALID_OPENAI_KEY := "Invalid OpenAI API key. " + "Please check your configuration."
  const RATE_LIMITED := "Rate limit exceeded. " + "Please try again in a moment."
  const OPENAI_UNAVAILABLE := "OpenAI service is " + "temporarily unavailable. " + "Please try again later."
  const TIMED_OUT := "Request timed out. " + "Please try again."
  const INVALID_OPENAI_REQUEST := "Invalid request to OpenAI. " + "Please check your message."

  const GEMINI_NOT_CONFIGURED := "GEMINI_API_KEY is " + "not configured"
  const NO_GEMINI_RESPONSE := "No response from Gemini"
  const INVALID_GEMINI_KEY := "Invalid Gemini API key. " + "Please check your configuration."
  const GEMINI_QUOTA := "Gemini API quota exceeded. " + "Please try again later."
  const GEMINI_UNAVAILABLE := "Gemini service is " + "temporarily unavailable. " + "Please try again later."

  const BOTH_FAILED := "Failed to get AI response " + "from both OpenAI and Gemini"

  // ---------------------------------------------------------------------
  // Request construction

  /** A stored message as a chat entry: `user` stays user, anything else is
      sent as assistant. */
  function EntryOf(m: Store.Message): (e: ChatEntry)
    ensures e.content == m.content
    ensures e.role == User <==> m.role == Store.User
    ensures e.role != System
  {
    ChatEntry(if m.role == Store.User then User else Assistant, m.content)
  }

  /** `buildChatHistory`: the system prompt, the history in order, then the
      user's message. */
  function BuildChatHistory(systemPrompt: JsString, userMessage: JsString, history: seq<Store.Message>): (r: seq<ChatEntry>)
    ensures |r| == |history| + 2
    ensures r[0] == ChatEntry(System, systemPrompt)
    ensures r[|r| - 1] == ChatEntry(User, userMessage)
    ensures forall i :: 0 <= i < |history| ==> r[i + 1] == EntryOf(history[i])
  {
    [ChatEntry(System, systemPrompt)] + seq(|history|, i requires 0 <= i < |history| => EntryOf(history[i])) + [ChatEntry(User, userMessage)]
  }

  /** Only the first entry is a system entry, and the turns between the
      first and the last entry carry exactly the history's contents and its
      user/assistant split. */
  lemma {:induction false} ChatHistoryTurns(systemPrompt: JsString, userMessage: JsString, history: seq<Store.Message>)
    ensures var r := BuildChatHistory(systemPrompt, userMessage, history);
      && (forall i :: 0 < i < |r| ==> r[i].role != System)
      && (forall i :: 0 <= i < |history| ==>
            r[i + 1].content == history[i].content && (r[i + 1].role == User <==> history[i].role == Store.User))
  {
    var r := BuildChatHistory(systemPrompt, userMessage, history);
    forall i | 0 < i < |r| ensures r[i].role != System {
      if i < |r| - 1 {
        assert r[i] == EntryOf(history[i - 1]);
      }
    }
  }

  /** `msg.role.toUpperCase()`. */
  function RoleName(role: Store.Role): JsString {
    if role == Store.User then Lit("USER") else Lit("ASSISTANT")
  }

  /** One line of the Gemini transcript. */
  function Line(m: Store.Message): JsString {
    RoleName(m.role) + Lit(": ") + m.content
  }

  /** A user turn's line starts with "USER: ". */
  lemma {:induction false} UserLine(m: Store.Message)
    requires m.role == Store.User
    ensures Line(m) == Lit("USER: ") + m.content
  {
    var u, c := Lit("USER"), Lit(": ");
    assert u + c == Lit("USER: ") by {
      assert |u + c| == 6;
      assert forall i :: 0 <= i < 6 ==> (u + c)[i] == Lit("USER: ")[i];
    }
  }

  /** The lines of a history joined with newlines (`.join('\n')`). */
  function Transcript(history: seq<Store.Message>): (r: JsString)
    ensures history == [] <==> r == []
    ensures |history| == 1 ==> r == Line(history[0])
  {
    if history == [] then []
    else if |history| == 1 then Line(history[0])
    else Line(history[0]) + Lit("\n") + Transcript(history[1..])
  }

  /** One more turn adds one more line at the end of the transcript. */
  lemma {:induction false} TranscriptAppend(history: seq<Store.Message>, m: Store.Message)
    requires history != []
    ensures Transcript(history + [m]) == Transcript(history) + Lit("\n") + Line(m)
    decreases |history|
  {
    var h := history + [m];
    assert h[0] == history[0] && h[1..] == history[1..] + [m];
    if |history| > 1 {
      TranscriptAppend(history[1..], m);
    }
  }

  /** A history ending with a user turn has a transcript ending with that
      turn's "USER: " line. */
  lemma {:induction false} TranscriptEndsWithUser(init: seq<Store.Message>, m: Store.Message)
    requires m.role == Store.User
    ensures Transcript(init + [m]) == (if init == [] then [] else Transcript(init) + Lit("\n")) + Lit("USER: ") + m.content
  {
    UserLine(m);
    if init == [] {
      assert init + [m] == [m];
    } else {
      TranscriptAppend(init, m);
    }
  }

  /** The prompt sent to Gemini. */
  function GeminiPrompt(systemPrompt: JsString, userMessage: JsString, history: seq<Store.Message>): (r: JsString)
    ensures |r| == |systemPrompt| + |Transcript(history)| + |userMessage| + 42
    ensures r[..|systemPrompt|] == systemPrompt
    ensures r[|r| - 11..] == Lit("\nASSISTANT:")
  {
    systemPrompt + Lit("\n\nConversation so far:\n") + Transcript(history)
      + Lit("\n\nUSER: ") + userMessage + Lit("\nASSISTANT:")
  }

  /** `conversationHistory.slice(-20)`: the most recent twenty turns, in
      order, or all of them when there are fewer: the suffix of `history`
      of that length. */
  function LastTurns(history: seq<Store.Message>): (r: seq<Store.Message>)
    ensures |r| == if |history| < MAX_HISTORY_MESSAGES then |history| else MAX_HISTORY_MESSAGES
    ensures forall i :: 0 <= i < |r| ==> r[i] == history[|history| - |r| + i]
  {
    if |history| <= MAX_HISTORY_MESSAGES then history
    else seq(MAX_HISTORY_MESSAGES, i requires 0 <= i < MAX_HISTORY_MESSAGES => history[|history| - MAX_HISTORY_MESSAGES + i])
  }

  /** Bounding keeps the newest turn and is already a fixed point after one
      application. */
  lemma {:induction false} LastTurnsStable(history: seq<Store.Message>)
    ensures LastTurns(LastTurns(history)) == LastTurns(history)
    ensures history != [] ==> LastTurns(history)[|LastTurns(history)| - 1] == history[|history| - 1]
  {
  }

  /** The turn just saved is the last of the bounded history. */
  lemma {:induction false} LastTurnsSnoc(history: seq<Store.Message>, m: Store.Message)
    ensures var r := LastTurns(history + [m]);
      r != [] && r == r[..|r| - 1] + [m]
  {
    var h := history + [m];
    var r := LastTurns(h);
    assert r[|r| - 1] == h[|h| - 1] == m;
  }

  // ---------------------------------------------------------------------
  // Error classification

  /** The catch block of `callOpenAI`, a first-match table on the error. */
  function ClassifyOpenAI(e: Thrown): (r: Thrown)
    ensures r == e || r in {Fresh(INVALID_OPENAI_KEY), Fresh(RATE_LIMITED), Fresh(OPENAI_UNAVAILABLE), Fresh(TIMED_OUT), Fresh(INVALID_OPENAI_REQUEST)}
  {
    if e.status == Some(401) || e.code == Some("invalid_api_key") then Fresh(INVALID_OPENAI_KEY)
    else if e.status == Some(429) || e.code == Some("rate_limit_exceeded") then Fresh(RATE_LIMITED)
    else if e.status == Some(503) || e.code == Some("server_error") then Fresh(OPENAI_UNAVAILABLE)
    else if e.code == Some("timeout") || Contains(e.message, "timeout") then Fresh(TIMED_OUT)
    else if e.status == Some(400) then Fresh(INVALID_OPENAI_REQUEST)
    else e
  }

  /** The catch block of `callGemini`. */
  function ClassifyGemini(e: Thrown): (r: Thrown)
    ensures r == e || r in {Fresh(INVALID_GEMINI_KEY), Fresh(GEMINI_QUOTA), Fresh(GEMINI_UNAVAILABLE), Fresh(TIMED_OUT)}
  {
    if e.status == Some(401) || Contains(e.message, "API key") then Fresh(INVALID_GEMINI_KEY)
    else if e.status == Some(429) || Contains(e.message, "quota") then Fresh(GEMINI_QUOTA)
    else if e.status == Some(503) then Fresh(GEMINI_UNAVAILABLE)
    else if Contains(e.message, "timeout") || e.code == Some("ECONNABORTED") then Fresh(TIMED_OUT)
    else e
  }

  // The tests of the two catch blocks, row by row.
  predicate OpenAIKeyRow(e: Thrown) { e.status == Some(401) || e.code == Some("invalid_api_key") }
  predicate OpenAILimitRow(e: Thrown) { e.status == Some(429) || e.code == Some("rate_limit_exceeded") }
  predicate OpenAIServerRow(e: Thrown) { e.status == Some(503) || e.code == Some("server_error") }
  predicate OpenAITimeoutRow(e: Thrown) { e.code == Some("timeout") || Contains(e.message, "timeout") }
  predicate OpenAIRequestRow(e: Thrown) { e.status == Some(400) }

  predicate GeminiKeyRow(e: Thrown) { e.status == Some(401) || Contains(e.message, "API key") }
  predicate GeminiQuotaRow(e: Thrown) { e.status == Some(429) || Contains(e.message, "quota") }
  predicate GeminiServerRow(e: Thrown) { e.status == Some(503) }
  predicate GeminiTimeoutRow(e: Thrown) { Contains(e.message, "timeout") || e.code == Some("ECONNABORTED") }

  /** The rows of `callOpenAI`'s catch block, in order: each row's message
      is thrown when its test holds and no earlier row's does. */
  lemma {:induction false} OpenAITableRows(e: Thrown)
    ensures OpenAIKeyRow(e) ==> ClassifyOpenAI(e) == Fresh(INVALID_OPENAI_KEY)
    ensures !OpenAIKeyRow(e) && OpenAILimitRow(e) ==> ClassifyOpenAI(e) == Fresh(RATE_LIMITED)
    ensures !OpenAIKeyRow(e) && !OpenAILimitRow(e) && OpenAIServerRow(e) ==> ClassifyOpenAI(e) == Fresh(OPENAI_UNAVAILABLE)
    ensures !OpenAIKeyRow(e) && !OpenAILimitRow(e) && !OpenAIServerRow(e) && OpenAITimeoutRow(e) ==>
      ClassifyOpenAI(e) == Fresh(TIMED_OUT)
    ensures !OpenAIKeyRow(e) && !OpenAILimitRow(e) && !OpenAIServerRow(e) && !OpenAITimeoutRow(e) && OpenAIRequestRow(e) ==>
      ClassifyOpenAI(e) == Fresh(INVALID_OPENAI_REQUEST)
  {
  }

  /** Whether an error matches a row of `callOpenAI`'s table. */
  predicate OpenAIRowMatches(e: Thrown) {
    OpenAIKeyRow(e) || OpenAILimitRow(e) || OpenAIServerRow(e) || OpenAITimeoutRow(e) || OpenAIRequestRow(e)
  }

  /** `callOpenAI` rethrows an error unchanged exactly when no row matches it:
      none of the table's own messages matches a row. */
  lemma {:induction false} OpenAIRethrowsUnmatched(e: Thrown)
    ensures ClassifyOpenAI(e) == e <==> !OpenAIRowMatches(e)
  {
    OpenAIMessagesLackTimeout();
  }

  /** The rows of `callGemini`'s catch block, in order. */
  lemma {:induction false} GeminiTableRows(e: Thrown)
    ensures GeminiKeyRow(e) ==> ClassifyGemini(e) == Fresh(INVALID_GEMINI_KEY)
    ensures !GeminiKeyRow(e) && GeminiQuotaRow(e) ==> ClassifyGemini(e) == Fresh(GEMINI_QUOTA)
    ensures !GeminiKeyRow(e) && !GeminiQuotaRow(e) && GeminiServerRow(e) ==> ClassifyGemini(e) == Fresh(GEMINI_UNAVAILABLE)
    ensures !GeminiKeyRow(e) && !GeminiQuotaRow(e) && !GeminiServerRow(e) && GeminiTimeoutRow(e) ==>
      ClassifyGemini(e) == Fresh(TIMED_OUT)
  {
  }

  /** Whether an error matches a row of `callGemini`'s table. */
  predicate GeminiRowMatches(e: Thrown) {
    GeminiKeyRow(e) || GeminiQuotaRow(e) || GeminiServerRow(e) || GeminiTimeoutRow(e)
  }

  /** `callGemini` rethrows an error unchanged when no row matches it.  Two
      of its own messages match the row that produces them ("API key",
      "quota"), so those come back unchanged too; no other matched error
      does. */
  lemma {:induction false} GeminiRethrowsUnmatched(e: Thrown)
    ensures ClassifyGemini(e) == e <==>
      !GeminiRowMatches(e) || e == Fresh(INVALID_GEMINI_KEY) || e == Fresh(GEMINI_QUOTA)
  {
    GeminiKeyAndQuotaMessages();
    GeminiUnavailableMessage();
    TimedOutMatchesNoRow();
  }

  /** The time-out message matches no text row of the Gemini table, and
      in particular not the "timeout" row of either table. */
  lemma {:induction false} TimedOutMatchesNoRow()
    ensures !Contains(TIMED_OUT, "API key") && !Contains(TIMED_OUT, "quota")
    ensures !Contains(TIMED_OUT, "timeout")
  {
    var x, y := "Request timed out. ", "Please try again.";
    assert !Contains(TIMED_OUT, "API key") by { AbsentFromPieces(x, y, "API key", 0); }
    assert !Contains(TIMED_OUT, "quota") by { AbsentFromPieces(x, y, "quota", 2); }
    assert !Contains(TIMED_OUT, "timeout") by { AbsentFromPieces(x, y, "timeout", 3); }
  }

  /** The key and rate-limit messages of the OpenAI table do not mention
      "timeout". */
  lemma {:induction false} OpenAIKeyAndLimitLackTimeout()
    ensures !Contains(INVALID_OPENAI_KEY, "timeout")
    ensures !Contains(RATE_LIMITED, "timeout")
  {
    assert !Contains(INVALID_OPENAI_KEY, "timeout") by {
      AbsentFromPieces("Invalid OpenAI API key. ", "Please check your configuration.", "timeout", 1);
    }
    assert !Contains(RATE_LIMITED, "timeout") by {
      AbsentFromPieces("Rate limit exceeded. ", "Please try again in a moment.", "timeout", 0);
    }
  }

  /** Neither does its unavailability message. */
  lemma {:induction false} OpenAIUnavailableLacksTimeout()
    ensures !Contains(OPENAI_UNAVAILABLE, "timeout")
  {
    LacksPairAppend("OpenAI service is ", "temporarily unavailable. ", 't', 'i');
    AbsentFromPieces("OpenAI service is " + "temporarily unavailable. ", "Please try again later.", "timeout", 0);
  }

  /** None of the messages the OpenAI table produces, nor the no-response
      error thrown inside the same `try`, mentions "timeout". */
  lemma {:induction false} OpenAIMessagesLackTimeout()
    ensures !Contains(INVALID_OPENAI_KEY, "timeout")
    ensures !Contains(RATE_LIMITED, "timeout")
    ensures !Contains(OPENAI_UNAVAILABLE, "timeout")
    ensures !Contains(TIMED_OUT, "timeout")
    ensures !Contains(INVALID_OPENAI_REQUEST, "timeout")
    ensures !Contains(NO_OPENAI_RESPONSE, "timeout")
  {
    OpenAIKeyAndLimitLackTimeout();
    OpenAIUnavailableLacksTimeout();
    TimedOutMatchesNoRow();
    AbsentFromPieces("Invalid request to OpenAI. ", "Please check your message.", "timeout", 0);
    AbsentPair(NO_OPENAI_RESPONSE, "timeout", 0);
  }

  /** The OpenAI table is a fixed point on its own output: an error it has
      produced is passed through unchanged. */
  lemma {:induction false} ClassifyOpenAIStable(e: Thrown)
    ensures ClassifyOpenAI(ClassifyOpenAI(e)) == ClassifyOpenAI(e)
  {
    OpenAIMessagesLackTimeout();
  }

  /** An empty OpenAI answer raises "No response from OpenAI" inside the
      `try`; the table does not recognise it and rethrows it as it is. */
  lemma {:induction false} OpenAINoResponseRethrown()
    ensures ClassifyOpenAI(Fresh(NO_OPENAI_RESPONSE)) == Fresh(NO_OPENAI_RESPONSE)
  {
    OpenAIMessagesLackTimeout();
  }

  /** A 401 wins over every other property of the error. */
  lemma {:induction false} UnauthorisedWins(code: Option<string>, message: string)
    ensures ClassifyOpenAI(Thrown(Some(401), code, message)) == Fresh(INVALID_OPENAI_KEY)
    ensures ClassifyGemini(Thrown(Some(401), code, message)) == Fresh(INVALID_GEMINI_KEY)
  {
  }

  /** Which rows of the Gemini table its own messages match: the key message
      mentions "API key" and the quota message "quota" (and not "API key"). */
  lemma {:induction false} GeminiKeyAndQuotaMessages()
    ensures Contains(INVALID_GEMINI_KEY, "API key")
    ensures !Contains(GEMINI_QUOTA, "API key") && Contains(GEMINI_QUOTA, "quota")
  {
    InvalidGeminiKeyNamesKey();
    GeminiQuotaNamesQuota();
    GeminiQuotaNamesNoKey();
  }

  lemma {:induction false} InvalidGeminiKeyNamesKey()
    ensures Contains(INVALID_GEMINI_KEY, "API key")
  {
    ContainsAt("Invalid Gemini API key. ", "API key", 15);
    ContainsAppend("Invalid Gemini API key. ", "Please check your configuration.", "API key");
  }

  lemma {:induction false} GeminiQuotaNamesQuota()
    ensures Contains(GEMINI_QUOTA, "quota")
  {
    ContainsAt("Gemini API quota exceeded. ", "quota", 11);
    ContainsAppend("Gemini API quota exceeded. ", "Please try again later.", "quota");
  }

  lemma {:induction false} GeminiQuotaNamesNoKey()
    ensures !Contains(GEMINI_QUOTA, "API key")
  {
    AbsentFromPieces("Gemini API quota exceeded. ", "Please try again later.", "API key", 3);
  }

  /** The unavailability message mentions no key and no quota. */
  lemma {:induction false} GeminiUnavailableNamesNoKeyOrQuota()
    ensures !Contains(GEMINI_UNAVAILABLE, "API key") && !Contains(GEMINI_UNAVAILABLE, "quota")
  {
    GeminiUnavailableNamesNo("API key");
    GeminiUnavailableNamesNo("quota");
  }

  /** A text whose first two characters are adjacent nowhere in the
      unavailability message is not in it. */
  lemma {:induction false} GeminiUnavailableNamesNo(sub: string)
    requires sub == "API key" || sub == "quota" || sub == "timeout"
    ensures !Contains(GEMINI_UNAVAILABLE, sub)
  {
    var head, tail := "Gemini service is " + "temporarily unavailable. ", "Please try again later.";
    LacksPairAppend("Gemini service is ", "temporarily unavailable. ", sub[0], sub[1]);
    AbsentFromPieces(head, tail, sub, 0);
  }

  /** So the unavailability message matches no text row of the Gemini
      table. */
  lemma {:induction false} GeminiUnavailableMessage()
    ensures !Contains(GEMINI_UNAVAILABLE, "API key") && !Contains(GEMINI_UNAVAILABLE, "quota")
    ensures !Contains(GEMINI_UNAVAILABLE, "timeout")
  {
    GeminiUnavailableNamesNoKeyOrQuota();
    GeminiUnavailableNamesNo("timeout");
  }

  /** Neither the time-out message nor the no-response error matches a text
      row of the Gemini table. */
  lemma {:induction false} GeminiPlainMessages()
    ensures !Contains(TIMED_OUT, "API key") && !Contains(TIMED_OUT, "quota") && !Contains(TIMED_OUT, "timeout")
    ensures !Contains(NO_GEMINI_RESPONSE, "API key") && !Contains(NO_GEMINI_RESPONSE, "quota")
    ensures !Contains(NO_GEMINI_RESPONSE, "timeout")
  {
    TimedOutMatchesNoRow();
    AbsentPair(NO_GEMINI_RESPONSE, "API key", 0);
    AbsentPair(NO_GEMINI_RESPONSE, "quota", 0);
    AbsentPair(NO_GEMINI_RESPONSE, "timeout", 0);
  }

  /** The Gemini table is a fixed point on its own output too: its key and
      quota messages match their own rows again. */
  lemma {:induction false} ClassifyGeminiStable(e: Thrown)
    ensures ClassifyGemini(ClassifyGemini(e)) == ClassifyGemini(e)
  {
    GeminiKeyAndQuotaMessages();
    GeminiUnavailableMessage();
    GeminiPlainMessages();
  }

  lemma {:induction false} GeminiNoResponseRethrown()
    ensures ClassifyGemini(Fresh(NO_GEMINI_RESPONSE)) == Fresh(NO_GEMINI_RESPONSE)
  {
    GeminiPlainMessages();
  }

  // ---------------------------------------------------------------------
  // Provider calls and the fallback

  /** What one provider call yields: the reply or the error it throws, and
      the requests it sent (none when its key is missing). */
  datatype Attempt = Attempt(reply: Result<JsString, Thrown>, calls: seq<ProviderCall>)

  function OpenAIAttempt(p: Providers, userMessage: JsString, history: seq<Store.Message>): (a: Attempt)
    ensures a.reply.Ok? ==> a.reply.value != []
    ensures !p.openAIKeySet <==> a.calls == []
    ensures p.openAIKeySet ==> a.calls == [AskOpenAI(BuildChatHistory(p.systemPrompt, userMessage, history))]
  {
    if !p.openAIKeySet then Attempt(Err(Fresh(OPENAI_NOT_CONFIGURED)), [])
    else
      var messages := BuildChatHistory(p.systemPrompt, userMessage, history);
      var reply := match p.openai(messages)
        case Answered(text) => if text == [] then Err(ClassifyOpenAI(Fresh(NO_OPENAI_RESPONSE))) else Ok(text)
        case Failed(e) => Err(ClassifyOpenAI(e));
      Attempt(reply, [AskOpenAI(messages)])
  }

  function GeminiAttempt(p: Providers, userMessage: JsString, history: seq<Store.Message>): (a: Attempt)
    ensures a.reply.Ok? ==> a.reply.value != []
    ensures !p.geminiKeySet <==> a.calls == []
    ensures p.geminiKeySet ==> a.calls == [AskGemini(GeminiPrompt(p.systemPrompt, userMessage, history))]
  {
    if !p.geminiKeySet then Attempt(Err(Fresh(GEMINI_NOT_CONFIGURED)), [])
    else
      var prompt := GeminiPrompt(p.systemPrompt, userMessage, history);
      var reply := match p.gemini(prompt)
        case Answered(text) => if text == [] then Err(ClassifyGemini(Fresh(NO_GEMINI_RESPONSE))) else Ok(text)
        case Failed(e) => Err(ClassifyGemini(e));
      Attempt(reply, [AskGemini(prompt)])
  }

  /** What `callOpenAI` returns: the "not configured" error without a key;
      otherwise OpenAI's answer when it is not empty, the "No response"
      error (rethrown unchanged by the table) when it is, and the classified
      error when the request fails. */
  lemma {:induction false} OpenAIReply(p: Providers, userMessage: JsString, history: seq<Store.Message>)
    ensures !p.openAIKeySet ==> OpenAIAttempt(p, userMessage, history).reply == Err(Fresh(OPENAI_NOT_CONFIGURED))
    ensures p.openAIKeySet ==>
      var r := OpenAIAttempt(p, userMessage, history).reply;
      match p.openai(BuildChatHistory(p.systemPrompt, userMessage, history))
      case Answered(t) => r == if t == [] then Err(Fresh(NO_OPENAI_RESPONSE)) else Ok(t)
      case Failed(e) => r == Err(ClassifyOpenAI(e))
  {
    OpenAINoResponseRethrown();
  }

  /** What `callGemini` returns, in the same way. */
  lemma {:induction false} GeminiReply(p: Providers, userMessage: JsString, history: seq<Store.Message>)
    ensures !p.geminiKeySet ==> GeminiAttempt(p, userMessage, history).reply == Err(Fresh(GEMINI_NOT_CONFIGURED))
    ensures p.geminiKeySet ==>
      var r := GeminiAttempt(p, userMessage, history).reply;
      match p.gemini(GeminiPrompt(p.systemPrompt, userMessage, history))
      case Answered(t) => r == if t == [] then Err(Fresh(NO_GEMINI_RESPONSE)) else Ok(t)
      case Failed(e) => r == Err(ClassifyGemini(e))
  {
    GeminiNoResponseRethrown();
  }

  /** A missing key fails before any request, with the "not configured"
      message; an empty answer is a failure. */
  lemma {:induction false} MissingKeyOrEmptyAnswerFails(p: Providers, userMessage: JsString, history: seq<Store.Message>)
    ensures !p.openAIKeySet ==> OpenAIAttempt(p, userMessage, history) == Attempt(Err(Fresh(OPENAI_NOT_CONFIGURED)), [])
    ensures !p.geminiKeySet ==> GeminiAttempt(p, userMessage, history) == Attempt(Err(Fresh(GEMINI_NOT_CONFIGURED)), [])
    ensures p.openAIKeySet && p.openai(BuildChatHistory(p.systemPrompt, userMessage, history)) == Answered([]) ==>
      OpenAIAttempt(p, userMessage, history).reply == Err(Fresh(NO_OPENAI_RESPONSE))
    ensures p.geminiKeySet && p.gemini(GeminiPrompt(p.systemPrompt, userMessage, history)) == Answered([]) ==>
      GeminiAttempt(p, userMessage, history).reply == Err(Fresh(NO_GEMINI_RESPONSE))
  {
    OpenAINoResponseRethrown();
    GeminiNoResponseRethrown();
  }

  /** `getAIResponse` as a function of its inputs. */
  function Completion(p: Providers, userMessage: JsString, history: seq<Store.Message>): (a: Attempt)
    ensures a.reply.Ok? ==> a.reply.value != []
    ensures a.reply.Err? ==> a.reply.error == Fresh(BOTH_FAILED)
    ensures |a.calls| <= 2
    ensures forall c :: c in a.calls ==>
      c == AskOpenAI(BuildChatHistory(p.systemPrompt, userMessage, LastTurns(history)))
      || c == AskGemini(GeminiPrompt(p.systemPrompt, userMessage, LastTurns(history)))
  {
    var turns := LastTurns(history);
    var primary := OpenAIAttempt(p, userMessage, turns);
    if primary.reply.Ok? then primary
    else
      var secondary := GeminiAttempt(p, userMessage, turns);
      Attempt(if secondary.reply.Ok? then secondary.reply else Err(Fresh(BOTH_FAILED)), primary.calls + secondary.calls)
  }

  /** A reply from OpenAI is the result and Gemini is never asked. */
  lemma {:induction false} PrimaryAnswerStands(p: Providers, userMessage: JsString, history: seq<Store.Message>)
    requires OpenAIAttempt(p, userMessage, LastTurns(history)).reply.Ok?
    ensures Completion(p, userMessage, history) == OpenAIAttempt(p, userMessage, LastTurns(history))
    ensures forall c :: c in Completion(p, userMessage, history).calls ==> c.AskOpenAI?
  {
  }

  /** Any OpenAI failure, whatever its error, leads to one Gemini attempt with
      the same message and bounded history, after the OpenAI request; its
      reply is the result, and when it fails too the error names neither
      provider's cause. */
  lemma {:induction false} FallbackOnce(p: Providers, userMessage: JsString, history: seq<Store.Message>)
    requires OpenAIAttempt(p, userMessage, LastTurns(history)).reply.Err?
    ensures var a := Completion(p, userMessage, history);
      var g := GeminiAttempt(p, userMessage, LastTurns(history));
      && (g.reply.Ok? ==> a.reply == g.reply)
      && (g.reply.Err? ==> a.reply == Err(Fresh(BOTH_FAILED)))
      && a.calls == OpenAIAttempt(p, userMessage, LastTurns(history)).calls + g.calls
      && (p.geminiKeySet <==> exists c :: c in a.calls && c.AskGemini?)
  {
    var a := Completion(p, userMessage, history);
    if p.geminiKeySet {
      assert a.calls[|a.calls| - 1].AskGemini?;
    }
  }

  /** The reply of a successful completion is what a provider answered to the
      request recorded for it. */
  lemma {:induction false} ReplyComesFromAProvider(p: Providers, userMessage: JsString, history: seq<Store.Message>)
    requires Completion(p, userMessage, history).reply.Ok?
    ensures var a := Completion(p, userMessage, history);
      exists c :: c in a.calls &&
        ((c.AskOpenAI? && p.openai(c.messages) == Answered(a.reply.value))
         || (c.AskGemini? && p.gemini(c.prompt) == Answered(a.reply.value)))
  {
    var turns := LastTurns(history);
    var a := Completion(p, userMessage, history);
    var primary := OpenAIAttempt(p, userMessage, turns);
    if primary.reply.Ok? {
      assert primary.calls[0] in a.calls;
    } else {
      var secondary := GeminiAttempt(p, userMessage, turns);
      assert secondary.calls[0] in a.calls;
    }
  }

  /** `callOpenAI`. */
  method CallOpenAI(p: Providers, userMessage: JsString, history: seq<Store.Message>)
    returns (reply: Result<JsString, Thrown>, calls: seq<ProviderCall>)
    ensures Attempt(reply, calls) == OpenAIAttempt(p, userMessage, history)
  {
    if !p.openAIKeySet {
      return Err(Fresh(OPENAI_NOT_CONFIGURED)), [];
    }
    var messages := BuildChatHistory(p.systemPrompt, userMessage, history);
    calls := [AskOpenAI(messages)];
    var outcome := p.openai(messages);
    match outcome {
      case Answered(text) =>
        if text == [] {
          reply := Err(ClassifyOpenAI(Fresh(NO_OPENAI_RESPONSE)));
        } else {
          reply := Ok(text);
        }
      case Failed(e) =>
        reply := Err(ClassifyOpenAI(e));
    }
  }

  /** `callGemini`. */
  method CallGemini(p: Providers, userMessage: JsString, history: seq<Store.Message>)
    returns (reply: Result<JsString, Thrown>, calls: seq<ProviderCall>)
    ensures Attempt(reply, calls) == GeminiAttempt(p, userMessage, history)
  {
    if !p.geminiKeySet {
      return Err(Fresh(GEMINI_NOT_CONFIGURED)), [];
    }
    var prompt := GeminiPrompt(p.systemPrompt, userMessage, history);
    calls := [AskGemini(prompt)];
    var outcome := p.gemini(prompt);
    match outcome {
      case Answered(text) =>
        if text == [] {
          reply := Err(ClassifyGemini(Fresh(NO_GEMINI_RESPONSE)));
        } else {
          reply := Ok(text);
        }
      case Failed(e) =>
        reply := Err(ClassifyGemini(e));
    }
  }

  /** `getAIResponse`: bound the history, try OpenAI, fall back to Gemini once. */
  method GetAIResponse(p: Providers, userMessage: JsString, history: seq<Store.Message>)
    returns (reply: Result<JsString, Thrown>, calls: seq<ProviderCall>)
    ensures Attempt(reply, calls) == Completion(p, userMessage, history)
  {
    var turns := LastTurns(history);
    var primaryCalls;
    reply, primaryCalls := CallOpenAI(p, userMessage, turns);
    if reply.Ok? {
      return reply, primaryCalls;
    }
    var secondaryCalls;
    reply, secondaryCalls := CallGemini(p, userMessage, turns);
    calls := primaryCalls + secondaryCalls;
    if reply.Err? {
      reply := Err(Fresh(BOTH_FAILED));
    }
  }
}
