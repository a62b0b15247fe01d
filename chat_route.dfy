/** The chat routes: `POST /` validates and normalises the message, settles
    the session id, answers from the cache or from the completion service,
    records both turns and maps failures to an HTTP status; `GET
    /history/:sessionId` returns a session's conversation.  The handler is a
    method over the conversation store and the response cache; the clock, the
    random session suffix, the Redis faults and the providers are inputs. */
module ChatRoute {
  import opened Wrappers
  import opened JsText
  import Store
  import Cache
  import Llm

  /** A field of the parsed JSON request body, as far as the handler can
      tell values apart. */
  datatype JsonValue = Missing | Null | Bool(b: bool) | Num(x: real) | Str(s: JsString) | Structured

  /** JavaScript truthiness. */
  predicate Truthy(v: JsonValue) {
    match v
    case Missing => false
    case Null => false
    case Bool(b) => b
    case Num(x) => x != 0.0
    case Str(s) => s != []
    case Structured => true
  }

  datatype ChatRequest = ChatRequest(message: JsonValue, sessionId: JsonValue)

  /** The values of `Date.now()` and of
      `Math.random().toString(36).substring(7)` when a session id is made. */
  datatype Env = Env(now: nat, randomSuffix: JsString)

  const MAX_MESSAGE_LENGTH := 5000
  const MAX_MESSAGE_LENGTH_WARNING := 4000

  const MESSAGE_REQUIRED := "Message is required " + "and must be a string"
  const MESSAGE_EMPTY := "Message cannot be empty"
  const SESSION_NOT_STRING := "sessionId must be a string"
  const INVALID_SESSION := "Invalid sessionId"
  const PROCESSING_FAILED := "Failed to process chat message"

  /** The error for a trimmed message of `length` characters over the limit. */
  function TooLong(length: nat): string {
    "Message is too long. Maximum length is " + Decimal(MAX_MESSAGE_LENGTH)
      + " characters. Your message is " + Decimal(length) + " characters."
  }

  const ELLIPSIS: JsString := Lit("...")

  // ---------------------------------------------------------------------
  // Validation

  /** The processed message: a trimmed text over 4000 characters is cut to
      its first 4000 and marked with "...". */
  function Truncate(t: JsString): (r: JsString)
    ensures |t| <= MAX_MESSAGE_LENGTH_WARNING ==> r == t
    ensures |t| > MAX_MESSAGE_LENGTH_WARNING ==>
      |r| == MAX_MESSAGE_LENGTH_WARNING + 3 && r[..MAX_MESSAGE_LENGTH_WARNING] == t[..MAX_MESSAGE_LENGTH_WARNING]
      && r[MAX_MESSAGE_LENGTH_WARNING..] == ELLIPSIS
  {
    if |t| > MAX_MESSAGE_LENGTH_WARNING then t[..MAX_MESSAGE_LENGTH_WARNING] + ELLIPSIS else t
  }

  /** The message checks of the POST handler, in their order. */
  function ValidateMessage(message: JsonValue): (r: Result<JsString, string>)
    ensures r.Ok? <==> message.Str? && 0 < |Trim(message.s)| <= MAX_MESSAGE_LENGTH
    ensures r.Ok? ==> r.value == Truncate(Trim(message.s))
  {
    if !Truthy(message) || !message.Str? then Err(MESSAGE_REQUIRED)
    else
      var trimmed := Trim(message.s);
      if |trimmed| == 0 then Err(MESSAGE_EMPTY)
      else if |trimmed| > MAX_MESSAGE_LENGTH then Err(TooLong(|trimmed|))
      else Ok(Truncate(trimmed))
  }

  /** Which error each rejected message gets: anything but a non-empty
      string is "required", a string of white space is "empty", and a
      trimmed text over the limit is "too long" with its length. */
  lemma {:induction false} RejectionReasons(message: JsonValue)
    ensures !message.Str? ==> ValidateMessage(message) == Err(MESSAGE_REQUIRED)
    ensures message == Str([]) ==> ValidateMessage(message) == Err(MESSAGE_REQUIRED)
    ensures message.Str? && message.s != [] && AllWhiteSpace(message.s) ==> ValidateMessage(message) == Err(MESSAGE_EMPTY)
    ensures message.Str? && |Trim(message.s)| > MAX_MESSAGE_LENGTH ==>
      ValidateMessage(message) == Err(TooLong(|Trim(message.s)|))
  {
    if message.Str? {
      TrimEmptyIffWhiteSpace(message.s);
    }
  }

  /** An accepted message is never empty, never longer than 4003
      characters, and neither starts nor ends with white space. */
  lemma {:induction false} AcceptedMessageShape(message: JsonValue)
    requires ValidateMessage(message).Ok?
    ensures var p := ValidateMessage(message).value;
      0 < |p| <= MAX_MESSAGE_LENGTH_WARNING + 3 && !IsWhiteSpace(p[0]) && !IsWhiteSpace(p[|p| - 1])
  {
    var t := Trim(message.s);
    TrimEdges(message.s);
    var p := Truncate(t);
    if |t| > MAX_MESSAGE_LENGTH_WARNING {
      assert p[0] == t[0];
      assert p[|p| - 1] == ELLIPSIS[2];
    }
  }

  /** Validation is idempotent: the processed message, sent again, is
      accepted and comes back unchanged. */
  lemma {:induction false} ProcessedMessageStable(message: JsonValue)
    requires ValidateMessage(message).Ok?
    ensures ValidateMessage(Str(ValidateMessage(message).value)) == ValidateMessage(message)
  {
    var p := ValidateMessage(message).value;
    AcceptedMessageShape(message);
    TrimKeeps(p);
    if |p| > MAX_MESSAGE_LENGTH_WARNING {
      var t := Trim(message.s);
      assert p[..MAX_MESSAGE_LENGTH_WARNING] == t[..MAX_MESSAGE_LENGTH_WARNING];
      assert Truncate(p) == p;
    }
  }

  /** The id made for a request without a usable one:
      `session_<milliseconds>_<random suffix>`. */
  function GeneratedSessionId(env: Env): (r: JsString)
    ensures |r| >= 10 && r[..8] == Lit("session_")
  {
    Lit("session_") + Lit(Decimal(env.now)) + Lit("_") + env.randomSuffix
  }

  /** The session id checks: a truthy non-string is refused, a truthy string
      is kept as it is, anything falsy is replaced by a generated id. */
  function ResolveSession(provided: JsonValue, env: Env): (r: Result<JsString, string>)
    ensures r.Err? <==> Truthy(provided) && !provided.Str?
    ensures r.Ok? && provided.Str? && provided.s != [] ==> r.value == provided.s
    ensures r.Ok? && !Truthy(provided) ==> r.value == GeneratedSessionId(env)
  {
    if Truthy(provided) && !provided.Str? then Err(SESSION_NOT_STRING)
    else if Truthy(provided) then Ok(provided.s)
    else Ok(GeneratedSessionId(env))
  }

  datatype Validated = Validated(message: JsString, sessionId: JsString)

  /** All checks of the POST handler: the message first, the session id last. */
  function Validate(request: ChatRequest, env: Env): (r: Result<Validated, string>)
    ensures ValidateMessage(request.message).Err? ==> r == Err(ValidateMessage(request.message).error)
    ensures r.Ok? <==> ValidateMessage(request.message).Ok? && ResolveSession(request.sessionId, env).Ok?
    ensures r.Ok? ==> r.value == Validated(ValidateMessage(request.message).value, ResolveSession(request.sessionId, env).value)
  {
    match ValidateMessage(request.message)
    case Err(e) => Err(e)
    case Ok(message) =>
      match ResolveSession(request.sessionId, env)
      case Err(e) => Err(e)
      case Ok(sessionId) => Ok(Validated(message, sessionId))
  }

  // ---------------------------------------------------------------------
  // Error status

  /** The text of a caught error: its message, or a default when it has
      none. */
  function ErrorText(e: Llm.Thrown): (r: string)
    ensures r != []
  {
    if e.message == [] then PROCESSING_FAILED else e.message
  }

  /** The status for an error text: the first of these rows whose texts it
      contains, case-sensitively. */
  function StatusFor(message: string): (status: int)
    ensures status in {400, 429, 500, 503, 504}
    ensures status == 503 <==> Contains(message, "API key") || Contains(message, "not configured")
  {
    if Contains(message, "API key") || Contains(message, "not configured") then 503
    else if Contains(message, "rate limit") || Contains(message, "quota") then 429
    else if Contains(message, "timeout") then 504
    else if Contains(message, "Invalid request") then 400
    else 500
  }

  /** A message that contains none of the texts of the rows is a 500. */
  lemma {:induction false} UnrecognisedIs500(message: string)
    requires !Contains(message, "API key") && !Contains(message, "not configured")
    requires !Contains(message, "rate limit") && !Contains(message, "quota")
    requires !Contains(message, "timeout") && !Contains(message, "Invalid request")
    ensures StatusFor(message) == 500
  {
  }

  /** The only error the completion service lets out mentions no key... */
  lemma {:induction false} BothFailedNamesNoKey()
    ensures !Contains(Llm.BOTH_FAILED, "API key") && !Contains(Llm.BOTH_FAILED, "not configured")
  {
    var x, y := "Failed to get AI response ", "from both OpenAI and Gemini";
    assert !Contains(Llm.BOTH_FAILED, "API key") by { AbsentFromPieces(x, y, "API key", 0); }
    assert !Contains(Llm.BOTH_FAILED, "not configured") by { AbsentFromPieces(x, y, "not configured", 0); }
  }

  /** ... and no limit. */
  lemma {:induction false} BothFailedNamesNoLimit()
    ensures !Contains(Llm.BOTH_FAILED, "rate limit") && !Contains(Llm.BOTH_FAILED, "quota")
  {
    var x, y := "Failed to get AI response ", "from both OpenAI and Gemini";
    assert !Contains(Llm.BOTH_FAILED, "rate limit") by { AbsentFromPieces(x, y, "rate limit", 0); }
    assert !Contains(Llm.BOTH_FAILED, "quota") by { AbsentFromPieces(x, y, "quota", 0); }
  }

  /** It contains none of the texts, so a provider failure is reported as
      500. */
  lemma {:induction false} BothFailedIs500()
    ensures StatusFor(Llm.BOTH_FAILED) == 500
  {
    var x, y := "Failed to get AI response ", "from both OpenAI and Gemini";
    BothFailedNamesNoKey();
    BothFailedNamesNoLimit();
    assert !Contains(Llm.BOTH_FAILED, "timeout") by { AbsentFromPieces(x, y, "timeout", 0); }
    assert !Contains(Llm.BOTH_FAILED, "Invalid request") by { AbsentFromPieces(x, y, "Invalid request", 0); }
    UnrecognisedIs500(Llm.BOTH_FAILED);
  }

  /** The time-out message of both providers mentions no key and no limit. */
  lemma {:induction false} TimedOutNamesNoKeyOrLimit()
    ensures !Contains(Llm.TIMED_OUT, "API key") && !Contains(Llm.TIMED_OUT, "not configured")
    ensures !Contains(Llm.TIMED_OUT, "rate limit") && !Contains(Llm.TIMED_OUT, "quota")
  {
    var x, y := "Request timed out. ", "Please try again.";
    Llm.TimedOutMatchesNoRow();
    assert !Contains(Llm.TIMED_OUT, "not configured") by { AbsentFromPieces(x, y, "not configured", 0); }
    assert !Contains(Llm.TIMED_OUT, "rate limit") by { AbsentFromPieces(x, y, "rate limit", 0); }
  }

  /** The time-out message of both providers says "timed out", not
      "timeout": it would be reported as 500, never as 504. */
  lemma {:induction false} TimedOutIs500()
    ensures StatusFor(Llm.TIMED_OUT) == 500
  {
    TimedOutNamesNoKeyOrLimit();
    Llm.TimedOutMatchesNoRow();
    AbsentFromPieces("Request timed out. ", "Please try again.", "Invalid request", 0);
    UnrecognisedIs500(Llm.TIMED_OUT);
  }

  /** OpenAI's rate-limit message mentions no key... */
  lemma {:induction false} RateLimitedNamesNoKey()
    ensures !Contains(Llm.RATE_LIMITED, "API key") && !Contains(Llm.RATE_LIMITED, "not configured")
  {
    var x, y := "Rate limit exceeded. ", "Please try again in a moment.";
    assert !Contains(Llm.RATE_LIMITED, "API key") by { AbsentFromPieces(x, y, "API key", 0); }
    assert !Contains(Llm.RATE_LIMITED, "not configured") by { AbsentFromPieces(x, y, "not configured", 0); }
  }

  /** ... and its capital R keeps it from matching the lower-case "rate
      limit". */
  lemma {:induction false} RateLimitedNamesNoKeyOrLimit()
    ensures !Contains(Llm.RATE_LIMITED, "API key") && !Contains(Llm.RATE_LIMITED, "not configured")
    ensures !Contains(Llm.RATE_LIMITED, "rate limit") && !Contains(Llm.RATE_LIMITED, "quota")
  {
    var x, y := "Rate limit exceeded. ", "Please try again in a moment.";
    RateLimitedNamesNoKey();
    assert !Contains(Llm.RATE_LIMITED, "rate limit") by { AbsentFromPieces(x, y, "rate limit", 0); }
    assert !Contains(Llm.RATE_LIMITED, "quota") by { AbsentFromPieces(x, y, "quota", 0); }
  }

  /** So OpenAI's rate-limit message would be reported as 500, not 429. */
  lemma {:induction false} RateLimitedIs500()
    ensures StatusFor(Llm.RATE_LIMITED) == 500
  {
    var x, y := "Rate limit exceeded. ", "Please try again in a moment.";
    RateLimitedNamesNoKeyOrLimit();
    Llm.OpenAIKeyAndLimitLackTimeout();
    assert !Contains(Llm.RATE_LIMITED, "Invalid request") by { AbsentFromPieces(x, y, "Invalid request", 0); }
    UnrecognisedIs500(Llm.RATE_LIMITED);
  }

  /** A lower-case "rate limit", as in the route's own test, is a 429. */
  lemma {:induction false} LowerCaseRateLimitIs429()
    ensures StatusFor("rate limit exceeded") == 429
  {
    AbsentPair("rate limit exceeded", "API key", 0);
    AbsentPair("rate limit exceeded", "not configured", 0);
    ContainsAt("rate limit exceeded", "rate limit", 0);
  }

  /** Gemini's quota message mentions "quota" and no key: a 429. */
  lemma {:induction false} GeminiQuotaIs429()
    ensures StatusFor(Llm.GEMINI_QUOTA) == 429
  {
    Llm.GeminiKeyAndQuotaMessages();
    AbsentFromPieces("Gemini API quota exceeded. ", "Please try again later.", "not configured", 0);
  }

  /** Both invalid-key messages and the missing-key message are 503s. */
  lemma {:induction false} KeyProblemsAre503()
    ensures StatusFor(Llm.INVALID_OPENAI_KEY) == 503
    ensures StatusFor(Llm.INVALID_GEMINI_KEY) == 503
    ensures StatusFor(Llm.OPENAI_NOT_CONFIGURED) == 503
  {
    ContainsAt("Invalid OpenAI API key. ", "API key", 15);
    ContainsAppend("Invalid OpenAI API key. ", "Please check your configuration.", "API key");
    Llm.GeminiKeyAndQuotaMessages();
    ContainsAt("not configured", "not configured", 0);
    ContainsAppend("OPENAI_API_KEY is ", "not configured", "not configured");
  }

  /** OpenAI's invalid-request message mentions no key and no limit. */
  lemma {:induction false} InvalidRequestNamesNoKey()
    ensures !Contains(Llm.INVALID_OPENAI_REQUEST, "API key") && !Contains(Llm.INVALID_OPENAI_REQUEST, "not configured")
  {
    var x, y := "Invalid request to OpenAI. ", "Please check your message.";
    assert !Contains(Llm.INVALID_OPENAI_REQUEST, "API key") by { AbsentFromPieces(x, y, "API key", 0); }
    assert !Contains(Llm.INVALID_OPENAI_REQUEST, "not configured") by { AbsentFromPieces(x, y, "not configured", 0); }
  }

  lemma {:induction false} InvalidRequestNamesNoLimit()
    ensures !Contains(Llm.INVALID_OPENAI_REQUEST, "rate limit") && !Contains(Llm.INVALID_OPENAI_REQUEST, "quota")
  {
    var x, y := "Invalid request to OpenAI. ", "Please check your message.";
    assert !Contains(Llm.INVALID_OPENAI_REQUEST, "rate limit") by { AbsentFromPieces(x, y, "rate limit", 0); }
    assert !Contains(Llm.INVALID_OPENAI_REQUEST, "quota") by { AbsentFromPieces(x, y, "quota", 2); }
  }

  /** So it reaches the last row: a 400. */
  lemma {:induction false} InvalidRequestIs400()
    ensures StatusFor(Llm.INVALID_OPENAI_REQUEST) == 400
  {
    var x, y := "Invalid request to OpenAI. ", "Please check your message.";
    InvalidRequestNamesNoKey();
    InvalidRequestNamesNoLimit();
    Llm.OpenAIMessagesLackTimeout();
    ContainsAt(x, "Invalid request", 0);
    ContainsAppend(x, y, "Invalid request");
  }

  /** A message sent from an input box reaches the completion service
      unchanged unless it is over 4000 characters: a trimmed, non-empty text
      of at most 5000 characters passes every check. */
  lemma {:induction false} TrimmedInputAccepted(text: JsString)
    requires Trim(text) != [] && |Trim(text)| <= MAX_MESSAGE_LENGTH
    ensures ValidateMessage(Str(Trim(text))) == Ok(Truncate(Trim(text)))
  {
    var t := Trim(text);
    TrimIdempotent(text);
    var r := ValidateMessage(Str(t));
    assert r.Ok? && r.value == Truncate(t);
  }
}
