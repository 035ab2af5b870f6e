/** The three node executors of the flow engine (`httpActor`, `geminiActor`, `puterActor`). The
    network, the browser key store and template rendering are outside the model: each executor is
    given what the outside world answered and decides the outcome the engine receives, a value on
    success or an error message on failure. */
module Executors {
  import opened Wrappers
  import opened FlowTypes

  /** What an executor delivers to the engine: `onDone` with an output or `onError` with a message. */
  datatype Outcome = Done(output: Value) | Failed(message: string)

  /** The inputs the engine builds from the current node's payload. */
  datatype HttpInput = HttpInput(endpoint: Value, httpMethod: Value, responseType: Value)
  datatype GeminiInput = GeminiInput(prompt: Value, model: Value, temperature: Value, answers: Answers)
  datatype PuterInput = PuterInput(prompt: Value, model: Value, answers: Answers)

  // ---------------------------------------------------------------------------------------------
  // Decimal text of a status code (`${response.status}`)

  predicate IsDigit(c: char) { '0' <= c <= '9' }

  function DigitChar(d: nat): (c: char)
    requires d < 10
    ensures IsDigit(c) && DigitValue(c) == d
  {
    ('0' as int + d) as char
  }

  /** The decimal numeral of a natural number, without leading zeros. */
  function Decimal(n: nat): (s: string)
    ensures |s| >= 1 && forall i :: 0 <= i < |s| ==> IsDigit(s[i])
    ensures |s| > 1 ==> s[0] != '0'
  {
    if n < 10 then [DigitChar(n)] else Decimal(n / 10) + [DigitChar(n % 10)]
  }

  function DigitValue(c: char): nat
    requires IsDigit(c)
  {
    c as int - '0' as int
  }

  /** The number a string of digits denotes. */
  function DecimalValue(s: string): nat
    requires forall i :: 0 <= i < |s| ==> IsDigit(s[i])
  {
    if |s| == 0 then 0
    else DecimalValue(s[..|s| - 1]) * 10 + DigitValue(s[|s| - 1])
  }

  /** Reading the numeral back gives the number: distinct statuses give distinct numerals. */
  lemma {:induction false} DecimalRoundTrip(n: nat)
    ensures DecimalValue(Decimal(n)) == n
  {
    if n >= 10 {
      var s := Decimal(n);
      assert s[..|s| - 1] == Decimal(n / 10);
      DecimalRoundTrip(n / 10);
    }
  }

  // ---------------------------------------------------------------------------------------------
  // httpActor

  const HTTP_ERROR_PREFIX: string := "HTTP "

  /** `HTTP <status>`: the message of a request answered with a non-ok status. */
  function HttpErrorMessage(status: nat): string {
    HTTP_ERROR_PREFIX + Decimal(status)
  }

  /** Recovers the status from an HTTP error message, if the message has that form. */
  function StatusOfHttpError(message: string): Option<nat> {
    var n := |HTTP_ERROR_PREFIX|;
    if |message| > n && message[..n] == HTTP_ERROR_PREFIX && forall i :: n <= i < |message| ==> IsDigit(message[i])
    then Some(DecimalValue(message[n..]))
    else None
  }

  /** The message states the status it failed with. */
  lemma HttpErrorNamesStatus(status: nat)
    ensures StatusOfHttpError(HttpErrorMessage(status)) == Some(status)
  {
    var m := HttpErrorMessage(status);
    assert m[..|HTTP_ERROR_PREFIX|] == HTTP_ERROR_PREFIX;
    assert m[|HTTP_ERROR_PREFIX|..] == Decimal(status);
    DecimalRoundTrip(status);
  }

  /** `response.ok`: the status lies in 200..299. */
  predicate ResponseOk(status: nat) { 200 <= status <= 299 }

  /** What `response.json()` makes of the body. */
  datatype JsonBody = Parsed(value: Value) | Unparsable(message: string)

  /** What `fetch` produced: a response, or a rejection before any response. */
  datatype HttpReply = Response(status: nat, text: string, json: JsonBody) | NetworkError(message: string)

  /** The HTTP executor: fails on a transport error or a non-ok status, otherwise returns the body
      as text when the response type is `"text"` and as parsed JSON for any other type. */
  function HttpOutcome(input: HttpInput, reply: HttpReply): (o: Outcome)
    ensures o.Done? <==>
      reply.Response? && ResponseOk(reply.status) && (input.responseType == Str("text") || reply.json.Parsed?)
    ensures reply.Response? && !ResponseOk(reply.status) ==> o == Failed(HttpErrorMessage(reply.status))
    ensures o.Done? ==> o.output == (if input.responseType == Str("text") then Str(reply.text) else reply.json.value)
    ensures reply.Response? && ResponseOk(reply.status) && input.responseType != Str("text") && reply.json.Unparsable? ==>
      o == Failed(reply.json.message)
    ensures reply.NetworkError? ==> o == Failed(reply.message)
  {
    match reply
    case NetworkError(m) => Failed(m)
    case Response(status, text, json) =>
      if !ResponseOk(status) then Failed(HttpErrorMessage(status))
      else if input.responseType == Str("text") then Done(Str(text))
      else match json
           case Parsed(v) => Done(v)
           case Unparsable(m) => Failed(m)
  }

  // ---------------------------------------------------------------------------------------------
  // geminiActor

  const GEMINI_KEY_MISSING: string := "Gemini API key not configured"
  const GEMINI_ERROR_PREFIX: string := "Gemini API error: "
  const GEMINI_NO_RESPONSE: string := "No response"

  /** The key as read from the browser store: nothing (or an empty string) stored, a stored value
      `atob` decodes, or one it rejects with a message. */
  datatype StoredKey = KeyAbsent | KeyDecoded(key: string) | KeyUndecodable(message: string)

  /** What compiling the prompt template and filling it with the answers did: it produced a prompt,
      or the template engine threw with a message. */
  datatype Rendering = Rendered | RenderError(message: string)

  /** What `response.json()` makes of a completion body: its `error.message`, if it has one, and the
      first candidate's text (`Undefined` when any step of that path is missing); the JSON value
      `null`, where reading any field throws a `TypeError` with the runtime's message; or a parse
      failure with its message. */
  datatype GeminiBody =
    | GeminiJson(errorMessage: Option<string>, text: Value)
    | GeminiNull(typeError: string)
    | GeminiUnparsable(message: string)

  /** What the completion endpoint answered, or a transport error. */
  datatype GeminiReply =
    | GeminiResponse(status: nat, statusText: string, body: GeminiBody)
    | GeminiNetworkError(message: string)

  /** A string field read with `||`: an absent or empty field falls back. */
  function OrElse(s: Option<string>, fallback: string): (r: string)
    ensures s.Some? && s.value != "" ==> r == s.value
    ensures !(s.Some? && s.value != "") ==> r == fallback
  {
    if s.Some? && s.value != "" then s.value else fallback
  }

  /** The Gemini executor. The key is checked first, then the prompt is rendered, then the request
      is made. An error response fails with the provider's message or the status text; a success
      yields the first candidate's text when it is truthy and `"No response"` otherwise; reading
      either body as JSON may itself fail, and a `null` body fails on its first field access. */
  function GeminiOutcome(key: StoredKey, rendering: Rendering, reply: GeminiReply): (o: Outcome)
    ensures key.KeyUndecodable? ==> o == Failed(key.message)
    ensures key.KeyAbsent? || (key.KeyDecoded? && key.key == "") ==> o == Failed(GEMINI_KEY_MISSING)
    ensures key.KeyDecoded? && key.key != "" && rendering.RenderError? ==> o == Failed(rendering.message)
    ensures o.Done? <==>
      && key.KeyDecoded? && key.key != "" && rendering.Rendered?
      && reply.GeminiResponse? && ResponseOk(reply.status) && reply.body.GeminiJson?
    ensures o.Done? ==> o.output == (if Truthy(reply.body.text) then reply.body.text else Str(GEMINI_NO_RESPONSE))
    ensures key.KeyDecoded? && key.key != "" && rendering.Rendered? && reply.GeminiResponse? && !ResponseOk(reply.status) ==>
      o == Failed(match reply.body
                  case GeminiJson(errorMessage, _) => GEMINI_ERROR_PREFIX + OrElse(errorMessage, reply.statusText)
                  case GeminiNull(t) => t
                  case GeminiUnparsable(m) => m)
    ensures key.KeyDecoded? && key.key != "" && rendering.Rendered? && reply.GeminiResponse? && reply.body.GeminiUnparsable? ==>
      o == Failed(reply.body.message)
    ensures key.KeyDecoded? && key.key != "" && rendering.Rendered? && reply.GeminiResponse? && reply.body.GeminiNull? ==>
      o == Failed(reply.body.typeError)
    ensures key.KeyDecoded? && key.key != "" && rendering.Rendered? && reply.GeminiNetworkError? ==> o == Failed(reply.message)
    ensures o.Done? ==> Truthy(o.output)
  {
    match key
    case KeyUndecodable(m) => Failed(m)
    case KeyAbsent => Failed(GEMINI_KEY_MISSING)
    case KeyDecoded(k) =>
      if k == "" then Failed(GEMINI_KEY_MISSING)
      else if rendering.RenderError? then Failed(rendering.message)
      else
        match reply
        case GeminiNetworkError(m) => Failed(m)
        case GeminiResponse(status, statusText, body) =>
          match body
          case GeminiUnparsable(m) => Failed(m)
          case GeminiNull(t) => Failed(t)
          case GeminiJson(errorMessage, text) =>
            if !ResponseOk(status) then Failed(GEMINI_ERROR_PREFIX + OrElse(errorMessage, statusText))
            else if Truthy(text) then Done(text)
            else Done(Str(GEMINI_NO_RESPONSE))
  }

  // ---------------------------------------------------------------------------------------------
  // puterActor

  const PUTER_ERROR_PREFIX: string := "Puter error: "

  /** What `puter.ai.chat` produced: a response (its `message.content`, `Undefined` when there is no
      message, and the response itself); `null` or `undefined`, whose `message` cannot be read; a
      thrown value with its `error` field, if it has one; or a thrown `null` or `undefined`, whose
      `error` field the handler itself fails to read, with the runtime's `TypeError` message. */
  datatype PuterReply =
    | PuterResponse(content: Value, raw: Value)
    | PuterNullish
    | PuterThrown(error: Option<string>)
    | PuterThrownNullish(typeError: string)

  /** The text after `Puter error: `: the thrown value's `error` field, `undefined` without one. */
  function PuterErrorText(error: Option<string>): string {
    if error.Some? then error.value else "undefined"
  }

  /** The Puter executor: the message content when it is truthy, whatever its kind, and otherwise
      the whole response. Everything thrown inside the `try`, the template engine's errors
      included, becomes `Puter error: <error>`; an error object of the template engine has no
      `error` field, so it reads `Puter error: undefined`, and so does the `TypeError` of reading
      `message` from a nullish response. A nullish thrown value makes the handler throw in turn. */
  function PuterOutcome(rendering: Rendering, reply: PuterReply): (o: Outcome)
    ensures o.Failed? <==> rendering.RenderError? || !reply.PuterResponse?
    ensures rendering.RenderError? ==> o == Failed(PUTER_ERROR_PREFIX + "undefined")
    ensures rendering.Rendered? && reply.PuterNullish? ==> o == Failed(PUTER_ERROR_PREFIX + "undefined")
    ensures rendering.Rendered? && reply.PuterThrownNullish? ==> o == Failed(reply.typeError)
    ensures rendering.Rendered? && reply.PuterThrown? && reply.error.Some? ==> o == Failed(PUTER_ERROR_PREFIX + reply.error.value)
    ensures rendering.Rendered? && reply.PuterThrown? && reply.error.None? ==> o == Failed(PUTER_ERROR_PREFIX + "undefined")
    ensures o.Done? ==> o.output == (if Truthy(reply.content) then reply.content else reply.raw)
  {
    if rendering.RenderError? then Failed(PUTER_ERROR_PREFIX + PuterErrorText(None))
    else
      match reply
      case PuterResponse(content, raw) => if Truthy(content) then Done(content) else Done(raw)
      case PuterNullish => Failed(PUTER_ERROR_PREFIX + PuterErrorText(None))
      case PuterThrown(error) => Failed(PUTER_ERROR_PREFIX + PuterErrorText(error))
      case PuterThrownNullish(t) => Failed(t)
  }

  /** Recovers the thrown value's `error` text from a Puter failure message, if it has that form. */
  function PuterErrorOf(message: string): Option<string> {
    var n := |PUTER_ERROR_PREFIX|;
    if |message| >= n && message[..n] == PUTER_ERROR_PREFIX then Some(message[n..]) else None
  }

  /** A Puter failure names its cause: unless a nullish value was thrown, the text after the
      prefix is the `error` field of what was thrown, `undefined` for the template engine's errors,
      for a nullish response and for values without that field. */
  lemma PuterFailureNamesCause(rendering: Rendering, reply: PuterReply)
    requires PuterOutcome(rendering, reply).Failed?
    ensures rendering.RenderError? || !reply.PuterThrownNullish? ==>
      PuterErrorOf(PuterOutcome(rendering, reply).message) ==
        Some(if rendering.RenderError? || reply.PuterNullish? then "undefined" else PuterErrorText(reply.error))
  {
    if rendering.RenderError? || !reply.PuterThrownNullish? {
      var m := PuterOutcome(rendering, reply).message;
      var cause := if rendering.RenderError? || reply.PuterNullish? then "undefined" else PuterErrorText(reply.error);
      assert m == PUTER_ERROR_PREFIX + cause;
      assert m[..|PUTER_ERROR_PREFIX|] == PUTER_ERROR_PREFIX;
      assert m[|PUTER_ERROR_PREFIX|..] == cause;
    }
  }
}
