/**
 * The AI extraction client (services/geminiService.ts,
 * `extractUsernameFromMedia`), reduced to its control flow: the credential
 * check, the encoding step, the single model request, the post-processing of
 * the reply and the normalisation of every failure into one error message.
 * The generative model itself, its name and its prompt are not modelled:
 * each of its possible outcomes is an input.
 */
module GeminiService {
  import opened Outcomes
  import JsString

  const MissingKeyMessage: string := "API Key tidak ditemukan. Fitur AI tidak aktif."
  const NoResultSentinel: string := "Tidak ada hasil"
  const FailureFallback: string := "Gagal mengekstrak teks menggunakan AI."

  /**
   * Outcome of `fileToBase64`: the reader loads and yields the payload, or it
   * fires its error event. The event is a ProgressEvent, which has no
   * `message` property.
   */
  datatype Encoding = Encoded(data: string) | ReadFailed

  /**
   * Outcome of `generateContent`: it resolves with a response whose `text`
   * may be undefined, or it rejects with an error whose `message` may be
   * empty or undefined (both written "").
   */
  datatype Reply = Replied(text: Option<string>) | Rejected(message: string)

  /** The external work one invocation starts, in order. */
  datatype Request = ReadFile | GenerateContent(mime: string, data: string)

  datatype Extraction = Extraction(result: Result<string>, requests: seq<Request>)

  /** `process.env.API_KEY` is truthy: defined and not the empty string. */
  predicate KeyConfigured(apiKey: Option<string>) {
    apiKey.Some? && apiKey.value != ""
  }

  /** `error.message || fallback`, the message of the rethrown error. */
  function Rethrown(message: string): (m: string)
    ensures m != ""
    ensures message != "" ==> m == message
    ensures message == "" ==> m == FailureFallback
  {
    if message != "" then message else FailureFallback
  }

  /** `text ? text.trim() : "Tidak ada hasil"`: an absent or empty text gives the sentinel. */
  function ReplyText(text: Option<string>): (r: string)
    ensures text.None? || text == Some("") ==> r == NoResultSentinel
    ensures text.Some? && text.value != "" ==>
              (r == [] <==> JsString.AllWhiteSpace(text.value))
              && (r != [] ==> !JsString.IsWhiteSpace(r[0]) && !JsString.IsWhiteSpace(r[|r| - 1]))
              && exists k :: JsString.PaddedAt(text.value, r, k)
  {
    if text.Some? && text.value != "" then
      JsString.TrimSlice(text.value);
      JsString.Trim(text.value)
    else
      NoResultSentinel
  }

  /**
   * `extractUsernameFromMedia(file)`. `apiKey` is the environment's key,
   * `mime` the file's type; `encoding` and `reply` are what the reader and
   * the model would produce if asked.
   */
  function ExtractUsernameFromMedia(apiKey: Option<string>, mime: string, encoding: Encoding, reply: Reply): (x: Extraction)
    ensures !KeyConfigured(apiKey) ==> x == Extraction(Err(MissingKeyMessage), [])
    ensures |x.requests| <= 2
    ensures forall i :: 0 <= i < |x.requests| && x.requests[i].GenerateContent? ==>
              i == 1 && x.requests[0] == ReadFile && encoding == Encoded(x.requests[i].data)
              && x.requests[i].mime == mime
    ensures x.result.Err? ==> x.result.message != ""
    ensures x.result.Ok? <==> KeyConfigured(apiKey) && encoding.Encoded? && reply.Replied?
  {
    if !KeyConfigured(apiKey) then
      Extraction(Err(Rethrown(MissingKeyMessage)), [])
    else
      match encoding
      case ReadFailed => Extraction(Err(Rethrown("")), [ReadFile])
      case Encoded(data) =>
        var sent := [ReadFile, GenerateContent(mime, data)];
        match reply
        case Rejected(message) => Extraction(Err(Rethrown(message)), sent)
        case Replied(text) => Extraction(Ok(ReplyText(text)), sent)
  }

  /** Without a key the call fails with the configuration message and starts no work. */
  lemma MissingKeyFailsFirst(mime: string, encoding: Encoding, reply: Reply)
    ensures ExtractUsernameFromMedia(None, mime, encoding, reply) == Extraction(Err(MissingKeyMessage), [])
    ensures ExtractUsernameFromMedia(Some(""), mime, encoding, reply) == Extraction(Err(MissingKeyMessage), [])
  {
  }

  /** A reply with text is returned trimmed; padding around a word is dropped. */
  lemma RepliedTextIsTrimmed(apiKey: Option<string>, mime: string, data: string, pre: string, w: string, post: string)
    requires KeyConfigured(apiKey)
    requires JsString.AllWhiteSpace(pre) && JsString.AllWhiteSpace(post)
    requires w != [] && !JsString.IsWhiteSpace(w[0]) && !JsString.IsWhiteSpace(w[|w| - 1])
    ensures ExtractUsernameFromMedia(apiKey, mime, Encoded(data), Replied(Some(pre + w + post))).result == Ok(w)
  {
    JsString.TrimPadded(pre, w, post);
  }

  /** A white-space-only reply is non-empty, so it is trimmed to "" rather than mapped to the sentinel. */
  lemma BlankReplyIsEmptyNotSentinel(apiKey: Option<string>, mime: string, data: string, text: string)
    requires KeyConfigured(apiKey)
    requires text != [] && JsString.AllWhiteSpace(text)
    ensures ExtractUsernameFromMedia(apiKey, mime, Encoded(data), Replied(Some(text))).result == Ok("")
  {
  }

  /** An absent or empty reply text gives the sentinel. */
  lemma MissingReplyIsSentinel(apiKey: Option<string>, mime: string, data: string)
    requires KeyConfigured(apiKey)
    ensures ExtractUsernameFromMedia(apiKey, mime, Encoded(data), Replied(None)).result == Ok(NoResultSentinel)
    ensures ExtractUsernameFromMedia(apiKey, mime, Encoded(data), Replied(Some(""))).result == Ok(NoResultSentinel)
  {
  }

  /**
   * Failures keep their own message when it has one and fall back to the
   * generic message otherwise; a reader failure always falls back.
   */
  lemma FailureMessages(apiKey: Option<string>, mime: string, data: string, message: string, reply: Reply)
    requires KeyConfigured(apiKey)
    ensures ExtractUsernameFromMedia(apiKey, mime, ReadFailed, reply) == Extraction(Err(FailureFallback), [ReadFile])
    ensures message != "" ==>
              ExtractUsernameFromMedia(apiKey, mime, Encoded(data), Rejected(message)).result == Err(message)
    ensures ExtractUsernameFromMedia(apiKey, mime, Encoded(data), Rejected("")).result == Err(FailureFallback)
  {
  }
}
