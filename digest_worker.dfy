/** The timed digest worker of `worker.js`: the start-up configuration check, the
    prompt that `buildDigest` sends, the digest it reads out of the model's answer,
    the header `runOnce` puts in front, and the payload and failure report of
    `postToDiscord`. The model's answer, the research input and the webhook's answer
    are parameters. */
module DigestWorker {
  import opened Strings
  import opened Messages

  const DefaultIntervalMinutes: nat := 30
  const DigestModel := "claude-3-haiku-20240307"
  const DigestMaxTokens: nat := 500
  const DigestSystem := "You produce neutral market research digests."
  const Fallback := "No digest generated."
  /** The webhook's character budget. */
  const ContentLimit: nat := 1900
  /** The brain emoji, then the bold title and a blank line. */
  const Header := "\U{1F9E0} **Research Digest**\n\n"
  const WebhookFailurePrefix := "Discord webhook failed "
  const StatusSeparator := ": "

  // ---------------------------------------------------------------- configuration

  datatype Config = Config(apiKey: string, webhookUrl: string, intervalMinutes: nat)

  datatype Startup = Started(config: Config) | ConfigError(message: string)

  /** `!value` for an environment variable: unset, or set to the empty string. */
  predicate Missing(value: Option<string>) {
    value.None? || value.value == ""
  }

  /** `Number(WORKER_INTERVAL_MINUTES || 30)`; `None` stands for unset or empty. */
  function IntervalMinutes(setting: Option<nat>): nat {
    if setting.Some? then setting.value else DefaultIntervalMinutes
  }

  /** The module's top level: the API key is checked first, then the webhook URL. */
  function Start(apiKey: Option<string>, webhookUrl: Option<string>, interval: Option<nat>): Startup {
    if Missing(apiKey) then ConfigError("Missing ANTHROPIC_API_KEY")
    else if Missing(webhookUrl) then ConfigError("Missing DISCORD_WEBHOOK_URL")
    else Started(Config(apiKey.value, webhookUrl.value, IntervalMinutes(interval)))
  }

  /** `INTERVAL_MINUTES * 60 * 1000`: the period of the timer, in milliseconds. */
  function TickPeriodMs(minutes: nat): (ms: nat)
    ensures ms % 60000 == 0 && ms / 60000 == minutes
  {
    minutes * 60 * 1000
  }

  /** The worker starts exactly when both secrets are present; otherwise it names the
      first one missing, the API key before the webhook URL. A started worker keeps
      both secrets and the interval setting, 30 minutes when there is none. */
  lemma StartRejectsMissingSecrets(apiKey: Option<string>, webhookUrl: Option<string>, interval: Option<nat>)
    ensures var r := Start(apiKey, webhookUrl, interval);
            (r.Started? <==> !Missing(apiKey) && !Missing(webhookUrl))
            && (Missing(apiKey) ==> r == ConfigError("Missing ANTHROPIC_API_KEY"))
            && (!Missing(apiKey) && Missing(webhookUrl) ==> r == ConfigError("Missing DISCORD_WEBHOOK_URL"))
            && (r.Started? ==> r.config.apiKey == apiKey.value && r.config.webhookUrl == webhookUrl.value)
            && (r.Started? && interval.None? ==> r.config.intervalMinutes == 30)
            && (r.Started? && interval.Some? ==> r.config.intervalMinutes == interval.value)
  {
  }

  /** Without a setting the worker ticks every half hour. */
  lemma DefaultTickIsHalfAnHour()
    ensures TickPeriodMs(IntervalMinutes(None)) == 1800000
  {
  }

  // ---------------------------------------------------------------- the prompt

  const RulesOpening := "You are a neutral research synthesis agent."
  const RulesBlock :=
    RulesOpening + "\n\nRules:\n- Do NOT give financial advice\n- Do NOT say buy or sell\n"
    + "- Focus on themes, disagreement, and uncertainty\n- Be concise and analytical\n\nDiscussion input:\n"

  const FormatBlock :=
    "\n\nOutput format:\n- 4 bullet summary\n- 3 \"threads to watch\"\n- 2 risks or open questions"

  /** The template literal of `buildDigest`, before it is trimmed: it opens and closes
      with a line break. */
  function PromptTemplate(rawText: string): string {
    "\n" + RulesBlock + rawText + FormatBlock + "\n"
  }

  function BuildPrompt(rawText: string): string {
    Trim(PromptTemplate(rawText))
  }

  /** Trimming the template removes only its two outer line breaks: the input stands
      verbatim between the rules and the output format, whatever white space it has
      at its own ends. */
  lemma PromptEmbedsInput(rawText: string)
    ensures BuildPrompt(rawText) == RulesBlock + rawText + FormatBlock
  {
    BlocksAreTrimmed();
    TrimLineBreaks(RulesBlock, rawText, FormatBlock);
  }

  /** Line breaks around a text that opens and closes with a non-space are all that
      trimming removes. */
  lemma TrimLineBreaks(opening: string, middle: string, closing: string)
    requires opening != [] && !IsSpace(opening[0])
    requires closing != [] && !IsSpace(closing[|closing| - 1])
    ensures Trim("\n" + opening + middle + closing + "\n") == opening + middle + closing
  {
    var x := opening + middle + closing;
    assert x[0] == opening[0];
    assert x[|x| - 1] == closing[|closing| - 1];
    assert "\n" + opening + middle + closing + "\n" == "\n" + x + "\n";
    TrimPadded("\n", x, "\n");
  }

  /** The rules open, and the output format closes, with a letter. */
  lemma BlocksAreTrimmed()
    ensures RulesBlock != [] && !IsSpace(RulesBlock[0])
    ensures FormatBlock != [] && !IsSpace(FormatBlock[|FormatBlock| - 1])
  {
    assert RulesBlock[0] == RulesOpening[0] == 'Y';
    assert FormatBlock[|FormatBlock| - 1] == 's';
  }

  /** What `buildDigest` sends: one user turn holding the prompt. */
  function DigestRequest(rawText: string): ModelRequest {
    ModelRequest(DigestModel, DigestMaxTokens, DigestSystem, [Turn(User, BuildPrompt(rawText))])
  }

  // ---------------------------------------------------------------- the digest

  /** `text || 'No digest generated.'`: never empty. */
  function DigestText(content: Option<seq<Segment>>): (digest: string)
    ensures digest != ""
  {
    var text := ExtractText(content);
    if text != "" then text else Fallback
  }

  /** The fallback is used exactly when every text segment is white space only (or
      there is none); otherwise the digest is the joined, trimmed text. */
  lemma DigestFallsBackIff(segments: seq<Segment>)
    ensures DigestText(Some(segments))
              == if forall j :: 0 <= j < |segments| && IsText(segments[j]) ==> AllSpace(segments[j].text)
                 then Fallback
                 else ExtractText(Some(segments))
  {
    ExtractEmptyIff(segments);
  }

  // ---------------------------------------------------------------- the webhook

  /** The JSON body posted to the webhook: `{ content, allowed_mentions: { parse } }`. */
  datatype Payload = Payload(content: string, allowedMentionsParse: seq<string>)

  /** `content.length > 1900 ? content.slice(0, 1900) : content`: the longest start of
      the content that fits the budget. */
  function TruncateContent(content: string): (r: string)
    ensures |r| == Min(|content|, ContentLimit) && r == content[..|r|]
    ensures |content| <= ContentLimit ==> r == content
  {
    if |content| > ContentLimit then Prefix(content, ContentLimit) else content
  }

  /** The payload of `postToDiscord`: mentions are never parsed. */
  function WebhookPayload(content: string): Payload {
    Payload(TruncateContent(content), [])
  }

  /** The payload carries the first 1900 characters of the content, all of it when it
      fits, and parses no mentions. */
  lemma PayloadBounded(content: string)
    ensures var p := WebhookPayload(content);
            |p.content| == Min(|content|, ContentLimit) && p.content == content[..|p.content|]
            && (|content| <= ContentLimit ==> p.content == content)
            && p.allowedMentionsParse == []
  {
  }

  /** What `fetch` gives back: a response with its status and, unless reading it
      fails, its body; or a thrown error. */
  datatype WebhookResponse = Answered(status: nat, body: Option<string>) | Unreachable(message: string)

  /** `res.ok`: a status in the range 200 to 299. */
  predicate IsOk(status: nat) { 200 <= status <= 299 }

  /** The error `postToDiscord` throws, if any. */
  function DeliveryError(response: WebhookResponse): Option<string> {
    match response
    case Unreachable(m) => Some(m)
    case Answered(status, body) =>
      if IsOk(status) then None
      else
        var text := if body.Some? then body.value else "";
        Some(WebhookFailurePrefix + Decimal(status) + StatusSeparator + text)
  }

  /** How many digits `s` starts with. */
  function LeadingDigits(s: string): (n: nat)
    ensures n <= |s|
    ensures forall i :: 0 <= i < n ==> IsDigit(s[i])
    ensures n < |s| ==> !IsDigit(s[n])
  {
    if s != [] && IsDigit(s[0]) then 1 + LeadingDigits(s[1..]) else 0
  }

  /** Reads the status and the body back out of a webhook failure message. */
  function ParseWebhookFailure(message: string): Option<(nat, string)> {
    var p := |WebhookFailurePrefix|;
    if |message| < p || message[..p] != WebhookFailurePrefix then None
    else
      var rest := message[p..];
      var n := LeadingDigits(rest);
      if n == 0 || |rest| < n + 2 || rest[n..n + 2] != StatusSeparator then None
      else Some((DigitsValue(rest[..n]), rest[n + 2..]))
  }

  lemma {:induction false} LeadingDigitsOfDecimal(digits: string, tail: string)
    requires forall i :: 0 <= i < |digits| ==> IsDigit(digits[i])
    requires tail == [] || !IsDigit(tail[0])
    ensures LeadingDigits(digits + tail) == |digits|
  {
    if digits != [] {
      assert (digits + tail)[1..] == digits[1..] + tail;
      LeadingDigitsOfDecimal(digits[1..], tail);
    } else {
      assert digits + tail == tail;
    }
  }

  /** A failed delivery is reported exactly for a thrown `fetch` or a status outside
      200 to 299; the report of a bad status carries the status and the body (the
      empty string if the body could not be read), and both can be read back. */
  lemma DeliveryErrorReportsStatusAndBody(response: WebhookResponse)
    ensures DeliveryError(response).Some? <==> response.Unreachable? || !IsOk(response.status)
    ensures response.Answered? && !IsOk(response.status) ==>
              var text := if response.body.Some? then response.body.value else "";
              ParseWebhookFailure(DeliveryError(response).value) == Some((response.status, text))
  {
    if response.Answered? && !IsOk(response.status) {
      var text := if response.body.Some? then response.body.value else "";
      var d := Decimal(response.status);
      var message := DeliveryError(response).value;
      var p := |WebhookFailurePrefix|;
      assert message == WebhookFailurePrefix + (d + (StatusSeparator + text));
      assert message[..p] == WebhookFailurePrefix;
      var rest := message[p..];
      assert rest == d + (StatusSeparator + text);
      LeadingDigitsOfDecimal(d, StatusSeparator + text);
      assert rest[|d|..] == StatusSeparator + text;
      assert rest[..|d|] == d;
      DecimalRoundTrip(response.status);
    }
  }

  // ---------------------------------------------------------------- one run

  /** What became of one run. */
  datatype RunResult =
    | DigestFailed(error: string)               // the model call threw; nothing posted
    | Posted(payload: Payload)                  // the webhook accepted the post
    | PostFailed(payload: Payload, error: string)

  datatype Run = Run(request: ModelRequest, result: RunResult)

  /** `runOnce`: `rawText` stands for the research input, `model` for the model's
      answer and `webhook` for the webhook's. */
  function RunOnce(rawText: string, model: ModelResponse, webhook: WebhookResponse): Run {
    var request := DigestRequest(rawText);
    match model
    case Failed(m) => Run(request, DigestFailed(m))
    case Responded(content) =>
      var payload := WebhookPayload(Header + DigestText(content));
      var error := DeliveryError(webhook);
      if error.None? then Run(request, Posted(payload))
      else Run(request, PostFailed(payload, error.value))
  }

  /** Every post is the header and then the digest, cut at 1900 characters: it always
      starts with the whole header, holds at least one character of the digest, and
      is the header and the whole digest whenever they fit. Mentions are never parsed,
      and the prompt embeds the research input. */
  lemma RunPostsHeaderAndDigest(rawText: string, content: Option<seq<Segment>>, webhook: WebhookResponse)
    ensures var run := RunOnce(rawText, Responded(content), webhook);
            var post := Header + DigestText(content);
            !run.result.DigestFailed?
            && (run.result.Posted? <==> DeliveryError(webhook).None?)
            && run.request.messages == [Turn(User, RulesBlock + rawText + FormatBlock)]
            && run.result.payload.allowedMentionsParse == []
            && |run.result.payload.content| == Min(|post|, ContentLimit)
            && run.result.payload.content == post[..|run.result.payload.content|]
            && |Header| < |run.result.payload.content|
            && run.result.payload.content[..|Header|] == Header
            && (|post| <= ContentLimit ==> run.result.payload.content == post)
  {
    PromptEmbedsInput(rawText);
    var post := Header + DigestText(content);
    var c := TruncateContent(post);
    assert |Header| < ContentLimit;
    assert c[..|Header|] == post[..|Header|] == Header;
  }

  /** A run whose model call throws posts nothing. */
  lemma FailedDigestPostsNothing(rawText: string, message: string, webhook: WebhookResponse)
    ensures RunOnce(rawText, Failed(message), webhook).result == DigestFailed(message)
  {
  }
}
