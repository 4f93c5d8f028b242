# ulticlaude-bot, modelled in Dafny

The repository has two programs.

- `index.js` is a Discord bot. It answers messages in one channel by asking a generative model. Each channel's history lives in a process-wide map from channel id to a list of `{role, content}` turns.
- `worker.js` is a timed worker. It asks the model for a research digest and posts it to a Discord webhook.

This project models the decision and buffer logic of both programs. The Discord client, the model SDK and `fetch` are left out: what they return becomes a parameter.

Modules:

- `Strings` (`strings.dfy`) models the JavaScript string operations the programs use:
  - `trim`, with JavaScript's white-space set;
  - `toLowerCase`;
  - `slice(0, n)` and `slice(-n)`;
  - `join`;
  - the decimal rendering of a number inside a template literal.
- `Messages` (`messages.dfy`) holds the turn, segment, request and response shapes. It also reads the reply text out of a response, which both programs do the same way: filter the `text` segments, join them with a line feed, trim.
- `ChatBot` (`chat_bot.dfy`) models the `messageCreate` handler.
  - The class `ChannelHistories` holds the map and its method `HandleMessage`, which is written step by step like the handler.
  - `HandleMessage` is proved equal to the function `Respond`. The lemmas state the handler's guarantees about `Respond`.
- `DigestWorker` (`digest_worker.dfy`) models the rest of `worker.js`:
  - the start-up checks and the timer period;
  - the prompt of `buildDigest`, its extraction and its fallback;
  - the header of `runOnce`;
  - the payload and error report of `postToDiscord`.

### How the stored history behaves

When a channel already has an entry, the handler appends the user turn to the stored list itself (`history.push` at index.js:54). The map sees that turn before the model is asked. So a model call that throws, or that returns no text, still leaves the user turn stored, and the list is not cut back to 20 turns (`ChatBot.UnansweredKeepsUserTurn`). Each such message adds one more turn, without bound (`ChatBot.UnansweredTurnsAccumulate`). The list is cut back to the newest 20 turns only when a reply is stored (`ChatBot.StoresExchange`, `ChatBot.ReplyRestoresBound`). A channel without an entry gets a fresh list, and it is stored only together with a reply.

The names `MAX_TURNS` and `slice(-MAX_TURNS * 2)` suggest that the stored list is capped at 20 turns. The code keeps that cap only when a reply is stored, and the model follows the code. What the code does guarantee is proved: the request never holds more than 20 turns (`ChatBot.RequestWindow`), and a stored reply leaves at most 20.

Empty model output is not treated as an error:

- The bot replies "Claude returned no text.".
- The worker posts "No digest generated." as the digest.

## Model

| member | source | states |
|---|---|---|
| `Strings.TrimStartSpec` | index.js:40 | what `trimStart` leaves is a suffix of the input that does not start with white space; everything dropped is white space |
| `Strings.TrimEndSpec` | index.js:40 | what `trimEnd` leaves is a prefix of the input that does not end with white space; everything dropped is white space |
| `Strings.TrimSpec` | index.js:40 | `Trim`: the trimmed text is the part of the input between a white-space head and a white-space tail, and it neither starts nor ends with white space |
| `Strings.TrimEmptyIff` | index.js:40-41 | a text trims to the empty string exactly when it is white space only |
| `Strings.TrimIdempotent` | index.js:72 | trimming an already trimmed text changes nothing |
| `Strings.TrimPadded` | worker.js:52-68 | trimming white space off both sides of a text that neither starts nor ends with white space gives that text back |
| `Strings.ToLower` | index.js:47 | lower-casing keeps the length |
| `Strings.ToLowerAt` | index.js:47 | lower-casing maps each character on its own, ASCII capitals to their small letters |
| `Strings.ToLowerMatchesIff` | index.js:47 | a text lower-cases to a lower-case word exactly when it spells that word letter by letter in either case |
| `Strings.Prefix` | index.js:83 | `slice(0, n)` is the longest prefix with at most n elements |
| `Strings.TakeLast` | index.js:55 | `slice(-n)` is the longest suffix with at most n elements |
| `Strings.TakeLastAppend` | index.js:54-55 | keeping the last n of `s + t` keeps all of a `t` that fits and fills the rest with the newest elements of `s` |
| `Strings.JoinSnoc` | index.js:71 | `Join`: joining one more part appends the separator and that part, so the parts appear in order with one separator between neighbours |
| `Strings.JoinAllSpaceIff` | index.js:71 | with a white-space separator, the joined text is white space only exactly when every part is |
| `Strings.Decimal` | worker.js:30 | a status renders as at least one decimal digit, without a leading zero |
| `Strings.DecimalRoundTrip` | worker.js:30 | reading the rendered digits back gives the number |
| `Messages.TextsOf` | index.js:68-70 | filtering text segments and taking their texts yields at most one text per segment |
| `Messages.TextsOfAppend` | worker.js:77-79 | the texts of two runs of segments are the texts of each, in order |
| `Messages.TextsOfAreTheTextSegments` | index.js:68-70 | the texts extracted are exactly the texts of the segments whose type is `text` |
| `Messages.IgnoresOtherSegments` | index.js:68-72 | a segment of another type changes nothing in the extracted text, wherever it stands |
| `Messages.MissingContentIsEmpty` | worker.js:77 | a response without `content` extracts like one with no segments, to the empty string |
| `Messages.ExtractIsTrimmed` | index.js:68-72 | `ExtractText`, the reading both programs share: the extracted text is already trimmed |
| `Messages.ExtractEmptyIff` | index.js:68-74 | nothing is extracted exactly when every text segment is white space only, or there is none |
| `Messages.SingleTextSegment` | worker.js:77-81 | a single text segment among others yields its own text, trimmed |
| `ChatBot.ChannelHistories.constructor` | index.js:24 | the map starts empty |
| `ChatBot.ChannelHistories.HandleMessage` | index.js:33-90 | the new map, the outcome and the request built are exactly those of `Respond` on the old map |
| `ChatBot.RespondIsExchange` | index.js:43-55 | `Respond`: a message that passes the three checks and is not `reset` goes on to `Exchange` with its trimmed text and the model's answer |
| `ChatBot.ExchangeWindow` | index.js:53-66 | `Exchange`: the request is the newest min(19, n) stored turns and then the user turn, and the outcome is never "ignored" |
| `ChatBot.ExchangeStores` | index.js:79-83 | `Exchange`: a non-empty reply replaces the channel's entry with the newest min(18, n) earlier turns, the user turn and the assistant turn, and sends the reply's first 1900 characters |
| `ChatBot.ExchangeUnanswered` | index.js:54-77 | `Exchange`: a thrown error or an empty reply leaves an existing entry one user turn longer and a missing entry missing, with the error or no-text outcome |
| `ChatBot.ExchangeTouchesOneChannel` | index.js:43-81 | `Exchange`: every other channel keeps its entry, or its absence |
| `ChatBot.IgnoresBots` | index.js:35 | a bot's message leaves the map unchanged, gets no reply and builds no request |
| `ChatBot.IgnoresOtherChannels` | index.js:38 | a message outside channel 1467246866537124054 leaves the map unchanged, gets no reply and builds no request |
| `ChatBot.IgnoresBlankText` | index.js:40-41 | a white-space-only message leaves the map unchanged, gets no reply and builds no request |
| `ChatBot.RepliesIffAdmitted` | index.js:34-83 | the handler replies exactly to the messages that pass the three checks, and builds a request exactly for those that are not `reset` |
| `ChatBot.ResetCommandIff` | index.js:47 | the reset command is the trimmed text spelling `reset` in any mix of cases |
| `ChatBot.ResetClearsChannel` | index.js:44-51 | `reset` removes the channel's entry and nothing else; the channel then looks up as empty; the reply is "Memory cleared for this channel."; no request is built |
| `ChatBot.ResetStartsFresh` | index.js:44-81 | after a reset, the next request is the new user turn alone, and a reply stores exactly that turn and the reply |
| `ChatBot.RequestWindow` | index.js:54-66 | the request holds the newest min(19, n) stored turns and then the new user turn; it has 1 to 20 turns, ends with the user's trimmed text, and uses the fixed model, token limit and system text |
| `ChatBot.StoresExchange` | index.js:79-83 | a reply stores the newest min(18, n) earlier turns, then the user turn and the assistant turn, so 2 to 20 turns with the oldest dropped first; the reply sent is a non-empty prefix of the extracted text, at most 1900 characters |
| `ChatBot.UnansweredKeepsUserTurn` | index.js:54-77 | with no text or a thrown error, a channel with an entry keeps the user turn, one turn longer and not cut back to 20 turns, and a channel without one stays without; the outcome is the no-text notice or the error |
| `ChatBot.OtherChannelsUnchanged` | index.js:43-81 | every other channel keeps its entry, or its absence |
| `ChatBot.UnansweredTurnsAccumulate` | index.js:54-77 | k unanswered messages to a channel with an entry make its stored list k turns longer |
| `ChatBot.ReplyRestoresBound` | index.js:80-81 | whatever came before, a stored reply leaves the channel with at most 20 turns |
| `DigestWorker.TickPeriodMs` | worker.js:101 | the period is a whole number of minutes, in milliseconds |
| `DigestWorker.DefaultTickIsHalfAnHour` | worker.js:8 | without a setting the period is 1800000 ms |
| `DigestWorker.StartRejectsMissingSecrets` | worker.js:8-12 | `Start`: the worker starts exactly when both the API key and the webhook URL are non-empty; otherwise the error names the API key first, then the webhook URL; a started worker keeps both secrets and the interval setting, 30 minutes without one |
| `DigestWorker.PromptEmbedsInput` | worker.js:52-68 | `BuildPrompt`: the trimmed prompt is the rules block, the raw input verbatim, then the output-format block |
| `DigestWorker.DigestText` | worker.js:83 | the digest is never empty |
| `DigestWorker.DigestFallsBackIff` | worker.js:77-83 | the digest is "No digest generated." exactly when every text segment is white space only; otherwise it is the extracted text |
| `DigestWorker.TruncateContent` | worker.js:23 | the posted content is the longest prefix of at most 1900 characters, and the content itself when it fits |
| `DigestWorker.PayloadBounded` | worker.js:22-25 | `WebhookPayload`: the payload's content is the first min(n, 1900) characters of the content, the content unchanged when it fits, and `allowed_mentions.parse` is empty |
| `DigestWorker.DeliveryErrorReportsStatusAndBody` | worker.js:28-31 | `DeliveryError`: delivery fails exactly on a thrown `fetch` or a status outside 200-299; the error of a bad status can be read back into the status and the body, or the empty string when the body could not be read |
| `DigestWorker.RunPostsHeaderAndDigest` | worker.js:87-96 | `RunOnce`: the post is "🧠 **Research Digest**" and a blank line, then the digest, cut to exactly its first min(n, 1900) characters; it always holds the whole header and some of the digest; the prompt embeds the input; the outcome is posted exactly when delivery succeeds |
| `DigestWorker.FailedDigestPostsNothing` | worker.js:90-93 | a thrown model call ends the run before anything is posted |

## Left out

- Characters: a string is a sequence of Unicode characters. JavaScript's `length` and `slice` count UTF-16 code units, so text outside the Basic Multilingual Plane counts once here and twice there. The header's emoji is such a character: with it, the 1900-unit cut falls one character later here than in JavaScript.
- Lower-casing: only ASCII letters are lower-cased. `toLowerCase` is only compared with `reset`, and no other character lower-cases to one of its letters.
- The Discord client is not modelled. That covers the client itself, login, `sendTyping` and the `message.reply` transport (index.js:6-12, 57, 93). Replies are outcome values.
- A failure of any of the three replies is not modelled: the reset acknowledgement (index.js:49), the no-text notice (index.js:75) and the model's reply (index.js:83). In the source each one falls into the `catch` and sends a second, error reply.
- The SDK calls are not modelled (index.js:59-66, worker.js:70-75). The response, or the error it throws, is a parameter. The request is returned as a value.
- `fetch` is not modelled (worker.js:19-26): the webhook's status, body or thrown error is a parameter. The payload is modelled as a record, without its JSON encoding, method or headers.
- `getResearchInput` (worker.js:36-48) is not modelled. It returns a fixed string, and the model takes the raw text as a parameter.
- Timers and logging are not modelled: `setInterval`, the first run at start, `.catch` and `console` output (worker.js:98-107, index.js:84-89). A thrown model call is an `Error` outcome or a `DigestFailed` result.
- Two handlers running at once on the same channel can interleave. This is not modelled: the source has no guard, and each message is one atomic step here.
- Environment loading (`dotenv`, `process.env`) is not modelled. Settings are parameters, and a missing or empty setting is `None`.
- The interval setting: a non-numeric, negative or fractional `WORKER_INTERVAL_MINUTES` is not modelled. JavaScript turns it into `NaN` or a fraction.
