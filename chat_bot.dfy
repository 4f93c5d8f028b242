/** The Discord chat bot of `index.js`: a per-channel conversation history kept in a
    process-wide map, and the `messageCreate` handler that gates a message, handles the
    `reset` command, sends the newest turns to the model and stores the exchange.

    The handler reads the channel's stored list and, when there is one, appends the
    user turn to that very list (`history.push`), so the map sees the new turn before
    the model is even asked. A model call that fails or returns no text therefore
    still leaves the user turn stored, and the stored list is only cut back to the
    newest `2 * MaxTurns` turns when a reply is stored. */
module ChatBot {
  import opened Strings
  import opened Messages

  const AllowedChannelId := "1467246866537124054"
  const MaxTurns: nat := 10
  /** `MAX_TURNS * 2`: how many turns are sent and kept. */
  const WindowSize: nat := MaxTurns * 2
  const ReplyLimit: nat := 1900

  const ChatModel := "claude-3-haiku-20240307"
  const ChatMaxTokens: nat := 400
  const ChatSystem := "You are a helpful Discord assistant. Be concise, accurate, and safe. "
                      + "Do not request or store personal data, passwords, or API keys."

  const ResetCommand := "reset"
  const ResetNotice := "Memory cleared for this channel."
  const NoTextNotice := "Claude returned no text."
  const ErrorPrefix := "Error: "

  /** The parts of a Discord message the handler looks at. */
  datatype Message = Message(authorIsBot: bool, channelId: string, content: string)

  /** What the handler does in the end. */
  datatype Outcome =
    | Ignored              // returned without replying
    | ResetAck             // memory cleared and acknowledged
    | NoText               // the model answered without text
    | Reply(text: string)  // the model's text, as sent
    | Error(message: string)  // the model call (or the typing notice before it) threw

  /** The text `message.reply` is called with, if any. */
  function ReplySent(o: Outcome): Option<string> {
    match o
    case Ignored => None
    case ResetAck => Some(ResetNotice)
    case NoText => Some(NoTextNotice)
    case Reply(t) => Some(t)
    case Error(m) => Some(ErrorPrefix + m)
  }

  /** `historyByChannel`: channel id to its turns, oldest first. */
  type History = map<string, seq<Turn>>

  /** `historyByChannel.get(channelId) || []`. */
  function Stored(h: History, channelId: string): seq<Turn> {
    if channelId in h then h[channelId] else []
  }

  function ChatRequest(window: seq<Turn>): ModelRequest {
    ModelRequest(ChatModel, ChatMaxTokens, ChatSystem, window)
  }

  /** The message passes the three early returns. */
  predicate Admitted(msg: Message) {
    !msg.authorIsBot
    && !(AllowedChannelId != "" && msg.channelId != AllowedChannelId)
    && Trim(msg.content) != ""
  }

  predicate IsReset(text: string) {
    ToLower(text) == ResetCommand
  }

  /** The response reads as no reply at all: a thrown error or no text. */
  predicate Unanswered(response: ModelResponse) {
    AnswerOf(response).Threw? || AnswerOf(response).text == ""
  }

  /** The state after one message, what the handler did, and the request it built. */
  datatype Step = Step(history: History, outcome: Outcome, request: Option<ModelRequest>)

  /** What the model call amounts to for the handler: the error it threw, or the
      text read out of its response (lines 68-72). */
  datatype Answer = Threw(message: string) | Replied(text: string)

  function AnswerOf(response: ModelResponse): Answer {
    match response
    case Failed(m) => Threw(m)
    case Responded(content) => Replied(ExtractText(content))
  }

  /** One run of the handler on the map `h`, the model answering `response`. */
  function Respond(h: History, msg: Message, response: ModelResponse): Step {
    if msg.authorIsBot then Step(h, Ignored, None)
    else if AllowedChannelId != "" && msg.channelId != AllowedChannelId then Step(h, Ignored, None)
    else
      var userText := Trim(msg.content);
      if userText == "" then Step(h, Ignored, None)
      else if IsReset(userText) then Step(h - {msg.channelId}, ResetAck, None)
      else Exchange(h, msg.channelId, userText, AnswerOf(response))
  }

  /** The user turn is pushed, the window sent, and the answer stored. */
  function Exchange(h: History, channelId: string, userText: string, answer: Answer): Step {
    var pushed := Stored(h, channelId) + [Turn(User, userText)];
    var afterPush := if channelId in h then h[channelId := pushed] else h;
    var request := Some(ChatRequest(TakeLast(pushed, WindowSize)));
    match answer
    case Threw(m) => Step(afterPush, Error(m), request)
    case Replied(replyText) =>
      if replyText == "" then Step(afterPush, NoText, request)
      else
        var kept := TakeLast(pushed + [Turn(Assistant, replyText)], WindowSize);
        Step(afterPush[channelId := kept], Reply(Prefix(replyText, ReplyLimit)), request)
  }

  /** The process-wide `historyByChannel` map and the `messageCreate` handler. */
  class ChannelHistories {
    var byChannel: History

    constructor ()
      ensures byChannel == map[]
    {
      byChannel := map[];
    }

    /** Handles one inbound message; `response` stands for what the model returns. */
    method HandleMessage(msg: Message, response: ModelResponse) returns (outcome: Outcome, request: Option<ModelRequest>)
      modifies this
      ensures Step(byChannel, outcome, request) == Respond(old(byChannel), msg, response)
    {
      outcome, request := Ignored, None;
      if msg.authorIsBot { return; }
      if AllowedChannelId != "" && msg.channelId != AllowedChannelId { return; }
      var userText := Trim(msg.content);
      if userText == "" { return; }

      var channelId := msg.channelId;
      var isStored := channelId in byChannel;
      var history := if isStored then byChannel[channelId] else [];

      if ToLower(userText) == ResetCommand {
        byChannel := byChannel - {channelId};
        outcome := ResetAck;
        return;
      }

      RespondIsExchange(old(byChannel), msg, response);
      history := history + [Turn(User, userText)];
      if isStored {
        // the list just pushed to is the one the map holds
        byChannel := byChannel[channelId := history];
      }
      request := Some(ChatRequest(TakeLast(history, WindowSize)));

      match response {
        case Failed(m) =>
          outcome := Error(m);
        case Responded(content) =>
          var replyText := ExtractText(content);
          if replyText == "" {
            outcome := NoText;
            return;
          }
          history := history + [Turn(Assistant, replyText)];
          byChannel := byChannel[channelId := TakeLast(history, WindowSize)];
          outcome := Reply(Prefix(replyText, ReplyLimit));
      }
    }
  }

  // ---------------------------------------------------------------- the exchange

  /** Every exchange sends the newest (at most 19) stored turns and the user turn,
      and answers with some reply. */
  lemma ExchangeWindow(h: History, channelId: string, userText: string, answer: Answer)
    ensures var e := Exchange(h, channelId, userText, answer);
            var old_ := Stored(h, channelId);
            e.request == Some(ChatRequest(old_[|old_| - Min(|old_|, WindowSize - 1)..] + [Turn(User, userText)]))
            && e.outcome != Ignored
  {
    TakeLastAppend(Stored(h, channelId), [Turn(User, userText)], WindowSize);
  }

  /** A reply keeps the newest (at most 18) earlier turns, then the two new ones. */
  lemma ExchangeStores(h: History, channelId: string, userText: string, replyText: string)
    requires replyText != ""
    ensures var e := Exchange(h, channelId, userText, Replied(replyText));
            var old_ := Stored(h, channelId);
            e.history == h[channelId := old_[|old_| - Min(|old_|, WindowSize - 2)..]
                                        + [Turn(User, userText), Turn(Assistant, replyText)]]
            && e.outcome == Reply(Prefix(replyText, ReplyLimit))
  {
    var old_ := Stored(h, channelId);
    var u := Turn(User, userText);
    var a := Turn(Assistant, replyText);
    assert old_ + [u] + [a] == old_ + [u, a];
    TakeLastAppend(old_, [u, a], WindowSize);
  }

  /** Without a reply the pushed user turn stays in an existing entry. */
  lemma ExchangeUnanswered(h: History, channelId: string, userText: string, answer: Answer)
    requires answer.Threw? || answer.text == ""
    ensures var e := Exchange(h, channelId, userText, answer);
            e.history == (if channelId in h then h[channelId := h[channelId] + [Turn(User, userText)]] else h)
            && (channelId in h ==> |e.history[channelId]| == |h[channelId]| + 1)
            && e.outcome == (if answer.Threw? then Error(answer.message) else NoText)
  {
  }

  lemma ExchangeTouchesOneChannel(h: History, channelId: string, userText: string, answer: Answer, other: string)
    requires other != channelId
    ensures var e := Exchange(h, channelId, userText, answer);
            (other in e.history <==> other in h)
            && (other in h ==> e.history[other] == h[other])
  {
  }

  /** An admitted message that is not the reset command goes on to the exchange. */
  lemma RespondIsExchange(h: History, msg: Message, response: ModelResponse)
    requires Admitted(msg) && !IsReset(Trim(msg.content))
    ensures Respond(h, msg, response) == Exchange(h, msg.channelId, Trim(msg.content), AnswerOf(response))
  {
  }

  // ---------------------------------------------------------------- gating

  /** A message that fails one of the three checks changes nothing and gets no reply. */
  lemma NotAdmittedIsIgnored(h: History, msg: Message, response: ModelResponse)
    requires !Admitted(msg)
    ensures Respond(h, msg, response) == Step(h, Ignored, None)
  {
  }

  /** A bot's message changes nothing and gets no reply. */
  lemma IgnoresBots(h: History, msg: Message, response: ModelResponse)
    requires msg.authorIsBot
    ensures Respond(h, msg, response) == Step(h, Ignored, None)
  {
  }

  /** A message from any channel but the allowed one changes nothing and gets no reply. */
  lemma IgnoresOtherChannels(h: History, msg: Message, response: ModelResponse)
    requires msg.channelId != AllowedChannelId
    ensures Respond(h, msg, response) == Step(h, Ignored, None)
  {
  }

  /** A message of white space only changes nothing and gets no reply. */
  lemma IgnoresBlankText(h: History, msg: Message, response: ModelResponse)
    requires AllSpace(msg.content)
    ensures Respond(h, msg, response) == Step(h, Ignored, None)
  {
    TrimEmptyIff(msg.content);
  }

  /** The handler answers exactly the messages it admits, and asks the model only
      about admitted messages that are not the reset command. */
  lemma RepliesIffAdmitted(h: History, msg: Message, response: ModelResponse)
    ensures ReplySent(Respond(h, msg, response).outcome).Some? <==> Admitted(msg)
    ensures Respond(h, msg, response).request.Some? <==> Admitted(msg) && !IsReset(Trim(msg.content))
  {
    var s := Respond(h, msg, response);
    if !Admitted(msg) {
      NotAdmittedIsIgnored(h, msg, response);
      assert s.outcome == Ignored && s.request == None;
    } else if IsReset(Trim(msg.content)) {
      ResetClearsChannel(h, msg, response);
      assert s.outcome == ResetAck && s.request == None;
    } else {
      RespondIsExchange(h, msg, response);
      ExchangeWindow(h, msg.channelId, Trim(msg.content), AnswerOf(response));
      assert s.outcome != Ignored && s.request.Some?;
    }
  }

  // ---------------------------------------------------------------- reset

  /** `reset`, in any mix of cases, is the text trimmed to those five letters. */
  lemma ResetCommandIff(text: string)
    ensures IsReset(text) <==>
              |text| == 5 && forall j :: 0 <= j < 5 ==>
                text[j] == ResetCommand[j] || text[j] as int == ResetCommand[j] as int - 32
  {
    ToLowerMatchesIff(text, ResetCommand);
  }

  /** The reset command removes the channel's entry, acknowledges, builds no request
      and leaves every other channel as it was. */
  lemma ResetClearsChannel(h: History, msg: Message, response: ModelResponse)
    requires Admitted(msg) && IsReset(Trim(msg.content))
    ensures var s := Respond(h, msg, response);
            s.history == h - {msg.channelId}
            && Stored(s.history, msg.channelId) == []
            && s.outcome == ResetAck && ReplySent(s.outcome) == Some(ResetNotice)
            && s.request == None
  {
  }

  /** After a reset, the channel's next exchange starts from nothing: the request is
      the user turn alone and the stored history is that turn and the reply. */
  lemma ResetStartsFresh(h: History, reset: Message, r0: ModelResponse, msg: Message, content: Option<seq<Segment>>)
    requires Admitted(reset) && IsReset(Trim(reset.content))
    requires Admitted(msg) && !IsReset(Trim(msg.content)) && msg.channelId == reset.channelId
    requires ExtractText(content) != ""
    ensures var s := Respond(Respond(h, reset, r0).history, msg, Responded(content));
            var u := Turn(User, Trim(msg.content));
            s.request == Some(ChatRequest([u]))
            && s.history[msg.channelId] == [u, Turn(Assistant, ExtractText(content))]
  {
    var h1 := Respond(h, reset, r0).history;
    ResetClearsChannel(h, reset, r0);
    assert Stored(h1, msg.channelId) == [];
    RespondIsExchange(h1, msg, Responded(content));
    ExchangeWindow(h1, msg.channelId, Trim(msg.content), Replied(ExtractText(content)));
    ExchangeStores(h1, msg.channelId, Trim(msg.content), ExtractText(content));
  }

  // ---------------------------------------------------------------- the request window

  /** The request holds the newest (at most 19) stored turns followed by the new user
      turn: never more than `2 * MaxTurns` turns, always ending with the user's text. */
  lemma RequestWindow(h: History, msg: Message, response: ModelResponse)
    requires Admitted(msg) && !IsReset(Trim(msg.content))
    ensures var s := Respond(h, msg, response);
            var old_ := Stored(h, msg.channelId);
            var u := Turn(User, Trim(msg.content));
            s.request.Some?
            && s.request.value.model == ChatModel
            && s.request.value.maxTokens == ChatMaxTokens
            && s.request.value.system == ChatSystem
            && s.request.value.messages == old_[|old_| - Min(|old_|, WindowSize - 1)..] + [u]
            && 1 <= |s.request.value.messages| <= WindowSize
            && s.request.value.messages[|s.request.value.messages| - 1] == u
  {
    RespondIsExchange(h, msg, response);
    ExchangeWindow(h, msg.channelId, Trim(msg.content), AnswerOf(response));
  }

  // ---------------------------------------------------------------- storing the exchange

  /** A reply stores the newest (at most 18) earlier turns, then the user turn and the
      assistant turn: the oldest turns go first, the two newest always stay, and the
      stored list has at most `2 * MaxTurns` turns. The reply sent is the start of the
      extracted text, at most 1900 characters and never empty. */
  lemma StoresExchange(h: History, msg: Message, content: Option<seq<Segment>>)
    requires Admitted(msg) && !IsReset(Trim(msg.content))
    requires ExtractText(content) != ""
    ensures var s := Respond(h, msg, Responded(content));
            var old_ := Stored(h, msg.channelId);
            var text := ExtractText(content);
            var exchange := [Turn(User, Trim(msg.content)), Turn(Assistant, text)];
            msg.channelId in s.history
            && s.history[msg.channelId] == old_[|old_| - Min(|old_|, WindowSize - 2)..] + exchange
            && 2 <= |s.history[msg.channelId]| <= WindowSize
            && s.outcome == Reply(Prefix(text, ReplyLimit))
            && 1 <= |s.outcome.text| <= ReplyLimit
            && s.outcome.text == text[..|s.outcome.text|]
  {
    RespondIsExchange(h, msg, Responded(content));
    ExchangeStores(h, msg.channelId, Trim(msg.content), ExtractText(content));
  }

  /** Without a reply (no text, or a thrown error) the user turn still lands in a
      channel that already had an entry, one turn more than before and with no
      trimming; a channel without an entry stays without one. */
  lemma UnansweredKeepsUserTurn(h: History, msg: Message, response: ModelResponse)
    requires Admitted(msg) && !IsReset(Trim(msg.content))
    requires Unanswered(response)
    ensures var s := Respond(h, msg, response);
            var ch := msg.channelId;
            s.history == (if ch in h then h[ch := h[ch] + [Turn(User, Trim(msg.content))]] else h)
            && (ch in h ==> |s.history[ch]| == |h[ch]| + 1)
            && s.outcome == (if response.Failed? then Error(response.message) else NoText)
  {
    var text := Trim(msg.content);
    var answer := AnswerOf(response);
    RespondIsExchange(h, msg, response);
    ExchangeUnanswered(h, msg.channelId, text, answer);
    assert answer.Threw? <==> response.Failed?;
  }

  /** Channels other than the message's keep their entries, or their absence. */
  lemma OtherChannelsUnchanged(h: History, msg: Message, response: ModelResponse, other: string)
    requires other != msg.channelId
    ensures var s := Respond(h, msg, response);
            (other in s.history <==> other in h)
            && (other in h ==> s.history[other] == h[other])
  {
    var s := Respond(h, msg, response);
    if !Admitted(msg) {
      assert s.history == h;
    } else if IsReset(Trim(msg.content)) {
      assert s.history == h - {msg.channelId};
    } else {
      RespondIsExchange(h, msg, response);
      ExchangeTouchesOneChannel(h, msg.channelId, Trim(msg.content), AnswerOf(response), other);
    }
  }

  // ---------------------------------------------------------------- several messages

  datatype Event = Event(msg: Message, response: ModelResponse)

  /** The handler run on each event in turn. */
  function Replay(h: History, events: seq<Event>): History
    decreases |events|
  {
    if events == [] then h
    else Replay(Respond(h, events[0].msg, events[0].response).history, events[1..])
  }

  /** Unanswered messages to a channel with an entry pile up without bound: after k
      of them the stored list is k turns longer, past `2 * MaxTurns` if k is large. */
  lemma {:induction false} UnansweredTurnsAccumulate(h: History, channelId: string, events: seq<Event>)
    requires channelId in h
    requires forall i :: 0 <= i < |events| ==>
               events[i].msg.channelId == channelId && Admitted(events[i].msg)
               && !IsReset(Trim(events[i].msg.content)) && Unanswered(events[i].response)
    ensures channelId in Replay(h, events)
    ensures |Replay(h, events)[channelId]| == |h[channelId]| + |events|
    decreases |events|
  {
    if events != [] {
      var e := events[0];
      UnansweredKeepsUserTurn(h, e.msg, e.response);
      var h1 := Respond(h, e.msg, e.response).history;
      assert channelId in h1 && |h1[channelId]| == |h[channelId]| + 1;
      var rest := events[1..];
      assert forall i :: 0 <= i < |rest| ==> rest[i] == events[i + 1];
      UnansweredTurnsAccumulate(h1, channelId, rest);
      assert Replay(h, events) == Replay(h1, rest);
    }
  }

  /** Whatever came before, a reply leaves the channel with at most `2 * MaxTurns`
      turns stored. */
  lemma {:induction false} ReplyRestoresBound(h: History, events: seq<Event>, last: Event)
    requires Admitted(last.msg) && !IsReset(Trim(last.msg.content))
    requires last.response.Responded? && ExtractText(last.response.content) != ""
    ensures var after := Replay(h, events + [last]);
            last.msg.channelId in after && |after[last.msg.channelId]| <= WindowSize
    decreases |events|
  {
    if events == [] {
      assert [last][1..] == [];
      StoresExchange(h, last.msg, last.response.content);
    } else {
      assert (events + [last])[1..] == events[1..] + [last];
      ReplyRestoresBound(Respond(h, events[0].msg, events[0].response).history, events[1..], last);
    }
  }
}
