/** The client side of the turn protocol of the chat page: the typed message, the transcript
    shown so far, the `running` flag of a turn in flight and the position token that the server
    hands out and expects back. The server that executes the flow is not part of this model:
    its answer to a request is a parameter. */
module Chat {
  import opened Wrappers
  import opened Seqs
  import opened Text

  /** One line of the transcript: who said it (`from`) and what. */
  datatype Entry = Entry(from: string, text: string)

  const BotSpeaker: string := "bot"
  const UserSpeaker: string := "user"

  /** The line shown when the first request fails. */
  const WelcomeText: string := "Welcome! How can I help you today?"

  /** The line added when a turn fails. */
  const FallbackText: string := "Sorry, an error occurred. Please try again."

  /** The body of a request to run the flow: `user_inputs` (with `input`, or empty) and the
      position token `current_node_id`. */
  datatype RunRequest = RunRequest(input: Option<string>, currentNodeId: Option<string>)

  /** What a request to run the flow comes back with: the server's transcript for the turn and
      its new position token, or a failure (a network or server error). */
  datatype RunResponse = Answered(transcript: seq<Entry>, currentNodeId: Option<string>) | Failed

  predicate IsBot(e: Entry)
  {
    e.from == BotSpeaker
  }

  /** The bot lines of a response, in response order; every other line is dropped. */
  function BotEntries(s: seq<Entry>): (r: seq<Entry>)
    ensures forall i :: 0 <= i < |r| ==> IsBot(r[i]) && r[i] in s
    ensures forall i :: 0 <= i < |s| && IsBot(s[i]) ==> s[i] in r
  {
    Filter(s, IsBot)
  }

  /** Taking one more response line adds it to the bot lines exactly when it is a bot line. */
  lemma BotEntriesSnoc(s: seq<Entry>, e: Entry)
    ensures BotEntries(s + [e]) == BotEntries(s) + (if IsBot(e) then [e] else [])
  {
    FilterAppend(s, [e], IsBot);
  }

  /** The bot lines of a response that has no other lines are the whole response. */
  lemma AllBotKept(s: seq<Entry>)
    requires forall i :: 0 <= i < |s| ==> IsBot(s[i])
    ensures BotEntries(s) == s
  {
    FilterKeepsAll(s, IsBot);
  }

  /** The send guard: a turn starts only when the message is not all whitespace and no turn is
      in flight. */
  function CanSend(message: string, running: bool): (b: bool)
    ensures b <==> !running && !AllWhitespace(message)
  {
    Trim(message) != [] && !running
  }

  class TestSession {
    /** The text in the input box. */
    var message: string
    var transcript: seq<Entry>
    /** True while a request is in flight. */
    var running: bool
    /** The position token: the node id the server last reported, echoed on the next turn. */
    var currentNodeId: Option<string>

    constructor ()
      ensures message == "" && transcript == [] && !running && currentNodeId == None
    {
      message, transcript, running, currentNodeId := "", [], false, None;
    }

    /** Typing in the input box. */
    method SetMessage(text: string)
      modifies this`message
      ensures message == text
    {
      message := text;
    }

    /** The first half of `fetchGreeting`: mark a request in flight and send no input and no
        position. */
    method BeginGreeting() returns (req: RunRequest)
      modifies this`running
      ensures running
      ensures req == RunRequest(None, None)
    {
      running := true;
      req := RunRequest(None, None);
    }

    /** The second half of `fetchGreeting`: an answer replaces the transcript with all of its
        lines and sets the token; a failure shows the welcome line and keeps the token. */
    method FinishGreeting(response: RunResponse)
      modifies this`transcript, this`currentNodeId, this`running
      ensures !running
      ensures response.Answered? ==>
        transcript == response.transcript && currentNodeId == response.currentNodeId
      ensures response.Failed? ==>
        transcript == [Entry(BotSpeaker, WelcomeText)] && currentNodeId == old(currentNodeId)
    {
      match response {
        case Answered(lines, token) =>
          transcript := lines;
          currentNodeId := token;
        case Failed =>
          transcript := [Entry(BotSpeaker, WelcomeText)];
      }
      running := false;
    }

    /** `fetchGreeting`, with the server's answer to its request as `response`. */
    method FetchGreeting(response: RunResponse) returns (req: RunRequest)
      modifies this`transcript, this`currentNodeId, this`running
      ensures req == RunRequest(None, None)
      ensures !running
      ensures response.Answered? ==>
        transcript == response.transcript && currentNodeId == response.currentNodeId
      ensures response.Failed? ==>
        transcript == [Entry(BotSpeaker, WelcomeText)] && currentNodeId == old(currentNodeId)
    {
      req := BeginGreeting();
      FinishGreeting(response);
    }

    /** The first half of `sendMessage`: when the guard passes, take the message, clear the
        input box, mark a turn in flight and send the message with the current token. */
    method BeginSend() returns (req: Option<RunRequest>)
      modifies this`message, this`running
      ensures !CanSend(old(message), old(running)) ==>
        req.None? && message == old(message) && running == old(running)
      ensures CanSend(old(message), old(running)) ==>
        && req == Some(RunRequest(Some(old(message)), currentNodeId))
        && message == "" && running
    {
      if !CanSend(message, running) {
        return None;
      }
      var userMessage := message;
      message := "";
      running := true;
      req := Some(RunRequest(Some(userMessage), currentNodeId));
    }

    /** `addBotMessagesWithDelay`: append the bot lines of `messages` one at a time. */
    method AddBotMessages(messages: seq<Entry>)
      modifies this`transcript
      ensures transcript == old(transcript) + BotEntries(messages)
    {
      for i := 0 to |messages|
        invariant transcript == old(transcript) + BotEntries(messages[..i])
      {
        BotEntriesSnoc(messages[..i], messages[i]);
        assert messages[..i + 1] == messages[..i] + [messages[i]];
        if IsBot(messages[i]) {
          transcript := transcript + [messages[i]];
        }
      }
      assert messages[..|messages|] == messages;
    }

    /** The second half of `sendMessage`, for the sent text `sent`: an answer appends the
        user's line and then the bot lines of the answer, and moves the token; a failure
        appends the fallback line only and keeps the token. The turn ends either way. */
    method FinishSend(sent: string, response: RunResponse)
      modifies this`transcript, this`currentNodeId, this`running
      ensures !running
      ensures response.Answered? ==>
        && transcript == old(transcript) + [Entry(UserSpeaker, sent)] + BotEntries(response.transcript)
        && currentNodeId == response.currentNodeId
      ensures response.Failed? ==>
        transcript == old(transcript) + [Entry(BotSpeaker, FallbackText)] && currentNodeId == old(currentNodeId)
    {
      match response {
        case Answered(lines, token) =>
          transcript := transcript + [Entry(UserSpeaker, sent)];
          AddBotMessages(lines);
          currentNodeId := token;
        case Failed =>
          transcript := transcript + [Entry(BotSpeaker, FallbackText)];
      }
      running := false;
    }

    /** `sendMessage`, with the server's answer as `response`: `req` is the request sent, or
        `None` when the guard stops the turn, in which case nothing changes. */
    method SendMessage(response: RunResponse) returns (req: Option<RunRequest>)
      modifies this`message, this`transcript, this`currentNodeId, this`running
      ensures !CanSend(old(message), old(running)) ==>
        && req.None? && message == old(message) && transcript == old(transcript)
        && running == old(running) && currentNodeId == old(currentNodeId)
      ensures CanSend(old(message), old(running)) ==>
        && req == Some(RunRequest(Some(old(message)), old(currentNodeId)))
        && message == "" && !running
      ensures CanSend(old(message), old(running)) && response.Answered? ==>
        && transcript == old(transcript) + [Entry(UserSpeaker, old(message))] + BotEntries(response.transcript)
        && currentNodeId == response.currentNodeId
      ensures CanSend(old(message), old(running)) && response.Failed? ==>
        && transcript == old(transcript) + [Entry(BotSpeaker, FallbackText)]
        && currentNodeId == old(currentNodeId)
    {
      var sent := message;
      req := BeginSend();
      if req.Some? {
        FinishSend(sent, response);
      }
    }
  }
}
