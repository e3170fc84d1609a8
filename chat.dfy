/**
 * The architect chat (ArchitectChat.tsx): a list of messages, an input line
 * and a busy flag. Sending is split at its one `await`: `Send` runs up to the
 * request, `Receive` runs once the answer (or a failure) is back.
 */
module Chat {
  import opened Types
  import opened Text

  datatype Role = User | Assistant

  /** One chat message; `sources` is present only on answered questions. */
  datatype Message = Message(role: Role, content: string, sources: Option<seq<string>>)

  /** What the architect service answers: text and the sources it cites. */
  datatype Answer = Answer(text: string, sources: seq<string>)

  const ReasoningError := "An error occurred during reasoning."

  /** The assistant message for what the request yielded. */
  function Reply(response: Outcome<Answer>): Message {
    match response
    case Ok(answer) => Message(Assistant, answer.text, Some(answer.sources))
    case Fail(_) => Message(Assistant, ReasoningError, None)
  }

  /** What a send does to the message list: the trimmed question, then the
      reply. */
  function Exchange(question: string, response: Outcome<Answer>): seq<Message> {
    [Message(User, question, None), Reply(response)]
  }

  /** Message `m` fits position `i`: questions at even positions, non-blank
      and trimmed; replies at odd positions, the service's text with its
      sources or the fixed error text. */
  predicate WellPlaced(m: Message, i: int) {
    if i % 2 == 0 then
      m.role == User && m.sources.None? && m.content != "" && Trimmed(m.content)
    else
      m.role == Assistant && (m.sources.None? ==> m.content == ReasoningError)
  }

  /** Questions and replies alternate, starting with a question. */
  predicate Alternating(messages: seq<Message>) {
    forall i :: 0 <= i < |messages| ==> WellPlaced(messages[i], i)
  }

  /** The question of a send fits any even position. */
  lemma QuestionFits(input: string, i: int)
    requires !AllWhitespace(input) && i % 2 == 0
    ensures WellPlaced(Message(User, Trim(input), None), i)
  {
    var _, _ := TrimDecompose(input);
    BlankIffAllWhitespace(input);
  }

  /** Appending a message that fits the next position keeps the
      conversation alternating. */
  lemma AppendWellPlaced(messages: seq<Message>, m: Message)
    requires Alternating(messages) && WellPlaced(m, |messages|)
    ensures Alternating(messages + [m])
  {
    var grown := messages + [m];
    forall i | 0 <= i < |grown|
      ensures WellPlaced(grown[i], i)
    {
      if i < |messages| {
        assert grown[i] == messages[i];
      }
    }
  }

  /** A complete exchange after a complete conversation leaves a complete
      conversation, with the earlier messages untouched. */
  lemma ExchangeKeepsAlternation(messages: seq<Message>, input: string, response: Outcome<Answer>)
    requires Alternating(messages) && |messages| % 2 == 0 && !AllWhitespace(input)
    ensures var grown := messages + Exchange(Trim(input), response);
            && Alternating(grown)
            && |grown| == |messages| + 2
            && grown[..|messages|] == messages
            && grown[|messages|].role == User && grown[|messages|].content == Trim(input)
            && grown[|messages| + 1].role == Assistant
  {
    var question := Message(User, Trim(input), None);
    QuestionFits(input, |messages|);
    AppendWellPlaced(messages, question);
    AppendWellPlaced(messages + [question], Reply(response));
    assert messages + Exchange(Trim(input), response) == messages + [question] + [Reply(response)];
  }

  /** The reply carries the service's text and sources, or on failure the
      fixed error text without sources. */
  lemma ReplyContents(response: Outcome<Answer>)
    ensures Reply(response).role == Assistant
    ensures response.Ok? <==> Reply(response).sources.Some?
    ensures response.Ok? ==> Reply(response).content == response.value.text
                             && Reply(response).sources == Some(response.value.sources)
    ensures response.Fail? ==> Reply(response).content == ReasoningError
  {
  }

  class ArchitectChat {
    var messages: seq<Message>
    var input: string
    var isThinking: bool

    /** The chat is busy exactly while a question waits for its reply. */
    ghost predicate Valid()
      reads this
    {
      Alternating(messages) && (isThinking <==> |messages| % 2 == 1)
    }

    constructor ()
      ensures Valid()
      ensures messages == [] && input == "" && !isThinking
    {
      messages := [];
      input := "";
      isThinking := false;
    }

    /** Typing into the input line. */
    method SetInput(value: string)
      modifies this
      ensures input == value && messages == old(messages) && isThinking == old(isThinking)
    {
      input := value;
    }

    /** `handleSend` up to the request: a blank input, or a send while the
        chat is busy, does nothing; otherwise the trimmed question is
        appended, the input cleared, the chat marked busy, and the question
        returned as the request to make. */
    method Send() returns (request: Option<string>)
      requires Valid()
      modifies this
      ensures Valid()
      ensures AllWhitespace(old(input)) || old(isThinking) ==>
                && request.None?
                && messages == old(messages) && input == old(input) && isThinking == old(isThinking)
      ensures !AllWhitespace(old(input)) && !old(isThinking) ==>
                && request == Some(Trim(old(input)))
                && messages == old(messages) + [Message(User, Trim(old(input)), None)]
                && input == "" && isThinking
    {
      BlankIffAllWhitespace(input);
      if Trim(input) == "" || isThinking {
        return None;
      }
      var userMsg := Trim(input);
      QuestionFits(input, |messages|);
      AppendWellPlaced(messages, Message(User, userMsg, None));
      messages := messages + [Message(User, userMsg, None)];
      input := "";
      isThinking := true;
      request := Some(userMsg);
    }

    /** `handleSend` after the request: the reply is appended and the chat
        is no longer busy. */
    method Receive(response: Outcome<Answer>)
      requires Valid() && isThinking
      modifies this
      ensures Valid()
      ensures messages == old(messages) + [Reply(response)]
      ensures input == old(input) && !isThinking
    {
      AppendWellPlaced(messages, Reply(response));
      messages := messages + [Reply(response)];
      isThinking := false;
    }

    /** A whole send when nothing happens during the request: either
        nothing changes, or the message list grows by the exchange. */
    method HandleSend(ask: string -> Outcome<Answer>)
      requires Valid()
      modifies this
      ensures Valid()
      ensures AllWhitespace(old(input)) || old(isThinking) ==>
                messages == old(messages) && input == old(input) && isThinking == old(isThinking)
      ensures !AllWhitespace(old(input)) && !old(isThinking) ==>
                && messages == old(messages) + Exchange(Trim(old(input)), ask(Trim(old(input))))
                && input == "" && !isThinking
    {
      var request := Send();
      if request.Some? {
        var response := ask(request.value);
        Receive(response);
      }
    }
  }
}
