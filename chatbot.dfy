/** The chatbot page: a message log that each send extends with the user's
    message and a placeholder bot reply, and the text input it clears. */
module Chatbot {
  import opened Wrappers
  import opened JsStrings

  datatype Sender = User | Bot

  datatype Message = Message(sender: Sender, text: string)

  const ReplyPrefix := "Gemini would respond to: \""

  /** The placeholder reply: the query inside a fixed frame. */
  function BotReply(query: string): (reply: string)
    ensures |reply| == |ReplyPrefix| + |query| + 1
    ensures StartsWith(reply, ReplyPrefix) && reply[|reply| - 1] == '"'
    ensures reply[|ReplyPrefix|..|reply| - 1] == query
  {
    ReplyPrefix + query + "\""
  }

  /** Recovers the query from a placeholder reply, if it is one. */
  function EchoedQuery(reply: string): Option<string> {
    if StartsWith(reply, ReplyPrefix) && |reply| > |ReplyPrefix| && reply[|reply| - 1] == '"'
    then Some(reply[|ReplyPrefix|..|reply| - 1])
    else None
  }

  lemma EchoedQueryOfReply(query: string)
    ensures EchoedQuery(BotReply(query)) == Some(query)
  {
  }

  /** The log after sending `input`: unchanged for empty or whitespace-only
      input (exactly the inputs whose `trim()` is empty, by `TrimEmptyIff`), otherwise extended by the untrimmed input from the user and then
      the bot's reply, earlier messages kept as a prefix. */
  function Sent(log: seq<Message>, input: string): (r: seq<Message>)
    ensures IsBlank(input) ==> r == log
    ensures !IsBlank(input) ==>
      |r| == |log| + 2 && r[..|log|] == log
      && r[|log|] == Message(User, input) && r[|log| + 1] == Message(Bot, BotReply(input))
  {
    if IsBlank(input) then log
    else
      var r := log + [Message(User, input), Message(Bot, BotReply(input))];
      assert r[..|log|] == log;
      r
  }

  lemma SentAppendsPair(log: seq<Message>, input: string)
    requires !IsBlank(input)
    ensures Sent(log, input) == log + [Message(User, input)] + [Message(Bot, BotReply(input))]
  {
    var r := Sent(log, input);
    var e := log + [Message(User, input)] + [Message(Bot, BotReply(input))];
    forall i | 0 <= i < |r| ensures r[i] == e[i] {
      if i < |log| {
        assert r[i] == r[..|log|][i];
      }
    }
  }

  /** Even length, user messages at even positions and bot messages at odd ones. */
  predicate Alternating(log: seq<Message>) {
    |log| % 2 == 0 && forall i :: 0 <= i < |log| ==> log[i].sender == SenderAt(i)
  }

  function SenderAt(i: nat): Sender {
    if i % 2 == 0 then User else Bot
  }

  lemma SendKeepsAlternation(log: seq<Message>, input: string)
    requires Alternating(log)
    ensures Alternating(Sent(log, input))
  {
    if !IsBlank(input) {
      ExtendKeepsAlternation(log, Sent(log, input));
    }
  }

  lemma ExtendKeepsAlternation(log: seq<Message>, r: seq<Message>)
    requires Alternating(log)
    requires |r| == |log| + 2 && r[..|log|] == log
    requires r[|log|].sender == User && r[|log| + 1].sender == Bot
    ensures Alternating(r)
  {
    var n := |log|;
    assert SenderAt(n) == User && SenderAt(n + 1) == Bot;
    forall i | 0 <= i < |r| ensures r[i].sender == SenderAt(i) {
      if i < n {
        assert r[i] == r[..n][i];
      }
    }
  }

  /** The log after sending each of `inputs` in turn, from the empty log. */
  function Conversation(inputs: seq<string>): seq<Message> {
    if inputs == [] then []
    else Sent(Conversation(inputs[..|inputs| - 1]), inputs[|inputs| - 1])
  }

  /** Any sequence of sends leaves user and bot messages strictly alternating. */
  lemma {:induction false} ConversationAlternates(inputs: seq<string>)
    ensures Alternating(Conversation(inputs))
  {
    if inputs != [] {
      ConversationAlternates(inputs[..|inputs| - 1]);
      SendKeepsAlternation(Conversation(inputs[..|inputs| - 1]), inputs[|inputs| - 1]);
    }
  }

  class Chat {
    var messages: seq<Message>
    var input: string

    constructor ()
      ensures messages == [] && input == ""
    {
      messages, input := [], "";
    }

    method EditInput(value: string)
      modifies this`input
      ensures input == value
    {
      input := value;
    }

    /** Sending the form: the log as `Sent` gives it; the input is cleared
        when something was sent and left as it was otherwise. */
    method HandleSend()
      modifies this
      ensures messages == Sent(old(messages), old(input))
      ensures input == if IsBlank(old(input)) then old(input) else ""
      ensures Alternating(old(messages)) ==> Alternating(messages)
    {
      TrimEmptyIff(input);
      if Trim(input) == "" {
        return;
      }
      SentAppendsPair(messages, input);
      messages := messages + [Message(User, input)];
      var query := input;
      input := "";
      messages := messages + [Message(Bot, BotReply(query))];
      if Alternating(old(messages)) {
        SendKeepsAlternation(old(messages), old(input));
      }
    }
  }
}
