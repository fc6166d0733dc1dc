/** `components/Chatbot.tsx`: one submitted chat turn.

    A submit with a blank input, or while a reply is loading, does nothing.  Otherwise the
    user's message is appended and the input cleared; the model's reply then grows in a
    single trailing message, chunk by chunk, and any rejection (opening the stream or part
    way through it) appends a fixed apology.  Loading ends in every case.  The chat session
    is a parameter: its reply is given as the chunks it delivers and how it ends.
 */
module Chatbot {
  import opened Basics
  import opened Text
  import opened Types

  datatype ChatState = ChatState(messages: seq<ChatMessage>, input: string, isLoading: bool)

  /** What the chat session does with a message: reject before a stream exists, or stream
      some chunks and then either finish or reject. */
  datatype StreamReply =
    | OpenFailed(thrown: Thrown)
    | Streamed(chunks: seq<string>, failure: Option<Thrown>)

  const ErrorReply := "Sorry, I encountered an error."

  function ModelSays(text: string): ChatMessage
  {
    ChatMessage(Model, text)
  }

  /** `handleSubmit`: the final state, the message sent to the session (if any), and every
      value the message log takes, in order. */
  method HandleSubmit(s: ChatState, reply: StreamReply)
    returns (final: ChatState, sent: Option<string>, logs: seq<seq<ChatMessage>>)
    ensures AllWhitespace(s.input) || s.isLoading ==> final == s && sent == None && logs == []
    ensures !(AllWhitespace(s.input) || s.isLoading) ==>
      var before := s.messages + [ChatMessage(User, s.input)];
      && sent == Some(s.input)
      && final.input == "" && !final.isLoading
      && |logs| >= 2 && logs[0] == before && final.messages == logs[|logs| - 1]
      && (reply.OpenFailed? ==> logs == [before, before + [ModelSays(ErrorReply)]])
      && (reply.Streamed? ==>
            && |logs| == |reply.chunks| + 2 + (if reply.failure.Some? then 1 else 0)
            && (forall j :: 0 <= j <= |reply.chunks| ==>
                  logs[j + 1] == before + [ModelSays(Concat(reply.chunks[..j]))])
            && (reply.failure.None? ==> final.messages == before + [ModelSays(Concat(reply.chunks))])
            && (reply.failure.Some? ==>
                  final.messages == before + [ModelSays(Concat(reply.chunks)), ModelSays(ErrorReply)]))
  {
    if AllWhitespace(s.input) || s.isLoading {
      return s, None, [];
    }
    var before := s.messages + [ChatMessage(User, s.input)];
    var messages := before;
    logs := [messages];
    sent := Some(s.input);
    match reply {
      case OpenFailed(_) =>
        messages := messages + [ModelSays(ErrorReply)];
        logs := logs + [messages];
      case Streamed(chunks, failure) =>
        var modelResponse := "";
        messages := messages + [ModelSays("")];
        logs := logs + [messages];
        assert chunks[..0] == [];
        var j := 0;
        while j < |chunks|
          invariant 0 <= j <= |chunks|
          invariant modelResponse == Concat(chunks[..j])
          invariant |logs| == j + 2 && logs[0] == before
          invariant forall k :: 0 <= k <= j ==> logs[k + 1] == before + [ModelSays(Concat(chunks[..k]))]
          invariant messages == logs[j + 1]
        {
          assert chunks[..j + 1][..j] == chunks[..j];
          modelResponse := modelResponse + chunks[j];
          messages := messages[..|messages| - 1] + [ModelSays(modelResponse)];
          logs := logs + [messages];
          j := j + 1;
        }
        assert chunks[..|chunks|] == chunks;
        if failure.Some? {
          messages := messages + [ModelSays(ErrorReply)];
          logs := logs + [messages];
        }
    }
    final := ChatState(messages, "", false);
  }

  /** While a reply streams, each update keeps every earlier message and only extends the
      text of the trailing model message. */
  lemma StreamingOnlyExtendsReply(before: seq<ChatMessage>, chunks: seq<string>, j: nat)
    requires j < |chunks|
    ensures var now := before + [ModelSays(Concat(chunks[..j]))];
      var next := before + [ModelSays(Concat(chunks[..j + 1]))];
      && |next| == |now|
      && next[..|next| - 1] == now[..|now| - 1] == before
      && now[|now| - 1].text <= next[|next| - 1].text
  {
    assert chunks[..j + 1][..j] == chunks[..j];
  }
}
