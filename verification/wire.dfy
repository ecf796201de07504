/** The typed JSON messages the relay sends to the browser over its WebSocket,
    and a few observers over streams of them. */
module Wire {
  import opened Wrappers

  datatype Message =
    | Status(message: string)
    | Error(message: string)
    | GenerationStart(turnId: string)
    | Audio(data: string)
    /** JSON field `turnId`: whatever the relay held as its current turn, possibly `null`. */
    | Interrupt(interruptedTurn: Option<string>, timestamp: int)

  /** The `audio` messages of a stream, in stream order. */
  function AudioMessages(out: seq<Message>): (r: seq<Message>)
    ensures |r| <= |out|
  {
    if out == [] then []
    else AudioMessages(out[..|out| - 1]) + (if out[|out| - 1].Audio? then [out[|out| - 1]] else [])
  }

  lemma {:induction false} AudioMessagesAppend(a: seq<Message>, b: seq<Message>)
    ensures AudioMessages(a + b) == AudioMessages(a) + AudioMessages(b)
    decreases |b|
  {
    if b == [] {
      assert a + b == a;
    } else {
      var b' := b[..|b| - 1];
      assert (a + b)[..|a + b| - 1] == a + b';
      AudioMessagesAppend(a, b');
    }
  }

  /** A stream made only of `audio` messages is its own audio part. */
  lemma {:induction false} AudioMessagesOfAudio(out: seq<Message>)
    requires forall i :: 0 <= i < |out| ==> out[i].Audio?
    ensures AudioMessages(out) == out
  {
    if out != [] {
      AudioMessagesOfAudio(out[..|out| - 1]);
    }
  }
}
