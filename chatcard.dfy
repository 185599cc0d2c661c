/** The chat card: the conversation it shows, its input box and its loading
    flag, with the submit handler that streams the assistant's reply into the
    last message and the effect that seeds the conversation. */
module ChatCard {
  import opened Wrappers
  import opened Text
  import opened ChatRoute

  const Apology: string := "Sorry, I encountered an error. Please try again."

  /** How the request to the chat route turns out: a response that is not ok, a
      response without a body reader, or a body whose reads return `chunks` (as
      decoded text) and then either report `done` or, when `fails`, throw. */
  datatype Reply = NotOk | NoReader | Streamed(chunks: seq<string>, fails: bool)

  /** What a submission appends after the user's message. */
  function ReplyMessages(reply: Reply): (r: seq<Message>)
    ensures |r| >= 1
    ensures r[|r| - 1].role == Assistant
    ensures reply.NotOk? || reply.NoReader? || (reply.Streamed? && reply.fails) ==> r[|r| - 1] == Message(Assistant, Apology)
    ensures reply.Streamed? ==> r[0] == Message(Assistant, Concat(reply.chunks))
    ensures reply.Streamed? && !reply.fails ==> r == [Message(Assistant, Concat(reply.chunks))]
    ensures reply.Streamed? && reply.fails ==> |r| == 2
    ensures !reply.Streamed? ==> r == [Message(Assistant, Apology)]
  {
    match reply
    case NotOk => [Message(Assistant, Apology)]
    case NoReader => [Message(Assistant, Apology)]
    case Streamed(chunks, fails) =>
      [Message(Assistant, Concat(chunks))] + (if fails then [Message(Assistant, Apology)] else [])
  }

  /** Whether a submission does anything. */
  predicate Submits(input: string, isLoading: bool)
  {
    Trim(input) != "" && !isLoading
  }

  class ChatCardState {
    var messages: seq<Message>
    var input: string
    var isLoading: bool
    /** Every value `isLoading` has been set to, in order. */
    ghost var loadingTrace: seq<bool>
    /** The `messages` of every request body sent to the chat route. */
    ghost var requests: seq<seq<Message>>
    /** Every content the streamed reply's message has shown, in order. */
    ghost var shown: seq<string>

    constructor ()
      ensures messages == [] && input == "" && !isLoading
      ensures loadingTrace == [] && requests == [] && shown == []
    {
      messages := [];
      input := "";
      isLoading := false;
      loadingTrace := [];
      requests := [];
      shown := [];
    }

    /** The input box's `onChange`. */
    method Type(text: string)
      modifies this
      ensures input == text && messages == old(messages) && isLoading == old(isLoading)
      ensures loadingTrace == old(loadingTrace) && requests == old(requests) && shown == old(shown)
    {
      input := text;
    }

    /** The seed-prompt effect: a truthy seed prompt becomes the only message of
        an empty conversation. */
    method SeedPromptEffect(seedPrompt: Option<string>)
      modifies this
      ensures messages == (if Truthy(seedPrompt) && old(messages) == [] then [Message(User, seedPrompt.value)] else old(messages))
      ensures input == old(input) && isLoading == old(isLoading)
      ensures loadingTrace == old(loadingTrace) && requests == old(requests) && shown == old(shown)
    {
      if Truthy(seedPrompt) && |messages| == 0 {
        messages := [Message(User, seedPrompt.value)];
      }
    }

    /** `handleSubmit`, with the request's outcome given as `reply`. */
    method Submit(reply: Reply)
      modifies this
      ensures !Submits(old(input), old(isLoading)) ==>
        messages == old(messages) && input == old(input) && isLoading == old(isLoading)
        && loadingTrace == old(loadingTrace) && requests == old(requests) && shown == old(shown)
      ensures Submits(old(input), old(isLoading)) ==>
        var sent := old(messages) + [Message(User, Trim(old(input)))];
        messages == sent + ReplyMessages(reply)
        && input == ""
        && requests == old(requests) + [sent]
        && !isLoading && loadingTrace == old(loadingTrace) + [true, false]
        && shown == old(shown) + (if reply.Streamed? then Partials(reply.chunks) else [])
    {
      if Trim(input) == "" || isLoading {
        return;
      }
      var userMessage := Trim(input);
      input := "";
      var sent := messages + [Message(User, userMessage)];
      messages := sent;
      isLoading := true;
      loadingTrace := loadingTrace + [true];
      requests := requests + [sent];
      match reply {
        case NotOk =>
          messages := messages + [Message(Assistant, Apology)];
        case NoReader =>
          messages := messages + [Message(Assistant, Apology)];
        case Streamed(chunks, fails) =>
          var assistantMessage := "";
          messages := messages + [Message(Assistant, "")];
          ghost var shownBefore := shown;
          var i := 0;
          while i < |chunks|
            invariant 0 <= i <= |chunks|
            invariant assistantMessage == Concat(chunks[..i])
            invariant messages == sent + [Message(Assistant, assistantMessage)]
            invariant shown == shownBefore + Partials(chunks[..i])
            invariant input == "" && isLoading && loadingTrace == old(loadingTrace) + [true]
            invariant requests == old(requests) + [sent]
          {
            assert chunks[..i + 1][..i] == chunks[..i];
            assistantMessage := assistantMessage + chunks[i];
            messages := messages[|messages| - 1 := Message(Assistant, assistantMessage)];
            shown := shown + [assistantMessage];
            i := i + 1;
          }
          assert chunks[..|chunks|] == chunks;
          if fails {
            messages := messages + [Message(Assistant, Apology)];
          }
      }
      // finally
      isLoading := false;
      loadingTrace := loadingTrace + [false];
    }
  }

  /** The contents the streamed message shows, one after each chunk: after
      chunk `k` it shows the first `k + 1` chunks joined. */
  function Partials(chunks: seq<string>): (r: seq<string>)
    ensures |r| == |chunks|
    ensures forall k :: 0 <= k < |chunks| ==> r[k] == Concat(chunks[..k + 1])
  {
    if chunks == [] then []
    else
      var init := chunks[..|chunks| - 1];
      assert forall k :: 0 < k <= |init| ==> init[..k] == chunks[..k];
      assert chunks[..|chunks|] == chunks;
      Partials(init) + [Concat(chunks)]
  }

  /** The streamed message only grows: each content it shows extends the
      previous one by the latest chunk. */
  lemma PartialsGrow(chunks: seq<string>, k: nat)
    requires 0 < k < |chunks|
    ensures Partials(chunks)[k] == Partials(chunks)[k - 1] + chunks[k]
    ensures StartsWith(Partials(chunks)[k], Partials(chunks)[k - 1])
  {
    assert chunks[..k + 1][..k] == chunks[..k];
    var prev := Partials(chunks)[k - 1];
    assert (prev + chunks[k])[..|prev|] == prev;
  }
}
