/** The chat API route: the conversation is converted to the model provider's
    message format, a system prompt is assembled around the contract code and
    the user's original request, and the provider's event stream is reduced to
    the text deltas it carries. */
module ChatRoute {
  import opened Wrappers
  import opened Text

  datatype Role = User | Assistant | System

  datatype Message = Message(role: Role, content: string)

  /** The provider knows only two roles. */
  datatype ProviderRole = ProviderUser | ProviderAssistant

  datatype ProviderMessage = ProviderMessage(role: ProviderRole, content: string)

  /** `msg.role === 'assistant' ? 'assistant' : 'user'`. */
  function ProviderRoleOf(r: Role): ProviderRole
  {
    if r == Assistant then ProviderAssistant else ProviderUser
  }

  /** `messages.map(...)`. */
  function ToProvider(messages: seq<Message>): (r: seq<ProviderMessage>)
    ensures |r| == |messages|
    ensures forall i :: 0 <= i < |messages| ==>
      r[i].content == messages[i].content && r[i].role == ProviderRoleOf(messages[i].role)
  {
    if messages == [] then []
    else [ProviderMessage(ProviderRoleOf(messages[0].role), messages[0].content)] + ToProvider(messages[1..])
  }

  /** Assistant turns stay assistant turns; user and system turns both become
      user turns, so a converted conversation never carries a system role and
      loses only the user/system distinction. */
  lemma RoleMapping(messages: seq<Message>, i: nat)
    requires i < |messages|
    ensures ToProvider(messages)[i].role == ProviderAssistant <==> messages[i].role == Assistant
    ensures ToProvider(messages)[i].role == ProviderUser <==> messages[i].role in {User, System}
  {
  }

  /** Converting a conversation is converting its parts, so the order is kept. */
  lemma {:induction false} ToProviderAppend(a: seq<Message>, b: seq<Message>)
    ensures ToProvider(a + b) == ToProvider(a) + ToProvider(b)
  {
    var r := ToProvider(a + b);
    var s := ToProvider(a) + ToProvider(b);
    assert |r| == |s|;
    forall i | 0 <= i < |r| ensures r[i] == s[i]
    {
      if i < |a| {
        assert (a + b)[i] == a[i];
      } else {
        assert (a + b)[i] == b[i - |a|];
      }
    }
  }

  // ---------------------------------------------------------------------------
  // The system prompt

  /** A JavaScript truthiness test on an optional string. */
  predicate Truthy(s: Option<string>)
  {
    s.Some? && s.value != ""
  }

  /** The fixed preamble of the template literal, up to the first placeholder,
      with its trailing spaces and its indentation. */
  const Preamble: string :=
    "You are an AI assistant specialized in Aztec Protocol smart contract development. \n"
    + "    You help users write, debug, and understand Noir smart contracts. \n"
    + "    You can explain concepts, suggest improvements, and help with error messages.\n"
    + "    Always be concise and focus on practical solutions.\n\n    "
  const CodeIntro: string := "Current contract code:\n"
  const FenceOpen: string := "```noir\n"
  const FenceClose: string := "\n```"
  /** The newline and indentation between the two placeholders. */
  const Separator: string := "\n    "
  const SeedHeader: string := "User's original request: "

  /** The code as a fenced noir block. */
  function Fenced(code: string): string
  {
    FenceOpen + code + FenceClose
  }

  function CodeSection(contractCode: Option<string>): string
  {
    if Truthy(contractCode) then CodeIntro + Fenced(contractCode.value) else ""
  }

  function SeedSection(seedPrompt: Option<string>): string
  {
    if Truthy(seedPrompt) then SeedHeader + seedPrompt.value else ""
  }

  /** The template with a given preamble. */
  function Prompt(pre: string, contractCode: Option<string>, seedPrompt: Option<string>): string
  {
    pre + (CodeSection(contractCode) + (Separator + SeedSection(seedPrompt)))
  }

  /** `systemContent`. */
  function SystemContent(contractCode: Option<string>, seedPrompt: Option<string>): string
  {
    Prompt(Preamble, contractCode, seedPrompt)
  }

  /** The prompt opens with its preamble. Right after it comes the fenced noir
      block exactly when the contract code is truthy (otherwise the separator);
      the block holds the code verbatim; and after the code section and the
      separator the request line starts exactly when the seed prompt is truthy,
      the prompt ending there otherwise. `SystemContent` is this prompt with the
      assistant's preamble. */
  lemma PromptParts(pre: string, contractCode: Option<string>, seedPrompt: Option<string>)
    ensures var p := Prompt(pre, contractCode, seedPrompt);
      var offset := |pre| + |CodeSection(contractCode)| + |Separator|;
      StartsWith(p, pre)
      && (StartsWith(p[|pre|..], CodeIntro) <==> Truthy(contractCode))
      && (Truthy(contractCode) ==> Contains(p, Fenced(contractCode.value)))
      && (!Truthy(contractCode) ==> p[|pre|..] == Separator + SeedSection(seedPrompt))
      && offset <= |p|
      && (StartsWith(p[offset..], SeedHeader) <==> Truthy(seedPrompt))
      && (Truthy(seedPrompt) ==> p[offset..] == SeedHeader + seedPrompt.value)
      && (!Truthy(seedPrompt) ==> offset == |p|)
  {
    PromptSections(pre, contractCode, Separator + SeedSection(seedPrompt));
    PromptSeedSection(pre, contractCode, seedPrompt);
  }

  /** The code part of the prompt, for any preamble and any remainder that
      starts a new line. */
  lemma PromptSections(pre: string, contractCode: Option<string>, rest: string)
    requires |rest| > 0 && rest[0] == '\n'
    ensures var p := pre + (CodeSection(contractCode) + rest);
      StartsWith(p, pre)
      && p[|pre|..] == CodeSection(contractCode) + rest
      && (StartsWith(p[|pre|..], CodeIntro) <==> Truthy(contractCode))
      && (Truthy(contractCode) ==> Contains(p, Fenced(contractCode.value)))
  {
    var p := pre + (CodeSection(contractCode) + rest);
    assert p[..|pre|] == pre;
    CodeSectionIff(contractCode, rest);
    if Truthy(contractCode) {
      FencedInCodeSection(contractCode, rest);
      ContainsInSuffix(pre, CodeSection(contractCode) + rest, Fenced(contractCode.value));
    }
  }

  /** The request part of the prompt, for any preamble. */
  lemma PromptSeedSection(pre: string, contractCode: Option<string>, seedPrompt: Option<string>)
    ensures var p := Prompt(pre, contractCode, seedPrompt);
      var offset := |pre| + |CodeSection(contractCode)| + |Separator|;
      offset <= |p|
      && (StartsWith(p[offset..], SeedHeader) <==> Truthy(seedPrompt))
      && (Truthy(seedPrompt) ==> p[offset..] == SeedHeader + seedPrompt.value)
      && (!Truthy(seedPrompt) ==> offset == |p|)
  {
    Decompose(pre, CodeSection(contractCode), Separator, SeedSection(seedPrompt));
    assert Prompt(pre, contractCode, seedPrompt) == pre + CodeSection(contractCode) + Separator + SeedSection(seedPrompt);
    SeedSectionIff(seedPrompt);
  }

  /** Cutting a four-part text at the ends of its parts. */
  lemma Decompose(pre: string, code: string, sep: string, seed: string)
    ensures var p := pre + code + sep + seed;
      StartsWith(p, pre) && p[|pre|..] == code + sep + seed && p[|pre| + |code| + |sep|..] == seed
  {
    var p := pre + code + sep + seed;
    assert p == pre + (code + sep + seed);
    assert p == (pre + code + sep) + seed;
  }

  /** After the preamble: the code introduction exactly when the code is truthy. */
  lemma CodeSectionIff(contractCode: Option<string>, rest: string)
    requires |rest| > 0 && rest[0] == '\n'
    ensures StartsWith(CodeSection(contractCode) + rest, CodeIntro) <==> Truthy(contractCode)
  {
    var t := CodeSection(contractCode) + rest;
    if Truthy(contractCode) {
      assert t == CodeIntro + (Fenced(contractCode.value) + rest);
      assert t[..|CodeIntro|] == CodeIntro;
    } else {
      assert t == rest;
      assert t[0] != CodeIntro[0];
    }
  }

  /** A truthy code section holds the code as a fenced block. */
  lemma FencedInCodeSection(contractCode: Option<string>, rest: string)
    requires Truthy(contractCode)
    ensures Contains(CodeSection(contractCode) + rest, Fenced(contractCode.value))
  {
    var fenced := Fenced(contractCode.value);
    assert CodeSection(contractCode) + rest == CodeIntro + (fenced + rest);
    assert (fenced + rest)[..|fenced|] == fenced;
    ContainsIff(fenced + rest, fenced);
    assert StartsWith((fenced + rest)[0..], fenced);
    ContainsInSuffix(CodeIntro, fenced + rest, fenced);
  }

  /** The request line starts the seed section exactly when the seed is truthy. */
  lemma SeedSectionIff(seedPrompt: Option<string>)
    ensures StartsWith(SeedSection(seedPrompt), SeedHeader) <==> Truthy(seedPrompt)
  {
  }

  // ---------------------------------------------------------------------------
  // The stream

  /** One event of the provider's stream: its `type` and, when its `delta`
      carries a `text` field, that text. */
  datatype Chunk = Chunk(kind: string, deltaText: Option<string>)

  /** The filter of the `for await` loop. */
  predicate Forwarded(c: Chunk)
  {
    c.kind == "content_block_delta" && c.deltaText.Some?
  }

  /** The texts the stream passes on, in order. */
  function TextsOf(chunks: seq<Chunk>): (r: seq<string>)
    ensures |r| <= |chunks|
  {
    if chunks == [] then []
    else (if Forwarded(chunks[0]) then [chunks[0].deltaText.value] else []) + TextsOf(chunks[1..])
  }

  /** The text a sequence of pieces adds up to. */
  function Concat(pieces: seq<string>): string
  {
    if pieces == [] then "" else Concat(pieces[..|pieces| - 1]) + pieces[|pieces| - 1]
  }

  lemma {:induction false} TextsOfAppend(a: seq<Chunk>, b: seq<Chunk>)
    ensures TextsOf(a + b) == TextsOf(a) + TextsOf(b)
  {
    if a == [] {
      assert a + b == b;
    } else {
      var head := if Forwarded(a[0]) then [a[0].deltaText.value] else [];
      assert (a + b)[0] == a[0] && (a + b)[1..] == a[1..] + b;
      assert TextsOf(a + b) == head + TextsOf(a[1..] + b);
      assert TextsOf(a) == head + TextsOf(a[1..]);
      TextsOfAppend(a[1..], b);
    }
  }

  /** Exactly the forwarded chunks contribute, each with its own text: every text
      passed on comes from a content-block delta with text, and every such chunk's
      text is passed on. */
  lemma {:induction false} TextsOfExact(chunks: seq<Chunk>)
    ensures forall t :: t in TextsOf(chunks) ==>
      exists i :: 0 <= i < |chunks| && Forwarded(chunks[i]) && chunks[i].deltaText.value == t
    ensures forall i :: 0 <= i < |chunks| && Forwarded(chunks[i]) ==> chunks[i].deltaText.value in TextsOf(chunks)
    ensures (forall i :: 0 <= i < |chunks| ==> !Forwarded(chunks[i])) <==> TextsOf(chunks) == []
  {
    if chunks != [] {
      TextsOfExact(chunks[1..]);
      var rest := TextsOf(chunks[1..]);
      forall t | t in TextsOf(chunks)
        ensures exists i :: 0 <= i < |chunks| && Forwarded(chunks[i]) && chunks[i].deltaText.value == t
      {
        if t !in rest {
          assert Forwarded(chunks[0]) && chunks[0].deltaText.value == t;
        } else {
          var i :| 0 <= i < |chunks[1..]| && Forwarded(chunks[1..][i]) && chunks[1..][i].deltaText.value == t;
          assert chunks[i + 1] == chunks[1..][i];
        }
      }
      forall i | 0 <= i < |chunks| && Forwarded(chunks[i])
        ensures chunks[i].deltaText.value in TextsOf(chunks)
      {
        if i > 0 {
          assert chunks[1..][i - 1] == chunks[i];
        }
      }
      if TextsOf(chunks) == [] {
        assert !Forwarded(chunks[0]);
        forall i | 0 <= i < |chunks| ensures !Forwarded(chunks[i])
        {
          if i > 0 {
            assert chunks[1..][i - 1] == chunks[i];
          }
        }
      }
    }
  }

  lemma {:induction false} ConcatAppend(a: seq<string>, b: seq<string>)
    ensures Concat(a + b) == Concat(a) + Concat(b)
  {
    if b == [] {
      assert a + b == a;
    } else {
      assert (a + b)[..|a + b| - 1] == a + b[..|b| - 1];
      ConcatAppend(a, b[..|b| - 1]);
    }
  }

  /** The text streamed for a sequence of events is the text streamed for its
      first part followed by the text streamed for the rest. */
  lemma StreamedTextAppend(a: seq<Chunk>, b: seq<Chunk>)
    ensures Concat(TextsOf(a + b)) == Concat(TextsOf(a)) + Concat(TextsOf(b))
  {
    TextsOfAppend(a, b);
    ConcatAppend(TextsOf(a), TextsOf(b));
  }

  /** The controller of the response's `ReadableStream`. */
  class StreamController {
    var enqueued: seq<string>
    var closed: bool
    /** How many times `close()` has been called. */
    ghost var closeCount: nat

    constructor ()
      ensures enqueued == [] && !closed && closeCount == 0
    {
      enqueued := [];
      closed := false;
      closeCount := 0;
    }

    /** `controller.enqueue(text)`; enqueueing into a closed stream throws. */
    method Enqueue(text: string)
      requires !closed
      modifies this
      ensures enqueued == old(enqueued) + [text] && closed == old(closed) && closeCount == old(closeCount)
    {
      enqueued := enqueued + [text];
    }

    /** `controller.close()`. */
    method Close()
      requires !closed
      modifies this
      ensures closed && closeCount == old(closeCount) + 1 && enqueued == old(enqueued)
    {
      closed := true;
      closeCount := closeCount + 1;
    }
  }

  /** The stream's `start(controller)`: every text delta is enqueued in order,
      nothing else is, and the stream is closed once, after the last event. */
  method Start(controller: StreamController, chunks: seq<Chunk>)
    requires !controller.closed
    modifies controller
    ensures controller.enqueued == old(controller.enqueued) + TextsOf(chunks)
    ensures controller.closed && controller.closeCount == old(controller.closeCount) + 1
  {
    for i := 0 to |chunks|
      invariant controller.enqueued == old(controller.enqueued) + TextsOf(chunks[..i])
      invariant !controller.closed && controller.closeCount == old(controller.closeCount)
    {
      TextsOfAppend(chunks[..i], [chunks[i]]);
      assert chunks[..i + 1] == chunks[..i] + [chunks[i]];
      if Forwarded(chunks[i]) {
        controller.Enqueue(chunks[i].deltaText.value);
      }
    }
    assert chunks[..|chunks|] == chunks;
    controller.Close();
  }
}
