/**
 * `chat_based_on_context` in src/backend/config/model.py: the stored chat
 * messages are turned into LangChain messages for the model, user turns as
 * human messages and assistant turns as AI messages, every other role
 * dropped, and the new user input appended last. Streaming the model's
 * reply is left out.
 */
module ChatModel {
  import opened Values

  /** A message as the session stores it: `{"role": ..., "content": ...}`. */
  datatype ChatEntry = ChatEntry(role: string, content: Value)

  /** `HumanMessage(content=...)` and `AIMessage(content=...)`. */
  datatype LlmMessage = Human(content: Value) | AI(content: Value)

  const UserRole := "user"
  const AssistantRole := "assistant"

  /** A role that survives the conversion. */
  predicate Kept(e: ChatEntry) {
    e.role == UserRole || e.role == AssistantRole
  }

  /** The loop over `messages`, as a recursive definition. */
  function Converted(messages: seq<ChatEntry>): (history: seq<LlmMessage>)
    ensures |history| <= |messages|
  {
    if |messages| == 0 then []
    else
      var e := messages[|messages| - 1];
      var front := Converted(messages[..|messages| - 1]);
      if e.role == UserRole then front + [Human(e.content)]
      else if e.role == AssistantRole then front + [AI(e.content)]
      else front
  }

  /** The entries with a kept role, in their original order. */
  function KeptEntries(messages: seq<ChatEntry>): (kept: seq<ChatEntry>)
    ensures forall k :: 0 <= k < |kept| ==> Kept(kept[k])
  {
    if |messages| == 0 then []
    else if Kept(messages[0]) then [messages[0]] + KeptEntries(messages[1..])
    else KeptEntries(messages[1..])
  }

  /** The entry a converted message stands for. */
  function Entry(m: LlmMessage): ChatEntry {
    match m
    case Human(c) => ChatEntry(UserRole, c)
    case AI(c) => ChatEntry(AssistantRole, c)
  }

  /** The entries a converted history stands for. */
  function Entries(history: seq<LlmMessage>): (entries: seq<ChatEntry>)
    ensures |entries| == |history|
  {
    if |history| == 0 then [] else Entries(history[..|history| - 1]) + [Entry(history[|history| - 1])]
  }

  /** Selection distributes over concatenation. */
  lemma {:induction false} KeptEntriesAppend(a: seq<ChatEntry>, b: seq<ChatEntry>)
    ensures KeptEntries(a + b) == KeptEntries(a) + KeptEntries(b)
    decreases |a|
  {
    if |a| == 0 {
      assert a + b == b;
    } else {
      assert (a + b)[1..] == a[1..] + b;
      KeptEntriesAppend(a[1..], b);
    }
  }

  /**
   * Reading the converted history back as entries gives exactly the user
   * and assistant entries of the stored messages, in order and with their
   * content: nothing is reordered, altered or invented.
   */
  lemma {:induction false} ConvertedIsKeptEntries(messages: seq<ChatEntry>)
    ensures Entries(Converted(messages)) == KeptEntries(messages)
    decreases |messages|
  {
    if |messages| > 0 {
      var n := |messages| - 1;
      ConvertedIsKeptEntries(messages[..n]);
      assert messages == messages[..n] + [messages[n]];
      KeptEntriesAppend(messages[..n], [messages[n]]);
      assert KeptEntries([messages[n]]) == if Kept(messages[n]) then [messages[n]] else [];
    }
  }

  /** `chat_based_on_context` up to the call of `model.stream`. */
  method ChatHistory(userInput: Value, messages: seq<ChatEntry>) returns (history: seq<LlmMessage>)
    ensures |history| >= 1 && history[|history| - 1] == Human(userInput)
    ensures Entries(history[..|history| - 1]) == KeptEntries(messages)
    ensures |history| == |KeptEntries(messages)| + 1
  {
    history := [];
    var i := 0;
    while i < |messages|
      invariant 0 <= i <= |messages|
      invariant history == Converted(messages[..i])
    {
      var msg := messages[i];
      assert messages[..i + 1][..i] == messages[..i];
      if msg.role == UserRole {
        history := history + [Human(msg.content)];
      } else if msg.role == AssistantRole {
        history := history + [AI(msg.content)];
      }
      i := i + 1;
    }
    assert messages[..i] == messages;
    ConvertedIsKeptEntries(messages);
    history := history + [Human(userInput)];
    assert history[..|history| - 1] == Converted(messages);
  }
}
