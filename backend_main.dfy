/** The chat endpoint of the Python backend (backend/main.py): the conversation handed to the
    agent, the reply streamed back in ten-character chunks, and the history handed to the
    memory extraction afterwards; and the pending-task count of the assessment request. The
    memory context and the agent's reply are parameters. A request the endpoint cannot read
    (no messages, or a message without parts) fails with status 500, modelled as `None`. */
module BackendMain {
  import opened Wrappers

  /** A request message: its role and the texts of its parts. */
  datatype ApiMessage = ApiMessage(role: string, parts: seq<string>)

  /** The LangChain messages the agent reads. */
  datatype LcMessage = SystemMessage(content: string) | HumanMessage(content: string) | AiMessage(content: string)

  /** The size of a streamed chunk. */
  const ChunkSize: nat := 10

  /** The system message carrying the memory context. */
  function MemoryPreamble(memoryContext: string): string
  {
    "Context from Memory:\n" + memoryContext
  }

  /** A prior message as LangChain reads it: 'user' is the human, every other role the AI. */
  function ToLangChain(m: ApiMessage): LcMessage
    requires |m.parts| > 0
  {
    if m.role == "user" then HumanMessage(m.parts[0]) else AiMessage(m.parts[0])
  }

  /** Whether every message has a first part to read. */
  predicate Readable(messages: seq<ApiMessage>)
  {
    forall i :: 0 <= i < |messages| ==> |messages[i].parts| > 0
  }

  /** `request.messages[-1].parts[0]['text']`: the current user text. */
  function UserText(messages: seq<ApiMessage>): (r: Option<string>)
    ensures r.Some? <==> |messages| > 0 && |messages[|messages| - 1].parts| > 0
    ensures r.Some? ==> r.value == messages[|messages| - 1].parts[0]
  {
    if |messages| > 0 && |messages[|messages| - 1].parts| > 0 then Some(messages[|messages| - 1].parts[0]) else None
  }

  /** The agent's input: the memory system message, each prior message converted in order,
      and the current user text as the last human message; `None` for a request that cannot
      be read. */
  method AgentHistory(memoryContext: string, messages: seq<ApiMessage>) returns (r: Option<seq<LcMessage>>)
    ensures r.Some? <==> |messages| > 0 && Readable(messages)
    ensures r.Some? ==>
              var prior := messages[..|messages| - 1];
              && |r.value| == |messages| + 1
              && r.value[0] == SystemMessage(MemoryPreamble(memoryContext))
              && (forall i :: 0 <= i < |prior| ==> r.value[i + 1] == ToLangChain(prior[i]))
              && r.value[|messages|] == HumanMessage(messages[|messages| - 1].parts[0])
  {
    var userText := UserText(messages);
    if userText.None? {
      return None;
    }
    var prior := messages[..|messages| - 1];
    var history: seq<LcMessage> := [];
    for i := 0 to |prior|
      invariant |history| == i
      invariant forall j :: 0 <= j < i ==> |prior[j].parts| > 0 && history[j] == ToLangChain(prior[j])
    {
      if |prior[i].parts| == 0 {
        assert !Readable(messages) by {
          assert messages[i] == prior[i];
        }
        return None;
      }
      history := history + [ToLangChain(prior[i])];
    }
    assert Readable(messages) by {
      forall k | 0 <= k < |messages|
        ensures |messages[k].parts| > 0
      {
        if k < |prior| {
          assert messages[k] == prior[k];
        }
      }
    }
    history := [SystemMessage(MemoryPreamble(memoryContext))] + history;
    history := history + [HumanMessage(userText.value)];
    return Some(history);
  }

  /** The chunks joined back together. */
  function Concat(chunks: seq<string>): string
  {
    if chunks == [] then "" else Concat(chunks[..|chunks| - 1]) + chunks[|chunks| - 1]
  }

  /** `stream_generator`'s slices: from every tenth index, the next ten characters or the
      rest. Joined they give the reply back exactly; none is empty, none is longer than ten,
      and all but the last are exactly ten long. */
  method Chunks(text: string) returns (chunks: seq<string>)
    ensures Concat(chunks) == text
    ensures |chunks| == (|text| + ChunkSize - 1) / ChunkSize
    ensures forall k :: 0 <= k < |chunks| ==> 0 < |chunks[k]| <= ChunkSize
    ensures forall k :: 0 <= k < |chunks| - 1 ==> |chunks[k]| == ChunkSize
  {
    chunks := [];
    var i := 0;
    while i < |text|
      invariant i <= |text| && i == ChunkSize * |chunks|
      invariant Concat(chunks) == text[..i]
      invariant forall k :: 0 <= k < |chunks| ==> |chunks[k]| == ChunkSize
      decreases |text| - i
    {
      var end := if i + ChunkSize <= |text| then i + ChunkSize else |text|;
      var piece := text[i..end];
      assert Concat(chunks + [piece]) == Concat(chunks) + piece by {
        assert (chunks + [piece])[..|chunks|] == chunks;
      }
      assert text[..i] + piece == text[..end];
      if end < i + ChunkSize {
        chunks := chunks + [piece];
        i := end;
        assert i == |text|;
        assert text[..i] == text;
        return;
      }
      chunks := chunks + [piece];
      i := end;
    }
    assert text[..i] == text;
  }

  /** `bg_history`: each prior message reduced to its role and first text, then the user's
      text and the model's reply. */
  method BackgroundHistory(messages: seq<ApiMessage>, userText: string, reply: string) returns (r: seq<ApiMessage>)
    requires Readable(messages)
    ensures |r| == |messages| + 2
    ensures forall i :: 0 <= i < |messages| ==> r[i] == ApiMessage(messages[i].role, [messages[i].parts[0]])
    ensures r[|messages|] == ApiMessage("user", [userText])
    ensures r[|messages| + 1] == ApiMessage("model", [reply])
  {
    r := [];
    for i := 0 to |messages|
      invariant |r| == i
      invariant forall j :: 0 <= j < i ==> r[j] == ApiMessage(messages[j].role, [messages[j].parts[0]])
    {
      r := r + [ApiMessage(messages[i].role, [messages[i].parts[0]])];
    }
    r := r + [ApiMessage("user", [userText])] + [ApiMessage("model", [reply])];
  }

  /** What one call of the endpoint hands on: the agent's input, the streamed chunks, and
      the history given to the memory extraction. */
  datatype ChatRun = ChatRun(agentInput: seq<LcMessage>, streamed: seq<string>, background: seq<ApiMessage>)

  /** `chat_endpoint`, with the memory context and the agent's reply as parameters. */
  method ChatEndpoint(memoryContext: string, messages: seq<ApiMessage>, agentReply: string) returns (r: Option<ChatRun>)
    ensures r.Some? <==> |messages| > 0 && Readable(messages)
    ensures r.Some? ==> Concat(r.value.streamed) == agentReply
    ensures r.Some? ==>
              && |r.value.agentInput| == |messages| + 1
              && r.value.agentInput[0] == SystemMessage(MemoryPreamble(memoryContext))
              && (forall i :: 0 <= i < |messages| - 1 ==> r.value.agentInput[i + 1] == ToLangChain(messages[i]))
              && r.value.agentInput[|messages|] == HumanMessage(messages[|messages| - 1].parts[0])
    ensures r.Some? ==>
              && |r.value.background| == |messages| + 1
              && (forall i :: 0 <= i < |messages| - 1 ==>
                    r.value.background[i] == ApiMessage(messages[i].role, [messages[i].parts[0]]))
              && r.value.background[|messages| - 1] == ApiMessage("user", [messages[|messages| - 1].parts[0]])
              && r.value.background[|messages|] == ApiMessage("model", [agentReply])
  {
    var history := AgentHistory(memoryContext, messages);
    if history.None? {
      return None;
    }
    var userText := messages[|messages| - 1].parts[0];
    var streamed := Chunks(agentReply);
    var prior := messages[..|messages| - 1];
    assert Readable(prior) by {
      forall k | 0 <= k < |prior|
        ensures |prior[k].parts| > 0
      {
        assert prior[k] == messages[k];
      }
    }
    var background := BackgroundHistory(prior, userText, agentReply);
    return Some(ChatRun(history.value, streamed, background));
  }

  /** The background history holds the same conversation the agent read: converting its
      messages before the reply, with the memory system message in front, gives the agent's
      input again. */
  lemma BackgroundReplaysAgentInput(memoryContext: string, messages: seq<ApiMessage>, agentInput: seq<LcMessage>,
                                    background: seq<ApiMessage>)
    requires |messages| > 0 && Readable(messages)
    requires |agentInput| == |messages| + 1
    requires agentInput[0] == SystemMessage(MemoryPreamble(memoryContext))
    requires forall i :: 0 <= i < |messages| - 1 ==> agentInput[i + 1] == ToLangChain(messages[i])
    requires agentInput[|messages|] == HumanMessage(messages[|messages| - 1].parts[0])
    requires |background| == |messages| + 1
    requires forall i :: 0 <= i < |messages| - 1 ==>
               background[i] == ApiMessage(messages[i].role, [messages[i].parts[0]])
    requires background[|messages| - 1] == ApiMessage("user", [messages[|messages| - 1].parts[0]])
    ensures forall i :: 0 <= i < |messages| ==> agentInput[i + 1] == ToLangChain(background[i])
  {
    forall i | 0 <= i < |messages|
      ensures agentInput[i + 1] == ToLangChain(background[i])
    {
    }
  }

  /** A task of the assessment request, by its 'completed' key: missing, or its value. */
  datatype TaskEntry = TaskEntry(completed: Option<bool>)

  predicate Pending(t: TaskEntry)
  {
    t.completed.None? || !t.completed.value
  }

  /** `len([t for t in request.tasks if not t.get('completed', False)])`. */
  function PendingCount(tasks: seq<TaskEntry>): (r: nat)
    ensures r <= |tasks|
    ensures r == 0 <==> forall i :: 0 <= i < |tasks| ==> !Pending(tasks[i])
    ensures r == |tasks| <==> forall i :: 0 <= i < |tasks| ==> Pending(tasks[i])
  {
    if tasks == [] then 0
    else
      var rest := PendingCount(tasks[1..]);
      assert forall i :: 1 <= i < |tasks| ==> tasks[i] == tasks[1..][i - 1];
      (if Pending(tasks[0]) then 1 else 0) + rest
  }

  /** Tasks marked done. */
  function DoneCount(tasks: seq<TaskEntry>): nat
  {
    if tasks == [] then 0 else (if tasks[0].completed == Some(true) then 1 else 0) + DoneCount(tasks[1..])
  }

  /** Every task is either pending or done: the two counts add up to the number of tasks. */
  lemma {:induction false} PendingAndDone(tasks: seq<TaskEntry>)
    ensures PendingCount(tasks) + DoneCount(tasks) == |tasks|
  {
    if tasks != [] {
      PendingAndDone(tasks[1..]);
    }
  }
}
