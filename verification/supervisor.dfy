/** The pure helpers of the supervisor agent: the message window kept for the
    agent, the routing decision after an agent step, the agent node itself
    (with the agent as a parameter), and the filter applied to the graph's
    output stream. */
module Supervisor {
  import opened Wrappers

  /** The graph's end marker, used both as a route and as a chunk key. */
  const End: string := "__end__"
  const ActionRoute: string := "action"

  /** How many trailing messages the agent gets to see. */
  const HistoryWindow: nat := 10

  datatype ToolCall = ToolCall(id: string, name: string, args: string)

  /** The kind of a chat message. Only an AI message has a tool_calls
      attribute. */
  datatype Role = Human | Ai(toolCalls: seq<ToolCall>) | ToolResult | System

  /** A chat message; only the fields the helpers read or write. */
  datatype ChatMessage = ChatMessage(role: Role, content: string, name: Option<string>)

  /** A graph state: its messages and whatever other channels it carries. */
  datatype GraphState = GraphState(messages: seq<ChatMessage>, channels: map<string, string>)

  function Min(a: int, b: int): int {
    if a <= b then a else b
  }

  /** Python's s[start:], where a negative start counts from the end and an
      out-of-range start is clamped. */
  function SliceFrom<T>(s: seq<T>, start: int): (r: seq<T>)
    ensures start >= 0 ==> |r| == |s| - Min(start, |s|)
    ensures start < 0 ==> |r| == Min(-start, |s|)
    ensures r == s[|s| - |r|..]
  {
    var i := if start < 0 then (if |s| + start < 0 then 0 else |s| + start)
             else (if start > |s| then |s| else start);
    s[i..]
  }

  /** filter_messages: the last ten messages, or all of them when there are
      fewer. */
  function FilterMessages<T>(messages: seq<T>): (r: seq<T>)
    ensures |r| == Min(|messages|, HistoryWindow)
    ensures r == messages[|messages| - |r|..]
  {
    SliceFrom(messages, -(HistoryWindow as int))
  }

  /** Short histories pass through unchanged, and filtering twice is
      filtering once. */
  lemma FilterShortAndIdempotent<T>(messages: seq<T>)
    ensures |messages| <= HistoryWindow ==> FilterMessages(messages) == messages
    ensures FilterMessages(FilterMessages(messages)) == FilterMessages(messages)
  {
    var r := FilterMessages(messages);
    assert FilterMessages(r) == r[|r| - |r|..];
    assert r[0..] == r;
  }

  /** The window depends only on the last ten messages: histories that end
      alike are filtered alike. */
  lemma FilterOnlySeesWindow<T>(older1: seq<T>, older2: seq<T>, recent: seq<T>)
    requires |recent| == HistoryWindow
    ensures FilterMessages(older1 + recent) == recent
    ensures FilterMessages(older2 + recent) == recent
  {
    assert (older1 + recent)[|older1|..] == recent;
    assert (older2 + recent)[|older2|..] == recent;
  }

  /** should_continue: route to the tool action when the last message asks for
      tool calls, else end. Reading the last message of an empty history
      raises IndexError, and reading tool_calls of a message that is not an
      AI message raises AttributeError. */
  function ShouldContinue(messages: seq<ChatMessage>): (r: Result<string, Error>)
    ensures r == Failure(EmptyHistory) <==> |messages| == 0
    ensures r == Failure(NoToolCalls) <==> |messages| > 0 && !messages[|messages| - 1].role.Ai?
    ensures r == Success(ActionRoute) <==>
      |messages| > 0 && messages[|messages| - 1].role.Ai? && |messages[|messages| - 1].role.toolCalls| > 0
    ensures r == Success(End) <==>
      |messages| > 0 && messages[|messages| - 1].role.Ai? && |messages[|messages| - 1].role.toolCalls| == 0
  {
    if |messages| == 0 then Failure(EmptyHistory)
    else
      var last := messages[|messages| - 1];
      if !last.role.Ai? then Failure(NoToolCalls)
      else if |last.role.toolCalls| > 0 then Success(ActionRoute)
      else Success(End)
  }

  /** Only the last message matters for routing. */
  lemma RouteByLastMessage(earlier1: seq<ChatMessage>, earlier2: seq<ChatMessage>, last: ChatMessage)
    ensures ShouldContinue(earlier1 + [last]) == ShouldContinue(earlier2 + [last])
  {
  }

  /** The state an agent node hands to its agent: the same state with its
      messages cut down to the window. */
  function FilteredState(state: GraphState): (s: GraphState)
    ensures s.channels == state.channels
    ensures |s.messages| == Min(|state.messages|, HistoryWindow)
    ensures s.messages == state.messages[|state.messages| - |s.messages|..]
  {
    state.(messages := FilterMessages(state.messages))
  }

  /** What an agent node leaves behind: the caller's state, whose messages it
      overwrites, and the update it returns to the graph. */
  datatype NodeStep = NodeStep(state: GraphState, update: seq<ChatMessage>)

  /** agent_node: replaces the state's messages by their window, runs the
      agent on that same state and returns, as the node's update, one human
      message carrying the agent's output and the node's name. The agent is
      any function from state to output text. */
  function AgentNode(state: GraphState, agent: GraphState -> string, name: string): (r: NodeStep)
    ensures r.state.channels == state.channels
    ensures |r.state.messages| == Min(|state.messages|, HistoryWindow)
    ensures r.state.messages == state.messages[|state.messages| - |r.state.messages|..]
    ensures r.update == [ChatMessage(Human, agent(r.state), Some(name))]
  {
    var filtered := FilteredState(state);
    NodeStep(filtered, [ChatMessage(Human, agent(filtered), Some(name))])
  }

  /** What an agent node leaves and returns depends only on the other
      channels and the last ten messages, never on older history. */
  lemma AgentNodeOnlySeesWindow(older1: seq<ChatMessage>, older2: seq<ChatMessage>, recent: seq<ChatMessage>,
                                channels: map<string, string>, agent: GraphState -> string, name: string)
    requires |recent| == HistoryWindow
    ensures AgentNode(GraphState(older1 + recent, channels), agent, name)
         == AgentNode(GraphState(older2 + recent, channels), agent, name)
  {
    FilterOnlySeesWindow(older1, older2, recent);
  }

  /** The chunk filter of astream: the upstream chunks in order, without those
      that carry the end marker. */
  function StreamChunks<V>(chunks: seq<map<string, V>>): (out: seq<map<string, V>>)
    ensures |out| <= |chunks|
    ensures |out| == |chunks| ==> out == chunks
  {
    if |chunks| == 0 then []
    else if End in chunks[0] then StreamChunks(chunks[1..])
    else [chunks[0]] + StreamChunks(chunks[1..])
  }

  /** A chunk is yielded exactly when it came from upstream without the end
      marker. */
  lemma {:induction false} StreamChunksMembers<V>(chunks: seq<map<string, V>>, c: map<string, V>)
    ensures c in StreamChunks(chunks) <==> c in chunks && End !in c
    decreases |chunks|
  {
    if |chunks| > 0 {
      StreamChunksMembers(chunks[1..], c);
      assert chunks == [chunks[0]] + chunks[1..];
    }
  }

  /** Filtering is incremental: the chunks yielded for a stream are those
      yielded for its first part followed by those yielded for the rest. */
  lemma {:induction false} StreamChunksAppend<V>(a: seq<map<string, V>>, b: seq<map<string, V>>)
    ensures StreamChunks(a + b) == StreamChunks(a) + StreamChunks(b)
    decreases |a|
  {
    if |a| == 0 {
      assert a + b == b;
    } else {
      assert (a + b)[0] == a[0];
      assert (a + b)[1..] == a[1..] + b;
      StreamChunksAppend(a[1..], b);
    }
  }

  /** A stream with no end marker is passed through unchanged, and one that
      is only end markers yields nothing. */
  lemma {:induction false} StreamChunksExtremes<V>(chunks: seq<map<string, V>>)
    ensures (forall i :: 0 <= i < |chunks| ==> End !in chunks[i]) ==> StreamChunks(chunks) == chunks
    ensures (forall i :: 0 <= i < |chunks| ==> End in chunks[i]) ==> StreamChunks(chunks) == []
    decreases |chunks|
  {
    if |chunks| > 0 {
      StreamChunksExtremes(chunks[1..]);
      assert forall i :: 1 <= i < |chunks| ==> chunks[i] == chunks[1..][i - 1];
      assert chunks == [chunks[0]] + chunks[1..];
    }
  }
}
