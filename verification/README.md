# Kyma companion: checkpoint store, history log and agent helpers in Dafny

This project models the parts of the Kyma companion service that can be
stated exactly:

- **Hybrid serializer** (`JsonAndBinarySerializer`). Byte payloads are
  written as lowercase hex text and read back with `is_binary=True`. Every
  other value goes through a structured (JSON) encoder. The hex half is
  modelled in full (`Hex`). The JSON half is a parameter (`Structured.JsonCodec`):
  an encoder and a parser that are assumed only to round-trip (`Structured.Lawful`).
  The values themselves are in `Serializer`.
- **Checkpoint saver** (`RedisSaver.aput` / `aget_tuple`). The remote store is
  an immutable map from key `checkpoint:<thread id>:<checkpoint id>` to a
  record holding the encoded checkpoint, the encoded metadata and `parent_ts`.
  `parent_ts` is `""` for a root (`CheckpointStore`). The test scenarios are
  restated in `CheckpointExamples`.
- **Conversation history log** (`add_conversation_message` /
  `get_all_conversation_messages`). It is a map from `history:<id>` to the
  list of encoded messages, in append order (`ConversationHistory`).
- **Supervisor helpers** (`src/agents/supervisor/agent.py`), in `Supervisor`:
  - `filter_messages`
  - `should_continue`
  - `agent_node`, with the agent as a function parameter
  - the chunk filter of `SupervisorAgent.astream`
- **Initial-questions context dispatch**
  (`InitialQuestionsHandler.fetch_relevant_data_from_k8s_cluster`), in
  `InitialQuestions`. It is an ordered three-way choice with a fallthrough error.
  The Kubernetes client call, together with the YAML dump of its answer, is
  one uninterpreted function from a query (`K8sQuery`) to text.

`agents/memory/redis_checkpointer.py` is not part of this model. The saver's
behaviour is modelled on the assertions of
`tests/unit/agents/memory/test_redis_checkpointer.py`, and where those leave
a choice open the model makes one:

- **Latest checkpoint.** Without a thread_ts, a lookup reads the thread's id
  that is greatest in Python's string order (`LexOrder.Greatest`). This rule
  is inferred: it is one rule that fits the third `test_aget` case
  (test lines 213-219), which puts chk-1, chk-2 and chk-3 in that order,
  each naming chk-2 as parent, and expects chk-3. Two other rules fit that
  case as well: the checkpoint with the greatest `ts` field (each test
  checkpoint is stamped with the current time when built) and the
  checkpoint written last. The model takes the id order because a scan of
  the thread's keys gives ids but no write order, and it leaves `ts`
  uninterpreted. A rule picking the unique id that no record names as its
  parent finds two such ids on this data, chk-1 and chk-3
  (`CheckpointExamples.UnreferencedNotUnique`), so it does not fit.
- **Message window.** The doc comment of `filter_messages` says four
  messages. The code keeps ten (`Supervisor.HistoryWindow`), and the model
  follows the code.

`LexOrder` supplies the string order. Dafny's `<` on sequences is the
proper-prefix relation, so the order is defined here. `Ascii` supplies ASCII
lowercasing. `Wrappers` holds `Option`, `Result` and the error values.

## Model

| member | source | states |
|---|---|---|
| `Hex.Encode` | tests/unit/agents/memory/test_redis_checkpointer.py:116-117 | bytes become text of exactly two characters per byte, all lowercase hex digits |
| `Hex.EncodeAt` | tests/unit/agents/memory/test_redis_checkpointer.py:116-117 | byte i is written at characters 2i and 2i+1, high nibble first |
| `Hex.Decode` | tests/unit/agents/memory/test_redis_checkpointer.py:136-137 | a decoded text has twice as many characters as bytes; odd-length text is malformed hex |
| `Hex.DecodeEncode` | tests/unit/agents/memory/test_redis_checkpointer.py:116-137 | decoding the hex encoding of any byte sequence gives the bytes back |
| `Hex.EncodeDecode` | tests/unit/agents/memory/test_redis_checkpointer.py:136-137 | any text the hex decoder accepts is the lowercased form of what the encoder writes for the decoded bytes |
| `Hex.EncodeDecodeLower` | tests/unit/agents/memory/test_redis_checkpointer.py:136-137 | even-length lowercase hex text decodes, and re-encoding gives exactly that text |
| `Serializer.Dumps` | tests/unit/agents/memory/test_redis_checkpointer.py:115-130 | dumping fails exactly for values with no representation; byte payloads give lowercase hex of twice their length |
| `Serializer.Loads` | tests/unit/agents/memory/test_redis_checkpointer.py:135-150 | the binary flag chooses byte or structured results; structured loading fails exactly on text the parser rejects; odd-length binary text fails |
| `Serializer.RoundTrip` | tests/unit/agents/memory/test_redis_checkpointer.py:115-138 | every bytes or JSON value dumps, and loads back as itself under the matching binary flag |
| `Serializer.BinaryTextRoundTrip` | tests/unit/agents/memory/test_redis_checkpointer.py:136-137 | lowercase hex text loaded as bytes dumps back to the same text |
| `Serializer.HexDumpExample` | tests/unit/agents/memory/test_redis_checkpointer.py:116 | the bytes of "hello" dump to "68656c6c6f" |
| `Serializer.HexEncodeWorld` | tests/unit/agents/memory/test_redis_checkpointer.py:117 | the bytes of "world" encode to "776f726c64" |
| `Serializer.HexLoadExample` | tests/unit/agents/memory/test_redis_checkpointer.py:137 | "776f726c64" loads as the bytes of "world" |
| `Serializer.StructuredExamples` | tests/unit/agents/memory/test_redis_checkpointer.py:115-147 | {"key": "value"} and [1, 2, 3] round-trip; unparsable text fails to load; a foreign object fails to dump |
| `LexOrder.Transitive` | tests/unit/agents/memory/test_redis_checkpointer.py:213-219 | the string order used to pick the latest checkpoint is transitive |
| `LexOrder.Total` | tests/unit/agents/memory/test_redis_checkpointer.py:213-219 | any two distinct ids are ordered one way or the other |
| `LexOrder.GreatestExists` | tests/unit/agents/memory/test_redis_checkpointer.py:213-219 | every non-empty set of ids has a greatest element |
| `LexOrder.GreatestUnique` | tests/unit/agents/memory/test_redis_checkpointer.py:213-219 | the greatest id is unique, so the latest checkpoint is well defined |
| `LexOrder.Greatest` | tests/unit/agents/memory/test_redis_checkpointer.py:213-219 | names the greatest id of a non-empty set |
| `LexOrder.Max` | tests/unit/agents/memory/test_redis_checkpointer.py:213-219 | one pass over the scanned ids returns the greatest one |
| `CheckpointStore.Key` | tests/unit/agents/memory/test_redis_checkpointer.py:189 | a key is twelve characters ("checkpoint:" and ":") longer than the thread id and checkpoint id together |
| `CheckpointStore.KeyParts` | tests/unit/agents/memory/test_redis_checkpointer.py:189 | the key is "checkpoint:", the thread id, ":" and the checkpoint id, in that order |
| `CheckpointStore.KeyInjective` | tests/unit/agents/memory/test_redis_checkpointer.py:189 | within one thread, two checkpoint ids share a key exactly when they are equal |
| `CheckpointStore.ParentTs` | tests/unit/agents/memory/test_redis_checkpointer.py:169-194 | the stored parent is the config's thread_ts, and "" exactly when the config names no checkpoint |
| `CheckpointStore.CheckpointId` | tests/unit/agents/memory/test_redis_checkpointer.py:189 | the key's last part is the checkpoint's "id" field; there is none when the field is missing |
| `CheckpointStore.Put` | tests/unit/agents/memory/test_redis_checkpointer.py:183-194 | a put fails only for a checkpoint without an id; it writes exactly the key checkpoint:thread:id with the config's parent, and every other record stays as it was |
| `CheckpointStore.ThreadIds` | tests/unit/agents/memory/test_redis_checkpointer.py:213-219 | an id belongs to the thread exactly when its key is stored |
| `CheckpointStore.ParentConfig` | tests/unit/agents/memory/test_redis_checkpointer.py:234-236 | a parent config exists exactly when the stored parent is non-empty, and then names the thread and that parent |
| `CheckpointStore.Read` | tests/unit/agents/memory/test_redis_checkpointer.py:230-236 | a missing record reads as nothing; a stored record reads with its parent config; reading fails exactly when a payload is unparsable |
| `CheckpointStore.GetTuple` | tests/unit/agents/memory/test_redis_checkpointer.py:222-236 | with thread_ts it reads that checkpoint; without it, an empty thread gives nothing, and otherwise it reads the thread's greatest id, a rule inferred from the third aget case |
| `CheckpointStore.PutThenRead` | tests/unit/agents/memory/test_redis_checkpointer.py:183-236 | after a put, reading its id gives the same checkpoint and metadata; the parent config is the put config when that config named a checkpoint, and none otherwise |
| `CheckpointStore.PutKeepsOthers` | tests/unit/agents/memory/test_redis_checkpointer.py:183-194 | a put leaves every other checkpoint's lookup as it was |
| `CheckpointStore.PutIdempotent` | tests/unit/agents/memory/test_redis_checkpointer.py:183-194 | putting the same checkpoint twice equals putting it once |
| `CheckpointStore.PutThreadIds` | tests/unit/agents/memory/test_redis_checkpointer.py:225-228 | a put adds exactly its id to the thread's ids |
| `CheckpointStore.PutGreatestIsLatest` | tests/unit/agents/memory/test_redis_checkpointer.py:213-219 | a put whose id sorts at or after every stored id of the thread becomes the latest checkpoint |
| `CheckpointExamples.AputCases` | tests/unit/agents/memory/test_redis_checkpointer.py:168-194 | the two aput cases store parent "" and "chk-1" under checkpoint:thread-1:chk-1 and checkpoint:thread-1:chk-2 |
| `CheckpointExamples.ThreePutsContents` | tests/unit/agents/memory/test_redis_checkpointer.py:213-228 | after the three puts the thread holds chk-1, chk-2 and chk-3, each with parent chk-2 |
| `CheckpointExamples.LatestOfThreePuts` | tests/unit/agents/memory/test_redis_checkpointer.py:213-232 | the lookup without thread_ts resolves to chk-3 |
| `CheckpointExamples.ReadLatestOfThreePuts` | tests/unit/agents/memory/test_redis_checkpointer.py:213-236 | chk-3 reads back with its checkpoint, its metadata and the put config as parent config |
| `CheckpointExamples.UnreferencedNotUnique` | tests/unit/agents/memory/test_redis_checkpointer.py:213-219 | on that data both chk-1 and chk-3 are never named as a parent |
| `CheckpointExamples.KeyCollision` | tests/unit/agents/memory/test_redis_checkpointer.py:189 | thread "a:b" with id "c" and thread "a" with id "b:c" share a key |
| `ConversationHistory.AddMessage` | tests/unit/agents/memory/test_redis_checkpointer.py:241-295 | the id "" is refused with an error and every other id is accepted; otherwise the encoded message is appended at the end of history:id and every other key is unchanged |
| `ConversationHistory.DecodeAll` | tests/unit/agents/memory/test_redis_checkpointer.py:338-343 | decoding keeps the number of entries and reports an unparsable entry as an error |
| `ConversationHistory.DecodeAllPointwise` | tests/unit/agents/memory/test_redis_checkpointer.py:290-295 | decoding succeeds exactly when every entry parses, and message i is what entry i parses to |
| `ConversationHistory.AllMessages` | tests/unit/agents/memory/test_redis_checkpointer.py:338-343 | an unknown conversation reads as no messages; otherwise one message per stored entry |
| `ConversationHistory.AddThenRead` | tests/unit/agents/memory/test_redis_checkpointer.py:283-295 | for a message the codec reads back from its encoding, an append extends what is read back by exactly that message, at the end |
| `ConversationHistory.AddKeepsOthers` | tests/unit/agents/memory/test_redis_checkpointer.py:278-288 | appending to one conversation leaves every other conversation's messages unchanged |
| `ConversationHistory.AddAll` | tests/unit/agents/memory/test_redis_checkpointer.py:334-335 | appending a list fails exactly when the id is "" and the list is non-empty |
| `ConversationHistory.AddAllEntries` | tests/unit/agents/memory/test_redis_checkpointer.py:334-335 | appending n messages stores their n encodings after the existing entries, in order, and leaves every other key unchanged |
| `ConversationHistory.AddAllThenRead` | tests/unit/agents/memory/test_redis_checkpointer.py:334-343 | appending n messages, each of which the codec reads back, adds exactly those n messages, in order, to what is read back |
| `ConversationHistory.FreshConversation` | tests/unit/agents/memory/test_redis_checkpointer.py:240-343 | for messages the codec reads back, a fresh id reads as empty and then as exactly the messages appended; one append leaves exactly one entry; the empty id is refused |
| `Supervisor.SliceFrom` | src/agents/supervisor/agent.py:55 | Python's s[start:] is the suffix whose length is given by the clamped start |
| `Supervisor.FilterMessages` | src/agents/supervisor/agent.py:53-55 | the result is the suffix of the input of length min(n, 10) |
| `Supervisor.FilterShortAndIdempotent` | src/agents/supervisor/agent.py:55 | inputs of at most ten messages are unchanged, and filtering is idempotent |
| `Supervisor.FilterOnlySeesWindow` | src/agents/supervisor/agent.py:53-55 | histories that end in the same ten messages filter to those ten |
| `Supervisor.ShouldContinue` | src/agents/supervisor/agent.py:47-50 | an empty history fails as IndexError and a last message that is not an AI message fails as AttributeError; otherwise the route is "action" exactly when the AI message has tool calls, else "__end__" |
| `Supervisor.RouteByLastMessage` | src/agents/supervisor/agent.py:49-50 | only the last message decides the route |
| `Supervisor.FilteredState` | src/agents/supervisor/agent.py:62 | the state handed to the agent keeps its other channels and holds the last min(n, 10) messages |
| `Supervisor.AgentNode` | src/agents/supervisor/agent.py:58-65 | the caller's state is left with its other channels and only its last min(n, 10) messages; the update is one human message named after the node whose content is the agent's output on exactly that state |
| `Supervisor.AgentNodeOnlySeesWindow` | src/agents/supervisor/agent.py:58-65 | neither the state the node leaves nor its update depends on messages older than the last ten |
| `Supervisor.StreamChunks` | src/agents/supervisor/agent.py:137-138 | the filter never yields more chunks than arrive, and when it drops none it yields the stream unchanged |
| `Supervisor.StreamChunksMembers` | src/agents/supervisor/agent.py:130-138 | a chunk is yielded exactly when it came from upstream without the "__end__" key |
| `Supervisor.StreamChunksAppend` | src/agents/supervisor/agent.py:130-138 | the filter works chunk by chunk in order: filtering a concatenation is concatenating the filtered parts |
| `Supervisor.StreamChunksExtremes` | src/agents/supervisor/agent.py:137-138 | a stream without end markers passes unchanged, and one of end markers only yields nothing |
| `Ascii.Lower` | src/initial_questions/inital_questions.py:69 | kind.lower() keeps the length of the text (character i maps as in `Ascii.LowerAt`) |
| `Ascii.LowerEqualsIffIgnoringCase` | src/initial_questions/inital_questions.py:69 | comparing kind.lower() with a lowercase word is a case-insensitive comparison |
| `InitialQuestions.OrEmpty` | src/initial_questions/inital_questions.py:61-64 | a missing field reads as "", a present one as itself |
| `InitialQuestions.SelectBranch` | src/initial_questions/inital_questions.py:69-117 | cluster, then namespace, then resource guard; each branch is chosen exactly when its guard holds and no earlier one does, and it carries the message's fields |
| `InitialQuestions.FetchContext` | src/initial_questions/inital_questions.py:54-119 | it fails with "Invalid message provided." exactly when no guard holds; otherwise the context is the newline-join of the client's answers to the branch's queries, in order |
| `InitialQuestions.ContextPerBranch` | src/initial_questions/inital_questions.py:69-114 | cluster: pods, metrics and events with the same namespace; namespace: its warning events; resource: description and events with the same kind, name and namespace |
| `InitialQuestions.GuardOrder` | src/initial_questions/inital_questions.py:69-92 | a cluster or namespace kind, in any letter case, wins over the resource branch even when an API version is set |
| `InitialQuestions.NoKindIsInvalid` | src/initial_questions/inital_questions.py:116-117 | a message with no fields is refused with InvalidMessage |

## Left out

- Connection handling (`initialize_async_pool`, `get_async_connection`, connection errors): pooling and network I/O wrappers over the Redis client.
- Async execution and concurrent writers: every operation is a sequential state transition on an immutable map.
- The JSON serializers and the YAML dumper are foreign libraries. They are parameters: a codec assumed to round-trip, and one text function per Kubernetes query.
- The Langfuse callback handler created at import, graph construction (`_build_graph`, `_plan`, `_route`), LLM calls (`generate_questions`, agent creation) and the placeholder `search` tool.
- `astream`'s construction of the graph input (one human message with the input text) and of its config (thread id = conversation id): glue with no logic beyond building two literals.
- Logging calls.
- `utils/utils.py` (`is_empty_str`, `is_non_empty_str`) is not part of this model. The two checks are function parameters (`InitialQuestions.StringChecks`).
- Ascii.Lower: maps only ASCII letters, whereas Python's `str.lower()` maps all of Unicode.
- Hex.Decode: accepts exactly even-length text of hex digits in either case. Whether the saver's decoder also skips whitespace, as `bytes.fromhex` does, is not modelled.
- CheckpointStore.CheckpointId: treats a missing or non-string `id` as an error. Python would format a non-string id into the key with `str()`.
- CheckpointStore.GetTuple: the thread's ids are the key text after the `checkpoint:<thread id>:` prefix. Redis glob metacharacters in a thread id are not modelled, and neither is an implementation that splits keys on their last `:`. The returned tuple carries no `config` field, because the tests never inspect it.
- `aput`'s return value and its `new_versions` argument are not modelled, because the tests never inspect them.
- ConversationHistory.AddMessage: treats only `""` as an empty conversation id; the tests refuse `""` and accept a uuid, and say nothing about other blank ids. Appends go at the tail of the list (`rpush`): the tests compare the one stored message and the count after several appends, so the order across several appends is the model's choice.
- CheckpointStore.Put: accepts any thread id, the empty one included, since no test constrains it.
- CheckpointStore.Read: reports an unparsable payload with the serializer's own parse error (`MalformedStructured`); no separate corrupt-record error is modelled.
- The checkpoint store and the history log are two separate maps, although Redis keeps them in one keyspace. Their key prefixes `checkpoint:` and `history:` never overlap.
- Structured.Json: numbers are integers only; a float such as a metadata score of 0.5 has no structured form here. A real-valued number would give the JSON values more members than there are strings, and then no codec could satisfy `Structured.Lawful`, as with the message timestamps below.
- Serializer.Dumps: the structured encoder's output is UTF-8 bytes in the source (`b'{"key": "value"}'`), while hex output is a string; the model returns text for both and does not model the UTF-8 encoding step.
- Message timestamps are Dafny `real` values. Floating point is not modelled. Because there are more reals than strings, no message codec reads back every message, so the read-back lemmas assume the round trip for each message they append (`ConversationHistory.RoundTrips`).
