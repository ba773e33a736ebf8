/** The conversation history log kept beside the checkpoints: for each
    conversation id, a list at key "history:<id>" of encoded messages in the
    order they were appended. */
module ConversationHistory {
  import opened Wrappers

  datatype QueryType = InitialQuestions | UserQuery

  /** One conversational turn. The timestamp is seconds since the epoch. */
  datatype ConversationMessage = ConversationMessage(kind: QueryType, query: string, response: string, timestamp: real)

  /** The message serializer and parser, foreign code given as parameters. */
  datatype MessageCodec = MessageCodec(encode: ConversationMessage -> string, decode: string -> Option<ConversationMessage>)

  /** The codec reads `message` back from its own encoding. This is assumed
      message by message: no single codec can do it for all messages, since a
      real-valued timestamp has more values than there are strings. */
  predicate RoundTrips(codec: MessageCodec, message: ConversationMessage) {
    codec.decode(codec.encode(message)) == Some(message)
  }

  /** The hypothesis can be met: for any message some codec reads it back. */
  lemma RoundTripsSatisfiable(message: ConversationMessage)
    ensures exists codec :: RoundTrips(codec, message)
  {
    var codec := MessageCodec(_ => "", _ => Some(message));
    assert RoundTrips(codec, message);
  }

  /** The list-valued part of the remote store. */
  type HistoryLog = map<string, seq<string>>

  function HistoryKey(conversationId: string): string {
    "history:" + conversationId
  }

  /** The stored entries of a conversation; an absent key is an empty list. */
  function Entries(log: HistoryLog, conversationId: string): seq<string> {
    var key := HistoryKey(conversationId);
    if key in log then log[key] else []
  }

  /** add_conversation_message: rejects the empty id, otherwise appends the
      encoded message at the end of the conversation's list. */
  function AddMessage(codec: MessageCodec, log: HistoryLog, conversationId: string, message: ConversationMessage): (r: Result<HistoryLog, Error>)
    ensures r.Failure? <==> conversationId == ""
    ensures r.Failure? ==> r.error == EmptyConversationId
    ensures r.Success? ==> Entries(r.value, conversationId) == Entries(log, conversationId) + [codec.encode(message)]
    ensures r.Success? ==> forall k :: k != HistoryKey(conversationId) ==>
      (k in r.value <==> k in log) && (k in log ==> r.value[k] == log[k])
  {
    if conversationId == "" then Failure(EmptyConversationId)
    else
      var key := HistoryKey(conversationId);
      Success(log[key := Entries(log, conversationId) + [codec.encode(message)]])
  }

  /** Decodes stored entries in order; the first one that does not parse is
      an error. */
  function DecodeAll(codec: MessageCodec, entries: seq<string>): (r: Result<seq<ConversationMessage>, Error>)
    ensures r.Success? ==> |r.value| == |entries|
    ensures r.Failure? ==> r.error == MalformedStructured
  {
    if |entries| == 0 then Success([])
    else
      match codec.decode(entries[0])
      case None => Failure(MalformedStructured)
      case Some(m) =>
        match DecodeAll(codec, entries[1..])
        case Failure(e) => Failure(e)
        case Success(rest) => Success([m] + rest)
  }

  /** One step of DecodeAll on a successfully decoding list. */
  lemma DecodeAllStep(codec: MessageCodec, entries: seq<string>)
    requires |entries| > 0 && DecodeAll(codec, entries).Success?
    ensures codec.decode(entries[0]).Some?
    ensures DecodeAll(codec, entries[1..]).Success?
    ensures DecodeAll(codec, entries).value == [codec.decode(entries[0]).value] + DecodeAll(codec, entries[1..]).value
  {
  }

  /** DecodeAll on an entry followed by more entries. */
  lemma DecodeAllCons(codec: MessageCodec, e: string, rest: seq<string>)
    requires codec.decode(e).Some? && DecodeAll(codec, rest).Success?
    ensures DecodeAll(codec, [e] + rest) == Success([codec.decode(e).value] + DecodeAll(codec, rest).value)
  {
    assert ([e] + rest)[0] == e;
    assert ([e] + rest)[1..] == rest;
  }

  /** get_all_conversation_messages: every message of the conversation, in
      append order; an unknown conversation has none. */
  function AllMessages(codec: MessageCodec, log: HistoryLog, conversationId: string): (r: Result<seq<ConversationMessage>, Error>)
    ensures HistoryKey(conversationId) !in log ==> r == Success([])
    ensures r.Success? ==> |r.value| == |Entries(log, conversationId)|
  {
    DecodeAll(codec, Entries(log, conversationId))
  }

  /** DecodeAll succeeds exactly when every entry parses, and then message i
      is what entry i parses to. */
  lemma {:induction false} DecodeAllPointwise(codec: MessageCodec, entries: seq<string>)
    ensures DecodeAll(codec, entries).Success? <==>
      forall i :: 0 <= i < |entries| ==> codec.decode(entries[i]).Some?
    ensures DecodeAll(codec, entries).Success? ==>
      forall i :: 0 <= i < |entries| ==> codec.decode(entries[i]) == Some(DecodeAll(codec, entries).value[i])
    decreases |entries|
  {
    if |entries| > 0 {
      DecodeAllPointwise(codec, entries[1..]);
      assert forall i :: 1 <= i < |entries| ==> entries[i] == entries[1..][i - 1];
    }
  }

  /** Decoding a concatenation is decoding the parts. */
  lemma {:induction false} DecodeAllAppend(codec: MessageCodec, a: seq<string>, b: seq<string>)
    requires DecodeAll(codec, a).Success? && DecodeAll(codec, b).Success?
    ensures DecodeAll(codec, a + b) == Success(DecodeAll(codec, a).value + DecodeAll(codec, b).value)
    decreases |a|
  {
    if |a| > 0 {
      DecodeAllStep(codec, a);
      var m := codec.decode(a[0]).value;
      var x, y := DecodeAll(codec, a[1..]).value, DecodeAll(codec, b).value;
      DecodeAllAppend(codec, a[1..], b);
      var ab := a[1..] + b;
      assert DecodeAll(codec, ab) == Success(x + y);
      DecodeAllCons(codec, a[0], ab);
      assert a + b == [a[0]] + ab;
      assert DecodeAll(codec, a).value == [m] + x;
      assert [m] + (x + y) == ([m] + x) + y;
    } else {
      assert a + b == b;
      assert DecodeAll(codec, a) == Success([]);
      assert DecodeAll(codec, a).value + DecodeAll(codec, b).value == DecodeAll(codec, b).value;
    }
  }

  lemma DecodeOne(codec: MessageCodec, message: ConversationMessage)
    requires RoundTrips(codec, message)
    ensures DecodeAll(codec, [codec.encode(message)]) == Success([message])
  {
    var one := [codec.encode(message)];
    assert codec.decode(one[0]).OrFail(MalformedStructured) == Success(message);
    assert one[1..] == [];
    assert DecodeAll(codec, one[1..]) == Success([]);
    assert DecodeAll(codec, one) == Success([message] + []);
    assert [message] + [] == [message];
  }

  /** Appending a message extends what is read back by exactly that message. */
  lemma AddThenRead(codec: MessageCodec, log: HistoryLog, conversationId: string, message: ConversationMessage)
    requires RoundTrips(codec, message)
    requires conversationId != ""
    requires AllMessages(codec, log, conversationId).Success?
    ensures AllMessages(codec, AddMessage(codec, log, conversationId, message).value, conversationId)
         == Success(AllMessages(codec, log, conversationId).value + [message])
  {
    var e := Entries(log, conversationId);
    DecodeOne(codec, message);
    DecodeAllAppend(codec, e, [codec.encode(message)]);
  }

  /** Appending to one conversation does not change what another reads. */
  lemma AddKeepsOthers(codec: MessageCodec, log: HistoryLog, conversationId: string, message: ConversationMessage, other: string)
    requires conversationId != "" && other != conversationId
    ensures AllMessages(codec, AddMessage(codec, log, conversationId, message).value, other)
         == AllMessages(codec, log, other)
  {
    assert HistoryKey(other) != HistoryKey(conversationId) by {
      assert HistoryKey(other)[8..] == other && HistoryKey(conversationId)[8..] == conversationId;
    }
  }

  /** Appends the messages one by one, stopping at the first error. */
  function AddAll(codec: MessageCodec, log: HistoryLog, conversationId: string, messages: seq<ConversationMessage>): (r: Result<HistoryLog, Error>)
    ensures r.Failure? <==> conversationId == "" && |messages| > 0
    ensures r.Failure? ==> r.error == EmptyConversationId
    decreases |messages|
  {
    if |messages| == 0 then Success(log)
    else
      var log1 :- AddMessage(codec, log, conversationId, messages[0]);
      AddAll(codec, log1, conversationId, messages[1..])
  }

  /** The stored form of a list of messages. */
  function EncodeAll(codec: MessageCodec, messages: seq<ConversationMessage>): (r: seq<string>)
    ensures |r| == |messages|
  {
    if |messages| == 0 then [] else [codec.encode(messages[0])] + EncodeAll(codec, messages[1..])
  }

  /** Appending n messages stores their n encodings after the existing
      entries, in order, and leaves every other key as it was. */
  lemma {:induction false} AddAllEntries(codec: MessageCodec, log: HistoryLog, conversationId: string, messages: seq<ConversationMessage>)
    requires conversationId != ""
    ensures Entries(AddAll(codec, log, conversationId, messages).value, conversationId)
         == Entries(log, conversationId) + EncodeAll(codec, messages)
    ensures forall k :: k != HistoryKey(conversationId) ==>
      (k in AddAll(codec, log, conversationId, messages).value <==> k in log) &&
      (k in log ==> AddAll(codec, log, conversationId, messages).value[k] == log[k])
    decreases |messages|
  {
    if |messages| == 0 {
      assert Entries(log, conversationId) + [] == Entries(log, conversationId);
    } else {
      var log1 := AddMessage(codec, log, conversationId, messages[0]).value;
      assert AddAll(codec, log, conversationId, messages) == AddAll(codec, log1, conversationId, messages[1..]);
      AddAllEntries(codec, log1, conversationId, messages[1..]);
      var e := Entries(log, conversationId);
      assert (e + [codec.encode(messages[0])]) + EncodeAll(codec, messages[1..])
          == e + EncodeAll(codec, messages);
    }
  }

  /** Appending n messages to a readable conversation adds exactly those n
      messages, in order, to what is read back. */
  lemma {:induction false} AddAllThenRead(codec: MessageCodec, log: HistoryLog, conversationId: string, messages: seq<ConversationMessage>)
    requires forall m :: m in messages ==> RoundTrips(codec, m)
    requires conversationId != ""
    requires AllMessages(codec, log, conversationId).Success?
    ensures AddAll(codec, log, conversationId, messages).Success?
    ensures AllMessages(codec, AddAll(codec, log, conversationId, messages).value, conversationId)
         == Success(AllMessages(codec, log, conversationId).value + messages)
    decreases |messages|
  {
    if |messages| > 0 {
      var log1 := AddMessage(codec, log, conversationId, messages[0]).value;
      assert AddAll(codec, log, conversationId, messages) == AddAll(codec, log1, conversationId, messages[1..]);
      AddThenRead(codec, log, conversationId, messages[0]);
      assert forall m :: m in messages[1..] ==> m in messages;
      AddAllThenRead(codec, log1, conversationId, messages[1..]);
      var before := AllMessages(codec, log, conversationId).value;
      assert AllMessages(codec, log1, conversationId) == Success(before + [messages[0]]);
      var log2 := AddAll(codec, log1, conversationId, messages[1..]).value;
      assert AllMessages(codec, log2, conversationId) == Success((before + [messages[0]]) + messages[1..]);
      assert messages == [messages[0]] + messages[1..];
      assert (before + [messages[0]]) + messages[1..] == before + messages;
      assert AddAll(codec, log, conversationId, messages).value == log2;
    } else {
      assert AllMessages(codec, log, conversationId).value + messages == AllMessages(codec, log, conversationId).value;
    }
  }

  /** The history tests: a fresh conversation reads back exactly the messages
      appended to it (so none for no appends, and one entry decoding to the
      message after one append); the empty id is refused. */
  lemma FreshConversation(codec: MessageCodec, log: HistoryLog, conversationId: string, messages: seq<ConversationMessage>, m: ConversationMessage)
    requires forall m :: m in messages ==> RoundTrips(codec, m)
    requires conversationId != "" && HistoryKey(conversationId) !in log
    ensures AllMessages(codec, log, conversationId) == Success([])
    ensures AddAll(codec, log, conversationId, messages).Success?
    ensures AllMessages(codec, AddAll(codec, log, conversationId, messages).value, conversationId) == Success(messages)
    ensures Entries(AddMessage(codec, log, conversationId, m).value, conversationId) == [codec.encode(m)]
    ensures AddMessage(codec, log, "", m) == Failure(EmptyConversationId)
  {
    AddAllThenRead(codec, log, conversationId, messages);
    assert [] + messages == messages;
  }
}
