/** The checkpoint saver: each checkpoint of a thread is one hash record at
    key "checkpoint:<thread id>:<checkpoint id>" holding the encoded
    checkpoint, the encoded metadata and the parent checkpoint id ("" for a
    root). The remote store is an immutable map from key to record, and every
    operation is a sequential state transition. */
module CheckpointStore {
  import opened Wrappers
  import opened Structured
  import Serializer
  import LexOrder

  /** The "configurable" part of a run config: a thread id and, optionally,
      the checkpoint id (thread_ts) it refers to. */
  datatype Config = Config(threadId: string, threadTs: Option<string>)

  /** The three fields of a stored checkpoint hash. */
  datatype Record = Record(checkpoint: string, metadata: string, parentTs: string)

  type Store = map<string, Record>

  /** What a lookup returns: the decoded checkpoint and metadata, and a config
      pointing at the parent checkpoint when there is one. */
  datatype CheckpointTuple = CheckpointTuple(checkpoint: Json, metadata: Json, parentConfig: Option<Config>)

  /** The config names a checkpoint: thread_ts is present and non-empty
      (Python truthiness). */
  predicate HasTs(config: Config) {
    config.threadTs.Some? && config.threadTs.value != ""
  }

  function ThreadPrefix(threadId: string): string {
    "checkpoint:" + threadId + ":"
  }

  /** The key of a checkpoint record: "checkpoint:", the thread id, ":" and
      the checkpoint id. */
  function Key(threadId: string, id: string): (k: string)
    ensures |k| == |threadId| + |id| + 12
  {
    ThreadPrefix(threadId) + id
  }

  /** A key reads, in order, "checkpoint:", the thread id, ":" and the
      checkpoint id. */
  lemma KeyParts(threadId: string, id: string)
    ensures var k := Key(threadId, id);
      k[..11] == "checkpoint:" && k[11..11 + |threadId|] == threadId && k[11 + |threadId|] == ':'
      && k[12 + |threadId|..] == id
  {
  }

  /** Within one thread, distinct checkpoint ids have distinct keys. */
  lemma KeyInjective(threadId: string, a: string, b: string)
    ensures Key(threadId, a) == Key(threadId, b) <==> a == b
  {
    if Key(threadId, a) == Key(threadId, b) {
      var n := |ThreadPrefix(threadId)|;
      assert a == Key(threadId, a)[n..];
      assert b == Key(threadId, b)[n..];
    }
  }

  /** The parent id a put records: the config's thread_ts, or "" for none. */
  function ParentTs(config: Config): (p: string)
    ensures p == "" <==> !HasTs(config)
    ensures HasTs(config) ==> p == config.threadTs.value
  {
    if HasTs(config) then config.threadTs.value else ""
  }

  /** checkpoint["id"], when the checkpoint is an object with a string id. */
  function CheckpointId(checkpoint: Json): (r: Option<string>)
    ensures r.Some? <==> checkpoint.Obj? && "id" in checkpoint.fields && checkpoint.fields["id"].Str?
    ensures r.Some? ==> checkpoint.fields["id"] == Str(r.value)
  {
    if checkpoint.Obj? && "id" in checkpoint.fields && checkpoint.fields["id"].Str?
    then Some(checkpoint.fields["id"].s)
    else None
  }

  /** aput: writes one record under the checkpoint's key, overwriting any
      record already there, and touches no other key. */
  function Put(codec: JsonCodec, store: Store, config: Config, checkpoint: Json, metadata: Json): (r: Result<Store, Error>)
    ensures r.Failure? <==> CheckpointId(checkpoint).None?
    ensures r.Success? ==>
      var key := Key(config.threadId, CheckpointId(checkpoint).value);
      && r.value.Keys == store.Keys + {key}
      && r.value[key].parentTs == ParentTs(config)
      && (forall k :: k in store && k != key ==> r.value[k] == store[k])
  {
    var id :- CheckpointId(checkpoint).OrFail(MissingCheckpointId);
    // A JSON value always has a structured encoding.
    var c := Serializer.Dumps(codec, Serializer.Json(checkpoint)).value;
    var m := Serializer.Dumps(codec, Serializer.Json(metadata)).value;
    Success(store[Key(config.threadId, id) := Record(c, m, ParentTs(config))])
  }

  /** The checkpoint ids stored for a thread: the rest of every key that starts
      with the thread's prefix (the keys a "checkpoint:<thread id>:*" scan
      returns). */
  function ThreadIds(store: Store, threadId: string): (ids: set<string>)
    ensures forall id :: id in ids <==> Key(threadId, id) in store
  {
    var p := ThreadPrefix(threadId);
    var ids := set k | k in store && p <= k :: k[|p|..];
    assert forall id :: Key(threadId, id) in store ==> Key(threadId, id)[|p|..] in ids;
    assert forall k :: k in store && p <= k ==> Key(threadId, k[|p|..]) == k;
    ids
  }

  /** The parent config built from a stored parent id: none for "". */
  function ParentConfig(threadId: string, parentTs: string): (r: Option<Config>)
    ensures r.None? <==> parentTs == ""
    ensures r.Some? ==> r.value == Config(threadId, Some(parentTs))
  {
    if parentTs != "" then Some(Config(threadId, Some(parentTs))) else None
  }

  /** Loads and decodes the record of one checkpoint; a missing record is
      no result, an undecodable one is the decoder's error. */
  function Read(codec: JsonCodec, store: Store, threadId: string, id: string): (r: Result<Option<CheckpointTuple>, Error>)
    ensures Key(threadId, id) !in store ==> r == Success(None)
    ensures Key(threadId, id) in store ==> (r.Success? ==> r.value.Some?)
    ensures Key(threadId, id) in store && r.Success? ==>
      r.value.value.parentConfig == ParentConfig(threadId, store[Key(threadId, id)].parentTs)
    ensures Key(threadId, id) in store ==>
      (r.Failure? <==> Malformed(codec, store[Key(threadId, id)].checkpoint)
                       || Malformed(codec, store[Key(threadId, id)].metadata))
  {
    var key := Key(threadId, id);
    if key !in store then Success(None)
    else
      var rec := store[key];
      var c :- Serializer.Loads(codec, rec.checkpoint, false);
      var m :- Serializer.Loads(codec, rec.metadata, false);
      Success(Some(CheckpointTuple(c.json, m.json, ParentConfig(threadId, rec.parentTs))))
  }

  /** aget_tuple: with thread_ts, reads that checkpoint; without it, reads the
      thread's checkpoint whose id is greatest in string order, or nothing for
      a thread with no checkpoints. The greatest-id rule is inferred from the
      third aget case of tests/unit/agents/memory/test_redis_checkpointer.py
      (lines 213-219); greatest ts or last written would fit that case too. */
  method GetTuple(codec: JsonCodec, store: Store, config: Config) returns (r: Result<Option<CheckpointTuple>, Error>)
    ensures HasTs(config) ==> r == Read(codec, store, config.threadId, config.threadTs.value)
    ensures !HasTs(config) && ThreadIds(store, config.threadId) == {} ==> r == Success(None)
    ensures !HasTs(config) && ThreadIds(store, config.threadId) != {} ==>
      r == Read(codec, store, config.threadId, LexOrder.Greatest(ThreadIds(store, config.threadId)))
  {
    if HasTs(config) {
      r := Read(codec, store, config.threadId, config.threadTs.value);
    } else {
      var ids := ThreadIds(store, config.threadId);
      if ids == {} {
        r := Success(None);
      } else {
        var latest := LexOrder.Max(ids);
        r := Read(codec, store, config.threadId, latest);
      }
    }
  }

  /** A put is read back by its id: the same checkpoint and metadata, and a
      parent config equal to the put's config exactly when that config named
      a checkpoint. */
  lemma PutThenRead(codec: JsonCodec, store: Store, config: Config, checkpoint: Json, metadata: Json)
    requires Lawful(codec)
    requires CheckpointId(checkpoint).Some?
    ensures Put(codec, store, config, checkpoint, metadata).Success?
    ensures Read(codec, Put(codec, store, config, checkpoint, metadata).value,
                 config.threadId, CheckpointId(checkpoint).value)
         == Success(Some(CheckpointTuple(checkpoint, metadata,
                                         if HasTs(config) then Some(config) else None)))
  {
    Serializer.RoundTrip(codec, Serializer.Json(checkpoint));
    Serializer.RoundTrip(codec, Serializer.Json(metadata));
  }

  /** A put leaves every other checkpoint's lookup as it was. */
  lemma PutKeepsOthers(codec: JsonCodec, store: Store, config: Config, checkpoint: Json, metadata: Json,
                       threadId: string, id: string)
    requires Put(codec, store, config, checkpoint, metadata).Success?
    requires Key(threadId, id) != Key(config.threadId, CheckpointId(checkpoint).value)
    ensures Read(codec, Put(codec, store, config, checkpoint, metadata).value, threadId, id)
         == Read(codec, store, threadId, id)
  {
  }

  /** Putting the same checkpoint twice is the same as putting it once. */
  lemma PutIdempotent(codec: JsonCodec, store: Store, config: Config, checkpoint: Json, metadata: Json)
    requires Put(codec, store, config, checkpoint, metadata).Success?
    ensures var s1 := Put(codec, store, config, checkpoint, metadata).value;
      Put(codec, s1, config, checkpoint, metadata) == Success(s1)
  {
    var s1 := Put(codec, store, config, checkpoint, metadata).value;
    var key := Key(config.threadId, CheckpointId(checkpoint).value);
    var rec := Record(codec.encode(checkpoint), codec.encode(metadata), ParentTs(config));
    assert s1[key] == rec;
    assert s1[key := rec] == s1;
  }

  /** A put adds its checkpoint id to the thread's ids and nothing else. */
  lemma PutThreadIds(codec: JsonCodec, store: Store, config: Config, checkpoint: Json, metadata: Json)
    requires Put(codec, store, config, checkpoint, metadata).Success?
    ensures ThreadIds(Put(codec, store, config, checkpoint, metadata).value, config.threadId)
         == ThreadIds(store, config.threadId) + {CheckpointId(checkpoint).value}
  {
    var s1 := Put(codec, store, config, checkpoint, metadata).value;
    var t := config.threadId;
    var id := CheckpointId(checkpoint).value;
    forall x | x in ThreadIds(s1, t)
      ensures x in ThreadIds(store, t) + {id}
    {
      assert Key(t, x) in s1;
    }
  }

  /** A put whose id sorts at or after every id already stored for the thread
      becomes the thread's latest checkpoint. */
  lemma PutGreatestIsLatest(codec: JsonCodec, store: Store, config: Config, checkpoint: Json, metadata: Json)
    requires Put(codec, store, config, checkpoint, metadata).Success?
    requires forall x :: x in ThreadIds(store, config.threadId) ==>
      LexOrder.LessOrEqual(x, CheckpointId(checkpoint).value)
    ensures LexOrder.Greatest(ThreadIds(Put(codec, store, config, checkpoint, metadata).value, config.threadId))
         == CheckpointId(checkpoint).value
  {
    var ids := ThreadIds(Put(codec, store, config, checkpoint, metadata).value, config.threadId);
    PutThreadIds(codec, store, config, checkpoint, metadata);
    assert LexOrder.IsGreatest(ids, CheckpointId(checkpoint).value);
    LexOrder.GreatestUnique(ids, CheckpointId(checkpoint).value, LexOrder.Greatest(ids));
  }
}
