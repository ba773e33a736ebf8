/** The saver's test scenarios, stated over the model, and what they say
    about the rule that picks a thread's latest checkpoint. */
module CheckpointExamples {
  import opened Wrappers
  import opened Structured
  import opened CheckpointStore
  import LexOrder

  /** A checkpoint object with the given id (the timestamp and channel maps of
      the test's checkpoints are immaterial to the store). */
  function TestCheckpoint(id: string): Json {
    Obj(map["v" := Num(1), "id" := Str(id), "channel_values" := Obj(map[])])
  }

  function TestMetadata(step: int): Json {
    Obj(map["source" := Str("input"), "step" := Num(step), "writes" := Obj(map[]), "score" := Num(1)])
  }

  /** The two aput cases: a config without thread_ts stores parent "" and one
      with thread_ts "chk-1" stores parent "chk-1", each under
      "checkpoint:thread-1:<id>". */
  lemma AputCases(codec: JsonCodec)
    ensures var r := Put(codec, map[], Config("thread-1", None), TestCheckpoint("chk-1"), TestMetadata(1));
      r.Success? && "checkpoint:thread-1:chk-1" in r.value
      && r.value["checkpoint:thread-1:chk-1"].parentTs == ""
    ensures var r := Put(codec, map[], Config("thread-1", Some("chk-1")), TestCheckpoint("chk-2"), TestMetadata(2));
      r.Success? && "checkpoint:thread-1:chk-2" in r.value
      && r.value["checkpoint:thread-1:chk-2"].parentTs == "chk-1"
  {
    assert Key("thread-1", "chk-1") == "checkpoint:thread-1:chk-1";
    assert Key("thread-1", "chk-2") == "checkpoint:thread-1:chk-2";
  }

  lemma TestCheckpointId(id: string)
    ensures CheckpointId(TestCheckpoint(id)) == Some(id)
  {
    assert "id" in TestCheckpoint(id).fields;
  }

  const PutConfig: Config := Config("thread-1", Some("chk-2"))

  /** One put of the third aget case: checkpoint `id` with the config
      {thread-1, thread_ts: chk-2}. It succeeds, since the test checkpoint has
      a string id. */
  function PutTest(codec: JsonCodec, store: Store, id: string): (r: Store)
    ensures Put(codec, store, PutConfig, TestCheckpoint(id), TestMetadata(3)) == Success(r)
  {
    TestCheckpointId(id);
    Put(codec, store, PutConfig, TestCheckpoint(id), TestMetadata(3)).value
  }

  /** The store after putting chk-1, chk-2 and chk-3 on thread-1. */
  function ThreePuts(codec: JsonCodec): Store {
    PutTest(codec, PutTest(codec, PutTest(codec, map[], "chk-1"), "chk-2"), "chk-3")
  }

  /** The first two puts of the scenario: each record of the store they leave
      has parent chk-2 and the thread holds chk-1 and chk-2. */
  lemma TwoPuts(codec: JsonCodec) returns (s2: Store)
    ensures Put(codec, s2, PutConfig, TestCheckpoint("chk-3"), TestMetadata(3)).Success?
    ensures ThreePuts(codec) == Put(codec, s2, PutConfig, TestCheckpoint("chk-3"), TestMetadata(3)).value
    ensures ThreadIds(s2, "thread-1") == {"chk-1", "chk-2"}
    ensures forall k :: k in s2 ==> s2[k].parentTs == "chk-2"
  {
    TestCheckpointId("chk-1");
    TestCheckpointId("chk-2");
    var md := TestMetadata(3);
    var s1 := PutTest(codec, map[], "chk-1");
    s2 := PutTest(codec, s1, "chk-2");
    var _ := PutTest(codec, s2, "chk-3");
    PutThreadIds(codec, map[], PutConfig, TestCheckpoint("chk-1"), md);
    PutThreadIds(codec, s1, PutConfig, TestCheckpoint("chk-2"), md);
    assert ThreadIds(map[], "thread-1") == {};
  }

  /** The scenario store holds chk-1, chk-2 and chk-3 for thread-1, and every
      record names chk-2 as its parent. */
  lemma ThreePutsContents(codec: JsonCodec)
    ensures ThreadIds(ThreePuts(codec), "thread-1") == {"chk-1", "chk-2", "chk-3"}
    ensures forall k :: k in ThreePuts(codec) ==> ThreePuts(codec)[k].parentTs == "chk-2"
  {
    var s2 := TwoPuts(codec);
    PutThreadIds(codec, s2, PutConfig, TestCheckpoint("chk-3"), TestMetadata(3));
  }

  /** "chk-1" and "chk-2" sort before "chk-3". */
  lemma ChkOrder()
    ensures LexOrder.Less("chk-1", "chk-3") && LexOrder.Less("chk-2", "chk-3")
  {
    assert "chk-1"[1..] == "hk-1" && "chk-2"[1..] == "hk-2" && "chk-3"[1..] == "hk-3";
    assert "hk-1"[1..] == "k-1" && "hk-2"[1..] == "k-2" && "hk-3"[1..] == "k-3";
    assert "k-1"[1..] == "-1" && "k-2"[1..] == "-2" && "k-3"[1..] == "-3";
    assert "-1"[1..] == "1" && "-2"[1..] == "2" && "-3"[1..] == "3";
  }

  /** Putting chk-3 on top of a thread holding chk-1 and chk-2 makes chk-3
      the latest checkpoint. */
  lemma ThirdPutIsLatest(codec: JsonCodec, s2: Store)
    requires ThreadIds(s2, "thread-1") == {"chk-1", "chk-2"}
    ensures Put(codec, s2, PutConfig, TestCheckpoint("chk-3"), TestMetadata(3)).Success?
    ensures LexOrder.Greatest(ThreadIds(Put(codec, s2, PutConfig, TestCheckpoint("chk-3"), TestMetadata(3)).value, "thread-1"))
         == "chk-3"
  {
    var c3 := TestCheckpoint("chk-3");
    ChkOrder();
    TestCheckpointId("chk-3");
    forall x | x in ThreadIds(s2, "thread-1")
      ensures LexOrder.LessOrEqual(x, CheckpointId(c3).value)
    {
      assert x == "chk-1" || x == "chk-2";
    }
    PutGreatestIsLatest(codec, s2, PutConfig, c3, TestMetadata(3));
  }

  /** The third aget case: with no thread_ts the lookup resolves to chk-3. */
  lemma LatestOfThreePuts(codec: JsonCodec)
    ensures LexOrder.Greatest(ThreadIds(ThreePuts(codec), "thread-1")) == "chk-3"
  {
    var s2 := TwoPuts(codec);
    ThirdPutIsLatest(codec, s2);
  }

  /** Reading chk-3 back gives its checkpoint and metadata, with the put
      config as parent config. */
  lemma ReadLatestOfThreePuts(codec: JsonCodec)
    requires Lawful(codec)
    ensures Read(codec, ThreePuts(codec), "thread-1", "chk-3")
         == Success(Some(CheckpointTuple(TestCheckpoint("chk-3"), TestMetadata(3), Some(PutConfig))))
  {
    var s2 := TwoPuts(codec);
    TestCheckpointId("chk-3");
    PutThenRead(codec, s2, PutConfig, TestCheckpoint("chk-3"), TestMetadata(3));
  }

  /** id is stored for the thread and no record of the thread names it as
      its parent. */
  ghost predicate Unreferenced(store: Store, threadId: string, id: string) {
    && id in ThreadIds(store, threadId)
    && forall x :: x in ThreadIds(store, threadId) ==> store[Key(threadId, x)].parentTs != id
  }

  /** On the third aget case, chk-1 and chk-3 are both never referenced as a
      parent, so "the one unreferenced id" does not single out the checkpoint
      the lookup is expected to return. */
  lemma UnreferencedNotUnique(codec: JsonCodec)
    ensures Unreferenced(ThreePuts(codec), "thread-1", "chk-1")
    ensures Unreferenced(ThreePuts(codec), "thread-1", "chk-3")
  {
    var s := ThreePuts(codec);
    ThreePutsContents(codec);
    forall x | x in ThreadIds(s, "thread-1")
      ensures s[Key("thread-1", x)].parentTs != "chk-1"
      ensures s[Key("thread-1", x)].parentTs != "chk-3"
    {
      assert s[Key("thread-1", x)].parentTs == "chk-2";
    }
  }

  /** Keys do not separate thread ids from checkpoint ids that contain ':':
      thread "a:b" with id "c" and thread "a" with id "b:c" share a key. */
  lemma KeyCollision()
    ensures Key("a:b", "c") == Key("a", "b:c")
  {
  }
}
