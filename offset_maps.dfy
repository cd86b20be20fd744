/** The nested map both offset stores keep: group id -> (topic, partition)
    -> offset, updated by plain assignment (last write wins, nothing is ever
    removed), and the ConsumerOffset value both stores hand out. */
module OffsetMaps {
  import opened Base

  /** cppkafka::TopicPartition as a map key: topic and partition only. */
  datatype TopicPartition = TopicPartition(topic: Bytes, partition: int32)

  type TopicMap = map<TopicPartition, int64>
  type ConsumerMap = map<Bytes, TopicMap>

  /** A topic partition together with an offset (cppkafka::TopicPartition
      built with its offset argument). */
  datatype TopicPartitionOffset = TopicPartitionOffset(topic: Bytes, partition: int32, offset: int64)

  /** ConsumerOffset: get_group_id() is groupId, get_topic_partition() is
      topicPartition. */
  datatype ConsumerOffset = ConsumerOffset(groupId: Bytes, topicPartition: TopicPartitionOffset)

  function KeyOf(c: ConsumerOffset): TopicPartition
  {
    TopicPartition(c.topicPartition.topic, c.topicPartition.partition)
  }

  /** The stored offset of a group on a topic partition, if any. */
  function Lookup(m: ConsumerMap, group: Bytes, tp: TopicPartition): Option<int64>
  {
    if group in m && tp in m[group] then Some(m[group][tp]) else None
  }

  /** offsets[group][tp] = value, creating the group's entry when absent. */
  function Put(m: ConsumerMap, group: Bytes, tp: TopicPartition, value: int64): (r: ConsumerMap)
    ensures r.Keys == m.Keys + {group}
    ensures Lookup(r, group, tp) == Some(value)
    ensures forall g, k :: (g, k) != (group, tp) ==> Lookup(r, g, k) == Lookup(m, g, k)
  {
    m[group := (if group in m then m[group] else map[])[tp := value]]
  }

  /** One write into the store. */
  datatype Commit = Commit(group: Bytes, tp: TopicPartition, value: int64)

  /** The writes applied in order, first to last. */
  function PutAll(m: ConsumerMap, commits: seq<Commit>): ConsumerMap
  {
    if commits == [] then m
    else
      var c := commits[|commits| - 1];
      Put(PutAll(m, commits[..|commits| - 1]), c.group, c.tp, c.value)
  }

  /** The value of the last write to (group, tp), if there is one. */
  function LastWrite(commits: seq<Commit>, group: Bytes, tp: TopicPartition): Option<int64>
  {
    if commits == [] then None
    else
      var c := commits[|commits| - 1];
      if c.group == group && c.tp == tp then Some(c.value)
      else LastWrite(commits[..|commits| - 1], group, tp)
  }

  /** Whatever other writes are interleaved, an entry ends up holding the
      value of the last write to it, and an entry nobody wrote keeps its
      old value. */
  lemma {:induction false} LastWriteWins(m: ConsumerMap, commits: seq<Commit>, group: Bytes, tp: TopicPartition)
    ensures Lookup(PutAll(m, commits), group, tp) ==
            match LastWrite(commits, group, tp)
            case Some(v) => Some(v)
            case None => Lookup(m, group, tp)
  {
    if commits != [] {
      LastWriteWins(m, commits[..|commits| - 1], group, tp);
    }
  }

  /** Applying two runs of writes one after the other is applying their
      concatenation. */
  lemma {:induction false} PutAllAppend(m: ConsumerMap, a: seq<Commit>, b: seq<Commit>)
    ensures PutAll(m, a + b) == PutAll(PutAll(m, a), b)
    decreases |b|
  {
    if b != [] {
      var front := b[..|b| - 1];
      var c := b[|b| - 1];
      assert (a + b)[..|a + b| - 1] == a + front;
      assert (a + b)[|a + b| - 1] == c;
      PutAllAppend(m, a, front);
      assert PutAll(m, a + b) == Put(PutAll(m, a + front), c.group, c.tp, c.value);
      assert PutAll(PutAll(m, a), b) == Put(PutAll(PutAll(m, a), front), c.group, c.tp, c.value);
    } else {
      assert a + b == a;
    }
  }

  /** Writes never remove a group nor an entry. */
  lemma {:induction false} PutAllKeepsEntries(m: ConsumerMap, commits: seq<Commit>, group: Bytes, tp: TopicPartition)
    requires Lookup(m, group, tp).Some?
    ensures Lookup(PutAll(m, commits), group, tp).Some?
    ensures m.Keys <= PutAll(m, commits).Keys
  {
    if commits != [] {
      PutAllKeepsEntries(m, commits[..|commits| - 1], group, tp);
    }
  }

  /** The topic partitions listed in a sequence of consumer offsets. */
  function ListedKeys(out: seq<ConsumerOffset>): set<TopicPartition>
  {
    set i | 0 <= i < |out| :: KeyOf(out[i])
  }

  lemma ListedKeysAppend(out: seq<ConsumerOffset>, c: ConsumerOffset)
    ensures ListedKeys(out + [c]) == ListedKeys(out) + {KeyOf(c)}
  {
    var longer := out + [c];
    assert longer[|out|] == c;
    forall k | k in ListedKeys(longer) ensures k in ListedKeys(out) + {KeyOf(c)} {
      var i :| 0 <= i < |longer| && KeyOf(longer[i]) == k;
      if i < |out| { assert longer[i] == out[i]; }
    }
    forall k | k in ListedKeys(out) ensures k in ListedKeys(longer) {
      var i :| 0 <= i < |out| && KeyOf(out[i]) == k;
      assert longer[i] == out[i];
    }
  }

  /** out lists the entries of one group: one ConsumerOffset per stored
      topic partition, carrying the stored offset and the group's id. */
  ghost predicate Enumerates(out: seq<ConsumerOffset>, group: Bytes, topics: TopicMap)
  {
    && ListedKeys(out) == topics.Keys
    && (forall i, j :: 0 <= i < j < |out| ==> KeyOf(out[i]) != KeyOf(out[j]))
    && (forall i :: 0 <= i < |out| ==>
          out[i].groupId == group && KeyOf(out[i]) in topics &&
          out[i].topicPartition.offset == topics[KeyOf(out[i])])
  }

  /** Listing a group gives exactly as many entries as it has stored topic
      partitions. */
  lemma {:induction false} EnumeratesCount(out: seq<ConsumerOffset>, group: Bytes, topics: TopicMap)
    requires Enumerates(out, group, topics)
    ensures |out| == |topics|
  {
    if out != [] {
      var last := out[|out| - 1];
      var front := out[..|out| - 1];
      assert front + [last] == out;
      ListedKeysAppend(front, last);
      assert KeyOf(last) !in ListedKeys(front) by {
        forall i | 0 <= i < |front| ensures KeyOf(front[i]) != KeyOf(last) {
          assert front[i] == out[i];
        }
      }
      var rest := topics - {KeyOf(last)};
      assert ListedKeys(front) == rest.Keys;
      EnumeratesCount(front, group, rest);
    }
  }
}
