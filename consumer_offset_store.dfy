/** ConsumerOffsetStore: the store the offset-commit log reader writes into. */
module ConsumerOffsetStores {
  import opened Base
  import opened OffsetMaps

  /** ConsumerOffsetStore::ConsumerOffset(group_id, topic, unsigned partition,
      uint64_t offset): the accessors give back the group id and topic, and
      the partition and offset the constructor was given, read back as the
      unsigned values they were. */
  function NewConsumerOffset(group: Bytes, topic: Bytes, partition: uint32, offset: uint64): (c: ConsumerOffset)
    ensures c.groupId == group && c.topicPartition.topic == topic
    ensures FromInt32(c.topicPartition.partition) == partition
    ensures ToUint64(c.topicPartition.offset) == offset
  {
    Int32RoundTrip(partition, 0);
    Int64RoundTrip(offset, 0);
    ConsumerOffset(group, TopicPartitionOffset(topic, ToInt32(partition), ToInt64(offset)))
  }

  class ConsumerOffsetStore {
    /** offsets_: group id -> (topic, int partition) -> offset */
    var offsets: ConsumerMap

    constructor ()
      ensures offsets == map[]
    {
      offsets := map[];
    }

    /** offsets_[group][{topic, static_cast<int>(partition)}] = offset */
    method Store(group: Bytes, topic: Bytes, partition: uint32, offset: uint64)
      modifies this
      ensures offsets == Put(old(offsets), group, TopicPartition(topic, ToInt32(partition)), ToInt64(offset))
    {
      var topics := if group in offsets then offsets[group] else map[];
      offsets := offsets[group := topics[TopicPartition(topic, ToInt32(partition)) := ToInt64(offset)]];
    }

    /** All stored offsets of one group (none for an unknown group), each
        with the requested group id. */
    method GetOffsets(group: Bytes) returns (out: seq<ConsumerOffset>)
      ensures group !in offsets ==> out == []
      ensures group in offsets ==> Enumerates(out, group, offsets[group])
    {
      if group !in offsets {
        return [];
      }
      var topics := offsets[group];
      var rest := topics.Keys;
      out := [];
      while rest != {}
        invariant rest <= topics.Keys
        invariant ListedKeys(out) == topics.Keys - rest
        invariant forall i, j :: 0 <= i < j < |out| ==> KeyOf(out[i]) != KeyOf(out[j])
        invariant forall i :: 0 <= i < |out| ==>
                    out[i].groupId == group && KeyOf(out[i]) in topics &&
                    out[i].topicPartition.offset == topics[KeyOf(out[i])]
        decreases rest
      {
        var tp :| tp in rest;
        Int32RoundTrip(0, tp.partition);
        Int64RoundTrip(0, topics[tp]);
        var entry := NewConsumerOffset(group, tp.topic, FromInt32(tp.partition), ToUint64(topics[tp]));
        assert KeyOf(entry) == tp;
        assert tp !in ListedKeys(out);
        ListedKeysAppend(out, entry);
        out := out + [entry];
        rest := rest - {tp};
      }
    }
  }
}
