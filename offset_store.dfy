/** OffsetStore: consumer offsets per group and high-water marks per topic
    partition. Both maps are overwritten unconditionally on every store. */
module OffsetStores {
  import opened Base
  import opened OffsetMaps

  /** OffsetStore::ConsumerOffset(group_id, topic, int partition, uint64_t
      offset): the accessors give back what the constructor was given, the
      offset read back as the unsigned value it was. */
  function NewConsumerOffset(group: Bytes, topic: Bytes, partition: int32, offset: uint64): (c: ConsumerOffset)
    ensures c.groupId == group
    ensures KeyOf(c) == TopicPartition(topic, partition)
    ensures ToUint64(c.topicPartition.offset) == offset
  {
    Int64RoundTrip(offset, 0);
    ConsumerOffset(group, TopicPartitionOffset(topic, partition, ToInt64(offset)))
  }

  class OffsetStore {
    /** consumer_offsets_: group id -> (topic, partition) -> offset */
    var consumerOffsets: ConsumerMap
    /** topic_offsets_: (topic, partition) -> high-water mark */
    var topicOffsets: TopicMap

    constructor ()
      ensures consumerOffsets == map[] && topicOffsets == map[]
    {
      consumerOffsets := map[];
      topicOffsets := map[];
    }

    /** consumer_offsets_[group][{topic, partition}] = offset; the topic map
        is not touched. */
    method StoreConsumerOffset(group: Bytes, topic: Bytes, partition: int32, offset: uint64)
      modifies this
      ensures consumerOffsets == Put(old(consumerOffsets), group, TopicPartition(topic, partition), ToInt64(offset))
      ensures topicOffsets == old(topicOffsets)
    {
      var topics := if group in consumerOffsets then consumerOffsets[group] else map[];
      consumerOffsets := consumerOffsets[group := topics[TopicPartition(topic, partition) := ToInt64(offset)]];
    }

    /** topic_offsets_[{topic, partition}] = offset, whatever was stored
        before (a smaller value replaces a larger one); reading it back gives
        the stored value. */
    method StoreTopicOffset(topic: Bytes, partition: int32, offset: uint64)
      modifies this
      ensures topicOffsets == old(topicOffsets)[TopicPartition(topic, partition) := ToInt64(offset)]
      ensures consumerOffsets == old(consumerOffsets)
      ensures GetTopicOffset(topic, partition) == Some(offset)
    {
      topicOffsets := topicOffsets[TopicPartition(topic, partition) := ToInt64(offset)];
      Int64RoundTrip(offset, 0);
    }

    /** All stored offsets of one group (none for an unknown group). */
    method GetConsumerOffsets(group: Bytes) returns (out: seq<ConsumerOffset>)
      ensures group !in consumerOffsets ==> out == []
      ensures group in consumerOffsets ==> Enumerates(out, group, consumerOffsets[group])
    {
      if group !in consumerOffsets {
        return [];
      }
      var topics := consumerOffsets[group];
      var rest := topics.Keys;
      out := [];
      while rest != {}
        invariant rest <= topics.Keys
        invariant ListedKeys(out) == topics.Keys - rest
        invariant forall i, j :: 0 <= i < j < |out| ==> KeyOf(out[i]) != KeyOf(out[j])
        invariant forall i :: 0 <= i < |out| ==>
                    out[i].groupId == group && KeyOf(out[i]) in topics &&
                    out[i].topicPartition.offset == topics[KeyOf(out[i])]
        decreases rest
      {
        var tp :| tp in rest;
        Int64RoundTrip(0, topics[tp]);
        var entry := NewConsumerOffset(group, tp.topic, tp.partition, ToUint64(topics[tp]));
        assert tp !in ListedKeys(out);
        ListedKeysAppend(out, entry);
        out := out + [entry];
        rest := rest - {tp};
      }
    }

    /** The last stored high-water mark of a topic partition, if any. */
    function GetTopicOffset(topic: Bytes, partition: int32): (r: Option<uint64>)
      reads this
      ensures r.None? <==> TopicPartition(topic, partition) !in topicOffsets
      ensures r.Some? ==> ToInt64(r.value) == topicOffsets[TopicPartition(topic, partition)]
    {
      var tp := TopicPartition(topic, partition);
      Int64RoundTrip(0, if tp in topicOffsets then topicOffsets[tp] else 0);
      if tp in topicOffsets then Some(ToUint64(topicOffsets[tp])) else None
    }
  }
}
