/** LagTrackerHandler: per topic partition, the high-water mark and the
    committed offset of every consumer group, and the consumer lag computed
    from them. Each handle_lag_update call is returned as a LagUpdate; the
    updates of one event form a multiset, since the groups of a partition
    are visited in hash-map order. */
module LagTrackers {
  import opened Base
  import opened OffsetMaps
  import opened OffsetStores

  /** The high-water mark before any is known. */
  const UnknownOffset: int64 := -1

  /** TopicPartitionInfo: high-water mark (offset, -1 when unknown) and the
      committed offset of each group. */
  datatype PartitionInfo = PartitionInfo(highWatermark: int64, consumerOffsets: map<Bytes, int64>)

  type InfoMap = map<TopicPartition, PartitionInfo>

  /** One handle_lag_update(topic, partition, group_id, consumer_lag) call. */
  datatype LagUpdate = LagUpdate(topic: Bytes, partition: int32, group: Bytes, lag: uint64)

  /** topic_partition_info_[tp]: the stored entry, or a default-constructed
      one for a partition not seen yet. */
  function Entry(info: InfoMap, tp: TopicPartition): PartitionInfo
  {
    if tp in info then info[tp] else PartitionInfo(UnknownOffset, map[])
  }

  /** max<int64_t>(0, highWatermark - offset): how far a group trails the
      end of the partition, zero when it is caught up or ahead. */
  function Lag(highWatermark: int64, offset: int64): (r: uint64)
    ensures r > 0 <==> offset < highWatermark
    ensures r > 0 ==> offset + r == highWatermark
  {
    if highWatermark - offset > 0 then highWatermark - offset else 0
  }

  /** A group that commits further along never has a larger lag, and a
      partition that grows never gives a smaller one. */
  lemma LagMonotone(hw: int64, hw': int64, offset: int64, offset': int64)
    requires hw <= hw' && offset' <= offset
    ensures Lag(hw, offset) <= Lag(hw', offset')
  {
    if Lag(hw, offset) > 0 {
      assert offset' < hw';
    }
  }

  /** The pairs (group, partition) seeded so far, restricted to one partition. */
  function GroupsOf(seeded: set<(Bytes, TopicPartition)>, tp: TopicPartition): set<Bytes>
  {
    set p | p in seeded && p.1 == tp :: p.0
  }

  function PartitionsOf(seeded: set<(Bytes, TopicPartition)>): set<TopicPartition>
  {
    set p | p in seeded :: p.1
  }

  /** Every (group, partition) pair the store holds for a group of the list. */
  function StoredPairs(consumers: seq<Bytes>, cm: ConsumerMap): set<(Bytes, TopicPartition)>
  {
    set g, tp | g in consumers && g in cm && tp in cm[g] :: (g, tp)
  }

  /** One partition after seeding from the store: a group already tracked
      keeps its offset (emplace), a seeded group without one gets the
      store's; the high-water mark is taken from the store when it was still
      unknown, the partition was seeded at all and the store has one. */
  ghost predicate SeededPartition(before: PartitionInfo, after: PartitionInfo, tp: TopicPartition,
                                  seeded: set<(Bytes, TopicPartition)>, cm: ConsumerMap, tm: TopicMap)
  {
    && after.consumerOffsets.Keys == before.consumerOffsets.Keys + GroupsOf(seeded, tp)
    && (forall g | g in after.consumerOffsets ::
          if g in before.consumerOffsets then after.consumerOffsets[g] == before.consumerOffsets[g]
          else g in cm && tp in cm[g] && after.consumerOffsets[g] == cm[g][tp])
    && after.highWatermark ==
         if before.highWatermark == UnknownOffset && GroupsOf(seeded, tp) != {} && tp in tm
         then tm[tp] else before.highWatermark
  }

  /** The whole map after seeding the given pairs from the store maps cm
      (consumer offsets) and tm (high-water marks) into before. */
  ghost predicate SeededBy(before: InfoMap, after: InfoMap, seeded: set<(Bytes, TopicPartition)>,
                           cm: ConsumerMap, tm: TopicMap)
  {
    && (forall p | p in seeded :: p.0 in cm && p.1 in cm[p.0])
    && after.Keys == before.Keys + PartitionsOf(seeded)
    && (forall tp | tp in after :: SeededPartition(Entry(before, tp), after[tp], tp, seeded, cm, tm))
  }

  /** The body of the inner loop of handle_initialize for one stored offset
      v of group g on tp: the offset is emplaced, and the high-water mark
      taken from tm while it is unknown. */
  function SeedInto(e: PartitionInfo, tp: TopicPartition, g: Bytes, v: int64, tm: TopicMap): PartitionInfo
  {
    var offsets := if g in e.consumerOffsets then e.consumerOffsets else e.consumerOffsets[g := v];
    var hw := if e.highWatermark == UnknownOffset && tp in tm then tm[tp] else e.highWatermark;
    PartitionInfo(hw, offsets)
  }

  function SeedOne(info: InfoMap, g: Bytes, tp: TopicPartition, v: int64, tm: TopicMap): InfoMap
  {
    info[tp := SeedInto(Entry(info, tp), tp, g, v, tm)]
  }

  /** Nothing seeded, nothing changed. */
  lemma SeededByNothing(info: InfoMap, cm: ConsumerMap, tm: TopicMap)
    ensures SeededBy(info, info, {}, cm, tm)
  {
    assert PartitionsOf({}) == {};
    forall tp | tp in info ensures SeededPartition(Entry(info, tp), info[tp], tp, {}, cm, tm) {
      assert GroupsOf({}, tp) == {};
    }
  }

  /** Seeding one more stored pair into a partition keeps its
      characterisation. */
  lemma SeedIntoStep(b: PartitionInfo, e: PartitionInfo, tp: TopicPartition, seeded: set<(Bytes, TopicPartition)>,
                     cm: ConsumerMap, tm: TopicMap, g: Bytes)
    requires SeededPartition(b, e, tp, seeded, cm, tm)
    requires g in cm && tp in cm[g]
    ensures SeededPartition(b, SeedInto(e, tp, g, cm[g][tp], tm), tp, seeded + {(g, tp)}, cm, tm)
  {
    assert GroupsOf(seeded + {(g, tp)}, tp) == GroupsOf(seeded, tp) + {g};
  }

  /** A partition nobody has seeded yet still holds its initial entry. */
  lemma UnseededPartition(before: InfoMap, seeded: set<(Bytes, TopicPartition)>,
                          cm: ConsumerMap, tm: TopicMap, tp: TopicPartition)
    requires tp !in before && tp !in PartitionsOf(seeded)
    ensures SeededPartition(Entry(before, tp), Entry(before, tp), tp, seeded, cm, tm)
  {
    forall p | p in seeded ensures p.1 != tp {
      assert p.1 in PartitionsOf(seeded);
    }
    assert GroupsOf(seeded, tp) == {};
  }

  lemma GroupsOfOther(seeded: set<(Bytes, TopicPartition)>, g: Bytes, tp: TopicPartition, tp': TopicPartition)
    requires tp' != tp
    ensures GroupsOf(seeded + {(g, tp)}, tp') == GroupsOf(seeded, tp')
  {
    forall h | h in GroupsOf(seeded + {(g, tp)}, tp') ensures h in GroupsOf(seeded, tp') {
      assert (h, tp') in seeded;
    }
  }

  lemma PartitionsOfAdd(seeded: set<(Bytes, TopicPartition)>, g: Bytes, tp: TopicPartition)
    ensures PartitionsOf(seeded + {(g, tp)}) == PartitionsOf(seeded) + {tp}
  {
    assert (g, tp) in seeded + {(g, tp)};
  }

  /** The partition seeded in one step. */
  lemma SeedStepHere(before: InfoMap, info: InfoMap, seeded: set<(Bytes, TopicPartition)>,
                     cm: ConsumerMap, tm: TopicMap, g: Bytes, tp: TopicPartition, info': InfoMap)
    requires SeededBy(before, info, seeded, cm, tm)
    requires g in cm && tp in cm[g] && info' == SeedOne(info, g, tp, cm[g][tp], tm)
    ensures SeededPartition(Entry(before, tp), info'[tp], tp, seeded + {(g, tp)}, cm, tm)
  {
    if tp !in info {
      UnseededPartition(before, seeded, cm, tm, tp);
    }
    SeedIntoStep(Entry(before, tp), Entry(info, tp), tp, seeded, cm, tm, g);
  }

  /** The partitions left alone in one step. */
  lemma SeedStepElsewhere(before: InfoMap, info: InfoMap, seeded: set<(Bytes, TopicPartition)>,
                          cm: ConsumerMap, tm: TopicMap, g: Bytes, tp: TopicPartition, info': InfoMap, tp': TopicPartition)
    requires SeededBy(before, info, seeded, cm, tm)
    requires g in cm && tp in cm[g] && info' == SeedOne(info, g, tp, cm[g][tp], tm)
    requires tp' in info' && tp' != tp
    ensures SeededPartition(Entry(before, tp'), info'[tp'], tp', seeded + {(g, tp)}, cm, tm)
  {
    GroupsOfOther(seeded, g, tp, tp');
    assert info'[tp'] == info[tp'];
    assert SeededPartition(Entry(before, tp'), info[tp'], tp', seeded, cm, tm);
  }

  /** Every partition after one step, seeded or left alone. */
  lemma SeedStepPartitions(before: InfoMap, info: InfoMap, seeded: set<(Bytes, TopicPartition)>,
                           cm: ConsumerMap, tm: TopicMap, g: Bytes, tp: TopicPartition, info': InfoMap)
    requires SeededBy(before, info, seeded, cm, tm)
    requires g in cm && tp in cm[g] && info' == SeedOne(info, g, tp, cm[g][tp], tm)
    ensures forall tp' | tp' in info' :: SeededPartition(Entry(before, tp'), info'[tp'], tp', seeded + {(g, tp)}, cm, tm)
  {
    forall tp' | tp' in info'
      ensures SeededPartition(Entry(before, tp'), info'[tp'], tp', seeded + {(g, tp)}, cm, tm)
    {
      if tp' == tp {
        SeedStepHere(before, info, seeded, cm, tm, g, tp, info');
      } else {
        SeedStepElsewhere(before, info, seeded, cm, tm, g, tp, info', tp');
      }
    }
  }

  /** The partitions after one step: the one seeded joins the others. */
  lemma SeedStepKeys(before: InfoMap, info: InfoMap, seeded: set<(Bytes, TopicPartition)>, cm: ConsumerMap,
                     g: Bytes, tp: TopicPartition, info': InfoMap)
    requires forall p | p in seeded :: p.0 in cm && p.1 in cm[p.0]
    requires g in cm && tp in cm[g]
    requires info.Keys == before.Keys + PartitionsOf(seeded)
    requires info'.Keys == info.Keys + {tp}
    ensures forall p | p in seeded + {(g, tp)} :: p.0 in cm && p.1 in cm[p.0]
    ensures info'.Keys == before.Keys + PartitionsOf(seeded + {(g, tp)})
  {
    PartitionsOfAdd(seeded, g, tp);
  }

  /** SeededBy from its three parts. */
  lemma SeededByParts(before: InfoMap, after: InfoMap, seeded: set<(Bytes, TopicPartition)>,
                      cm: ConsumerMap, tm: TopicMap)
    requires forall p | p in seeded :: p.0 in cm && p.1 in cm[p.0]
    requires after.Keys == before.Keys + PartitionsOf(seeded)
    requires forall tp | tp in after :: SeededPartition(Entry(before, tp), after[tp], tp, seeded, cm, tm)
    ensures SeededBy(before, after, seeded, cm, tm)
  {
  }

  /** Seeding one more stored pair keeps the characterisation. */
  lemma SeedStep(before: InfoMap, info: InfoMap, seeded: set<(Bytes, TopicPartition)>,
                 cm: ConsumerMap, tm: TopicMap, g: Bytes, tp: TopicPartition)
    requires SeededBy(before, info, seeded, cm, tm)
    requires g in cm && tp in cm[g]
    ensures SeededBy(before, SeedOne(info, g, tp, cm[g][tp], tm), seeded + {(g, tp)}, cm, tm)
  {
    var info' := SeedOne(info, g, tp, cm[g][tp], tm);
    SeedStepKeys(before, info, seeded, cm, g, tp, info');
    SeedStepPartitions(before, info, seeded, cm, tm, g, tp, info');
    SeededByParts(before, info', seeded + {(g, tp)}, cm, tm);
  }

  /** Seeding never overwrites the offset of a group already tracked on a
      partition, and never forgets a partition. */
  lemma SeedingKeepsTracked(before: InfoMap, after: InfoMap, seeded: set<(Bytes, TopicPartition)>,
                            cm: ConsumerMap, tm: TopicMap, tp: TopicPartition, g: Bytes)
    requires SeededBy(before, after, seeded, cm, tm)
    requires tp in before && g in before[tp].consumerOffsets
    ensures tp in after && g in after[tp].consumerOffsets
    ensures after[tp].consumerOffsets[g] == before[tp].consumerOffsets[g]
  {
    assert SeededPartition(Entry(before, tp), after[tp], tp, seeded, cm, tm);
  }

  /** A known high-water mark is never replaced by seeding; an unknown one
      is taken from the store once a group of the partition is seeded. */
  lemma SeedingHighWatermark(before: InfoMap, after: InfoMap, seeded: set<(Bytes, TopicPartition)>,
                             cm: ConsumerMap, tm: TopicMap, g: Bytes, tp: TopicPartition)
    requires SeededBy(before, after, seeded, cm, tm)
    requires (g, tp) in seeded
    ensures tp in after
    ensures Entry(before, tp).highWatermark != UnknownOffset ==>
              after[tp].highWatermark == before[tp].highWatermark
    ensures Entry(before, tp).highWatermark == UnknownOffset && tp in tm ==>
              after[tp].highWatermark == tm[tp]
  {
    assert tp in PartitionsOf(seeded);
    assert g in GroupsOf(seeded, tp);
    assert SeededPartition(Entry(before, tp), after[tp], tp, seeded, cm, tm);
  }

  /** The pairs (g, tp) for every tp of ks. */
  function Tagged(g: Bytes, ks: set<TopicPartition>): (r: set<(Bytes, TopicPartition)>)
    ensures forall tp :: (g, tp) in r <==> tp in ks
  {
    set tp | tp in ks :: (g, tp)
  }

  /** No listed entry yet, nothing tagged. */
  lemma SeededNone(seeded: set<(Bytes, TopicPartition)>, g: Bytes, offsets: seq<ConsumerOffset>)
    ensures seeded + Tagged(g, ListedKeys(offsets[..0])) == seeded
  {
    assert ListedKeys(offsets[..0]) == {};
  }

  /** One more listed entry tags one more partition. */
  lemma SeededPrefix(seeded: set<(Bytes, TopicPartition)>, g: Bytes, offsets: seq<ConsumerOffset>, j: nat)
    requires j < |offsets|
    ensures seeded + Tagged(g, ListedKeys(offsets[..j + 1]))
         == seeded + Tagged(g, ListedKeys(offsets[..j])) + {(g, KeyOf(offsets[j]))}
  {
    assert offsets[..j + 1] == offsets[..j] + [offsets[j]];
    ListedKeysAppend(offsets[..j], offsets[j]);
  }

  /** The entries listed for a group tag exactly its stored pairs. */
  lemma StoredPairsOfOne(g: Bytes, cm: ConsumerMap, offsets: seq<ConsumerOffset>)
    requires g !in cm ==> offsets == []
    requires g in cm ==> ListedKeys(offsets) == cm[g].Keys
    ensures Tagged(g, ListedKeys(offsets)) == StoredPairs([g], cm)
  {
    if g !in cm {
      assert ListedKeys(offsets) == {};
    }
  }

  /** updates holds one lag update per group of done, against the
      high-water mark offset, and nothing else. */
  ghost predicate LagsCover(updates: multiset<LagUpdate>, done: set<Bytes>, topic: Bytes, partition: int32,
                            offset: int64, groups: map<Bytes, int64>)
  {
    && |updates| == |done|
    && (forall u | u in updates ::
          u.topic == topic && u.partition == partition && u.group in done && u.group in groups &&
          u.lag == Lag(offset, groups[u.group]))
    && (forall g | g in done && g in groups :: updates[LagUpdate(topic, partition, g, Lag(offset, groups[g]))] == 1)
  }

  /** The update of one more group extends the cover. */
  lemma LagsCoverStep(updates: multiset<LagUpdate>, rest: set<Bytes>, topic: Bytes, partition: int32,
                      offset: int64, groups: map<Bytes, int64>, g: Bytes)
    requires LagsCover(updates, groups.Keys - rest, topic, partition, offset, groups)
    requires rest <= groups.Keys && g in rest
    ensures LagsCover(updates + multiset{LagUpdate(topic, partition, g, Lag(offset, groups[g]))}, groups.Keys - (rest - {g}),
                      topic, partition, offset, groups)
  {
    var u := LagUpdate(topic, partition, g, Lag(offset, groups[g]));
    assert u !in updates;
    assert groups.Keys - (rest - {g}) == (groups.Keys - rest) + {g};
  }

  /** A cover of every group is what handle_topic_message emits. */
  lemma LagsCoverAll(updates: multiset<LagUpdate>, done: set<Bytes>, topic: Bytes, partition: int32,
                     offset: int64, groups: map<Bytes, int64>)
    requires LagsCover(updates, done, topic, partition, offset, groups) && done == groups.Keys
    ensures |updates| == |groups|
    ensures forall u | u in updates ::
              u.topic == topic && u.partition == partition && u.group in groups &&
              u.lag == Lag(offset, groups[u.group])
    ensures forall g | g in groups :: updates[LagUpdate(topic, partition, g, Lag(offset, groups[g]))] == 1
  {
  }

  /** The loop of handle_topic_message: one lag update per group of the
      partition against the new high-water mark, in any order. */
  method LagsOf(topic: Bytes, partition: int32, offset: int64, groups: map<Bytes, int64>)
    returns (updates: multiset<LagUpdate>)
    ensures |updates| == |groups|
    ensures forall u | u in updates ::
              u.topic == topic && u.partition == partition && u.group in groups &&
              u.lag == Lag(offset, groups[u.group])
    ensures forall g | g in groups :: updates[LagUpdate(topic, partition, g, Lag(offset, groups[g]))] == 1
  {
    var rest := groups.Keys;
    updates := multiset{};
    while rest != {}
      invariant rest <= groups.Keys
      invariant LagsCover(updates, groups.Keys - rest, topic, partition, offset, groups)
      decreases rest
    {
      var g :| g in rest;
      LagsCoverStep(updates, rest, topic, partition, offset, groups, g);
      updates := updates + multiset{LagUpdate(topic, partition, g, Lag(offset, groups[g]))};
      rest := rest - {g};
    }
    LagsCoverAll(updates, groups.Keys - rest, topic, partition, offset, groups);
  }

  class LagTracker {
    /** topic_partition_info_ */
    var info: InfoMap

    constructor ()
      ensures info == map[]
    {
      info := map[];
    }

    /** handle_new_consumer: the tracker ignores new groups. */
    method HandleNewConsumer(group: Bytes)
      ensures info == old(info)
    {
    }

    /** handle_new_topic: the tracker ignores new topics. */
    method HandleNewTopic(topic: Bytes)
      ensures info == old(info)
    {
    }

    /** handle_consumer_commit: the group's offset on the partition becomes
        offset (the partition's entry is created, high-water mark unknown, if
        needed); exactly one lag update is emitted when the high-water mark
        is known, none otherwise. Other partitions are untouched. */
    method HandleConsumerCommit(group: Bytes, topic: Bytes, partition: int32, offset: int64)
      returns (updates: multiset<LagUpdate>)
      modifies this
      ensures var e := Entry(old(info), TopicPartition(topic, partition));
              info == old(info)[TopicPartition(topic, partition) :=
                                  e.(consumerOffsets := e.consumerOffsets[group := offset])]
      ensures var hw := Entry(old(info), TopicPartition(topic, partition)).highWatermark;
              && (hw == UnknownOffset ==> updates == multiset{})
              && (hw != UnknownOffset ==> updates == multiset{LagUpdate(topic, partition, group, Lag(hw, offset))})
      ensures TopicPartition(topic, partition) !in old(info) ==>
                && info[TopicPartition(topic, partition)] == PartitionInfo(UnknownOffset, map[group := offset])
                && updates == multiset{}
    {
      var tp := TopicPartition(topic, partition);
      var e := Entry(info, tp);
      e := e.(consumerOffsets := e.consumerOffsets[group := offset]);
      info := info[tp := e];
      updates := multiset{};
      if e.highWatermark != UnknownOffset {
        updates := updates + multiset{LagUpdate(topic, partition, group, Lag(e.highWatermark, offset))};
      }
    }

    /** handle_topic_message: the high-water mark of the partition becomes
        offset, and every group tracked on it gets one lag update against
        the new mark. Other partitions are untouched. */
    method HandleTopicMessage(topic: Bytes, partition: int32, offset: int64)
      returns (updates: multiset<LagUpdate>)
      modifies this
      ensures var e := Entry(old(info), TopicPartition(topic, partition));
              info == old(info)[TopicPartition(topic, partition) := e.(highWatermark := offset)]
      ensures var groups := Entry(old(info), TopicPartition(topic, partition)).consumerOffsets;
              && |updates| == |groups|
              && (forall u | u in updates ::
                    u.topic == topic && u.partition == partition && u.group in groups &&
                    u.lag == Lag(offset, groups[u.group]))
              && (forall g | g in groups :: updates[LagUpdate(topic, partition, g, Lag(offset, groups[g]))] == 1)
    {
      var tp := TopicPartition(topic, partition);
      var e := Entry(info, tp);
      e := e.(highWatermark := offset);
      info := info[tp := e];
      updates := LagsOf(topic, partition, offset, e.consumerOffsets);
    }

    /** The body of the inner loop of handle_initialize: one stored offset of
        consumer, emplaced, and the high-water mark looked up in the store
        while it is unknown. */
    method SeedEntry(store: OffsetStore, consumer: Bytes, entry: ConsumerOffset)
      modifies this
      ensures info == SeedOne(old(info), consumer, KeyOf(entry), entry.topicPartition.offset, store.topicOffsets)
    {
      var tp := KeyOf(entry);
      var e := Entry(info, tp);
      if consumer !in e.consumerOffsets {
        e := e.(consumerOffsets := e.consumerOffsets[consumer := entry.topicPartition.offset]);
      }
      if e.highWatermark == UnknownOffset {
        var stored := store.GetTopicOffset(tp.topic, tp.partition);
        if stored.Some? {
          Int64RoundTrip(0, store.topicOffsets[tp]);
          e := e.(highWatermark := ToInt64(stored.value));
        }
      }
      info := info[tp := e];
    }

    /** The stored offsets of one consumer, seeded one after the other. */
    method SeedConsumer(store: OffsetStore, consumer: Bytes, ghost before: InfoMap,
                        ghost seeded: set<(Bytes, TopicPartition)>)
      requires SeededBy(before, info, seeded, store.consumerOffsets, store.topicOffsets)
      modifies this
      ensures SeededBy(before, info, seeded + StoredPairs([consumer], store.consumerOffsets),
                       store.consumerOffsets, store.topicOffsets)
    {
      var offsets := store.GetConsumerOffsets(consumer);
      ghost var cm := store.consumerOffsets;
      SeededNone(seeded, consumer, offsets);
      for j := 0 to |offsets|
        invariant SeededBy(before, info, seeded + Tagged(consumer, ListedKeys(offsets[..j])), cm, store.topicOffsets)
      {
        var entry := offsets[j];
        ghost var done := seeded + Tagged(consumer, ListedKeys(offsets[..j]));
        assert KeyOf(entry) in ListedKeys(offsets);
        assert entry.topicPartition.offset == cm[consumer][KeyOf(entry)];
        SeedStep(before, info, done, cm, store.topicOffsets, consumer, KeyOf(entry));
        SeedEntry(store, consumer, entry);
        SeededPrefix(seeded, consumer, offsets, j);
      }
      assert offsets[..|offsets|] == offsets;
      StoredPairsOfOne(consumer, cm, offsets);
    }

    /** handle_initialize: every stored offset of every listed consumer is
        seeded into the tracker. The list of consumers is a parameter:
        OffsetStore::get_consumers is not part of this model. */
    method HandleInitialize(store: OffsetStore, consumers: seq<Bytes>)
      modifies this
      ensures SeededBy(old(info), info, StoredPairs(consumers, store.consumerOffsets),
                       store.consumerOffsets, store.topicOffsets)
    {
      ghost var before := info;
      SeededByNothing(info, store.consumerOffsets, store.topicOffsets);
      for i := 0 to |consumers|
        invariant SeededBy(before, info, StoredPairs(consumers[..i], store.consumerOffsets),
                           store.consumerOffsets, store.topicOffsets)
      {
        SeedConsumer(store, consumers[i], before, StoredPairs(consumers[..i], store.consumerOffsets));
        assert StoredPairs(consumers[..i + 1], store.consumerOffsets)
            == StoredPairs(consumers[..i], store.consumerOffsets) + StoredPairs([consumers[i]], store.consumerOffsets) by {
          assert consumers[..i + 1] == consumers[..i] + [consumers[i]];
        }
      }
      assert consumers[..|consumers|] == consumers;
    }
  }
}
