/** The decoder for records of the offset-commit log (schema versions 0 and
    1 of the offset-commit key and value), the per-message handler that
    writes decoded records into the ConsumerOffsetStore, and the dispatch
    loop that keeps going after a record fails to parse. */
module OffsetReader {
  import opened Base
  import opened Endian
  import opened Memory
  import opened OffsetMaps
  import opened ConsumerOffsetStores

  /** What handling one message amounts to: a key of a newer schema is
      ignored, a malformed message is a parse failure (ParseException), and
      anything else is one offset commit. */
  datatype Outcome =
    | Ignored
    | ParseError
    | Record(groupId: Bytes, topic: Bytes, partition: bv32, offset: bv64)

  /** The fields of a key of version 0 or 1. */
  datatype KeyFields = KeyFields(groupId: Bytes, topic: Bytes, partition: bv32)

  /** What reading a key gives: a newer schema, a malformed key, or the
      fields. */
  datatype KeyResult = NewerKey | BadKey | GoodKey(fields: KeyFields)

  /** The partition: four big-endian bytes. */
  function DecodePartition(s: Bytes): Option<bv32>
  {
    if |s| < 4 then None else Some(Be32(s[..4]))
  }

  /** The topic and the partition that follows it. */
  function DecodeTopicPartition(s: Bytes): Option<(Bytes, bv32)>
  {
    match ParseString(s)
    case None => None
    case Some((topic, afterTopic)) =>
      match DecodePartition(afterTopic)
      case None => None
      case Some(partition) => Some((topic, partition))
  }

  /** Group, topic and partition, read from the bytes after the version. */
  function DecodeKeyFields(s: Bytes): Option<KeyFields>
  {
    match ParseString(s)
    case None => None
    case Some((group, afterGroup)) =>
      match DecodeTopicPartition(afterGroup)
      case None => None
      case Some((topic, partition)) => Some(KeyFields(group, topic, partition))
  }

  function DecodeKey(key: Bytes): KeyResult
  {
    if |key| < 2 then BadKey
    else if Be16(key[..2]) > 1 then NewerKey
    else match DecodeKeyFields(key[2..])
      case None => BadKey
      case Some(fields) => GoodKey(fields)
  }

  /** The committed offset of a value of version 0 or 1. */
  function DecodeValue(value: Bytes): Option<bv64>
  {
    if |value| < 2 then None
    else if Be16(value[..2]) > 1 then None
    else if |value| < 10 then None
    else Some(Be64(value[2..10]))
  }

  /** The outcome of handle_message for a message with this key and value.
      The key is decoded in full before the value is looked at. */
  function DecodeMessage(key: Bytes, value: Bytes): Outcome
  {
    match DecodeKey(key)
    case NewerKey => Ignored
    case BadKey => ParseError
    case GoodKey(k) =>
      match DecodeValue(value)
      case None => ParseError
      case Some(offset) => Record(k.groupId, k.topic, k.partition, offset)
  }

  // ---------------------------------------------------------------------
  // The wire format, field by field, for the round-trip properties.

  /** A serialized key: the version, the group's length prefix and bytes,
      the topic's length prefix and bytes, and the partition; numbers are
      big-endian. */
  datatype KeyLayout = KeyLayout(version: Bytes, groupLength: Bytes, group: Bytes,
                                 topicLength: Bytes, topic: Bytes, partition: Bytes)

  /** Each number has its size and each length prefix holds the length of
      the string after it. */
  predicate WellFormedKey(k: KeyLayout)
  {
    && |k.version| == 2 && |k.groupLength| == 2 && |k.topicLength| == 2 && |k.partition| == 4
    && StringLength(k.groupLength) == |k.group| && StringLength(k.topicLength) == |k.topic|
  }

  function KeyFieldBytes(k: KeyLayout): Bytes
  {
    k.groupLength + k.group + (k.topicLength + k.topic + k.partition)
  }

  function KeyBytes(k: KeyLayout): Bytes
  {
    k.version + KeyFieldBytes(k)
  }

  /** A serialized value: the version, then the offset, both big-endian. */
  datatype ValueLayout = ValueLayout(version: Bytes, offset: Bytes)

  predicate WellFormedValue(v: ValueLayout)
  {
    |v.version| == 2 && |v.offset| == 8
  }

  function ValueBytes(v: ValueLayout): Bytes
  {
    v.version + v.offset
  }

  /** A length-prefixed string parses back to its body, leaving what
      follows. */
  lemma ParseStringAt(length: Bytes, body: Bytes, rest: Bytes)
    requires |length| == 2 && StringLength(length) == |body|
    ensures ParseString(length + body + rest) == Some((body, rest))
  {
    var s := length + body + rest;
    assert s[..2] == length;
    assert s[2..2 + |body|] == body;
    assert s[2 + |body|..] == rest;
  }

  /** A length-prefixed string cut before its end does not parse. */
  lemma ParseStringCut(length: Bytes, body: Bytes, rest: Bytes, cut: nat)
    requires |length| == 2 && StringLength(length) == |body|
    requires cut < 2 + |body|
    ensures ParseString((length + body + rest)[..cut]) == None
  {
    if cut >= 2 {
      var s := (length + body + rest)[..cut];
      assert s[..2] == length;
    }
  }

  /** Taking a prefix that reaches past a: all of a and a prefix of b. */
  lemma TakeOfAppend(a: Bytes, b: Bytes, n: nat)
    requires |a| <= n <= |a| + |b|
    ensures (a + b)[..n] == a + b[..n - |a|]
  {
  }

  /** A length-prefixed topic followed by a partition decodes to both,
      whatever follows them. */
  lemma TopicPartitionRoundTrip(topicLength: Bytes, topic: Bytes, partition: Bytes, tail: Bytes)
    requires |topicLength| == 2 && StringLength(topicLength) == |topic| && |partition| == 4
    ensures DecodeTopicPartition(topicLength + topic + (partition + tail)) == Some((topic, Be32(partition)))
  {
    ParseStringAt(topicLength, topic, partition + tail);
    assert (partition + tail)[..4] == partition;
  }

  lemma {:induction false} KeyFieldsRoundTrip(k: KeyLayout, tail: Bytes)
    requires WellFormedKey(k)
    ensures DecodeKeyFields(KeyFieldBytes(k) + tail) == Some(KeyFields(k.group, k.topic, Be32(k.partition)))
  {
    var afterGroup := k.topicLength + k.topic + (k.partition + tail);
    assert KeyFieldBytes(k) + tail == k.groupLength + k.group + afterGroup;
    ParseStringAt(k.groupLength, k.group, afterGroup);
    TopicPartitionRoundTrip(k.topicLength, k.topic, k.partition, tail);
  }

  /** Decoding a well-formed key of version 0 or 1 gives back its fields,
      whatever bytes follow them. */
  lemma {:induction false} KeyRoundTrip(k: KeyLayout, tail: Bytes)
    requires WellFormedKey(k) && Be16(k.version) <= 1
    ensures DecodeKey(KeyBytes(k) + tail) == GoodKey(KeyFields(k.group, k.topic, Be32(k.partition)))
  {
    var key := KeyBytes(k) + tail;
    assert key == k.version + (KeyFieldBytes(k) + tail);
    assert key[..2] == k.version;
    assert key[2..] == KeyFieldBytes(k) + tail;
    KeyFieldsRoundTrip(k, tail);
  }

  /** Decoding a value of version 0 or 1 gives back its offset, whatever
      bytes follow it. */
  lemma {:induction false} ValueRoundTrip(v: ValueLayout, tail: Bytes)
    requires WellFormedValue(v) && Be16(v.version) <= 1
    ensures DecodeValue(ValueBytes(v) + tail) == Some(Be64(v.offset))
  {
    var value := ValueBytes(v) + tail;
    assert value[..2] == v.version;
    assert value[2..10] == v.offset;
  }

  /** Decoding a well-formed key of version 0 or 1 and a value of version 0
      or 1 gives back exactly the serialized fields, whatever bytes follow
      the parsed fields in either buffer. */
  lemma {:induction false} DecodeRoundTrip(k: KeyLayout, v: ValueLayout, keyTail: Bytes, valueTail: Bytes)
    requires WellFormedKey(k) && Be16(k.version) <= 1
    requires WellFormedValue(v) && Be16(v.version) <= 1
    ensures DecodeMessage(KeyBytes(k) + keyTail, ValueBytes(v) + valueTail)
            == Record(k.group, k.topic, Be32(k.partition), Be64(v.offset))
  {
    KeyRoundTrip(k, keyTail);
    ValueRoundTrip(v, valueTail);
  }

  /** Writing the numbers with host_to_be: a commit of any group, topic,
      partition and offset, serialized with version-0 or version-1 headers,
      decodes to exactly that commit. */
  lemma {:induction false} EncodeDecode(keyVersion: bv16, group: Bytes, groupLength: bv16,
                                        topic: Bytes, topicLength: bv16, partition: bv32,
                                        valueVersion: bv16, offset: bv64)
    requires keyVersion <= 1 && valueVersion <= 1
    requires groupLength as int == |group| && topicLength as int == |topic|
    ensures DecodeMessage(KeyBytes(KeyLayout(BeBytes(W16(keyVersion)), BeBytes(W16(groupLength)), group,
                                             BeBytes(W16(topicLength)), topic, BeBytes(W32(partition)))),
                          ValueBytes(ValueLayout(BeBytes(W16(valueVersion)), BeBytes(W64(offset)))))
            == Record(group, topic, partition, offset)
  {
    var k := KeyLayout(BeBytes(W16(keyVersion)), BeBytes(W16(groupLength)), group,
                       BeBytes(W16(topicLength)), topic, BeBytes(W32(partition)));
    var v := ValueLayout(BeBytes(W16(valueVersion)), BeBytes(W64(offset)));
    Be16Encoding(keyVersion);
    Be16Encoding(groupLength);
    Be16Encoding(topicLength);
    Be32Encoding(partition);
    Be16Encoding(valueVersion);
    Be64Encoding(offset);
    DecodeRoundTrip(k, v, [], []);
    AppendEmpty(KeyBytes(k));
    AppendEmpty(ValueBytes(v));
  }

  lemma Be16Encoding(x: bv16)
    ensures |BeBytes(W16(x))| == 2
    ensures Be16(BeBytes(W16(x))) == x
    ensures StringLength(BeBytes(W16(x))) == x as int
  {
    BeRoundTrip(W16(x), []);
    assert BeBytes(W16(x))[..2] == BeBytes(W16(x));
  }

  lemma Be32Encoding(x: bv32)
    ensures Be32(BeBytes(W32(x))) == x
  {
    BeRoundTrip(W32(x), []);
  }

  lemma Be64Encoding(x: bv64)
    ensures Be64(BeBytes(W64(x))) == x
  {
    BeRoundTrip(W64(x), []);
  }

  lemma AppendEmpty(s: Bytes)
    ensures s + [] == s
  {
  }

  /** A key whose version is above 1 is ignored, whatever else the message
      holds: no error and no write. */
  lemma IgnoresNewerKeyVersions(key: Bytes, value: Bytes)
    requires |key| >= 2 && Be16(key[..2]) > 1
    ensures DecodeMessage(key, value) == Ignored
  {
  }

  /** A well-formed key with a value whose version is above 1 is a parse
      failure, never an offset. */
  lemma {:induction false} RejectsNewerValueVersions(k: KeyLayout, keyTail: Bytes, value: Bytes)
    requires WellFormedKey(k) && Be16(k.version) <= 1
    requires |value| >= 2 && Be16(value[..2]) > 1
    ensures DecodeMessage(KeyBytes(k) + keyTail, value) == ParseError
  {
    KeyRoundTrip(k, keyTail);
  }

  /** A topic and partition cut anywhere do not decode. */
  lemma CutTopicPartition(topicLength: Bytes, topic: Bytes, partition: Bytes, cut: nat)
    requires |topicLength| == 2 && StringLength(topicLength) == |topic| && |partition| == 4
    requires cut < |topicLength + topic + partition|
    ensures DecodeTopicPartition((topicLength + topic + partition)[..cut]) == None
  {
    var t := topicLength + topic;
    if cut < |t| {
      ParseStringCut(topicLength, topic, partition, cut);
    } else {
      TakeOfAppend(t, partition, cut);
      ParseStringAt(topicLength, topic, partition[..cut - |t|]);
    }
  }

  /** Key fields cut anywhere do not decode. */
  lemma {:induction false} CutKeyFields(k: KeyLayout, cut: nat)
    requires WellFormedKey(k)
    requires cut < |KeyFieldBytes(k)|
    ensures DecodeKeyFields(KeyFieldBytes(k)[..cut]) == None
  {
    var g := k.groupLength + k.group;
    var afterGroup := k.topicLength + k.topic + k.partition;
    if cut < |g| {
      ParseStringCut(k.groupLength, k.group, afterGroup, cut);
    } else {
      TakeOfAppend(g, afterGroup, cut);
      ParseStringAt(k.groupLength, k.group, afterGroup[..cut - |g|]);
      CutTopicPartition(k.topicLength, k.topic, k.partition, cut - |g|);
    }
  }

  lemma CutAfterHeader(header: Bytes, rest: Bytes, cut: nat)
    requires |header| == 2 && 2 <= cut <= 2 + |rest|
    ensures (header + rest)[..cut][..2] == header
    ensures (header + rest)[..cut][2..] == rest[..cut - 2]
  {
  }

  /** Cutting a well-formed key of version 0 or 1 anywhere makes the message
      a parse failure, whatever the value. */
  lemma {:induction false} TruncatedKeyFails(k: KeyLayout, cut: nat, value: Bytes)
    requires WellFormedKey(k) && Be16(k.version) <= 1
    requires cut < |KeyBytes(k)|
    ensures DecodeMessage(KeyBytes(k)[..cut], value) == ParseError
  {
    if cut >= 2 {
      CutAfterHeader(k.version, KeyFieldBytes(k), cut);
      CutKeyFields(k, cut - 2);
    }
  }

  /** Cutting a well-formed value anywhere, down to the empty value, makes
      the message a parse failure, even with a well-formed key. */
  lemma {:induction false} TruncatedValueFails(k: KeyLayout, keyTail: Bytes, v: ValueLayout, cut: nat)
    requires WellFormedKey(k) && Be16(k.version) <= 1
    requires WellFormedValue(v) && Be16(v.version) <= 1
    requires cut < |ValueBytes(v)|
    ensures DecodeMessage(KeyBytes(k) + keyTail, ValueBytes(v)[..cut]) == ParseError
  {
    KeyRoundTrip(k, keyTail);
    if cut >= 2 {
      assert ValueBytes(v)[..cut][..2] == v.version;
    }
  }

  // ---------------------------------------------------------------------
  // The handler and the dispatch loop.

  /** The store write a decoded record makes, if any. */
  function CommitOf(o: Outcome): seq<Commit>
  {
    match o
    case Record(g, t, p, off) => [Commit(g, TopicPartition(t, ToInt32(p as int)), ToInt64(off as int))]
    case _ => []
  }

  /** The topic and the partition, read one after the other from the key
      stream. */
  method ReadTopicPartition(input: InputMemoryStream) returns (r: Option<(Bytes, bv32)>)
    requires input.Valid()
    modifies input
    ensures input.Valid()
    ensures r == DecodeTopicPartition(old(input.Unread()))
  {
    ghost var start := input.Unread();
    var topic := input.ReadString();
    if topic.None? {
      return None;
    }
    var partition := input.ReadBe(U32);
    if partition.None? {
      return None;
    }
    return Some((topic.value, partition.value.v32));
  }

  /** The key part of handle_message after the version: group, topic and
      partition read one after the other from the key stream. */
  method ReadKeyFields(input: InputMemoryStream) returns (r: Option<KeyFields>)
    requires input.Valid()
    modifies input
    ensures input.Valid()
    ensures r == DecodeKeyFields(old(input.Unread()))
  {
    ghost var start := input.Unread();
    var group := input.ReadString();
    if group.None? {
      return None;
    }
    var rest := ReadTopicPartition(input);
    if rest.None? {
      return None;
    }
    return Some(KeyFields(group.value, rest.value.0, rest.value.1));
  }

  /** The key part of handle_message: the version, and the fields when the
      version is 0 or 1. */
  method ReadKey(input: InputMemoryStream) returns (r: KeyResult)
    requires input.Valid()
    modifies input
    ensures input.Valid()
    ensures r == DecodeKey(old(input.Unread()))
  {
    ghost var start := input.Unread();
    var version := input.ReadBe(U16);
    if version.None? {
      return BadKey;
    }
    if version.value.v16 > 1 {
      return NewerKey;
    }
    assert input.Unread() == start[2..];
    var fields := ReadKeyFields(input);
    if fields.None? {
      return BadKey;
    }
    return GoodKey(fields.value);
  }

  /** The value part of handle_message: the version, and the offset when
      the version is 0 or 1. */
  method ReadValue(input: InputMemoryStream) returns (r: Option<bv64>)
    requires input.Valid()
    modifies input
    ensures input.Valid()
    ensures r == DecodeValue(old(input.Unread()))
  {
    ghost var start := input.Unread();
    var version := input.ReadBe(U16);
    if version.None? {
      return None;
    }
    if version.value.v16 > 1 {
      return None;
    }
    ghost var afterVersion := input.Unread();
    assert afterVersion == start[2..];
    var offset := input.ReadBe(U64);
    if offset.None? {
      return None;
    }
    assert afterVersion[..8] == start[2..10];
    return Some(offset.value.v64);
  }

  /** handle_message: reads the key and then the value through two streams
      and, for an offset-commit record, calls store(group, topic, partition,
      offset) once; on any other outcome the store is untouched. */
  method HandleMessage(key: Bytes, value: Bytes, store: ConsumerOffsetStore) returns (outcome: Outcome)
    modifies store
    ensures outcome == DecodeMessage(key, value)
    ensures store.offsets == PutAll(old(store.offsets), CommitOf(outcome))
  {
    outcome := ReadMessage(key, value);
    if outcome.Record? {
      store.Store(outcome.groupId, outcome.topic, outcome.partition as int, outcome.offset as int);
      assert CommitOf(outcome)[..0] == [];
    }
  }

  /** The reading half of handle_message: the key through one stream and,
      for a key of version 0 or 1, the value through another. */
  method ReadMessage(key: Bytes, value: Bytes) returns (outcome: Outcome)
    ensures outcome == DecodeMessage(key, value)
  {
    var keyInput := new InputMemoryStream(key);
    var k := ReadKey(keyInput);
    if k == NewerKey {
      return Ignored;
    }
    if k == BadKey {
      return ParseError;
    }
    var valueInput := new InputMemoryStream(value);
    var offset := ReadValue(valueInput);
    if offset.None? {
      return ParseError;
    }
    return Record(k.fields.groupId, k.fields.topic, k.fields.partition, offset.value);
  }

  /** The store writes handling one message makes. */
  function MessageCommits(m: (Bytes, Bytes)): seq<Commit>
  {
    CommitOf(DecodeMessage(m.0, m.1))
  }

  /** 1 for a message that fails to parse, 0 for any other. */
  function MessageFailures(m: (Bytes, Bytes)): nat
  {
    if DecodeMessage(m.0, m.1) == ParseError then 1 else 0
  }

  /** f applied to each element in turn, the results concatenated. */
  function FlatMap<A, B>(f: A -> seq<B>, s: seq<A>): seq<B>
  {
    if s == [] then [] else FlatMap(f, s[..|s| - 1]) + f(s[|s| - 1])
  }

  /** f summed over the elements. */
  function Sum<A>(f: A -> nat, s: seq<A>): nat
  {
    if s == [] then 0 else Sum(f, s[..|s| - 1]) + f(s[|s| - 1])
  }

  lemma FlatMapSnoc<A, B>(f: A -> seq<B>, s: seq<A>, x: A)
    ensures FlatMap(f, s + [x]) == FlatMap(f, s) + f(x)
  {
    assert (s + [x])[..|s|] == s;
  }

  lemma SumSnoc<A>(f: A -> nat, s: seq<A>, x: A)
    ensures Sum(f, s + [x]) == Sum(f, s) + f(x)
  {
    assert (s + [x])[..|s|] == s;
  }

  lemma {:induction false} FlatMapAppend<A, B>(f: A -> seq<B>, a: seq<A>, b: seq<A>)
    ensures FlatMap(f, a + b) == FlatMap(f, a) + FlatMap(f, b)
    decreases |b|
  {
    if b != [] {
      var front := b[..|b| - 1];
      assert a + b == (a + front) + [b[|b| - 1]];
      assert b == front + [b[|b| - 1]];
      FlatMapAppend(f, a, front);
      FlatMapSnoc(f, a + front, b[|b| - 1]);
      FlatMapSnoc(f, front, b[|b| - 1]);
    } else {
      assert a + b == a;
    }
  }

  /** The store writes made by a run over these messages, in order. */
  function Commits(messages: seq<(Bytes, Bytes)>): seq<Commit>
  {
    FlatMap(MessageCommits, messages)
  }

  /** How many of the messages fail to parse. */
  function ParseFailures(messages: seq<(Bytes, Bytes)>): nat
  {
    Sum(MessageFailures, messages)
  }

  /** The dispatch loop of run over a given sequence of messages: each
      message is handled, a parse failure is counted (logged) and the loop
      goes on with the next message. */
  method Run(messages: seq<(Bytes, Bytes)>, store: ConsumerOffsetStore) returns (failures: nat)
    modifies store
    ensures store.offsets == PutAll(old(store.offsets), Commits(messages))
    ensures failures == ParseFailures(messages)
  {
    failures := 0;
    var i := 0;
    while i < |messages|
      invariant 0 <= i <= |messages|
      invariant store.offsets == PutAll(old(store.offsets), Commits(messages[..i]))
      invariant failures == ParseFailures(messages[..i])
    {
      var outcome := HandleMessage(messages[i].0, messages[i].1, store);
      if outcome == ParseError {
        failures := failures + 1;
      }
      assert messages[..i + 1] == messages[..i] + [messages[i]];
      FlatMapSnoc(MessageCommits, messages[..i], messages[i]);
      SumSnoc(MessageFailures, messages[..i], messages[i]);
      PutAllAppend(old(store.offsets), Commits(messages[..i]), CommitOf(outcome));
      i := i + 1;
    }
    assert messages[..i] == messages;
  }

  /** Concatenating two runs of messages concatenates their store writes. */
  lemma CommitsAppend(a: seq<(Bytes, Bytes)>, b: seq<(Bytes, Bytes)>)
    ensures Commits(a + b) == Commits(a) + Commits(b)
  {
    FlatMapAppend(MessageCommits, a, b);
  }

  /** A message that fails to parse changes nothing: the store ends up as if
      the message had never been in the log. */
  lemma {:induction false} FailedMessageIsSkipped(m: ConsumerMap, before: seq<(Bytes, Bytes)>,
                                                  bad: (Bytes, Bytes), after: seq<(Bytes, Bytes)>)
    requires DecodeMessage(bad.0, bad.1) == ParseError
    ensures PutAll(m, Commits(before + [bad] + after)) == PutAll(m, Commits(before + after))
  {
    CommitsAppend(before + [bad], after);
    CommitsAppend(before, after);
    FlatMapSnoc(MessageCommits, before, bad);
    assert MessageCommits(bad) == [];
    assert Commits(before) + [] == Commits(before);
  }
}
