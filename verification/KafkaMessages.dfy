/** Messages, partitions and the offsets a batch commits (packages/steveo/src/consumers/kafka.ts). */
module KafkaMessages {
  import opened Decimals

  datatype Partition = Partition(topic: string, partition: nat)

  /** A delivered message, without its value and key. */
  datatype Message = Message(topic: string, partition: nat, offset: nat) {
    function At(): Partition { Partition(topic, partition) }
  }

  /** An offset to commit: the next one to read. */
  datatype TopicPartitionOffset = TopicPartitionOffset(topic: string, partition: nat, offset: nat) {
    function At(): Partition { Partition(topic, partition) }
  }

  function MessageAt(p: Partition, offset: nat): Message {
    Message(p.topic, p.partition, offset)
  }

  /** The string both maps of the runner are keyed with. */
  function Key(p: Partition): string {
    p.topic + "/" + Decimal(p.partition)
  }

  /** The last slash of a key is the one the template put there. */
  lemma LastSlash(topic: string, partition: nat)
    ensures var k, n := topic + "/" + Decimal(partition), |Decimal(partition)|;
      && |k| == |topic| + 1 + n
      && k[|k| - n - 1] == '/'
      && (forall i :: |k| - n <= i < |k| ==> k[i] != '/')
      && k[..|k| - n - 1] == topic
      && k[|k| - n..] == Decimal(partition)
  {
    var k, d := topic + "/" + Decimal(partition), Decimal(partition);
    assert forall i :: |k| - |d| <= i < |k| ==> k[i] == d[i - |topic| - 1];
  }

  /** Topics may contain slashes and digits, yet no two partitions share a key. */
  lemma KeyIsInjective(a: Partition, b: Partition)
    requires Key(a) == Key(b)
    ensures a == b
  {
    LastSlash(a.topic, a.partition);
    LastSlash(b.topic, b.partition);
    DecimalIsInjective();
  }

  function Partitions(batch: seq<Message>): set<Partition> {
    set m | m in batch :: m.At()
  }

  ghost predicate IsMaxOffset(batch: seq<Message>, p: Partition, max: nat) {
    && MessageAt(p, max) in batch
    && forall m :: m in batch && m.At() == p ==> m.offset <= max
  }

  lemma {:induction false} SomeMaxOffset(batch: seq<Message>, p: Partition)
    requires p in Partitions(batch)
    ensures exists max: nat :: IsMaxOffset(batch, p, max)
  {
    var rest, last := batch[..|batch| - 1], batch[|batch| - 1];
    assert forall m :: m in batch <==> m in rest || m == last;
    if last.At() == p && p !in Partitions(rest) {
      assert IsMaxOffset(batch, p, last.offset);
    } else {
      if last.At() != p {
        var m :| m in batch && m.At() == p;
        assert m in rest;
      }
      SomeMaxOffset(rest, p);
      var max: nat :| IsMaxOffset(rest, p, max);
      assert IsMaxOffset(batch, p, if last.At() == p && max < last.offset then last.offset else max);
    }
  }

  /** The highest offset a batch holds for one partition. */
  ghost function MaxOffset(batch: seq<Message>, p: Partition): (max: nat)
    requires p in Partitions(batch)
    ensures IsMaxOffset(batch, p, max)
  {
    SomeMaxOffset(batch, p);
    var max: nat :| IsMaxOffset(batch, p, max);
    max
  }

  /** What a batch commits for some of its partitions: just past the highest offset of each. */
  ghost function CommitsOf(batch: seq<Message>, ps: set<Partition>): map<Partition, nat> {
    map p | p in ps && p in Partitions(batch) :: MaxOffset(batch, p) + 1
  }

  ghost function Commits(batch: seq<Message>): map<Partition, nat> {
    CommitsOf(batch, Partitions(batch))
  }

  lemma SameMaxOffset(batch: seq<Message>, other: seq<Message>, p: Partition)
    requires forall m :: m in batch <==> m in other
    requires p in Partitions(batch) && p in Partitions(other)
    ensures MaxOffset(batch, p) == MaxOffset(other, p)
  {
    assert MessageAt(p, MaxOffset(batch, p)) in other;
    assert MessageAt(p, MaxOffset(other, p)) in batch;
  }

  /** The order messages arrive in does not change what is committed. */
  lemma CommitsIgnoreOrder(batch: seq<Message>, other: seq<Message>)
    requires multiset(batch) == multiset(other)
    ensures Commits(batch) == Commits(other)
  {
    assert forall m :: m in batch <==> m in other by {
      assert forall m :: m in batch <==> m in multiset(batch);
      assert forall m :: m in other <==> m in multiset(other);
    }
    assert Partitions(batch) == Partitions(other);
    forall p | p in Partitions(batch) ensures MaxOffset(batch, p) == MaxOffset(other, p) {
      SameMaxOffset(batch, other, p);
    }
  }

  /** One message for each of these partitions of the batch, each at its partition's highest offset. */
  ghost predicate OnePer(ms: seq<Message>, batch: seq<Message>, ps: set<Partition>) {
    && (forall i :: 0 <= i < |ms| ==> ms[i].At() in ps && ms[i].At() in Partitions(batch)
                                      && ms[i].offset == MaxOffset(batch, ms[i].At()))
    && (forall p :: p in ps ==> exists i :: 0 <= i < |ms| && ms[i].At() == p)
    && (forall i, j :: 0 <= i < j < |ms| ==> ms[i].At() != ms[j].At())
  }

  ghost predicate OnePerPartition(ms: seq<Message>, batch: seq<Message>) {
    OnePer(ms, batch, Partitions(batch))
  }

  /** What a runner knows about commits: its unflushed offsets, and the commits its client has yet to act on. */
  datatype Ledger = Ledger(offsets: map<Partition, nat>, pending: seq<Message>)

  /** One commit for each of these partitions, in some order, and nothing else. */
  ghost predicate PartlyCommitted(before: Ledger, batch: seq<Message>, ps: set<Partition>, after: Ledger) {
    && ps <= Partitions(batch)
    && after.offsets == before.offsets + CommitsOf(batch, ps)
    && before.pending <= after.pending
    && OnePer(after.pending[|before.pending|..], batch, ps)
  }

  /** The effect of commitBatch. */
  ghost predicate BatchCommitted(before: Ledger, batch: seq<Message>, after: Ledger) {
    PartlyCommitted(before, batch, Partitions(batch), after)
  }

  /** The highest message of each partition of the batch is committed, once, and nothing else is. */
  ghost predicate QueuesHighest(before: seq<Message>, batch: seq<Message>, after: seq<Message>) {
    && before <= after
    && (forall i :: |before| <= i < |after| ==> IsHighest(after[i], batch))
    && (forall i, j :: |before| <= i < j < |after| ==> after[i].At() != after[j].At())
    && forall m :: m in batch ==> exists i :: |before| <= i < |after| && after[i].At() == m.At()
  }

  ghost predicate IsHighest(highest: Message, batch: seq<Message>) {
    highest in batch && forall m :: m in batch && m.At() == highest.At() ==> m.offset <= highest.offset
  }

  /** For each partition of the batch, what follows its highest message is noted, and no other note changes. */
  ghost predicate NotesHighest(before: map<Partition, nat>, batch: seq<Message>, after: map<Partition, nat>) {
    && (forall m :: IsHighest(m, batch) ==> m.At() in after && after[m.At()] == m.offset + 1)
    && forall p :: (forall m :: m in batch ==> m.At() != p) ==>
         (p in after <==> p in before) && (p in before ==> after[p] == before[p])
  }

  lemma NotedHighest(before: map<Partition, nat>, batch: seq<Message>)
    ensures NotesHighest(before, batch, before + Commits(batch))
  {
    forall m | IsHighest(m, batch) ensures m.At() in Partitions(batch) && MaxOffset(batch, m.At()) == m.offset {
      assert MessageAt(m.At(), MaxOffset(batch, m.At())) in batch;
    }
  }

  lemma QueuedHighest(before: seq<Message>, batch: seq<Message>, after: seq<Message>)
    requires before <= after && OnePerPartition(after[|before|..], batch)
    ensures QueuesHighest(before, batch, after)
  {
    var n, sent := |before|, after[|before|..];
    forall i | n <= i < |after| ensures IsHighest(after[i], batch) {
      assert sent[i - n] == MessageAt(sent[i - n].At(), MaxOffset(batch, sent[i - n].At()));
    }
    forall i, j | n <= i < j < |after| ensures after[i].At() != after[j].At() {
      assert sent[i - n] == after[i] && sent[j - n] == after[j];
    }
    forall m | m in batch ensures exists i :: n <= i < |after| && after[i].At() == m.At() {
      assert m.At() in Partitions(batch);
      var i :| 0 <= i < |sent| && sent[i].At() == m.At();
      assert after[n + i].At() == m.At();
    }
  }

  /** The effect of a processBatch that throws once its messages have settled, before or between its commits. */
  ghost predicate Abandoned(before: Ledger, batch: seq<Message>, after: Ledger) {
    exists ps :: PartlyCommitted(before, batch, ps, after)
  }

  /** The list passed to commitSync: every noted offset once. */
  ghost predicate Lists(os: seq<TopicPartitionOffset>, offsets: map<Partition, nat>) {
    && (forall i, j :: 0 <= i < j < |os| ==> os[i].At() != os[j].At())
    && (forall o :: o in os ==> o.At() in offsets && offsets[o.At()] == o.offset)
    && (forall p :: p in offsets ==> exists o :: o in os && o.At() == p)
  }

  /** What a flush of these offsets sends: nothing if there are none, and else their list. */
  ghost predicate FlushSends(offsets: map<Partition, nat>, sent: seq<TopicPartitionOffset>) {
    (sent == [] <==> offsets == map[]) && Lists(sent, offsets)
  }

  function Min(a: nat, b: nat): (m: nat)
    ensures m <= a && m <= b && (m == a || m == b)
  {
    if a < b then a else b
  }

  /** The messages of one consume callback that reach the batch: none while paused, at most a batchful. */
  function Taken(batchSize: nat, paused: bool, messages: seq<Message>): (taken: seq<Message>)
    ensures taken <= messages
    ensures |taken| == if paused then 0 else Min(|messages|, batchSize)
  {
    if paused then []
    else if |messages| <= batchSize then messages
    else messages[..batchSize]
  }

  /** The string-keyed map holds, under each partition's key, that partition's entry of the other map. */
  ghost predicate Represents(at: map<string, TopicPartitionOffset>, offsets: map<Partition, nat>) {
    && (forall k :: k in at ==> k == Key(at[k].At()) && at[k].At() in offsets && offsets[at[k].At()] == at[k].offset)
    && (forall p :: p in offsets ==> Key(p) in at && at[Key(p)].At() == p)
  }

  /** What is noted past a message stands in the string-keyed map under its partition's key. */
  lemma RepresentsAt(at: map<string, TopicPartitionOffset>, offsets: map<Partition, nat>, m: Message)
    requires Represents(at, offsets) && m.At() in offsets && offsets[m.At()] == m.offset + 1
    ensures var key := m.topic + "/" + Decimal(m.partition);
      key in at && at[key] == TopicPartitionOffset(m.topic, m.partition, m.offset + 1)
  {
    assert Key(m.At()) in at;
  }

  /** Setting a key sets exactly its partition: string keys lose nothing. */
  lemma SetRepresents(at: map<string, TopicPartitionOffset>, offsets: map<Partition, nat>, o: TopicPartitionOffset)
    requires Represents(at, offsets)
    ensures Represents(at[Key(o.At()) := o], offsets[o.At() := o.offset])
    ensures Key(o.At()) in at <==> o.At() in offsets
  {
    forall p | p in offsets && Key(p) == Key(o.At()) ensures p == o.At() {
      KeyIsInjective(p, o.At());
    }
    if Key(o.At()) in at {
      KeyIsInjective(at[Key(o.At())].At(), o.At());
    }
    forall k | k in at && k != Key(o.At()) ensures at[k].At() != o.At() {
    }
  }
}
