/** The runner that processes batches and commits their offsets (packages/steveo/src/consumers/kafka.ts). */
module KafkaRunner {
  import opened Wrappers
  import opened JsMaps
  import opened KafkaMessages

  datatype Status = Fulfilled | Rejected

  /** What consumeCallback does last: leave the group, or ask the client for more. */
  datatype Next = Shutdown | Consume(count: nat)

  class Runner {
    /** The batchProcessing option: None when disabled, Some(0) when no batchSize is given. */
    const batchProcessing: Option<nat>
    var processedOffsets: JsMap<TopicPartitionOffset>
    /** Messages passed to commitMessage that the client has not yet acted on. */
    var queued: seq<Message>
    /** Every message received, with how its receive settled. */
    var settled: seq<(Message, Status)>
    /** Errors logged while flushing. */
    var log: seq<string>
    /** processedOffsets, keyed by partition. */
    ghost var offsets: map<Partition, nat>

    ghost predicate Valid()
      reads this
    {
      processedOffsets.Valid() && Represents(processedOffsets.at, offsets)
    }

    ghost function Books(): Ledger
      reads this
    {
      Ledger(offsets, queued)
    }

    constructor (batchProcessing: Option<nat>)
      ensures Valid() && Books() == Ledger(map[], [])
      ensures this.batchProcessing == batchProcessing && settled == [] && log == []
    {
      this.batchProcessing := batchProcessing;
      processedOffsets := JsMap([], map[]);
      queued, settled, log, offsets := [], [], [], map[];
    }

    /** A single message without batch processing, and five where its size is missing or zero. */
    function GetBatchSize(): (size: nat)
      ensures size > 0
      ensures batchProcessing == None ==> size == 1
      ensures batchProcessing == Some(0) ==> size == 5
      ensures forall asked :: batchProcessing == Some(asked) && asked > 0 ==> size == asked
    {
      match batchProcessing
      case Some(size) => if size != 0 then size else 5
      case None => 1
    }

    /** `commit` says which calls of commitMessage throw. */
    method CommitBatch(batch: seq<Message>, commit: Message -> Outcome<string>) returns (o: Outcome<string>)
      requires Valid()
      modifies this`processedOffsets, this`offsets, this`queued
      ensures Valid()
      ensures if o.Pass? then BatchCommitted(old(Books()), batch, Books()) else Abandoned(old(Books()), batch, Books())
      ensures o.Pass? ==> QueuesHighest(old(queued), batch, queued) && NotesHighest(old(offsets), batch, offsets)
      ensures o.Fail? ==> exists m :: m in batch && commit(m) == o
      ensures o.Pass? <==> forall p :: p in Partitions(batch) ==> commit(MessageAt(p, MaxOffset(batch, p))).Pass?
    {
      var highest := HighestPerPartition(batch);
      ghost var k;
      o, k := RecordCommits(highest, commit);
      RecordedRepresents(old(processedOffsets.at), offsets, highest[..k]);
      FirstMessages(highest, k);
      offsets := OffsetsAfter(offsets, Messages(highest)[..k]);
      FirstCommitted(old(Books()), batch, Messages(highest), k, Books());
      CommitsEnd(highest, batch, commit, k, o);
      if o.Pass? {
        QueuedHighest(old(queued), batch, queued);
        NotedHighest(old(offsets), batch);
      }
    }

    /** The second loop of commitBatch, over the entries of its map, up to the first commit that throws. */
    method RecordCommits(highest: seq<(string, Message)>, commit: Message -> Outcome<string>)
      returns (o: Outcome<string>, ghost k: nat)
      requires processedOffsets.Valid()
      modifies this`processedOffsets, this`queued
      ensures processedOffsets.Valid()
      ensures k <= |highest| && (if k < |highest| then o.Fail? && o == commit(highest[k].1) else o.Pass?)
      ensures AllPass(commit, highest, k)
      ensures processedOffsets.at == Recorded(old(processedOffsets.at), highest[..k])
      ensures queued == old(queued) + Messages(highest)[..k]
    {
      var i := 0;
      while i < |highest|
        invariant AllPass(commit, highest, i)
        invariant processedOffsets.Valid()
        invariant UpTo(old(processedOffsets.at), old(queued), highest, i, processedOffsets.at, queued)
      {
        var (key, message) := highest[i];
        if commit(message).Fail? {
          return commit(message), i;
        }
        RecordMore(old(processedOffsets.at), old(queued), highest, i, processedOffsets.at, queued);
        queued := queued + [message];
        processedOffsets := processedOffsets.Set(key, AsOffset(message));
        i := i + 1;
      }
      return Pass, i;
    }

    /** Returns the list passed to commitSync, empty if it was not called; a failing commitSync is only logged. */
    method FlushOffsets(commitSync: Outcome<string>) returns (sent: seq<TopicPartitionOffset>)
      requires Valid()
      modifies this`processedOffsets, this`offsets, this`log
      ensures Valid()
      ensures Books().offsets == map[] && Books().pending == old(Books()).pending
      ensures FlushSends(old(offsets), sent)
      ensures |sent| == |old(processedOffsets.keys)| && processedOffsets.at == map[]
      ensures forall k :: k in old(processedOffsets.at) ==> old(processedOffsets.at)[k] in sent
      ensures forall i, j :: 0 <= i < j < |sent| ==> sent[i].At() != sent[j].At()
      ensures log == old(log) + if sent != [] && commitSync.Fail? then [commitSync.error] else []
    {
      sent := ListOffsets();
      if |sent| == 0 {
        return;
      }
      if commitSync.Fail? {
        log := log + [commitSync.error];
      }
      ClearOffsets();
    }

    method ListOffsets() returns (list: seq<TopicPartitionOffset>)
      requires Valid()
      ensures FlushSends(offsets, list) && |list| == |processedOffsets.keys|
      ensures forall k :: k in processedOffsets.at ==> processedOffsets.at[k] in list
    {
      EmptyTogether(processedOffsets, offsets);
      ListsEntries(processedOffsets, offsets);
      list := Offsets(processedOffsets);
      forall k | k in processedOffsets.at ensures processedOffsets.at[k] in list {
        var i :| 0 <= i < |processedOffsets.keys| && processedOffsets.keys[i] == k;
        assert list[i] == processedOffsets.at[k];
      }
    }

    method ClearOffsets()
      modifies this`processedOffsets, this`offsets
      ensures Valid() && offsets == map[] && processedOffsets.at == map[]
    {
      processedOffsets, offsets := JsMap([], map[]), map[];
    }

    /** Receives the messages in the order they settle; a rejection is recorded and goes no further. */
    method ReceiveAll(batch: seq<Message>, receive: Message -> Status)
      modifies this`settled
      ensures settled == old(settled) + Settlements(batch, receive)
    {
      for i := 0 to |batch|
        invariant settled == old(settled) + Settlements(batch, receive)[..i]
      {
        settled := settled + [(batch[i], receive(batch[i]))];
      }
    }

    /** The first messages, a batchful at most, settle once each in any order, and are then all committed unless a
        listener of the batch events throws, which `emitted` says, or one of the commits. */
    method ProcessBatch(messages: seq<Message>, order: seq<Message> -> seq<Message>, receive: Message -> Status,
                        emitted: Outcome<string>, commit: Message -> Outcome<string>)
      returns (o: Outcome<string>)
      requires Valid() && forall b :: multiset(order(b)) == multiset(b)
      modifies this`processedOffsets, this`offsets, this`queued, this`settled
      ensures Valid()
      ensures var n := if |messages| < GetBatchSize() then |messages| else GetBatchSize();
        && Settles(old(settled), messages[..n], receive, settled)
        && (if o.Pass? then BatchCommitted(old(Books()), messages[..n], Books())
            else Abandoned(old(Books()), messages[..n], Books()))
        && (emitted.Pass? ==> (o.Pass? <==> forall p :: p in Partitions(messages[..n]) ==>
                                            commit(MessageAt(p, MaxOffset(messages[..n], p))).Pass?))
      ensures messages != [] && emitted.Fail? ==> o == emitted && Books() == old(Books())
      ensures o.Fail? ==> o == emitted || exists m :: m in messages && commit(m) == o
    {
      if |messages| == 0 {
        CommitsNothing(Books(), []);
        SettlesInOrder(settled, [], [], receive);
        return Pass;
      }
      var batchSize := if |messages| < GetBatchSize() then |messages| else GetBatchSize();
      var batch := messages[..batchSize];
      ReceiveAll(order(batch), receive);
      SettlesInOrder(old(settled), batch, order(batch), receive);
      if emitted.Fail? {
        CommitsNothing(Books(), batch);
        return emitted;
      }
      o := CommitBatch(batch, commit);
    }

    /** Whatever processBatch throws is passed on, but the next batch is asked for first. */
    method ConsumeCallback(shouldTerminate: bool, paused: bool, err: bool, messages: seq<Message>,
                           order: seq<Message> -> seq<Message>, receive: Message -> Status,
                           emitted: Outcome<string>, commit: Message -> Outcome<string>)
      returns (next: Next, o: Outcome<string>)
      requires Valid() && forall b :: multiset(order(b)) == multiset(b)
      modifies this`processedOffsets, this`offsets, this`queued, this`settled
      ensures Valid()
      ensures next == if shouldTerminate then Shutdown else Consume(GetBatchSize())
      ensures shouldTerminate || paused || err ==> o.Pass? && settled == old(settled) && Books() == old(Books())
      ensures !shouldTerminate && !paused && !err ==>
        var n := if |messages| < GetBatchSize() then |messages| else GetBatchSize();
        && Settles(old(settled), messages[..n], receive, settled)
        && if o.Pass? then BatchCommitted(old(Books()), messages[..n], Books())
           else Abandoned(old(Books()), messages[..n], Books())
    {
      o := Pass;
      if shouldTerminate {
        return Shutdown, Pass;
      }
      if paused || err {
        return Consume(GetBatchSize()), Pass;
      }
      o := ProcessBatch(messages, order, receive, emitted, commit);
      next := Consume(GetBatchSize());
    }
  }

  /** Each message of the batch, and no other, has been received once more, each settling as its receive does. */
  ghost predicate Settles(before: seq<(Message, Status)>, batch: seq<Message>, receive: Message -> Status,
                          after: seq<(Message, Status)>)
  {
    && before <= after
    && |after| == |before| + |batch|
    && (forall i :: |before| <= i < |after| ==> after[i].1 == receive(after[i].0))
    && multiset(Received(after[|before|..])) == multiset(batch)
  }

  function Received(ss: seq<(Message, Status)>): (ms: seq<Message>)
    ensures |ms| == |ss|
    ensures forall i :: 0 <= i < |ms| ==> ms[i] == ss[i].0
  {
    seq(|ss|, i requires 0 <= i < |ss| => ss[i].0)
  }

  lemma SettlesInOrder(before: seq<(Message, Status)>, batch: seq<Message>, order: seq<Message>,
                       receive: Message -> Status)
    requires multiset(order) == multiset(batch)
    ensures Settles(before, batch, receive, before + Settlements(order, receive))
  {
    assert |order| == |multiset(order)| == |multiset(batch)| == |batch|;
    var after := before + Settlements(order, receive);
    assert after[|before|..] == Settlements(order, receive);
    assert Received(Settlements(order, receive)) == order;
  }

  /** How each message of a batch settles. */
  function Settlements(batch: seq<Message>, receive: Message -> Status): (ss: seq<(Message, Status)>)
    ensures |ss| == |batch|
    ensures forall i :: 0 <= i < |ss| ==> ss[i] == (batch[i], receive(batch[i]))
  {
    seq(|batch|, i requires 0 <= i < |batch| => (batch[i], receive(batch[i])))
  }

  function Messages(entries: seq<(string, Message)>): (ms: seq<Message>)
    ensures |ms| == |entries|
    ensures forall i :: 0 <= i < |ms| ==> ms[i] == entries[i].1
  {
    seq(|entries|, i requires 0 <= i < |entries| => entries[i].1)
  }

  function AsOffset(m: Message): TopicPartitionOffset {
    TopicPartitionOffset(m.topic, m.partition, m.offset + 1)
  }

  /** The map holds, under its key, a message of each partition at the partition's highest offset. */
  ghost predicate HoldsHighest(h: JsMap<Message>, batch: seq<Message>) {
    && h.Valid()
    && (forall k :: k in h.at ==> k == Key(h.at[k].At()) && h.at[k] in batch)
    && (forall m :: m in batch ==> Key(m.At()) in h.at && m.offset <= h.at[Key(m.At())].offset)
  }

  /** The first loop of commitBatch, and the entries its map then yields. */
  method HighestPerPartition(batch: seq<Message>) returns (entries: seq<(string, Message)>)
    ensures OnePerPartition(Messages(entries), batch)
    ensures forall i :: 0 <= i < |entries| ==> entries[i].0 == Key(entries[i].1.At())
  {
    var highest := JsMap([], map[]);
    for i := 0 to |batch|
      invariant HoldsHighest(highest, batch[..i])
    {
      var message := batch[i];
      var key := Key(message.At());
      assert batch[..i + 1] == batch[..i] + [message];
      StaysHighest(highest, batch[..i], message);
      if key !in highest.at || message.offset > highest.at[key].offset {
        highest := highest.Set(key, message);
      }
    }
    assert batch[..|batch|] == batch;
    HighestIsOnePerPartition(highest, batch);
    entries := highest.Entries();
  }

  /** One turn of the first loop of commitBatch. */
  function Turn(h: JsMap<Message>, m: Message): (h': JsMap<Message>)
    requires h.Valid()
    ensures h'.Valid()
  {
    var key := Key(m.At());
    if key !in h.at || m.offset > h.at[key].offset then h.Set(key, m) else h
  }

  lemma TurnCovers(h: JsMap<Message>, batch: seq<Message>, m: Message, x: Message)
    requires HoldsHighest(h, batch) && (x == m || x in batch)
    ensures Key(x.At()) in Turn(h, m).at && x.offset <= Turn(h, m).at[Key(x.At())].offset
  {
    if x != m {
      assert Key(x.At()) in h.at && x.offset <= h.at[Key(x.At())].offset;
    }
  }

  lemma TurnKeys(h: JsMap<Message>, batch: seq<Message>, m: Message, k: string)
    requires HoldsHighest(h, batch) && k in Turn(h, m).at
    ensures var x := Turn(h, m).at[k]; k == Key(x.At()) && (x == m || x in batch)
  {
  }

  lemma StaysHighest(h: JsMap<Message>, batch: seq<Message>, m: Message)
    requires HoldsHighest(h, batch)
    ensures HoldsHighest(Turn(h, m), batch + [m])
  {
    forall x | x in batch + [m] ensures Key(x.At()) in Turn(h, m).at && x.offset <= Turn(h, m).at[Key(x.At())].offset {
      TurnCovers(h, batch, m, x);
    }
    forall k | k in Turn(h, m).at ensures k == Key(Turn(h, m).at[k].At()) && Turn(h, m).at[k] in batch + [m] {
      TurnKeys(h, batch, m, k);
    }
  }

  lemma OnlyHighest(h: JsMap<Message>, batch: seq<Message>, k: string)
    requires HoldsHighest(h, batch) && k in h.at
    ensures var m := h.at[k]; m.At() in Partitions(batch) && m.offset == MaxOffset(batch, m.At())
  {
    var p := h.at[k].At();
    assert MessageAt(p, MaxOffset(batch, p)) in batch;
  }

  lemma EachPartitionHighest(h: JsMap<Message>, batch: seq<Message>, p: Partition) returns (i: nat)
    requires HoldsHighest(h, batch) && p in Partitions(batch)
    ensures i < |h.keys| && h.Entries()[i].1.At() == p
  {
    var m :| m in batch && m.At() == p;
    i :| 0 <= i < |h.keys| && h.keys[i] == Key(p);
    KeyIsInjective(h.at[h.keys[i]].At(), p);
  }

  lemma HighestIsOnePerPartition(h: JsMap<Message>, batch: seq<Message>)
    requires HoldsHighest(h, batch)
    ensures OnePerPartition(Messages(h.Entries()), batch)
  {
    var vs := Messages(h.Entries());
    forall i | 0 <= i < |vs|
      ensures vs[i].At() in Partitions(batch) && vs[i].offset == MaxOffset(batch, vs[i].At())
    {
      OnlyHighest(h, batch, h.keys[i]);
    }
    forall p | p in Partitions(batch) ensures exists i :: 0 <= i < |vs| && vs[i].At() == p {
      var i := EachPartitionHighest(h, batch, p);
      assert vs[i].At() == p;
    }
    forall i, j | 0 <= i < j < |vs| ensures vs[i].At() != vs[j].At() {
      h.DistinctKeys(i, j);
    }
  }

  /** The offsets left behind by recording each message in turn. */
  function OffsetsAfter(offsets: map<Partition, nat>, sent: seq<Message>): map<Partition, nat> {
    if sent == [] then offsets
    else var last := sent[|sent| - 1];
      OffsetsAfter(offsets, sent[..|sent| - 1])[last.At() := last.offset + 1]
  }

  /** The offset map once each entry has been recorded in turn. */
  function Recorded(at: map<string, TopicPartitionOffset>, entries: seq<(string, Message)>)
    : map<string, TopicPartitionOffset>
  {
    if entries == [] then at
    else
      var (key, message) := entries[|entries| - 1];
      Recorded(at, entries[..|entries| - 1])[key := AsOffset(message)]
  }

  /** Recording one more entry sets its key in the one map and its partition in the other. */
  lemma RecordedOnce(at: map<string, TopicPartitionOffset>, offsets: map<Partition, nat>,
                     entries: seq<(string, Message)>)
    requires entries != []
    ensures var rest, m := entries[..|entries| - 1], entries[|entries| - 1].1;
      && Recorded(at, entries) == Recorded(at, rest)[entries[|entries| - 1].0 := AsOffset(m)]
      && OffsetsAfter(offsets, Messages(entries)) == OffsetsAfter(offsets, Messages(rest))[m.At() := m.offset + 1]
  {
    assert Messages(entries)[..|entries| - 1] == Messages(entries[..|entries| - 1]);
  }

  lemma {:induction false} RecordedRepresents(
      at: map<string, TopicPartitionOffset>, offsets: map<Partition, nat>, entries: seq<(string, Message)>)
    requires Represents(at, offsets)
    requires forall i :: 0 <= i < |entries| ==> entries[i].0 == Key(entries[i].1.At())
    ensures Represents(Recorded(at, entries), OffsetsAfter(offsets, Messages(entries)))
  {
    if entries == [] {
    } else {
      var rest, last := entries[..|entries| - 1], entries[|entries| - 1];
      RecordedRepresents(at, offsets, rest);
      RecordedOnce(at, offsets, entries);
      SetRepresents(Recorded(at, rest), OffsetsAfter(offsets, Messages(rest)), AsOffset(last.1));
    }
  }

  lemma {:induction false} OffsetsAfterDistinct(offsets: map<Partition, nat>, sent: seq<Message>)
    requires forall i, j :: 0 <= i < j < |sent| ==> sent[i].At() != sent[j].At()
    ensures forall p :: p in OffsetsAfter(offsets, sent) <==> p in Partitions(sent) || p in offsets
    ensures forall p :: p in offsets && p !in Partitions(sent) ==> OffsetsAfter(offsets, sent)[p] == offsets[p]
    ensures forall i :: 0 <= i < |sent| ==>
              && sent[i].At() in OffsetsAfter(offsets, sent)
              && OffsetsAfter(offsets, sent)[sent[i].At()] == sent[i].offset + 1
  {
    if sent == [] {
    } else {
      var rest, last := sent[..|sent| - 1], sent[|sent| - 1];
      OffsetsAfterDistinct(offsets, rest);
      assert sent == rest + [last];
      forall p ensures p in Partitions(sent) <==> p in Partitions(rest) || p == last.At() {
        if p in Partitions(rest) {
          var m :| m in rest && m.At() == p;
          assert m in sent;
        }
      }
    }
  }

  /** The first of one message per partition are one message for each of their own partitions. */
  lemma FirstOnes(ms: seq<Message>, batch: seq<Message>, k: nat)
    requires OnePerPartition(ms, batch) && k <= |ms|
    ensures OnePer(ms[..k], batch, Partitions(ms[..k])) && Partitions(ms[..k]) <= Partitions(batch)
    ensures k == |ms| ==> Partitions(ms[..k]) == Partitions(batch)
  {
    var sent := ms[..k];
    forall i | 0 <= i < |sent| ensures sent[i].At() in Partitions(sent) {
      assert sent[i] in sent;
    }
    forall p | p in Partitions(sent) ensures exists i :: 0 <= i < |sent| && sent[i].At() == p {
      var m :| m in sent && m.At() == p;
    }
    if k == |ms| {
      forall p | p in Partitions(batch) ensures p in Partitions(sent) {
        var i :| 0 <= i < |ms| && ms[i].At() == p;
        assert sent[i] in sent;
      }
    }
  }

  /** The first i entries have been recorded and queued. */
  ghost predicate UpTo(at: map<string, TopicPartitionOffset>, queued: seq<Message>, entries: seq<(string, Message)>,
                       i: nat, at': map<string, TopicPartitionOffset>, queued': seq<Message>)
  {
    i <= |entries| && at' == Recorded(at, entries[..i]) && queued' == queued + Messages(entries)[..i]
  }

  lemma RecordMore(at: map<string, TopicPartitionOffset>, queued: seq<Message>, entries: seq<(string, Message)>, i: nat,
                   at': map<string, TopicPartitionOffset>, queued': seq<Message>)
    requires i < |entries| && UpTo(at, queued, entries, i, at', queued')
    ensures var (key, message) := entries[i];
      UpTo(at, queued, entries, i + 1, at'[key := AsOffset(message)], queued' + [message])
  {
    assert entries[..i + 1][..i] == entries[..i];
  }

  lemma FirstMessages(entries: seq<(string, Message)>, k: nat)
    requires k <= |entries|
    ensures Messages(entries[..k]) == Messages(entries)[..k]
  {
  }

  lemma SelectedFromBatch(ms: seq<Message>, batch: seq<Message>, k: nat)
    requires OnePerPartition(ms, batch) && k < |ms|
    ensures ms[k] in batch && ms[k].At() in Partitions(batch)
    ensures ms[k] == MessageAt(ms[k].At(), MaxOffset(batch, ms[k].At()))
  {
    assert MessageAt(ms[k].At(), MaxOffset(batch, ms[k].At())) in batch;
  }

  ghost predicate AllPass(commit: Message -> Outcome<string>, entries: seq<(string, Message)>, k: nat) {
    k <= |entries| && forall i :: 0 <= i < k ==> commit(entries[i].1).Pass?
  }

  /** The commits all pass, or end with the first that throws. */
  lemma CommitsEnd(entries: seq<(string, Message)>, batch: seq<Message>, commit: Message -> Outcome<string>, k: nat,
                   o: Outcome<string>)
    requires OnePerPartition(Messages(entries), batch) && AllPass(commit, entries, k)
    requires if k < |entries| then o.Fail? && o == commit(entries[k].1) else o.Pass?
    ensures o.Fail? ==> exists m :: m in batch && commit(m) == o
    ensures o.Pass? <==> forall p :: p in Partitions(batch) ==> commit(MessageAt(p, MaxOffset(batch, p))).Pass?
  {
    if k < |entries| {
      SelectedFromBatch(Messages(entries), batch, k);
    } else {
      forall p | p in Partitions(batch) ensures commit(MessageAt(p, MaxOffset(batch, p))).Pass? {
        var i :| 0 <= i < |entries| && Messages(entries)[i].At() == p;
        assert entries[i].1 == MessageAt(p, MaxOffset(batch, p));
      }
    }
  }

  /** What is left behind once the first k of the selected messages have been queued and noted. */
  lemma FirstCommitted(before: Ledger, batch: seq<Message>, ms: seq<Message>, k: nat, after: Ledger)
    requires OnePerPartition(ms, batch) && k <= |ms|
    requires after.offsets == OffsetsAfter(before.offsets, ms[..k]) && after.pending == before.pending + ms[..k]
    ensures if k == |ms| then BatchCommitted(before, batch, after) else Abandoned(before, batch, after)
  {
    var sent := ms[..k];
    FirstOnes(ms, batch, k);
    OffsetsAfterHighest(before.offsets, sent, batch, Partitions(sent));
    assert after.pending[|before.pending|..] == sent;
    assert PartlyCommitted(before, batch, Partitions(sent), after);
  }

  lemma SamePartitions(sent: seq<Message>, batch: seq<Message>, ps: set<Partition>)
    requires OnePer(sent, batch, ps)
    ensures Partitions(sent) == ps
  {
    forall p | p in ps ensures p in Partitions(sent) {
      var i :| 0 <= i < |sent| && sent[i].At() == p;
      assert sent[i] in sent;
    }
  }

  lemma OffsetsAfterAt(offsets: map<Partition, nat>, sent: seq<Message>, batch: seq<Message>, ps: set<Partition>,
                       p: Partition)
    requires OnePer(sent, batch, ps) && ps <= Partitions(batch)
    ensures var after := OffsetsAfter(offsets, sent);
      if p in ps then p in after && after[p] == MaxOffset(batch, p) + 1
      else (p in after <==> p in offsets) && (p in after ==> after[p] == offsets[p])
  {
    SamePartitions(sent, batch, ps);
    OffsetsAfterDistinct(offsets, sent);
    if p in ps {
      var i :| 0 <= i < |sent| && sent[i].At() == p;
    }
  }

  lemma OffsetsAfterHighest(offsets: map<Partition, nat>, sent: seq<Message>, batch: seq<Message>, ps: set<Partition>)
    requires OnePer(sent, batch, ps) && ps <= Partitions(batch)
    ensures OffsetsAfter(offsets, sent) == offsets + CommitsOf(batch, ps)
  {
    var after := OffsetsAfter(offsets, sent);
    forall p ensures Merged(offsets, CommitsOf(batch, ps), after, p) {
      OffsetsAfterAt(offsets, sent, batch, ps, p);
    }
    MergedEverywhere(offsets, CommitsOf(batch, ps), after);
  }

  ghost predicate Merged(was: map<Partition, nat>, extra: map<Partition, nat>, both: map<Partition, nat>,
                         p: Partition)
  {
    if p in extra then p in both && both[p] == extra[p]
    else (p in both <==> p in was) && (p in both ==> both[p] == was[p])
  }

  lemma MergedEverywhere(was: map<Partition, nat>, extra: map<Partition, nat>, both: map<Partition, nat>)
    requires forall p :: Merged(was, extra, both, p)
    ensures both == was + extra
  {
    forall p ensures (p in both <==> p in was + extra) && (p in both ==> both[p] == (was + extra)[p]) {
      assert Merged(was, extra, both, p);
    }
  }

  /** The spread of processedOffsets.values(). */
  function Offsets(m: JsMap<TopicPartitionOffset>): (os: seq<TopicPartitionOffset>)
    requires m.Valid()
    ensures |os| == |m.keys|
    ensures forall i :: 0 <= i < |os| ==> os[i] == m.at[m.keys[i]]
  {
    seq(|m.keys|, i requires 0 <= i < |m.keys| => m.at[m.keys[i]])
  }

  lemma EmptyTogether(m: JsMap<TopicPartitionOffset>, offsets: map<Partition, nat>)
    requires m.Valid() && Represents(m.at, offsets)
    ensures |m.keys| == 0 <==> offsets == map[]
  {
    if |m.keys| != 0 {
      assert m.keys[0] in m.at;
    } else {
      assert m.at == map[];
    }
  }

  lemma ListedAt(m: JsMap<TopicPartitionOffset>, offsets: map<Partition, nat>, p: Partition)
    returns (o: TopicPartitionOffset)
    requires m.Valid() && Represents(m.at, offsets) && p in offsets
    ensures o in Offsets(m) && o.At() == p
  {
    var i :| 0 <= i < |m.keys| && m.keys[i] == Key(p);
    o := Offsets(m)[i];
  }

  lemma ListsEntries(m: JsMap<TopicPartitionOffset>, offsets: map<Partition, nat>)
    requires m.Valid() && Represents(m.at, offsets)
    ensures Lists(Offsets(m), offsets)
  {
    var os := Offsets(m);
    forall p | p in offsets ensures exists o :: o in os && o.At() == p {
      var o := ListedAt(m, offsets, p);
    }
    forall i, j | 0 <= i < j < |os| ensures os[i].At() != os[j].At() {
      m.DistinctKeys(i, j);
    }
  }

  lemma CommitsNothing(books: Ledger, batch: seq<Message>)
    ensures PartlyCommitted(books, batch, {}, books)
    ensures batch == [] ==> BatchCommitted(books, batch, books)
  {
    assert CommitsOf(batch, {}) == map[];
    assert books.offsets + map[] == books.offsets;
    assert batch == [] ==> Partitions(batch) == {};
  }
}
