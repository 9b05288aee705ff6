/** Any number of runners over shared partitions, the broker's committed offsets, and every interleaving of the two. */
module KafkaGroup {
  import opened KafkaMessages

  type Id = nat

  /** One runner: client position, the batch in hand with the messages not yet settled, and its ledger. */
  datatype Runner = Runner(position: map<Partition, nat>, batch: seq<Message>, waiting: set<Message>, ledger: Ledger)

  const NEW_RUNNER := Runner(map[], [], {}, Ledger(map[], []))

  /** `start` is where each partition is first read, `history` every message whose receive has settled. */
  datatype Group = Group(start: map<Partition, nat>, runners: map<Id, Runner>, committed: map<Partition, nat>,
                         history: seq<Message>)

  datatype Event =
    | Join(r: Id)
    | Assign(r: Id, ps: set<Partition>)
    | Deliver(r: Id, paused: bool, messages: seq<Message>)
    | Settle(r: Id, m: Message)
    | CommitBatch(r: Id, ledger: Ledger)
    | Abandon(r: Id, ledger: Ledger)
    | Apply(r: Id, i: nat)
    | Lose(r: Id, i: nat)
    | Revoke(r: Id, ps: set<Partition>, sent: seq<TopicPartitionOffset>, flushed: set<Partition>, late: seq<Message>)
    | Crash(r: Id)

  ghost predicate Init(g: Group) {
    g.runners == map[] && g.committed == g.start && g.history == []
  }

  function Elements(ms: seq<Message>): set<Message> {
    set m | m in ms
  }

  /** The client hands over each partition in order and without gaps from its position. */
  ghost predicate Deliverable(position: map<Partition, nat>, ms: seq<Message>) {
    ms != [] ==>
      && ms[0].At() in position && position[ms[0].At()] == ms[0].offset
      && Deliverable(position[ms[0].At() := ms[0].offset + 1], ms[1..])
  }

  function Advance(position: map<Partition, nat>, ms: seq<Message>): map<Partition, nat>
    decreases |ms|
  {
    if ms == [] then position else Advance(position[ms[0].At() := ms[0].offset + 1], ms[1..])
  }

  ghost predicate Enabled(g: Group, e: Event) {
    if e.Join? then e.r !in g.runners
    else
      && e.r in g.runners
      && var n := g.runners[e.r];
      match e
      case Assign(_, ps) => ps <= g.start.Keys
      // The next callback is requested only once processBatch has returned or thrown.
      case Deliver(_, _, ms) => n.batch == [] && Deliverable(n.position, ms)
      case Settle(_, m) => m in n.waiting
      case CommitBatch(_, ledger) => n.batch != [] && n.waiting == {} && BatchCommitted(n.ledger, n.batch, ledger)
      // It throws after its messages have settled, with any part of its commits made.
      case Abandon(_, ledger) => n.batch != [] && n.waiting == {} && Abandoned(n.ledger, n.batch, ledger)
      case Apply(_, i) => i < |n.ledger.pending|
      case Lose(_, i) => i < |n.ledger.pending|
      // A failing commitSync may reach the broker for any part of its list, at once or late.
      case Revoke(_, _, sent, flushed, late) =>
        && FlushSends(n.ledger.offsets, sent)
        && (forall p :: p in flushed ==> exists o :: o in sent && o.At() == p)
        && forall m :: m in late ==> TopicPartitionOffset(m.topic, m.partition, m.offset + 1) in sent
      case Crash(_) => true
  }

  function RemoveAt<T>(s: seq<T>, i: nat): (rest: seq<T>)
    requires i < |s|
    ensures forall x :: x in rest ==> x in s
  {
    s[..i] + s[i + 1..]
  }

  function WithRunner(g: Group, r: Id, n: Runner): Group {
    g.(runners := g.runners[r := n])
  }

  /** The broker acts on a commit, however late and out of order. */
  function Applied(g: Group, r: Id, i: nat): Group
    requires r in g.runners && i < |g.runners[r].ledger.pending|
  {
    var n := g.runners[r];
    var m := n.ledger.pending[i];
    WithRunner(g, r, n.(ledger := n.ledger.(pending := RemoveAt(n.ledger.pending, i))))
    .(committed := g.committed[m.At() := m.offset + 1])
  }

  ghost function Next(batchSize: nat, g: Group, e: Event): Group
    requires Enabled(g, e)
  {
    if e.Join? then WithRunner(g, e.r, NEW_RUNNER)
    else
      var n := g.runners[e.r];
      match e
      case Assign(r, ps) =>
        WithRunner(g, r, n.(position := n.position + map p | p in ps && p in g.committed :: g.committed[p]))
      case Deliver(r, paused, ms) =>
        var batch := Taken(batchSize, paused, ms);
        WithRunner(g, r, n.(position := Advance(n.position, ms), batch := batch, waiting := Elements(batch)))
      case Settle(r, m) =>
        WithRunner(g, r, n.(waiting := n.waiting - {m})).(history := g.history + [m])
      case CommitBatch(r, ledger) =>
        WithRunner(g, r, n.(batch := [], ledger := ledger))
      case Abandon(r, ledger) =>
        WithRunner(g, r, n.(batch := [], ledger := ledger))
      case Apply(r, i) => Applied(g, r, i)
      case Lose(r, i) =>
        WithRunner(g, r, n.(ledger := n.ledger.(pending := RemoveAt(n.ledger.pending, i))))
      case Revoke(r, ps, _, flushed, late) =>
        WithRunner(g, r, n.(position := n.position - ps, ledger := Ledger(map[], n.ledger.pending + late)))
        .(committed := g.committed + map p | p in flushed && p in n.ledger.offsets :: n.ledger.offsets[p])
      case Crash(r) =>
        WithRunner(g, r, NEW_RUNNER.(ledger := NEW_RUNNER.ledger.(pending := n.ledger.pending)))
  }

  ghost predicate Possible(batchSize: nat, g: Group, es: seq<Event>)
    decreases |es|
  {
    es != [] ==> Enabled(g, es[0]) && Possible(batchSize, Next(batchSize, g, es[0]), es[1..])
  }

  ghost function Run(batchSize: nat, g: Group, es: seq<Event>): Group
    requires Possible(batchSize, g, es)
    decreases |es|
  {
    if es == [] then g else Run(batchSize, Next(batchSize, g, es[0]), es[1..])
  }

  /** The delivered messages that never reach the batch, although the position moves past them. */
  function Dropped(batchSize: nat, e: Event): seq<Message> {
    if !e.Deliver? then []
    else if e.paused then e.messages
    else if |e.messages| <= batchSize then []
    else e.messages[batchSize..]
  }

  /** A delivery is of no more than a batchful, and not while paused. */
  ghost predicate Whole(batchSize: nat, e: Event) {
    e.Deliver? && e.messages != [] ==> !e.paused && |e.messages| <= batchSize
  }

  /** What a delivery hands over: the whole of it is the new batch, exactly when it is not paused and no more than a
      batchful; otherwise the batch is its first messages, or nothing at all while paused, and the rest is dropped. */
  lemma DeliveredBatch(batchSize: nat, g: Group, e: Event)
    requires e.Deliver? && Enabled(g, e)
    ensures var n := Next(batchSize, g, e).runners[e.r];
      && (n.batch == e.messages <==> Whole(batchSize, e))
      && (e.paused ==> n.batch == [])
      && (!e.paused && |e.messages| > batchSize ==> n.batch == e.messages[..batchSize])
      && e.messages == n.batch + Dropped(batchSize, e)
      && n.waiting == Elements(n.batch)
  {
    var taken := Taken(batchSize, e.paused, e.messages);
    assert taken == e.messages[..|taken|];
    assert e.messages == e.messages[..|taken|] + e.messages[|taken|..];
    assert e.messages[..0] == [] && e.messages[0..] == e.messages;
  }

  /** Every message of p from its start up to o has been seen. */
  ghost predicate Covered(start: map<Partition, nat>, seen: set<Message>, p: Partition, o: nat) {
    p in start && start[p] <= o && forall i :: start[p] <= i < o ==> MessageAt(p, i) in seen
  }

  /** No committed offset is ahead of the messages that have been received. */
  ghost predicate NoLoss(g: Group) {
    forall p :: p in g.committed ==> Covered(g.start, Elements(g.history), p, g.committed[p])
  }

  /** Offsets and pending commits are ahead of nothing unsettled. */
  ghost predicate SoundLedger(start: map<Partition, nat>, seen: set<Message>, ledger: Ledger) {
    && (forall p :: p in ledger.offsets ==> Covered(start, seen, p, ledger.offsets[p]))
    && (forall m :: m in ledger.pending ==> Covered(start, seen, m.At(), m.offset + 1))
  }

  /** Nor are the position and the batch, counting the batch's own unsettled messages as seen. */
  ghost predicate Sound(start: map<Partition, nat>, seen: set<Message>, n: Runner) {
    && (forall m :: m in n.waiting ==> m in n.batch)
    && (forall p :: p in n.position ==> Covered(start, seen + n.waiting, p, n.position[p]))
    && (forall m :: m in n.batch ==> Covered(start, seen + n.waiting, m.At(), m.offset + 1))
    && SoundLedger(start, seen, n.ledger)
  }

  ghost predicate Inv(g: Group) {
    && g.committed.Keys == g.start.Keys
    && NoLoss(g)
    && forall r :: r in g.runners ==> Sound(g.start, Elements(g.history), g.runners[r])
  }

  /** What a gapless delivery moves: exactly the messages between the old positions and the new. */
  lemma {:induction false} AdvanceMoves(position: map<Partition, nat>, ms: seq<Message>)
    requires Deliverable(position, ms)
    ensures Advance(position, ms).Keys == position.Keys
    ensures forall p :: p in position ==> position[p] <= Advance(position, ms)[p]
    ensures forall m :: m in ms <==>
              m.At() in position && position[m.At()] <= m.offset < Advance(position, ms)[m.At()]
  {
    if ms == [] {
    } else {
      var m0 := ms[0];
      var position' := position[m0.At() := m0.offset + 1];
      AdvanceMoves(position', ms[1..]);
      forall m ensures m in ms <==>
                m.At() in position && position[m.At()] <= m.offset < Advance(position, ms)[m.At()]
      {
        assert m in ms <==> m == m0 || m in ms[1..];
        assert m.At() == m0.At() && m.offset == m0.offset ==> m == m0;
      }
    }
  }

  /** Settling more keeps every runner sound. */
  lemma SoundMore(start: map<Partition, nat>, seen: set<Message>, seen': set<Message>, n: Runner)
    requires seen <= seen' && Sound(start, seen, n)
    ensures Sound(start, seen', n)
  {
  }

  lemma SoundDelivery(batchSize: nat, g: Group, e: Event)
    requires Inv(g) && e.Deliver? && Enabled(g, e)
    requires forall m :: m in Dropped(batchSize, e) ==> m in g.history
    ensures Sound(g.start, Elements(g.history), Next(batchSize, g, e).runners[e.r])
  {
    var n, n' := g.runners[e.r], Next(batchSize, g, e).runners[e.r];
    AdvanceMoves(n.position, e.messages);
    var seen := Elements(g.history) + n'.waiting;
    forall m | m in e.messages ensures m in seen {
      DeliveredBatch(batchSize, g, e);
    }
    assert Elements(g.history) + n.waiting <= seen;
    forall p | p in n'.position ensures Covered(g.start, seen, p, n'.position[p]) {
      forall i | g.start[p] <= i < n'.position[p] ensures MessageAt(p, i) in seen {
        if n.position[p] <= i { assert MessageAt(p, i) in e.messages; }
      }
    }
    forall m | m in n'.batch ensures Covered(g.start, seen, m.At(), m.offset + 1) {
      assert m in e.messages;
    }
  }

  lemma SoundSettle(start: map<Partition, nat>, seen: set<Message>, n: Runner, m: Message)
    requires Sound(start, seen, n) && m in n.waiting
    ensures Sound(start, seen + {m}, n.(waiting := n.waiting - {m}))
  {
    assert seen + n.waiting == (seen + {m}) + (n.waiting - {m});
  }

  lemma BatchCovered(start: map<Partition, nat>, seen: set<Message>, n: Runner, p: Partition)
    requires Sound(start, seen, n) && n.waiting == {} && p in Partitions(n.batch)
    ensures Covered(start, seen, p, MaxOffset(n.batch, p) + 1)
  {
    assert MessageAt(p, MaxOffset(n.batch, p)) in n.batch;
    assert seen + {} == seen;
  }

  lemma SoundCommit(start: map<Partition, nat>, seen: set<Message>, n: Runner, ps: set<Partition>, ledger: Ledger)
    requires Sound(start, seen, n) && n.waiting == {} && PartlyCommitted(n.ledger, n.batch, ps, ledger)
    ensures Sound(start, seen, n.(batch := [], ledger := ledger))
  {
    forall p | p in ledger.offsets ensures Covered(start, seen, p, ledger.offsets[p]) {
      if p in ps { BatchCovered(start, seen, n, p); }
    }
    forall m | m in ledger.pending ensures Covered(start, seen, m.At(), m.offset + 1) {
      var i :| 0 <= i < |ledger.pending| && ledger.pending[i] == m;
      if i < |n.ledger.pending| {
        assert m == n.ledger.pending[i];
      } else {
        assert m == ledger.pending[|n.ledger.pending|..][i - |n.ledger.pending|];
        BatchCovered(start, seen, n, m.At());
      }
    }
  }

  lemma PendingCovered(start: map<Partition, nat>, seen: set<Message>, ledger: Ledger, i: nat)
    requires SoundLedger(start, seen, ledger) && i < |ledger.pending|
    ensures SoundLedger(start, seen, ledger.(pending := RemoveAt(ledger.pending, i)))
    ensures Covered(start, seen, ledger.pending[i].At(), ledger.pending[i].offset + 1)
  {
    assert ledger.pending[i] in ledger.pending;
  }

  /** What a flush has sent may reach the broker at any later time. */
  lemma SoundLate(start: map<Partition, nat>, seen: set<Message>, ledger: Ledger, sent: seq<TopicPartitionOffset>,
                  late: seq<Message>)
    requires SoundLedger(start, seen, ledger) && FlushSends(ledger.offsets, sent)
    requires forall m :: m in late ==> TopicPartitionOffset(m.topic, m.partition, m.offset + 1) in sent
    ensures SoundLedger(start, seen, Ledger(map[], ledger.pending + late))
  {
    forall m | m in late ensures Covered(start, seen, m.At(), m.offset + 1) {
      var o := TopicPartitionOffset(m.topic, m.partition, m.offset + 1);
      assert o.At() == m.At() && o.At() in ledger.offsets;
    }
  }

  /** What a step does to the runner that takes it. */
  lemma SoundStep(batchSize: nat, g: Group, e: Event)
    requires Inv(g) && Enabled(g, e)
    requires forall m :: m in Dropped(batchSize, e) ==> m in g.history
    ensures var g' := Next(batchSize, g, e); Sound(g.start, Elements(g'.history), g'.runners[e.r])
  {
    if !e.Join? {
      var n, seen := g.runners[e.r], Elements(g.history);
      match e
      case Assign(_, _) =>
      case Deliver(_, _, _) => SoundDelivery(batchSize, g, e);
      case Settle(_, m) => SoundSettle(g.start, seen, n, m); assert Elements(g.history + [m]) == seen + {m};
      case CommitBatch(_, ledger) => SoundCommit(g.start, seen, n, Partitions(n.batch), ledger);
      case Abandon(_, ledger) =>
        var ps :| PartlyCommitted(n.ledger, n.batch, ps, ledger);
        SoundCommit(g.start, seen, n, ps, ledger);
      case Apply(_, i) => PendingCovered(g.start, seen, n.ledger, i);
      case Lose(_, i) => PendingCovered(g.start, seen, n.ledger, i);
      case Revoke(_, _, sent, _, late) => SoundLate(g.start, seen, n.ledger, sent, late);
      case Crash(_) =>
    }
  }

  /** What a step commits. */
  lemma NoLossStep(batchSize: nat, g: Group, e: Event)
    requires Inv(g) && Enabled(g, e)
    ensures var g' := Next(batchSize, g, e);
      g'.start == g.start && g'.committed.Keys == g.committed.Keys && g.history <= g'.history && NoLoss(g')
  {
    if e.Apply? {
      PendingCovered(g.start, Elements(g.history), g.runners[e.r].ledger, e.i);
    }
  }

  /** Every step keeps the invariant, unless a delivery drops a message nobody has received. */
  lemma InvStep(batchSize: nat, g: Group, e: Event)
    requires Inv(g) && Enabled(g, e)
    requires forall m :: m in Dropped(batchSize, e) ==> m in g.history
    ensures Inv(Next(batchSize, g, e))
    ensures Next(batchSize, g, e).start == g.start
  {
    var g' := Next(batchSize, g, e);
    NoLossStep(batchSize, g, e);
    SoundStep(batchSize, g, e);
    forall r | r in g'.runners ensures Sound(g'.start, Elements(g'.history), g'.runners[r]) {
      if r != e.r { SoundMore(g.start, Elements(g.history), Elements(g'.history), g.runners[r]); }
    }
  }

  lemma InvInit(g: Group)
    requires Init(g)
    ensures Inv(g)
  {
  }

  lemma {:induction false} InvRun(batchSize: nat, g: Group, es: seq<Event>)
    requires Inv(g) && Possible(batchSize, g, es)
    requires forall e :: e in es ==> Whole(batchSize, e)
    ensures Inv(Run(batchSize, g, es)) && Run(batchSize, g, es).start == g.start
    decreases |es|
  {
    if es == [] {
    } else {
      assert Whole(batchSize, es[0]);
      InvStep(batchSize, g, es[0]);
      InvRun(batchSize, Next(batchSize, g, es[0]), es[1..]);
    }
  }

  /** Group-wide no loss, over every run whose deliveries all reach a batch. */
  lemma CommittedWasReceived(batchSize: nat, g: Group, es: seq<Event>, p: Partition, i: nat)
    requires Init(g) && Possible(batchSize, g, es)
    requires forall e :: e in es ==> Whole(batchSize, e)
    requires var g' := Run(batchSize, g, es);
      p in g'.committed && p in g.start && g.start[p] <= i < g'.committed[p]
    ensures MessageAt(p, i) in Run(batchSize, g, es).history
  {
    InvInit(g);
    InvRun(batchSize, g, es);
    var g' := Run(batchSize, g, es);
    assert Covered(g'.start, Elements(g'.history), p, g'.committed[p]);
    assert MessageAt(p, i) in Elements(g'.history);
  }
}
