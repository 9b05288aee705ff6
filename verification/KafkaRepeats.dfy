/** Exactly which revokes can lead to a message that is received twice. */
module KafkaRepeats {
  import opened KafkaMessages
  import opened KafkaGroup
  import opened KafkaHandover

  /** What is committed lags behind the notes, and they behind the position; strictly so for the batch in hand. */
  ghost predicate Lags(committed: map<Partition, nat>, n: Runner) {
    && (forall p :: p in n.ledger.offsets && p in committed ==> committed[p] <= n.ledger.offsets[p])
    && (forall p :: p in n.position && p in committed && p in Partitions(n.batch) ==>
          Resume(committed, n, p) < n.position[p])
    && (forall m :: m in n.ledger.pending ==>
          m.At() in n.ledger.offsets && m.offset + 1 <= n.ledger.offsets[m.At()])
  }

  ghost predicate Behind(g: Group) {
    forall r :: r in g.runners ==> Lags(g.committed, g.runners[r])
  }

  /** A step that commits only for partitions its runner holds lets the others lag. */
  lemma OthersLag(g: Group, g': Group, r: Id)
    requires TidyGroup(g) && Behind(g) && r in g'.runners && g'.runners == g.runners[r := g'.runners[r]]
    requires g'.committed.Keys == g.committed.Keys && Lags(g'.committed, g'.runners[r])
    requires forall p :: p in g.committed && !Owns(g, r, p) ==> g'.committed[p] == g.committed[p]
    ensures Behind(g')
  {
    forall q | q in g'.runners && q != r ensures Lags(g'.committed, g'.runners[q]) {
      var n := g.runners[q];
      assert Tidy(g.start, g.committed, g.history, n);
      forall p | p in n.position && p in g.committed ensures g'.committed[p] == g.committed[p] {
        assert Owns(g, q, p);
      }
      LagsFrame(g.committed, g'.committed, n);
    }
  }

  lemma LagsFrame(committed: map<Partition, nat>, committed': map<Partition, nat>, n: Runner)
    requires Lags(committed, n) && committed'.Keys == committed.Keys && n.ledger.offsets.Keys <= n.position.Keys
    requires forall p :: p in n.position && p in committed ==> committed'[p] == committed[p]
    ensures Lags(committed', n)
  {
  }

  lemma DeliveredLags(start: map<Partition, nat>, committed: map<Partition, nat>, history: seq<Message>, n: Runner,
                      ms: seq<Message>)
    requires committed.Keys == start.Keys && Tidy(start, committed, history, n) && n.batch == []
    requires Lags(committed, n) && Deliverable(n.position, ms)
    ensures Lags(committed, Received(n, ms))
  {
    AdvanceMoves(n.position, ms);
    forall p | p in Received(n, ms).position && p in committed && p in Partitions(ms)
      ensures Resume(committed, n, p) < Received(n, ms).position[p]
    {
      assert OnTrack(committed, n, p);
      var m :| m in ms && m.At() == p;
    }
  }

  /** A partition of a settled batch is noted at the position, past what is committed. */
  lemma NotedAtPosition(start: map<Partition, nat>, committed: map<Partition, nat>, history: seq<Message>, n: Runner,
                        ledger: Ledger, p: Partition)
    requires committed.Keys == start.Keys && Tidy(start, committed, history, n) && Lags(committed, n)
    requires BatchCommitted(n.ledger, n.batch, ledger) && p in Partitions(n.batch)
    ensures p in n.position && p in committed && p in ledger.offsets && ledger.offsets[p] == n.position[p]
    ensures committed[p] <= Resume(committed, n, p) < ledger.offsets[p]
  {
    var m :| m in n.batch && m.At() == p;
    assert OnTrack(committed, n, p);
  }

  lemma CommittedLags(start: map<Partition, nat>, committed: map<Partition, nat>, history: seq<Message>, n: Runner,
                      ledger: Ledger)
    requires committed.Keys == start.Keys && Tidy(start, committed, history, n) && Lags(committed, n)
    requires BatchCommitted(n.ledger, n.batch, ledger)
    ensures Lags(committed, n.(batch := [], ledger := ledger))
  {
    assert Partitions([]) == {};
    forall p | p in ledger.offsets && p in committed ensures committed[p] <= ledger.offsets[p] {
      if p in Partitions(n.batch) { NotedAtPosition(start, committed, history, n, ledger, p); }
    }
    forall m | m in ledger.pending ensures m.At() in ledger.offsets && m.offset + 1 <= ledger.offsets[m.At()] {
      QueuedLags(start, committed, history, n, ledger, m);
    }
  }

  lemma QueuedLags(start: map<Partition, nat>, committed: map<Partition, nat>, history: seq<Message>, n: Runner,
                   ledger: Ledger, m: Message)
    requires committed.Keys == start.Keys && Tidy(start, committed, history, n) && Lags(committed, n)
    requires BatchCommitted(n.ledger, n.batch, ledger) && m in ledger.pending
    ensures m.At() in ledger.offsets && m.offset + 1 <= ledger.offsets[m.At()]
  {
    var i :| 0 <= i < |ledger.pending| && ledger.pending[i] == m;
    if i < |n.ledger.pending| {
      assert m == n.ledger.pending[i] && m in n.ledger.pending;
      if m.At() in Partitions(n.batch) { NotedAtPosition(start, committed, history, n, ledger, m.At()); }
    } else {
      assert m == ledger.pending[|n.ledger.pending|..][i - |n.ledger.pending|];
    }
  }

  lemma PendingLags(committed: map<Partition, nat>, committed': map<Partition, nat>, n: Runner, pending: seq<Message>)
    requires Lags(committed, n) && committed'.Keys == committed.Keys
    requires forall m :: m in pending ==> m in n.ledger.pending
    requires forall p :: p in committed ==>
               committed'[p] == committed[p]
               || (p in n.ledger.offsets && committed'[p] <= n.ledger.offsets[p])
    ensures Lags(committed', n.(ledger := n.ledger.(pending := pending)))
  {
  }

  /** Partitions newly assigned start out where they are committed. */
  lemma AssignedLags(start: map<Partition, nat>, committed: map<Partition, nat>, n: Runner, n': Runner)
    requires InHand(start, n) && Lags(committed, n) && n'.batch == n.batch && n'.ledger == n.ledger
    requires forall p :: p in n.position ==> p in n'.position && n'.position[p] == n.position[p]
    ensures Lags(committed, n')
  {
    forall p | p in Partitions(n.batch) ensures p in n.position {
      var m :| m in n.batch && m.At() == p;
    }
  }

  lemma AssignLags(batchSize: nat, g: Group, e: Event)
    requires TidyGroup(g) && Behind(g) && e.Assign? && Enabled(g, e) && Clean(batchSize, g, e)
    ensures Behind(Next(batchSize, g, e))
  {
    var n, g' := g.runners[e.r], Next(batchSize, g, e);
    forall p | p in e.ps ensures p !in n.position {
      assert !Owns(g, e.r, p);
    }
    AssignedLags(g.start, g.committed, n, g'.runners[e.r]);
    OthersLag(g, g', e.r);
  }

  lemma DeliverLags(batchSize: nat, g: Group, e: Event)
    requires TidyGroup(g) && Behind(g) && e.Deliver? && Enabled(g, e) && Clean(batchSize, g, e)
    ensures Behind(Next(batchSize, g, e))
  {
    NextReceives(batchSize, g, e);
    DeliveredLags(g.start, g.committed, g.history, g.runners[e.r], e.messages);
    OthersLag(g, Next(batchSize, g, e), e.r);
  }

  /** A commit that reaches the broker is of a noted partition, and not past its note. */
  lemma AppliesBehind(g: Group, r: Id, i: nat)
    requires TidyGroup(g) && Behind(g) && r in g.runners && i < |g.runners[r].ledger.pending|
    ensures var n, g' := g.runners[r], Applied(g, r, i);
      && g'.committed.Keys == g.committed.Keys
      && forall p :: p in g.committed ==>
           g'.committed[p] == g.committed[p]
           || (Owns(g, r, p) && p in n.ledger.offsets && g'.committed[p] <= n.ledger.offsets[p])
  {
    var n := g.runners[r];
    assert Lags(g.committed, n) && InHand(g.start, n);
    assert n.ledger.pending[i] in n.ledger.pending;
    AppliesNoted(g, r, i);
  }

  lemma ApplyLags(g: Group, r: Id, i: nat)
    requires TidyGroup(g) && Behind(g) && r in g.runners && i < |g.runners[r].ledger.pending|
    ensures Behind(Applied(g, r, i))
  {
    AppliesBehind(g, r, i);
    PendingLags(g.committed, Applied(g, r, i).committed, g.runners[r], RemoveAt(g.runners[r].ledger.pending, i));
    OthersLag(g, Applied(g, r, i), r);
  }

  lemma NothingQueued(start: map<Partition, nat>, n: Runner)
    requires InHand(start, n) && (n.ledger.offsets != map[] ==> n.ledger.pending == [])
    ensures n.ledger.pending == []
  {
    SomeElement(n.ledger.pending);
  }

  lemma SomeElement(ms: seq<Message>)
    ensures ms != [] ==> exists m :: m in ms
  {
    if ms != [] {
      assert ms[0] in ms;
    }
  }

  lemma RevokeLags(batchSize: nat, g: Group, e: Event)
    requires TidyGroup(g) && Behind(g) && e.Revoke? && Enabled(g, e) && Clean(batchSize, g, e)
    ensures Behind(Next(batchSize, g, e))
  {
    var n, g' := g.runners[e.r], Next(batchSize, g, e);
    FlushCommits(batchSize, g, e);
    RevokedEmpty(batchSize, g, e);
    EmptyLags(g'.committed, g'.runners[e.r]);
    OthersLag(g, g', e.r);
  }

  lemma RevokedEmpty(batchSize: nat, g: Group, e: Event)
    requires TidyGroup(g) && e.Revoke? && Enabled(g, e) && Clean(batchSize, g, e)
    ensures var n' := Next(batchSize, g, e).runners[e.r]; n'.batch == [] && n'.ledger == Ledger(map[], [])
  {
    var n := g.runners[e.r];
    assert Tidy(g.start, g.committed, g.history, n);
    NothingQueued(g.start, n);
    RevokedLedger(batchSize, g, e);
  }

  lemma RevokedLedger(batchSize: nat, g: Group, e: Event)
    requires e.Revoke? && Enabled(g, e)
    ensures var n, n' := g.runners[e.r], Next(batchSize, g, e).runners[e.r];
      n'.batch == n.batch && n'.ledger == Ledger(map[], n.ledger.pending + e.late)
  {
  }

  lemma EmptyLags(committed: map<Partition, nat>, n: Runner)
    requires n.batch == [] && n.ledger == Ledger(map[], [])
    ensures Lags(committed, n)
  {
  }

  lemma CommitLags(batchSize: nat, g: Group, e: Event)
    requires TidyGroup(g) && Behind(g) && e.CommitBatch? && Enabled(g, e)
    ensures Behind(Next(batchSize, g, e))
  {
    CommittedLags(g.start, g.committed, g.history, g.runners[e.r], e.ledger);
    OthersLag(g, Next(batchSize, g, e), e.r);
  }

  lemma LoseLags(batchSize: nat, g: Group, e: Event)
    requires TidyGroup(g) && Behind(g) && e.Lose? && Enabled(g, e)
    ensures Behind(Next(batchSize, g, e))
  {
    PendingLags(g.committed, g.committed, g.runners[e.r], RemoveAt(g.runners[e.r].ledger.pending, e.i));
    OthersLag(g, Next(batchSize, g, e), e.r);
  }

  lemma JoinLags(batchSize: nat, g: Group, e: Event)
    requires TidyGroup(g) && Behind(g) && e.Join? && Enabled(g, e)
    ensures Behind(Next(batchSize, g, e))
  {
    EmptyLags(g.committed, NEW_RUNNER);
    OthersLag(g, Next(batchSize, g, e), e.r);
  }

  lemma SettleLags(batchSize: nat, g: Group, e: Event)
    requires TidyGroup(g) && Behind(g) && e.Settle? && Enabled(g, e)
    ensures Behind(Next(batchSize, g, e))
  {
    var n := g.runners[e.r];
    SettledLags(g.committed, n, n.waiting - {e.m});
    OthersLag(g, Next(batchSize, g, e), e.r);
  }

  lemma SettledLags(committed: map<Partition, nat>, n: Runner, waiting: set<Message>)
    requires Lags(committed, n)
    ensures Lags(committed, n.(waiting := waiting))
  {
  }

  lemma BehindStep(batchSize: nat, g: Group, e: Event)
    requires TidyGroup(g) && Behind(g) && Enabled(g, e) && Clean(batchSize, g, e)
    ensures Behind(Next(batchSize, g, e))
  {
    match e
    case Join(_) => JoinLags(batchSize, g, e);
    case Assign(_, _) => AssignLags(batchSize, g, e);
    case Deliver(_, _, _) => DeliverLags(batchSize, g, e);
    case Settle(_, _) => SettleLags(batchSize, g, e);
    case CommitBatch(_, _) => CommitLags(batchSize, g, e);
    case Apply(r, i) => ApplyLags(g, r, i);
    case Lose(_, _) => LoseLags(batchSize, g, e);
    case Revoke(_, _, _, _, _) => RevokeLags(batchSize, g, e);
  }

  /** The states that clean runs reach. */
  lemma {:induction false} BehindRun(batchSize: nat, g: Group, es: seq<Event>)
    requires TidyGroup(g) && Behind(g) && CleanRun(batchSize, g, es)
    ensures Possible(batchSize, g, es) && TidyGroup(Run(batchSize, g, es)) && Behind(Run(batchSize, g, es))
    decreases |es|
  {
    CleanIsPossible(batchSize, g, es);
    if es == [] {
    } else {
      TidyStep(batchSize, g, es[0]);
      BehindStep(batchSize, g, es[0]);
      BehindRun(batchSize, Next(batchSize, g, es[0]), es[1..]);
    }
  }

  /** Some clean continuation receives a message a second time. */
  ghost predicate CanRepeat(batchSize: nat, g: Group) {
    exists es :: CleanRun(batchSize, g, es) && Possible(batchSize, g, es) && !NoRepeats(Run(batchSize, g, es).history)
  }

  lemma CleanCons(batchSize: nat, g: Group, e: Event, es: seq<Event>)
    requires Enabled(g, e) && Clean(batchSize, g, e)
    requires CleanRun(batchSize, Next(batchSize, g, e), es) && Possible(batchSize, Next(batchSize, g, e), es)
    ensures CleanRun(batchSize, g, [e] + es) && Possible(batchSize, g, [e] + es)
    ensures Run(batchSize, g, [e] + es) == Run(batchSize, Next(batchSize, g, e), es)
  {
    assert ([e] + es)[1..] == es;
  }

  lemma RepeatsLater(batchSize: nat, g: Group, e: Event)
    requires Enabled(g, e) && Clean(batchSize, g, e) && CanRepeat(batchSize, Next(batchSize, g, e))
    ensures CanRepeat(batchSize, g)
  {
    var g' := Next(batchSize, g, e);
    var es :| CleanRun(batchSize, g', es) && Possible(batchSize, g', es) && !NoRepeats(Run(batchSize, g', es).history);
    CleanCons(batchSize, g, e, es);
  }

  lemma RepeatsNow(batchSize: nat, g: Group)
    requires !NoRepeats(g.history)
    ensures CanRepeat(batchSize, g)
  {
    assert CleanRun(batchSize, g, []) && Possible(batchSize, g, []) && Run(batchSize, g, []) == g;
  }

  /** Ids never run out. */
  lemma {:induction false} Unused(ids: set<Id>) returns (id: Id)
    ensures forall x :: x in ids ==> x < id
    decreases ids
  {
    if ids == {} {
      id := 0;
    } else {
      var x :| x in ids;
      var rest := Unused(ids - {x});
      id := if rest <= x then x + 1 else rest;
      forall y | y in ids ensures y < id {
        assert y == x || y in ids - {x};
      }
    }
  }

  lemma TwiceIsRepeat(history: seq<Message>, m: Message)
    requires m in history
    ensures !NoRepeats(history + [m])
  {
    var i :| 0 <= i < |history| && history[i] == m;
    assert (history + [m])[i] == (history + [m])[|history|];
  }

  /** Runner q holds one partition, p, and has received the one message m of it that it was handed. */
  ghost predicate HasOne(g: Group, g': Group, q: Id, p: Partition, m: Message) {
    && q in g'.runners && g'.runners == g.runners[q := g'.runners[q]]
    && g'.start == g.start && g'.committed == g.committed && g'.history == g.history + [m]
    && var n := g'.runners[q];
       n.batch == [m] && n.waiting == {} && n.ledger == NEW_RUNNER.ledger
       && n.position.Keys == {p} && n.position[p] == m.offset + 1
  }

  lemma OneReceived(batchSize: nat, g: Group, q: Id, p: Partition, m: Message)
    requires batchSize > 0 && q in g.runners && g.runners[q].position.Keys == {p} && g.runners[q].batch == []
    requires m.At() == p && g.runners[q].position[p] == m.offset
    ensures var e := Deliver(q, false, [m]);
      && Enabled(g, e) && Clean(batchSize, g, e)
      && var n := Next(batchSize, g, e).runners[q];
         n.batch == [m] && n.waiting == {m} && n.position.Keys == {p} && n.position[p] == m.offset + 1
  {
    assert [m][1..] == [];
    AdvanceMoves(g.runners[q].position, [m]);
    assert Advance(g.runners[q].position, [m])[p] == m.offset + 1;
  }

  /** A new runner takes one message of a free partition, from where it is committed. */
  lemma TakeOne(batchSize: nat, g: Group, q: Id, p: Partition, m: Message) returns (g': Group)
    requires batchSize > 0 && q in g.runners && g.runners[q] == NEW_RUNNER
    requires p in g.start && p in g.committed && Free(g, p) && m == MessageAt(p, g.committed[p])
    ensures HasOne(g, g', q, p, m) && (CanRepeat(batchSize, g') ==> CanRepeat(batchSize, g))
  {
    var assign, deliver, settle := Assign(q, {p}), Deliver(q, false, [m]), Settle(q, m);
    var g1 := Next(batchSize, g, assign);
    assert p in {p} && g1.runners[q].position.Keys == {p} && g1.runners[q].position[p] == m.offset;
    OneReceived(batchSize, g1, q, p, m);
    var g2 := Next(batchSize, g1, deliver);
    g' := Next(batchSize, g2, settle);
    assert {m} - {m} == {};
    Overwrite(g.runners, q, g1.runners[q], g2.runners[q], g'.runners[q]);
    if CanRepeat(batchSize, g') {
      RepeatsLater(batchSize, g2, settle);
      RepeatsLater(batchSize, g1, deliver);
      RepeatsLater(batchSize, g, assign);
    }
  }

  lemma Overwrite(runners: map<Id, Runner>, q: Id, n1: Runner, n2: Runner, n3: Runner)
    ensures runners[q := n1][q := n2][q := n3] == runners[q := n3]
  {
  }

  /** A free partition committed short of a message that has been received, or is about to be, repeats it. */
  lemma ShortRepeats(batchSize: nat, g: Group, p: Partition, m: Message, r: Id)
    requires batchSize > 0 && r in g.runners && p in g.start && p in g.committed && Free(g, p)
    requires m == MessageAt(p, g.committed[p]) && (m in g.history || m in g.runners[r].waiting)
    ensures CanRepeat(batchSize, g)
  {
    var q := Unused(g.runners.Keys);
    assert r in g.runners.Keys && r < q;
    var g1 := Next(batchSize, g, Join(q));
    assert Free(g1, p) by {
      forall x ensures !Owns(g1, x, p) { assert !Owns(g, x, p); }
    }
    var g2 := TakeOne(batchSize, g1, q, p, m);
    if m in g.history {
      TwiceIsRepeat(g.history, m);
      RepeatsNow(batchSize, g2);
    } else {
      assert m in g2.runners[r].waiting && m in g2.history;
      TwiceIsRepeat(g2.history, m);
      RepeatsNow(batchSize, Next(batchSize, g2, Settle(r, m)));
      RepeatsLater(batchSize, g2, Settle(r, m));
    }
    RepeatsLater(batchSize, g, Join(q));
  }

  lemma CommitsOne(m: Message)
    ensures BatchCommitted(Ledger(map[], []), [m], Ledger(map[m.At() := m.offset + 1], [m]))
  {
    var before, after := Ledger(map[], []), Ledger(map[m.At() := m.offset + 1], [m]);
    assert m in [m] && Partitions([m]) == {m.At()};
    assert MaxOffset([m], m.At()) == m.offset;
    assert CommitsOf([m], {m.At()}) == after.offsets;
    assert before.offsets + after.offsets == after.offsets;
    assert after.pending[|before.pending|..] == [m];
    assert [m][0].At() == m.At();
    assert OnePer([m], [m], {m.At()});
    assert PartlyCommitted(before, [m], {m.At()}, after);
  }

  lemma FlushesOne(m: Message)
    ensures FlushSends(map[m.At() := m.offset + 1], [TopicPartitionOffset(m.topic, m.partition, m.offset + 1)])
  {
    var sent := TopicPartitionOffset(m.topic, m.partition, m.offset + 1);
    assert sent in [sent] && sent.At() == m.At();
    assert m.At() in map[m.At() := m.offset + 1];
  }

  /** Runner q has settled one message m, of the one partition it holds. */
  ghost predicate HoldsOne(g: Group, q: Id, m: Message) {
    && q in g.runners && m.At() in g.start && m.At() in g.committed
    && var n := g.runners[q];
       n.batch == [m] && n.waiting == {} && n.ledger == NEW_RUNNER.ledger && n.position.Keys == {m.At()}
  }

  function Noted(n: Runner, m: Message, pending: seq<Message>): Runner {
    n.(batch := [], ledger := Ledger(map[m.At() := m.offset + 1], pending))
  }

  /** It can commit it, and the broker may miss that. */
  lemma CommitAndLose(batchSize: nat, g: Group, q: Id, m: Message)
    requires HoldsOne(g, q, m)
    ensures CanRepeat(batchSize, WithRunner(g, q, Noted(g.runners[q], m, []))) ==> CanRepeat(batchSize, g)
  {
    var commit, lose := CommitBatch(q, Ledger(map[m.At() := m.offset + 1], [m])), Lose(q, 0);
    CommitsOne(m);
    var g1 := WithRunner(g, q, Noted(g.runners[q], m, [m]));
    assert Next(batchSize, g, commit) == g1;
    assert RemoveAt([m], 0) == [];
    var g2 := Next(batchSize, g1, lose);
    assert g2.runners[q] == Noted(g.runners[q], m, []);
    Overwrite(g.runners, q, Noted(g.runners[q], m, [m]), g2.runners[q], g2.runners[q]);
    assert g2 == WithRunner(g, q, Noted(g.runners[q], m, []));
    if CanRepeat(batchSize, g2) {
      RepeatsLater(batchSize, g1, lose);
      RepeatsLater(batchSize, g, commit);
    }
  }

  /** It can then give the partition back with a flush. */
  lemma HandBack(batchSize: nat, g: Group, q: Id, m: Message) returns (g': Group)
    requires q in g.runners && m.At() in g.start && m.At() in g.committed
    requires g.runners[q] == Noted(g.runners[q], m, [])
    requires g.runners[q].waiting == {} && g.runners[q].position.Keys == {m.At()}
    ensures g' == WithRunner(g, q, NEW_RUNNER).(committed := g.committed[m.At() := m.offset + 1])
    ensures CanRepeat(batchSize, g') ==> CanRepeat(batchSize, g)
  {
    var p, n := m.At(), g.runners[q];
    var sent := [TopicPartitionOffset(m.topic, m.partition, m.offset + 1)];
    var revoke := Revoke(q, {p}, sent, {p}, []);
    FlushesOne(m);
    assert sent[0] in sent && sent[0].At() == p;
    g' := Next(batchSize, g, revoke);
    assert n.position - {p} == map[];
    assert g'.runners[q] == NEW_RUNNER;
    assert g'.committed == g.committed[p := m.offset + 1];
    if CanRepeat(batchSize, g') {
      RepeatsLater(batchSize, g, revoke);
    }
  }

  lemma GiveBack(batchSize: nat, g: Group, q: Id, m: Message) returns (g': Group)
    requires HoldsOne(g, q, m)
    ensures g' == WithRunner(g, q, NEW_RUNNER).(committed := g.committed[m.At() := m.offset + 1])
    ensures CanRepeat(batchSize, g') ==> CanRepeat(batchSize, g)
  {
    var n2 := Noted(g.runners[q], m, []);
    CommitAndLose(batchSize, g, q, m);
    g' := HandBack(batchSize, WithRunner(g, q, n2), q, m);
    Overwrite(g.runners, q, n2, n2, NEW_RUNNER);
  }

  /** A queued commit that outlives its partition's handover takes the partition back, once others have gone on. */
  lemma LateCommitRepeats(batchSize: nat, g: Group, r: Id, k: nat, p: Partition)
    requires batchSize > 0 && r in g.runners && g.runners[r].ledger.pending != []
    requires g.runners[r].ledger.pending[0].At() == p && g.runners[r].ledger.pending[0].offset + 1 == k
    requires p in g.start && p in g.committed && Free(g, p) && k <= g.committed[p]
    requires k < g.committed[p] ==> MessageAt(p, k) in g.history
    ensures CanRepeat(batchSize, g)
  {
    var q := Unused(g.runners.Keys);
    assert r in g.runners.Keys && r < q;
    var m := MessageAt(p, g.committed[p]);
    var g1 := Next(batchSize, g, Join(q));
    assert Free(g1, p) by {
      forall x ensures !Owns(g1, x, p) { assert !Owns(g, x, p); }
    }
    var g2 := TakeOne(batchSize, g1, q, p, m);
    var g3 := GiveBack(batchSize, g2, q, m);
    var g4 := Next(batchSize, g3, Apply(r, 0));
    assert Free(g4, p) by {
      forall x ensures !Owns(g4, x, p) { assert !Owns(g, x, p); }
    }
    assert g4.committed[p] == k && g4.history == g.history + [m] && r in g4.runners;
    assert MessageAt(p, k) in g4.history;
    ShortRepeats(batchSize, g4, p, MessageAt(p, k), r);
    RepeatsLater(batchSize, g3, Apply(r, 0));
    RepeatsLater(batchSize, g, Join(q));
  }

  /** The states clean runs reach. */
  ghost predicate Orderly(g: Group) {
    Inv(g) && TidyGroup(g) && Behind(g)
  }

  /** Runner r has given up all its partitions: each is committed as before or as noted, and the commits that can
      still reach the broker are `queued`. */
  ghost predicate GaveUp(g: Group, g': Group, r: Id, queued: seq<Message>) {
    && r in g.runners && g'.start == g.start && g'.history == g.history && g'.committed.Keys == g.committed.Keys
    && g'.runners == g.runners[r := Runner(map[], g.runners[r].batch, g.runners[r].waiting, Ledger(map[], queued))]
    && (forall p :: p in g.committed ==>
          || g'.committed[p] == g.committed[p]
          || (p in g.runners[r].ledger.offsets && g'.committed[p] == g.runners[r].ledger.offsets[p]))
    && (forall m :: m in queued ==>
          m.At() in g.runners[r].ledger.offsets && m.offset + 1 <= g.runners[r].ledger.offsets[m.At()])
  }

  /** Some partition given up is committed short of where its runner stood. */
  ghost predicate Short(g: Group, g': Group, r: Id)
    requires r in g.runners
  {
    exists p :: p in g.runners[r].position && p in g'.committed && g'.committed[p] < g.runners[r].position[p]
  }

  lemma FlushPoint(start: map<Partition, nat>, committed: map<Partition, nat>, history: seq<Message>, n: Runner,
                   p: Partition, flushed: nat)
    requires committed.Keys == start.Keys && Tidy(start, committed, history, n) && Lags(committed, n)
    requires p in n.position
    requires flushed == committed[p] || (p in n.ledger.offsets && flushed == n.ledger.offsets[p])
    ensures flushed <= Resume(committed, n, p) <= n.position[p]
    ensures if p in Partitions(n.batch) then flushed < n.position[p] else Resume(committed, n, p) == n.position[p]
  {
    assert OnTrack(committed, n, p);
  }

  /** Whatever part of its list a flush commits, a partition ends up no further than the position, and short of it
      if the batch in hand holds messages of it. */
  lemma FlushedBehind(g: Group, g': Group, r: Id, queued: seq<Message>, p: Partition)
    requires TidyGroup(g) && Behind(g) && GaveUp(g, g', r, queued) && p in g.runners[r].position
    ensures var n := g.runners[r];
      && p in g.start && p in g.committed && p in g'.committed && g'.committed[p] <= n.position[p]
      && if p in Partitions(n.batch) then g'.committed[p] < n.position[p]
         else Resume(g.committed, n, p) == n.position[p]
  {
    assert Tidy(g.start, g.committed, g.history, g.runners[r]) && Lags(g.committed, g.runners[r]);
    FlushPoint(g.start, g.committed, g.history, g.runners[r], p, g'.committed[p]);
  }

  lemma GivenUp(g: Group, g': Group, r: Id, queued: seq<Message>, p: Partition)
    requires TidyGroup(g) && GaveUp(g, g', r, queued) && p in g.runners[r].position
    ensures Free(g', p)
  {
    assert Owns(g, r, p);
    forall x ensures !Owns(g', x, p) {
      assert Owns(g, x, p) ==> x == r;
    }
  }

  /** The message at which a partition given up would be resumed, if its runner stood further on. */
  lemma ResumedMessage(g: Group, r: Id, p: Partition, o: nat)
    requires TidyGroup(g) && r in g.runners && p in g.runners[r].position && p in g.start
    requires g.start[p] <= o < g.runners[r].position[p]
    ensures MessageAt(p, o) in g.history || MessageAt(p, o) in g.runners[r].waiting
  {
    var n := g.runners[r];
    assert Tidy(g.start, g.committed, g.history, n);
    assert ReceivedUpTo(g.start[p], g.history, n.waiting, p, n.position[p]);
    assert MessageAt(p, o).At() == p;
  }

  lemma ShortFlushRepeats(batchSize: nat, g: Group, g': Group, r: Id, queued: seq<Message>, p: Partition)
    requires batchSize > 0 && TidyGroup(g) && Behind(g) && NoLoss(g') && GaveUp(g, g', r, queued)
    requires p in g.runners[r].position && p in g'.committed && g'.committed[p] < g.runners[r].position[p]
    ensures CanRepeat(batchSize, g')
  {
    FlushedBehind(g, g', r, queued, p);
    GivenUp(g, g', r, queued, p);
    assert Covered(g'.start, Elements(g'.history), p, g'.committed[p]);
    ResumedMessage(g, r, p, g'.committed[p]);
    ShortRepeats(batchSize, g', p, MessageAt(p, g'.committed[p]), r);
  }

  /** Giving up a partition in mid-batch always leaves it short. */
  lemma InHandShort(g: Group, g': Group, r: Id, queued: seq<Message>, m: Message)
    requires TidyGroup(g) && Behind(g) && GaveUp(g, g', r, queued) && m in g.runners[r].batch
    ensures Short(g, g', r)
  {
    assert Tidy(g.start, g.committed, g.history, g.runners[r]);
    FlushedBehind(g, g', r, queued, m.At());
  }

  lemma NothingInHand(g: Group, g': Group, r: Id, queued: seq<Message>)
    requires TidyGroup(g) && Behind(g) && GaveUp(g, g', r, queued)
    ensures Short(g, g', r) || (g.runners[r].batch == [] && g.runners[r].waiting == {})
  {
    if g.runners[r].batch == [] {
      assert Tidy(g.start, g.committed, g.history, g.runners[r]);
    } else {
      assert g.runners[r].batch[0] in g.runners[r].batch;
      InHandShort(g, g', r, queued, g.runners[r].batch[0]);
    }
  }

  lemma StandsCommitted(g: Group, g': Group, r: Id, queued: seq<Message>, p: Partition)
    requires TidyGroup(g) && Behind(g) && GaveUp(g, g', r, queued) && p in g.runners[r].position
    requires !Short(g, g', r) && g.runners[r].batch == []
    ensures p in g.committed && p in g'.committed
    ensures Resume(g.committed, g.runners[r], p) == g.runners[r].position[p] == g'.committed[p]
  {
    FlushedBehind(g, g', r, queued, p);
    assert Partitions([]) == {};
  }

  lemma LateFlushRepeats(batchSize: nat, g: Group, g': Group, r: Id, queued: seq<Message>)
    requires batchSize > 0 && TidyGroup(g) && Behind(g) && GaveUp(g, g', r, queued)
    requires queued != [] && !Short(g, g', r)
    requires queued[0].At() in g.start && g.start[queued[0].At()] <= queued[0].offset + 1
    ensures CanRepeat(batchSize, g')
  {
    var m := queued[0];
    var p, k, n := m.At(), m.offset + 1, g.runners[r];
    assert m in queued;
    assert Tidy(g.start, g.committed, g.history, n) && p in n.position;
    NothingInHand(g, g', r, queued);
    StandsCommitted(g, g', r, queued, p);
    GivenUp(g, g', r, queued, p);
    if k < n.position[p] { ResumedMessage(g, r, p, k); }
    LateCommitRepeats(batchSize, g', r, k, p);
  }

  /** With nothing short and nothing queued the group is as tidy as after a clean handover. */
  lemma FlushedInFull(g: Group, g': Group, r: Id)
    requires TidyGroup(g) && Behind(g) && GaveUp(g, g', r, []) && !Short(g, g', r)
    ensures TidyGroup(g')
  {
    var n := g.runners[r];
    NothingInHand(g, g', r, []);
    assert Tidy(g.start, g.committed, g.history, n);
    forall p | p in n.position
      ensures p in g.committed && p in g'.committed && n.position[p] == g'.committed[p]
    {
      StandsCommitted(g, g', r, [], p);
    }
    assert Partitions([]) == {};
    TidyOthers(g, g', r);
  }

  /** A revoke of all the partitions a runner holds. */
  ghost predicate RevokesAll(g: Group, e: Event) {
    e.Revoke? && Enabled(g, e) && g.runners[e.r].position.Keys <= e.ps
  }

  /** The commits of the runner that can reach the broker after it. */
  ghost function Queued(g: Group, e: Event): seq<Message>
    requires RevokesAll(g, e)
  {
    g.runners[e.r].ledger.pending + e.late
  }

  lemma QueuedNoted(g: Group, e: Event, m: Message)
    requires Behind(g) && RevokesAll(g, e) && m in Queued(g, e)
    ensures var n := g.runners[e.r]; m.At() in n.ledger.offsets && m.offset + 1 <= n.ledger.offsets[m.At()]
  {
    assert Lags(g.committed, g.runners[e.r]);
    if m in e.late {
      var o := TopicPartitionOffset(m.topic, m.partition, m.offset + 1);
      assert o in e.sent && o.At() == m.At();
    }
  }

  lemma RevokeGivesUp(batchSize: nat, g: Group, e: Event)
    requires Behind(g) && RevokesAll(g, e) && g.runners[e.r].ledger.offsets.Keys <= g.committed.Keys
    ensures GaveUp(g, Next(batchSize, g, e), e.r, Queued(g, e))
  {
    forall m | m in Queued(g, e)
      ensures m.At() in g.runners[e.r].ledger.offsets && m.offset + 1 <= g.runners[e.r].ledger.offsets[m.At()]
    {
      QueuedNoted(g, e, m);
    }
    assert g.runners[e.r].position - e.ps == map[];
  }

  lemma QueuedCovered(g: Group, e: Event)
    requires Inv(g) && RevokesAll(g, e) && Queued(g, e) != []
    ensures var m := Queued(g, e)[0]; m.At() in g.start && g.start[m.At()] <= m.offset + 1
  {
    var ledger := g.runners[e.r].ledger;
    assert Sound(g.start, Elements(g.history), g.runners[e.r]);
    SoundLate(g.start, Elements(g.history), ledger, e.sent, e.late);
    assert Queued(g, e)[0] in ledger.pending + e.late;
  }

  /** What makes such a revoke unsafe, told before it: a batch is in hand, the flush misses a note that nothing has
      committed yet, or a commit can reach the broker after it. */
  ghost predicate Unsafe(g: Group, e: Event)
    requires RevokesAll(g, e)
  {
    g.runners[e.r].batch != [] || Missed(g, e) || Queued(g, e) != []
  }

  ghost predicate Missed(g: Group, e: Event)
    requires RevokesAll(g, e)
  {
    var offsets := g.runners[e.r].ledger.offsets;
    exists p :: p in offsets && p !in e.flushed && p in g.committed && g.committed[p] < offsets[p]
  }

  lemma NotedIsStood(g: Group, r: Id, p: Partition)
    requires TidyGroup(g) && r in g.runners && g.runners[r].batch == [] && p in g.runners[r].position
    ensures p in g.committed && Resume(g.committed, g.runners[r], p) == g.runners[r].position[p]
  {
    assert Tidy(g.start, g.committed, g.history, g.runners[r]);
    assert OnTrack(g.committed, g.runners[r], p) && Partitions([]) == {};
  }

  /** Between batches a partition is left short exactly when it is noted, not flushed and not committed so far. */
  lemma ShortAt(batchSize: nat, g: Group, e: Event, p: Partition)
    requires Orderly(g) && RevokesAll(g, e) && g.runners[e.r].batch == [] && p in g.runners[e.r].position
    ensures var n, g' := g.runners[e.r], Next(batchSize, g, e);
      && p in g.committed && p in g'.committed
      && (g'.committed[p] < n.position[p] <==>
          (p in n.ledger.offsets && p !in e.flushed && g.committed[p] < n.ledger.offsets[p]))
  {
    NotedIsStood(g, e.r, p);
    FlushedNote(batchSize, g, e, p);
  }

  lemma ShortExactly(batchSize: nat, g: Group, e: Event)
    requires Orderly(g) && RevokesAll(g, e) && GaveUp(g, Next(batchSize, g, e), e.r, Queued(g, e))
    ensures Short(g, Next(batchSize, g, e), e.r) <==> g.runners[e.r].batch != [] || Missed(g, e)
  {
    var n := g.runners[e.r];
    if n.batch == [] {
      assert InHand(g.start, n);
      forall p | p in n.position
        ensures p in Next(batchSize, g, e).committed
        ensures Next(batchSize, g, e).committed[p] < n.position[p] <==>
                (p in n.ledger.offsets && p !in e.flushed && p in g.committed && g.committed[p] < n.ledger.offsets[p])
      {
        ShortAt(batchSize, g, e, p);
      }
    } else {
      assert n.batch[0] in n.batch;
      InHandShort(g, Next(batchSize, g, e), e.r, Queued(g, e), n.batch[0]);
    }
  }

  /** A runner giving up all its partitions opens the way to a message received twice, with everyone clean from then
      on, if and only if that is unsafe. */
  lemma RevokeRepeatsExactly(batchSize: nat, g: Group, e: Event)
    requires batchSize > 0 && Orderly(g) && RevokesAll(g, e)
    ensures CanRepeat(batchSize, Next(batchSize, g, e)) <==> Unsafe(g, e)
  {
    var n, g' := g.runners[e.r], Next(batchSize, g, e);
    assert InHand(g.start, n);
    RevokeGivesUp(batchSize, g, e);
    NoLossStep(batchSize, g, e);
    ShortExactly(batchSize, g, e);
    if p :| p in n.position && p in g'.committed && g'.committed[p] < n.position[p] {
      ShortFlushRepeats(batchSize, g, g', e.r, Queued(g, e), p);
    } else if Queued(g, e) != [] {
      QueuedCovered(g, e);
      LateFlushRepeats(batchSize, g, g', e.r, Queued(g, e));
    } else {
      FlushedInFull(g, g', e.r);
      NeverRepeats(batchSize, g');
    }
  }

  lemma NeverRepeats(batchSize: nat, g: Group)
    requires TidyGroup(g)
    ensures !CanRepeat(batchSize, g)
  {
    forall es | CleanRun(batchSize, g, es) && Possible(batchSize, g, es)
      ensures NoRepeats(Run(batchSize, g, es).history)
    {
      TidyRun(batchSize, g, es);
    }
  }

  lemma {:induction false} CleanIsWhole(batchSize: nat, g: Group, es: seq<Event>)
    requires CleanRun(batchSize, g, es)
    ensures forall e :: e in es ==> Whole(batchSize, e)
    decreases |es|
  {
    if es == [] {
    } else {
      CleanIsWhole(batchSize, Next(batchSize, g, es[0]), es[1..]);
    }
  }

  /** So it is after every clean run. */
  lemma RevokeRepeatsInRuns(batchSize: nat, g: Group, es: seq<Event>, e: Event)
    requires batchSize > 0 && Init(g) && CleanRun(batchSize, g, es) && Possible(batchSize, g, es)
    requires RevokesAll(Run(batchSize, g, es), e)
    ensures CanRepeat(batchSize, Next(batchSize, Run(batchSize, g, es), e)) <==> Unsafe(Run(batchSize, g, es), e)
  {
    CleanIsOrderly(batchSize, g, es);
    RevokeRepeatsExactly(batchSize, Run(batchSize, g, es), e);
  }

  lemma CleanIsOrderly(batchSize: nat, g: Group, es: seq<Event>)
    requires Init(g) && CleanRun(batchSize, g, es) && Possible(batchSize, g, es)
    ensures Orderly(Run(batchSize, g, es))
  {
    InvInit(g);
    CleanIsWhole(batchSize, g, es);
    InvRun(batchSize, g, es);
    assert TidyGroup(g) && Behind(g);
    BehindRun(batchSize, g, es);
  }
}
