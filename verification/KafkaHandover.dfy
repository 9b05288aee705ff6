/** Runs in which partitions change hands between batches: every message is received at most once in the group. */
module KafkaHandover {
  import opened KafkaMessages
  import opened KafkaGroup

  ghost predicate Owns(g: Group, r: Id, p: Partition) {
    r in g.runners && p in g.runners[r].position
  }

  /** Revokes fall between batches and their flush succeeds, after the commits sent before it; only free
      partitions are assigned, commits apply in order, deliveries are whole and nobody crashes. */
  ghost predicate Clean(batchSize: nat, g: Group, e: Event)
    requires Enabled(g, e)
  {
    && Whole(batchSize, e)
    && match e
       case Assign(_, ps) => forall q, p :: p in ps ==> !Owns(g, q, p)
       case Revoke(r, _, _, flushed, late) =>
         var n := g.runners[r];
         && n.batch == [] && flushed == n.ledger.offsets.Keys && late == []
         && (n.ledger.offsets != map[] ==> n.ledger.pending == [])
       case Apply(_, i) => i == 0
       case Abandon(_, _) => false
       case Crash(_) => false
       case _ => true
  }

  ghost predicate CleanRun(batchSize: nat, g: Group, es: seq<Event>)
    decreases |es|
  {
    es != [] ==>
      Enabled(g, es[0]) && Clean(batchSize, g, es[0]) && CleanRun(batchSize, Next(batchSize, g, es[0]), es[1..])
  }

  lemma {:induction false} CleanIsPossible(batchSize: nat, g: Group, es: seq<Event>)
    requires CleanRun(batchSize, g, es)
    ensures Possible(batchSize, g, es)
    decreases |es|
  {
    if es == [] {
    } else {
      CleanIsPossible(batchSize, Next(batchSize, g, es[0]), es[1..]);
    }
  }

  /** Where a partition would be read from if the runner flushed now. */
  ghost function Resume(committed: map<Partition, nat>, n: Runner, p: Partition): nat
    requires p in committed
  {
    if p in n.ledger.offsets then n.ledger.offsets[p] else committed[p]
  }

  ghost predicate InHand(start: map<Partition, nat>, n: Runner) {
    && n.ledger.offsets.Keys <= n.position.Keys <= start.Keys
    && (forall m :: m in n.ledger.pending ==> m.At() in n.ledger.offsets)
    && (forall m :: m in n.waiting ==> m in n.batch)
    && (forall m :: m in n.batch ==> m.At() in n.position)
  }

  /** A partition resumes at the position, or will once the batch in hand is committed. */
  ghost predicate OnTrack(committed: map<Partition, nat>, n: Runner, p: Partition)
    requires p in committed && p in n.position
  {
    if p in Partitions(n.batch) then MaxOffset(n.batch, p) + 1 == n.position[p]
    else Resume(committed, n, p) == n.position[p]
  }

  /** The messages of p received so far are those from its start up to o, less the ones still waiting. */
  ghost predicate ReceivedUpTo(start: nat, history: seq<Message>, waiting: set<Message>, p: Partition, o: nat) {
    && start <= o
    && (forall m :: m in waiting && m.At() == p ==> start <= m.offset < o)
    && forall m: Message :: m.At() == p ==> (m in history <==> start <= m.offset < o && m !in waiting)
  }

  ghost predicate Tidy(start: map<Partition, nat>, committed: map<Partition, nat>, history: seq<Message>, n: Runner)
    requires committed.Keys == start.Keys
  {
    && InHand(start, n)
    && forall p :: p in n.position ==>
         OnTrack(committed, n, p) && ReceivedUpTo(start[p], history, n.waiting, p, n.position[p])
  }

  ghost predicate NoRepeats(history: seq<Message>) {
    forall i, j :: 0 <= i < j < |history| ==> history[i] != history[j]
  }

  ghost predicate Free(g: Group, p: Partition) {
    forall r :: !Owns(g, r, p)
  }

  ghost predicate TidyGroup(g: Group) {
    && g.committed.Keys == g.start.Keys
    && NoRepeats(g.history)
    && (forall q, r, p :: Owns(g, q, p) && Owns(g, r, p) ==> q == r)
    && (forall r :: r in g.runners ==> Tidy(g.start, g.committed, g.history, g.runners[r]))
    && (forall p :: p in g.start && Free(g, p) ==> ReceivedUpTo(g.start[p], g.history, {}, p, g.committed[p]))
  }

  lemma DeliveredMax(n: Runner, ms: seq<Message>, p: Partition)
    requires Deliverable(n.position, ms) && p in Partitions(ms)
    ensures p in Advance(n.position, ms) && MaxOffset(ms, p) + 1 == Advance(n.position, ms)[p]
  {
    AdvanceMoves(n.position, ms);
    var top := Advance(n.position, ms)[p];
    assert MessageAt(p, MaxOffset(ms, p)) in ms;
    assert MessageAt(p, top - 1) in ms;
  }

  /** Commits and receipts for other partitions leave a runner tidy. */
  lemma TidyFrame(g: Group, g': Group, n: Runner)
    requires g'.start == g.start && g.committed.Keys == g.start.Keys == g'.committed.Keys
    requires Tidy(g.start, g.committed, g.history, n)
    requires forall p :: p in n.position ==> g'.committed[p] == g.committed[p]
    requires forall m: Message :: m.At() in n.position ==> (m in g'.history <==> m in g.history)
    ensures Tidy(g.start, g'.committed, g'.history, n)
  {
  }

  /** A step that is tidy for its own runner, and out of the way of the others. */
  ghost predicate Apart(g: Group, g': Group, r: Id)
    requires TidyGroup(g)
  {
    && r in g'.runners && g'.start == g.start && g'.committed.Keys == g.start.Keys
    && NoRepeats(g'.history) && Tidy(g'.start, g'.committed, g'.history, g'.runners[r])
    && g'.runners == g.runners[r := g'.runners[r]]
    && (forall p :: p in g'.runners[r].position ==> Owns(g, r, p) || Free(g, p))
    && (forall p :: p in g.start && !Owns(g, r, p) ==> g'.committed[p] == g.committed[p])
    && (forall m: Message :: !Owns(g, r, m.At()) ==> (m in g'.history <==> m in g.history))
    && (forall p :: p in g.start && Owns(g, r, p) && p !in g'.runners[r].position ==>
          ReceivedUpTo(g.start[p], g'.history, {}, p, g'.committed[p]))
  }

  lemma OthersTidy(g: Group, g': Group, r: Id, q: Id)
    requires TidyGroup(g) && Apart(g, g', r) && q in g'.runners && q != r
    ensures g'.runners[q] == g.runners[q] && Tidy(g'.start, g'.committed, g'.history, g'.runners[q])
  {
    forall p | p in g.runners[q].position ensures !Owns(g, r, p) {
      assert Owns(g, q, p);
    }
    TidyFrame(g, g', g.runners[q]);
  }

  lemma OneOwner(g: Group, g': Group, r: Id, q: Id, p: Partition)
    requires TidyGroup(g) && Apart(g, g', r) && Owns(g', q, p)
    ensures q == r ==> Owns(g, r, p) || Free(g, p)
    ensures q != r ==> Owns(g, q, p) && !Owns(g', r, p)
  {
    if q != r {
      assert Owns(g, q, p) && !Owns(g, r, p);
    }
  }

  lemma ReceivedFrame(start: nat, history: seq<Message>, history': seq<Message>, p: Partition, o: nat)
    requires ReceivedUpTo(start, history, {}, p, o)
    requires forall m: Message :: m.At() == p ==> (m in history' <==> m in history)
    ensures ReceivedUpTo(start, history', {}, p, o)
  {
  }

  lemma StillFree(g: Group, g': Group, r: Id, p: Partition)
    requires r in g'.runners && g'.runners == g.runners[r := g'.runners[r]]
    requires Free(g', p) && !Owns(g, r, p)
    ensures Free(g, p)
  {
    forall q ensures !Owns(g, q, p) {
      assert !Owns(g', q, p);
    }
  }

  lemma FreeReceived(g: Group, g': Group, r: Id, p: Partition)
    requires TidyGroup(g) && Apart(g, g', r) && p in g.start && Free(g', p)
    ensures ReceivedUpTo(g.start[p], g'.history, {}, p, g'.committed[p])
  {
    assert !Owns(g', r, p);
    if !Owns(g, r, p) {
      StillFree(g, g', r, p);
      ReceivedFrame(g.start[p], g.history, g'.history, p, g.committed[p]);
    }
  }

  lemma TidyOthers(g: Group, g': Group, r: Id)
    requires TidyGroup(g) && Apart(g, g', r)
    ensures TidyGroup(g')
  {
    forall q | q in g'.runners && q != r ensures Tidy(g'.start, g'.committed, g'.history, g'.runners[q]) {
      OthersTidy(g, g', r, q);
    }
    forall q, q', p | Owns(g', q, p) && Owns(g', q', p) ensures q == q' {
      OneOwner(g, g', r, q, p);
      OneOwner(g, g', r, q', p);
    }
    forall p | p in g.start && Free(g', p) ensures ReceivedUpTo(g.start[p], g'.history, {}, p, g'.committed[p]) {
      FreeReceived(g, g', r, p);
    }
  }

  lemma TidyJoin(batchSize: nat, g: Group, e: Event)
    requires TidyGroup(g) && e.Join? && Enabled(g, e)
    ensures TidyGroup(Next(batchSize, g, e))
  {
    TidyOthers(g, Next(batchSize, g, e), e.r);
  }

  lemma TidyAssign(batchSize: nat, g: Group, e: Event)
    requires TidyGroup(g) && e.Assign? && Enabled(g, e) && Clean(batchSize, g, e)
    ensures TidyGroup(Next(batchSize, g, e))
  {
    var g' := Next(batchSize, g, e);
    var n, n' := g.runners[e.r], g'.runners[e.r];
    forall p | p in e.ps ensures Free(g, p) && p !in n.position && p !in Partitions(n.batch) {
      assert !Owns(g, e.r, p);
    }
    forall p | p in n'.position
      ensures OnTrack(g'.committed, n', p)
      ensures ReceivedUpTo(g.start[p], g.history, n'.waiting, p, n'.position[p])
      ensures Owns(g, e.r, p) || Free(g, p)
    {
    }
    TidyOthers(g, g', e.r);
  }

  function Received(n: Runner, ms: seq<Message>): Runner {
    n.(position := Advance(n.position, ms), batch := ms, waiting := Elements(ms))
  }

  lemma DeliveredTidy(start: map<Partition, nat>, committed: map<Partition, nat>, history: seq<Message>, n: Runner,
                      ms: seq<Message>)
    requires committed.Keys == start.Keys && Tidy(start, committed, history, n) && n.batch == []
    requires Deliverable(n.position, ms)
    ensures Tidy(start, committed, history, Received(n, ms)) && Received(n, ms).position.Keys == n.position.Keys
  {
    var n' := Received(n, ms);
    AdvanceMoves(n.position, ms);
    forall p | p in n'.position
      ensures OnTrack(committed, n', p)
      ensures ReceivedUpTo(start[p], history, n'.waiting, p, n'.position[p])
    {
      assert p !in Partitions(n.batch);
      if p in Partitions(ms) {
        DeliveredMax(n, ms, p);
      } else {
        assert MessageAt(p, n.position[p]) !in ms;
      }
    }
  }

  lemma TidyDelivered(g: Group, r: Id, ms: seq<Message>)
    requires TidyGroup(g) && r in g.runners && g.runners[r].batch == [] && Deliverable(g.runners[r].position, ms)
    ensures TidyGroup(WithRunner(g, r, Received(g.runners[r], ms)))
  {
    var n' := Received(g.runners[r], ms);
    DeliveredTidy(g.start, g.committed, g.history, g.runners[r], ms);
    forall p | p in n'.position ensures Owns(g, r, p) {}
    TidyOthers(g, WithRunner(g, r, n'), r);
  }

  lemma WholeIsTaken(batchSize: nat, e: Event)
    requires e.Deliver? && Whole(batchSize, e)
    ensures Taken(batchSize, e.paused, e.messages) == e.messages
  {
    assert Taken(batchSize, e.paused, e.messages) == e.messages[..|e.messages|];
  }

  lemma NextReceives(batchSize: nat, g: Group, e: Event)
    requires e.Deliver? && Enabled(g, e) && Whole(batchSize, e)
    ensures Next(batchSize, g, e) == WithRunner(g, e.r, Received(g.runners[e.r], e.messages))
  {
    WholeIsTaken(batchSize, e);
  }

  lemma TidyDeliver(batchSize: nat, g: Group, e: Event)
    requires TidyGroup(g) && e.Deliver? && Enabled(g, e) && Clean(batchSize, g, e)
    ensures TidyGroup(Next(batchSize, g, e))
  {
    NextReceives(batchSize, g, e);
    TidyDelivered(g, e.r, e.messages);
  }

  lemma AppendNew(history: seq<Message>, m: Message)
    requires NoRepeats(history) && m !in history
    ensures NoRepeats(history + [m]) && forall x :: x in history + [m] <==> x in history || x == m
  {
  }

  lemma SettledTidy(start: map<Partition, nat>, committed: map<Partition, nat>, history: seq<Message>, n: Runner,
                    m: Message)
    requires committed.Keys == start.Keys && Tidy(start, committed, history, n) && m in n.waiting
    ensures m !in history
    ensures Tidy(start, committed, history + [m], n.(waiting := n.waiting - {m}))
  {
    forall x ensures x in history + [m] <==> x in history || x == m {}
  }

  lemma TidySettle(batchSize: nat, g: Group, e: Event)
    requires TidyGroup(g) && e.Settle? && Enabled(g, e)
    ensures TidyGroup(Next(batchSize, g, e))
  {
    SettledTidy(g.start, g.committed, g.history, g.runners[e.r], e.m);
    AppendNew(g.history, e.m);
    assert Owns(g, e.r, e.m.At());
    TidyOthers(g, Next(batchSize, g, e), e.r);
  }

  lemma LedgerInHand(n: Runner, ledger: Ledger)
    requires BatchCommitted(n.ledger, n.batch, ledger)
    requires forall m :: m in n.ledger.pending ==> m.At() in n.ledger.offsets
    ensures forall m :: m in ledger.pending ==> m.At() in ledger.offsets
  {
    forall m | m in ledger.pending ensures m.At() in ledger.offsets {
      var i :| 0 <= i < |ledger.pending| && ledger.pending[i] == m;
      if i < |n.ledger.pending| {
        assert m == n.ledger.pending[i];
      } else {
        assert m == ledger.pending[|n.ledger.pending|..][i - |n.ledger.pending|];
      }
    }
  }

  lemma CommittedTidy(start: map<Partition, nat>, committed: map<Partition, nat>, history: seq<Message>, n: Runner,
                      ledger: Ledger)
    requires committed.Keys == start.Keys && Tidy(start, committed, history, n)
    requires n.waiting == {} && BatchCommitted(n.ledger, n.batch, ledger)
    ensures Tidy(start, committed, history, n.(batch := [], ledger := ledger))
  {
    LedgerInHand(n, ledger);
    assert Partitions([]) == {};
    forall p | p in Partitions(n.batch) ensures p in n.position {
      var m :| m in n.batch && m.At() == p;
    }
    var n' := n.(batch := [], ledger := ledger);
    forall p | p in n'.position ensures OnTrack(committed, n', p) {
      assert OnTrack(committed, n, p);
    }
  }

  lemma TidyCommit(batchSize: nat, g: Group, e: Event)
    requires TidyGroup(g) && e.CommitBatch? && Enabled(g, e)
    ensures TidyGroup(Next(batchSize, g, e))
  {
    CommittedTidy(g.start, g.committed, g.history, g.runners[e.r], e.ledger);
    TidyOthers(g, Next(batchSize, g, e), e.r);
  }

  /** Commits that reach the broker are for partitions whose offset is noted, so they move no resume point. */
  lemma PendingTidy(start: map<Partition, nat>, committed: map<Partition, nat>, committed': map<Partition, nat>,
                    history: seq<Message>, n: Runner, pending: seq<Message>)
    requires committed.Keys == start.Keys == committed'.Keys && Tidy(start, committed, history, n)
    requires forall m :: m in pending ==> m in n.ledger.pending
    requires forall p :: p in start && p !in n.ledger.offsets ==> committed'[p] == committed[p]
    ensures Tidy(start, committed', history, n.(ledger := n.ledger.(pending := pending)))
  {
    var n' := n.(ledger := n.ledger.(pending := pending));
    forall p | p in n'.position ensures OnTrack(committed', n', p) {
      assert OnTrack(committed, n, p);
    }
  }

  /** A step that only takes commits off a runner's list, and commits for partitions whose offset it has noted. */
  lemma TidyPending(g: Group, g': Group, r: Id, pending: seq<Message>)
    requires TidyGroup(g) && r in g.runners && g'.committed.Keys == g.start.Keys
    requires var n := g.runners[r];
      g' == WithRunner(g, r, n.(ledger := n.ledger.(pending := pending))).(committed := g'.committed)
    requires forall m :: m in pending ==> m in g.runners[r].ledger.pending
    requires forall p :: p in g.start && p !in g.runners[r].ledger.offsets ==> g'.committed[p] == g.committed[p]
    ensures TidyGroup(g')
  {
    PendingTidy(g.start, g.committed, g'.committed, g.history, g.runners[r], pending);
    TidyOthers(g, g', r);
  }

  lemma AppliesNoted(g: Group, r: Id, i: nat)
    requires TidyGroup(g) && r in g.runners && i < |g.runners[r].ledger.pending|
    ensures var n, g' := g.runners[r], Applied(g, r, i);
      && g'.committed.Keys == g.start.Keys
      && forall p :: p in g.start && p !in n.ledger.offsets ==> g'.committed[p] == g.committed[p]
  {
    var n := g.runners[r];
    assert n.ledger.pending[i] in n.ledger.pending;
    assert InHand(g.start, n);
  }

  lemma TidyApplied(g: Group, r: Id, i: nat)
    requires TidyGroup(g) && r in g.runners && i < |g.runners[r].ledger.pending|
    ensures TidyGroup(Applied(g, r, i))
  {
    AppliesNoted(g, r, i);
    TidyPending(g, Applied(g, r, i), r, RemoveAt(g.runners[r].ledger.pending, i));
  }

  lemma TidyApply(batchSize: nat, g: Group, e: Event)
    requires TidyGroup(g) && e.Apply? && Enabled(g, e)
    ensures TidyGroup(Next(batchSize, g, e))
  {
    TidyApplied(g, e.r, e.i);
    assert Next(batchSize, g, e) == Applied(g, e.r, e.i);
  }

  lemma TidyLose(batchSize: nat, g: Group, e: Event)
    requires TidyGroup(g) && Enabled(g, e) && e.Lose?
    ensures TidyGroup(Next(batchSize, g, e))
  {
    TidyPending(g, Next(batchSize, g, e), e.r, RemoveAt(g.runners[e.r].ledger.pending, e.i));
  }

  /** Between batches a successful flush commits exactly the positions. */
  lemma FlushedTidy(start: map<Partition, nat>, committed: map<Partition, nat>, committed': map<Partition, nat>,
                    history: seq<Message>, n: Runner, ps: set<Partition>)
    requires committed.Keys == start.Keys == committed'.Keys && Tidy(start, committed, history, n) && n.batch == []
    requires n.ledger.offsets != map[] ==> n.ledger.pending == []
    requires forall p :: p in n.position ==> committed'[p] == Resume(committed, n, p)
    ensures n.waiting == {} && forall p :: p in n.position ==> committed'[p] == n.position[p]
    ensures Tidy(start, committed', history, n.(position := n.position - ps, ledger := n.ledger.(offsets := map[])))
  {
    assert forall i :: 0 <= i < |n.ledger.pending| ==> n.ledger.pending[i] in n.ledger.pending;
    assert n.waiting == {} && Partitions(n.batch) == {};
    forall p | p in n.position ensures committed'[p] == n.position[p] {
      assert OnTrack(committed, n, p);
    }
  }

  lemma FlushedNote(batchSize: nat, g: Group, e: Event, p: Partition)
    requires e.Revoke? && Enabled(g, e) && p in g.committed
    ensures var n, g' := g.runners[e.r], Next(batchSize, g, e);
      && p in g'.committed
      && g'.committed[p] == if p in e.flushed && p in n.ledger.offsets then n.ledger.offsets[p] else g.committed[p]
  {
  }

  lemma FlushKeys(batchSize: nat, g: Group, e: Event)
    requires e.Revoke? && Enabled(g, e) && g.runners[e.r].ledger.offsets.Keys <= g.committed.Keys
    ensures Next(batchSize, g, e).committed.Keys == g.committed.Keys
  {
  }

  /** A successful flush commits each noted offset, and leaves all other partitions alone. */
  lemma FlushCommits(batchSize: nat, g: Group, e: Event)
    requires TidyGroup(g) && e.Revoke? && Enabled(g, e) && Clean(batchSize, g, e)
    ensures var n, g' := g.runners[e.r], Next(batchSize, g, e);
      && g'.committed.Keys == g.start.Keys
      && (forall p :: p in n.position ==> p in g.committed && g'.committed[p] == Resume(g.committed, n, p))
      && (forall p :: p in g.start && p !in n.position ==> g'.committed[p] == g.committed[p])
  {
    assert InHand(g.start, g.runners[e.r]);
    FlushKeys(batchSize, g, e);
    forall p | p in g.committed {
      FlushedNote(batchSize, g, e, p);
    }
  }

  lemma TidyRevoke(batchSize: nat, g: Group, e: Event)
    requires TidyGroup(g) && e.Revoke? && Enabled(g, e) && Clean(batchSize, g, e)
    ensures TidyGroup(Next(batchSize, g, e))
  {
    var g' := Next(batchSize, g, e);
    assert g.runners[e.r].ledger.pending + [] == g.runners[e.r].ledger.pending;
    FlushCommits(batchSize, g, e);
    FlushedTidy(g.start, g.committed, g'.committed, g.history, g.runners[e.r], e.ps);
    TidyOthers(g, g', e.r);
  }

  lemma TidyStep(batchSize: nat, g: Group, e: Event)
    requires TidyGroup(g) && Enabled(g, e) && Clean(batchSize, g, e)
    ensures TidyGroup(Next(batchSize, g, e))
  {
    match e
    case Join(_) => TidyJoin(batchSize, g, e);
    case Assign(_, _) => TidyAssign(batchSize, g, e);
    case Deliver(_, _, _) => TidyDeliver(batchSize, g, e);
    case Settle(_, _) => TidySettle(batchSize, g, e);
    case CommitBatch(_, _) => TidyCommit(batchSize, g, e);
    case Apply(_, _) => TidyApply(batchSize, g, e);
    case Lose(_, _) => TidyLose(batchSize, g, e);
    case Revoke(_, _, _, _, _) => TidyRevoke(batchSize, g, e);
  }

  lemma SameStart(batchSize: nat, g: Group, e: Event)
    requires Enabled(g, e)
    ensures Next(batchSize, g, e).start == g.start
  {
  }

  lemma {:induction false} TidyRun(batchSize: nat, g: Group, es: seq<Event>)
    requires TidyGroup(g) && CleanRun(batchSize, g, es)
    ensures Possible(batchSize, g, es) && TidyGroup(Run(batchSize, g, es)) && Run(batchSize, g, es).start == g.start
    decreases |es|
  {
    CleanIsPossible(batchSize, g, es);
    if es == [] {
    } else {
      TidyStep(batchSize, g, es[0]);
      SameStart(batchSize, g, es[0]);
      TidyRun(batchSize, Next(batchSize, g, es[0]), es[1..]);
    }
  }

  /** In a clean run no message is received twice, by any runners; and between batches each partition a runner
      holds would be handed over exactly where the runner stands. */
  lemma CleanHandover(batchSize: nat, g: Group, es: seq<Event>)
    requires Init(g) && CleanRun(batchSize, g, es)
    ensures Possible(batchSize, g, es)
    ensures var g' := Run(batchSize, g, es);
      && NoRepeats(g'.history)
      && (forall r, p :: r in g'.runners && p in g'.runners[r].ledger.offsets && g'.runners[r].batch == [] ==>
            p in g'.runners[r].position && g'.runners[r].ledger.offsets[p] == g'.runners[r].position[p])
      && (forall r, p :: r in g'.runners && p in g'.runners[r].position && g'.runners[r].batch == [] ==>
            p in g'.committed && Resume(g'.committed, g'.runners[r], p) == g'.runners[r].position[p])
  {
    assert TidyGroup(g);
    TidyRun(batchSize, g, es);
    var g' := Run(batchSize, g, es);
    forall r, p | r in g'.runners && p in g'.runners[r].position && g'.runners[r].batch == []
      ensures p in g'.committed && Resume(g'.committed, g'.runners[r], p) == g'.runners[r].position[p]
    {
      assert Tidy(g'.start, g'.committed, g'.history, g'.runners[r]);
      assert p !in Partitions(g'.runners[r].batch);
    }
    forall r, p | r in g'.runners && p in g'.runners[r].ledger.offsets && g'.runners[r].batch == []
      ensures p in g'.runners[r].position && g'.runners[r].ledger.offsets[p] == g'.runners[r].position[p]
    {
      assert Tidy(g'.start, g'.committed, g'.history, g'.runners[r]);
      assert p in g'.runners[r].position;
    }
  }
}
