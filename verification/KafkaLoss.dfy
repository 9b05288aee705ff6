/** Exactly which deliveries can lead to a committed message that nobody received. */
module KafkaLoss {
  import opened KafkaMessages
  import opened KafkaGroup

  lemma {:induction false} RunAppend(batchSize: nat, g: Group, a: seq<Event>, b: seq<Event>)
    requires Possible(batchSize, g, a) && Possible(batchSize, Run(batchSize, g, a), b)
    ensures Possible(batchSize, g, a + b)
    ensures Run(batchSize, g, a + b) == Run(batchSize, Run(batchSize, g, a), b)
    decreases |a|
  {
    if a == [] {
      assert a + b == b;
    } else {
      RunAppend(batchSize, Next(batchSize, g, a[0]), a[1..], b);
      assert (a + b)[1..] == a[1..] + b;
    }
  }

  /** A step in front of a run whose deliveries are whole. */
  lemma RunCons(batchSize: nat, g: Group, e: Event, es: seq<Event>) returns (all: seq<Event>)
    requires Enabled(g, e) && Possible(batchSize, Next(batchSize, g, e), es)
    requires Whole(batchSize, e) && forall f :: f in es ==> Whole(batchSize, f)
    ensures Possible(batchSize, g, all) && Run(batchSize, g, all) == Run(batchSize, Next(batchSize, g, e), es)
    ensures forall f :: f in all ==> Whole(batchSize, f)
  {
    all := [e] + es;
    assert all[1..] == es;
  }

  lemma {:induction false} DeliverableSplit(position: map<Partition, nat>, a: seq<Message>, b: seq<Message>)
    requires Deliverable(position, a + b)
    ensures Deliverable(position, a) && Deliverable(Advance(position, a), b)
    decreases |a|
  {
    if a == [] {
      assert a + b == b;
    } else {
      assert (a + b)[1..] == a[1..] + b;
      DeliverableSplit(position[a[0].At() := a[0].offset + 1], a[1..], b);
    }
  }

  /** A batch always has a list of commits to send. */
  lemma {:induction false} HighestOf(batch: seq<Message>, ps: set<Partition>) returns (ms: seq<Message>)
    requires ps <= Partitions(batch)
    ensures forall i :: 0 <= i < |ms| ==> ms[i].At() in ps && ms[i].offset == MaxOffset(batch, ms[i].At())
    ensures forall p :: p in ps ==> exists i :: 0 <= i < |ms| && ms[i].At() == p
    ensures forall i, j :: 0 <= i < j < |ms| ==> ms[i].At() != ms[j].At()
    decreases ps
  {
    if ps == {} {
      ms := [];
    } else {
      var p :| p in ps;
      var rest := HighestOf(batch, ps - {p});
      ms := rest + [MessageAt(p, MaxOffset(batch, p))];
      forall q | q in ps ensures exists i :: 0 <= i < |ms| && ms[i].At() == q {
        if q == p {
          assert ms[|rest|].At() == q;
        } else {
          assert q in ps - {p};
          var i :| 0 <= i < |rest| && rest[i].At() == q;
          assert ms[i].At() == q;
        }
      }
    }
  }

  lemma CommitPossible(before: Ledger, batch: seq<Message>) returns (after: Ledger)
    ensures BatchCommitted(before, batch, after)
  {
    var ms := HighestOf(batch, Partitions(batch));
    after := Ledger(before.offsets + Commits(batch), before.pending + ms);
    assert after.pending[|before.pending|..] == ms;
  }

  /** The batch in hand can always be settled. */
  lemma {:induction false} SettleAll(batchSize: nat, g: Group, r: Id) returns (es: seq<Event>)
    requires r in g.runners
    ensures Possible(batchSize, g, es) && forall e :: e in es ==> Whole(batchSize, e)
    ensures var n, g' := g.runners[r], Run(batchSize, g, es);
      && g'.(history := g.history) == WithRunner(g, r, n.(waiting := {}))
      && forall m :: m in g'.history ==> m in g.history || m in n.waiting
    decreases g.runners[r].waiting
  {
    var n := g.runners[r];
    if n.waiting == {} {
      es := [];
      assert g.runners[r := n] == g.runners;
    } else {
      var m :| m in n.waiting;
      var rest := SettleAll(batchSize, Next(batchSize, g, Settle(r, m)), r);
      es := [Settle(r, m)] + rest;
      assert es[1..] == rest;
    }
  }

  /** A runner past a message nobody received can take the next one, settle it, and commit past both. */
  lemma Overtake(batchSize: nat, g: Group, r: Id, lost: Message) returns (es: seq<Event>)
    requires batchSize > 0 && r in g.runners && g.runners[r].batch == [] && g.committed.Keys == g.start.Keys
    requires var n := g.runners[r];
      lost.At() in n.position && lost.At() in g.start && g.start[lost.At()] <= lost.offset < n.position[lost.At()]
    requires lost !in g.history
    ensures Possible(batchSize, g, es) && forall e :: e in es ==> Whole(batchSize, e)
    ensures !NoLoss(Run(batchSize, g, es))
  {
    var n, p := g.runners[r], lost.At();
    var next := MessageAt(p, n.position[p]);
    assert [next][1..] == [];
    var g1 := Next(batchSize, g, Deliver(r, false, [next]));
    assert next in g1.runners[r].waiting;
    var g2 := Next(batchSize, g1, Settle(r, next));
    assert g2.runners[r].waiting == {};
    var ledger, i := CommitOne(n.ledger, next);
    var g3 := Next(batchSize, g2, CommitBatch(r, ledger));
    var g4 := Next(batchSize, g3, Apply(r, i));
    assert lost == MessageAt(p, lost.offset) && lost !in Elements(g4.history);
    assert !Covered(g4.start, Elements(g4.history), p, g4.committed[p]);
    es := RunCons(batchSize, g3, Apply(r, i), []);
    es := RunCons(batchSize, g2, CommitBatch(r, ledger), es);
    es := RunCons(batchSize, g1, Settle(r, next), es);
    es := RunCons(batchSize, g, Deliver(r, false, [next]), es);
  }

  lemma CommitOne(before: Ledger, m: Message) returns (after: Ledger, i: nat)
    ensures BatchCommitted(before, [m], after)
    ensures i < |after.pending| && after.pending[i] == m
  {
    after := CommitPossible(before, [m]);
    assert m in [m];
    assert m.At() in Partitions([m]) && MaxOffset([m], m.At()) == m.offset;
    var sent := after.pending[|before.pending|..];
    var j :| 0 <= j < |sent| && sent[j].At() == m.At();
    i := |before.pending| + j;
    assert after.pending[i] == sent[j];
  }

  ghost predicate CanLose(batchSize: nat, g: Group) {
    exists es :: Possible(batchSize, g, es) && (forall e :: e in es ==> Whole(batchSize, e))
                 && !NoLoss(Run(batchSize, g, es))
  }

  /** A dropped message is behind the runner's position, yet not in its batch. */
  lemma DroppedIsPassed(batchSize: nat, g: Group, e: Event, lost: Message)
    requires Inv(g) && Enabled(g, e) && lost in Dropped(batchSize, e)
    ensures var n := Next(batchSize, g, e).runners[e.r];
      && lost !in n.batch
      && lost.At() in n.position && lost.At() in g.start && g.start[lost.At()] <= lost.offset < n.position[lost.At()]
  {
    var position := g.runners[e.r].position;
    var batch, rest := Taken(batchSize, e.paused, e.messages), Dropped(batchSize, e);
    assert e.messages == batch + rest;
    DeliverableSplit(position, batch, rest);
    AdvanceMoves(position, e.messages);
    AdvanceMoves(position, batch);
    AdvanceMoves(Advance(position, batch), rest);
    assert lost in e.messages;
  }

  /** A runner can always finish the batch in hand. */
  lemma FinishBatch(batchSize: nat, g: Group, r: Id) returns (es: seq<Event>)
    requires r in g.runners
    ensures Possible(batchSize, g, es) && forall e :: e in es ==> Whole(batchSize, e)
    ensures var n, g' := g.runners[r], Run(batchSize, g, es);
      && r in g'.runners && g'.runners[r].batch == [] && g'.runners[r].position == n.position
      && g'.start == g.start && g'.committed == g.committed
      && forall m :: m in g'.history ==> m in g.history || m in n.waiting
  {
    es := SettleAll(batchSize, g, r);
    var g1 := Run(batchSize, g, es);
    var n := g1.runners[r];
    assert n == g.runners[r].(waiting := {}) by {
      assert g1.(history := g.history).runners == g1.runners;
    }
    if n.batch != [] {
      var ledger := CommitPossible(n.ledger, n.batch);
      var commit := RunCons(batchSize, g1, CommitBatch(r, ledger), []);
      RunAppend(batchSize, g, es, commit);
      es := es + commit;
    }
  }

  lemma DropLoses(batchSize: nat, g: Group, e: Event, lost: Message)
    requires batchSize > 0 && Inv(g) && Enabled(g, e)
    requires lost in Dropped(batchSize, e) && lost !in g.history
    ensures CanLose(batchSize, Next(batchSize, g, e))
  {
    DroppedIsPassed(batchSize, g, e, lost);
    var g1 := Next(batchSize, g, e);
    var finish := FinishBatch(batchSize, g1, e.r);
    var overtake := Overtake(batchSize, Run(batchSize, g1, finish), e.r, lost);
    LosesLater(batchSize, g1, finish);
  }

  /** What can lose after a run of whole deliveries can lose before it. */
  lemma LosesLater(batchSize: nat, g: Group, first: seq<Event>)
    requires Possible(batchSize, g, first) && forall e :: e in first ==> Whole(batchSize, e)
    requires CanLose(batchSize, Run(batchSize, g, first))
    ensures CanLose(batchSize, g)
  {
    var rest :| Possible(batchSize, Run(batchSize, g, first), rest) && (forall e :: e in rest ==> Whole(batchSize, e))
                && !NoLoss(Run(batchSize, Run(batchSize, g, first), rest));
    RunAppend(batchSize, g, first, rest);
    assert forall e :: e in first + rest ==> Whole(batchSize, e);
  }

  /** A delivery opens the way to loss exactly when it drops a message that has not been received. */
  lemma LossExactly(batchSize: nat, g: Group, e: Event)
    requires batchSize > 0 && Inv(g) && Enabled(g, e)
    ensures CanLose(batchSize, Next(batchSize, g, e)) <==>
            exists m :: m in Dropped(batchSize, e) && m !in g.history
  {
    if m :| m in Dropped(batchSize, e) && m !in g.history {
      DropLoses(batchSize, g, e, m);
    } else {
      InvStep(batchSize, g, e);
      forall es | Possible(batchSize, Next(batchSize, g, e), es) && forall e :: e in es ==> Whole(batchSize, e)
        ensures NoLoss(Run(batchSize, Next(batchSize, g, e), es))
      {
        InvRun(batchSize, Next(batchSize, g, e), es);
      }
    }
  }

  lemma RunOne(batchSize: nat, g: Group, e: Event, es: seq<Event>)
    requires Enabled(g, e) && Possible(batchSize, Next(batchSize, g, e), es)
    ensures Possible(batchSize, g, [e] + es)
    ensures Run(batchSize, g, [e] + es) == Run(batchSize, Next(batchSize, g, e), es)
  {
    assert ([e] + es)[1..] == es;
  }

  lemma DeliverPaused(batchSize: nat, g: Group, r: Id, p: Partition) returns (e: Event)
    requires batchSize > 0 && Inv(g) && r in g.runners && g.runners[r].batch == [] && p in g.runners[r].position
    requires MessageAt(p, g.runners[r].position[p]) !in g.history
    ensures e == Deliver(r, true, [MessageAt(p, g.runners[r].position[p])])
    ensures Enabled(g, e) && CanLose(batchSize, Next(batchSize, g, e))
  {
    var m := MessageAt(p, g.runners[r].position[p]);
    e := Deliver(r, true, [m]);
    assert [m][1..] == [];
    assert m in Dropped(batchSize, e);
    DropLoses(batchSize, g, e, m);
  }

  /** For instance, from the start: a runner takes its first message in a callback entered while paused. */
  lemma PausedCallbackLoses(batchSize: nat, g: Group, r: Id, p: Partition)
    requires batchSize > 0 && Init(g) && p in g.start
    ensures var es := [Join(r), Assign(r, {p}), Deliver(r, true, [MessageAt(p, g.start[p])])];
      Possible(batchSize, g, es) && CanLose(batchSize, Run(batchSize, g, es))
  {
    var g1 := Next(batchSize, g, Join(r));
    var g2 := Next(batchSize, g1, Assign(r, {p}));
    InvInit(g);
    InvStep(batchSize, g, Join(r));
    InvStep(batchSize, g1, Assign(r, {p}));
    var e := DeliverPaused(batchSize, g2, r, p);
    RunOne(batchSize, g2, e, []);
    RunOne(batchSize, g1, Assign(r, {p}), [e]);
    RunOne(batchSize, g, Join(r), [Assign(r, {p}), e]);
    assert [e] + [] == [e] && [Assign(r, {p})] + [e] == [Assign(r, {p}), e];
    assert [Join(r)] + [Assign(r, {p}), e] == [Join(r), Assign(r, {p}), e];
  }
}
