/** Which message each step of a workflow runs on, when messages may be repeated and overtake one another. */
module WorkflowInputs {
  import opened Wrappers
  import opened WorkflowModel
  import opened WorkflowRuns

  /** A message some execution of this workflow published. */
  ghost predicate Published(d: Definition, id: string, l: seq<Exec>, payload: Payload) {
    exists j :: 0 <= j < |l| && l[j].step + 1 < |d.steps| && Carries(payload, id, l[j].result)
  }

  /** Deliveries that name this workflow are of its own messages, each any number of times and in any order. */
  ghost predicate OwnMessages(d: Definition, s: State, dls: seq<Delivery>, id: string)
    decreases |dls|
  {
    dls != [] ==>
      && (IdOf(dls[0].payload) == Success(Some(id)) ==> Published(d, id, History(s, id), dls[0].payload))
      && OwnMessages(d, Next(d, s, dls[0]), dls[1..], id)
  }

  /** Every execution but the first is of a message an earlier one published. */
  ghost predicate RunOnPublished(d: Definition, id: string, l: seq<Exec>) {
    forall i :: 0 < i < |l| ==> Published(d, id, l[..i], l[i].payload)
  }

  /** Each step but the first ran on what the step before it published. */
  ghost predicate Composed(d: Definition, id: string, l: seq<Exec>) {
    forall i :: 0 < i < |l| && i < |d.steps| ==> Carries(l[i].payload, id, l[i - 1].result)
  }

  /** What a delivery to a stored row needs for its step to execute and be committed: an undisturbed row at that
      step and of this service, a step function that returns, and, if the next message cannot be published, rollback
      handlers that do not throw. */
  predicate Commits(d: Definition, row: Row, i: nat, payload: Payload, w: World)
    requires i < |d.steps|
  {
    && row.errors == [] && row.serviceId == d.serviceId && ExpectedOrder(d.steps, i, row.results)
    && w.execute(i, payload).Success?
    && (i + 1 == |d.steps| || w.publish.Pass? || !RollbackThrows(w, if d.steps[i].hasRollback then i + 1 else 0))
  }

  /** A delivery that names the workflow, with the row as it is before the call. */
  predicate Advances(d: Definition, rows: Rows, dl: Delivery, id: string) {
    && IdOf(dl.payload) == Success(Some(id)) && id != "" && id in rows
    && var i := IndexOf(d.steps, rows[id].current);
    i.Some? && Commits(d, rows[id], i.value, dl.payload, dl.world)
  }

  /** The newest result, told from the row: what the step before the row's step stored. */
  function NewestResult(d: Definition, row: Row, i: nat): Json
    requires 0 < i < |d.steps|
  {
    var name := d.steps[i - 1].name;
    if name in row.results then row.results[name] else Undefined
  }

  /** A delivery that advances a workflow under way, past its first step, carries the message for its step. */
  ghost predicate Prompt(d: Definition, rows: Rows, dl: Delivery, id: string) {
    Advances(d, rows, dl, id) && !rows[id].completed ==>
      var i := IndexOf(d.steps, rows[id].current).value;
      i > 0 ==> Carries(dl.payload, id, NewestResult(d, rows[id], i))
  }

  ghost predicate AllPrompt(d: Definition, s: State, dls: seq<Delivery>, id: string)
    decreases |dls|
  {
    dls != [] ==> Prompt(d, s.rows, dls[0], id) && AllPrompt(d, Next(d, s, dls[0]), dls[1..], id)
  }

  lemma NoExecution(es: seq<Effect>, i: nat)
    requires forall e :: e in es ==> e == RolledBack(i)
    ensures Successes(es) == []
  {
    NoSuccesses(es);
  }

  lemma RollBackSuccesses(d: Definition, row: Row, i: nat, w: World, es: seq<Effect>)
    requires i < |d.steps|
    ensures Successes(RollBack(d, row, i, w, es).effects) == Successes(es)
  {
    var back := Repeat(RolledBack(i), CallsMade(w, if d.steps[i].hasRollback then i + 1 else 0));
    SuccessesAppend(es, back);
    NoExecution(back, i);
  }

  /** What a delivery to a row without errors executes successfully: its step at most once, on the payload
      delivered. */
  lemma ExecuteOnce(d: Definition, id: string, row: Row, i: nat, payload: Payload, w: World)
    requires i < |d.steps|
    ensures var es := Successes(Execute(d, id, row, i, payload, w).effects);
      es == [] || (|es| == 1 && es[0].payload == payload)
  {
    var outcome := w.execute(i, payload);
    var es := [Executed(i, payload, outcome)];
    assert es[1..] == [];
    if row.serviceId != d.serviceId || !ExpectedOrder(d.steps, i, row.results) {
      var error := if row.serviceId != d.serviceId then OTHER_SERVICE else OUT_OF_ORDER;
      RollBackSuccesses(d, row.(errors := row.errors + [ExecuteError(d.steps[i].name, error)]), i, w, []);
    } else if outcome.Failure? {
      RollBackSuccesses(d, row.(errors := row.errors + [ExecuteError(d.steps[i].name, outcome.error)]), i, w, es);
    } else {
      PublishSuccesses(d, id, row, i, payload, w, es);
    }
  }

  lemma PublishSuccesses(d: Definition, id: string, row: Row, i: nat, payload: Payload, w: World, es: seq<Effect>)
    requires i < |d.steps| && row.serviceId == d.serviceId && ExpectedOrder(d.steps, i, row.results)
    requires w.execute(i, payload).Success? && es == [Executed(i, payload, w.execute(i, payload))]
    ensures Successes(Execute(d, id, row, i, payload, w).effects) == Successes(es)
  {
    var result := w.execute(i, payload).value;
    if i + 1 < |d.steps| {
      if w.publish.Fail? {
        var moved := row.(results := Stored(row.results, d.steps[i].name, result), current := d.steps[i + 1].name);
        var failed := moved.(errors := moved.errors + [ExecuteError(d.steps[i].name, w.publish.error)]);
        RollBackSuccesses(d, failed, i, w, es);
      } else {
        var sent := [Sent(StepMessage(d, i + 1), NextPayload(id, result))];
        SuccessesAppend(es, sent);
        assert sent[1..] == [] && Successes(sent) == [];
      }
    }
  }

  lemma OnRowOnce(d: Definition, id: string, row: Row, payload: Payload, w: World)
    ensures var es := Successes(OnRow(d, id, row, payload, w).effects);
      es == [] || (|es| == 1 && es[0].payload == payload)
  {
    var i := IndexOf(d.steps, row.current);
    if row.current != "" && i.Some? {
      if row.errors == [] {
        ExecuteOnce(d, id, row, i.value, payload, w);
      } else {
        RollBackSuccesses(d, row, i.value, w, []);
      }
    }
  }

  /** One execution more, of this payload, or none. */
  ghost predicate AtMostOneMore(l: seq<Exec>, l': seq<Exec>, payload: Payload) {
    l' == l || (|l'| == |l| + 1 && l' == l + [l'[|l|]] && l'[|l|].payload == payload)
  }

  lemma AddsOnce(l: seq<Exec>, es: seq<Exec>, payload: Payload)
    requires es == [] || (|es| == 1 && es[0].payload == payload)
    ensures AtMostOneMore(l, l + es, payload)
  {
    if es == [] {
      assert l + es == l;
    } else {
      assert es == [es[0]];
    }
  }

  /** A delivery adds one execution at most to a workflow, of the payload delivered; and one that does not name the
      workflow only to one without any. */
  lemma NextExecutesOnce(d: Definition, s: State, dl: Delivery, id: string)
    requires d.steps != [] && (IdOf(dl.payload) == Success(None) ==> dl.world.newId !in s.log)
    ensures AtMostOneMore(History(s, id), History(Next(d, s, dl), id), dl.payload)
    ensures History(Next(d, s, dl), id) != History(s, id) && History(s, id) != [] ==>
              IdOf(dl.payload) == Success(Some(id))
  {
    var touched := NextIsOnRow(d, s, dl);
    if touched == Some(id) {
      var row := Met(d, s, id, dl.payload);
      OnRowOnce(d, id, row, dl.payload, dl.world);
      AddsOnce(History(s, id), Successes(OnRow(d, id, row, dl.payload, dl.world).effects), dl.payload);
      TouchedByName(d, s.rows, dl.payload, dl.world);
    }
  }

  lemma TouchedByName(d: Definition, rows: Rows, payload: Payload, w: World)
    requires d.steps != [] && Deliver(d, rows, payload, w).result.Success?
    ensures var id := Deliver(d, rows, payload, w).result.value;
      IdOf(payload) == Success(Some(id)) || (id == w.newId && IdOf(payload) == Success(None))
  {
  }

  lemma PublishedOneMore(d: Definition, id: string, l: seq<Exec>, l': seq<Exec>, payload: Payload)
    requires RunOnPublished(d, id, l) && AtMostOneMore(l, l', payload)
    requires l' != l && l != [] ==> Published(d, id, l, payload)
    ensures RunOnPublished(d, id, l')
  {
    forall i | 0 < i < |l'| ensures Published(d, id, l'[..i], l'[i].payload) {
      if i == |l| {
        assert l'[..i] == l;
      } else {
        assert l'[..i] == l[..i];
      }
    }
  }

  /** With messages delivered at least once, however often and in whatever order, each step runs on a message of
      its own workflow, though perhaps not on its own. */
  lemma {:induction false} StepsRunOnPublished(d: Definition, s: State, dls: seq<Delivery>, id: string)
    requires d.steps != [] && FreshIds(d, s, dls) && OwnMessages(d, s, dls, id)
    requires RunOnPublished(d, id, History(s, id))
    ensures RunOnPublished(d, id, History(Run(d, s, dls), id))
    decreases |dls|
  {
    if dls == [] {
    } else {
      NextExecutesOnce(d, s, dls[0], id);
      PublishedOneMore(d, id, History(s, id), History(Next(d, s, dls[0]), id), dls[0].payload);
      StepsRunOnPublished(d, Next(d, s, dls[0]), dls[1..], id);
    }
  }

  /** A delivery to a row without errors commits an execution exactly under its guard. */
  lemma CommitsExactly(d: Definition, id: string, row: Row, i: nat, payload: Payload, w: World)
    requires i < |d.steps| && row.errors == []
    ensures var r := Execute(d, id, row, i, payload, w);
      (r.Kept? && Successes(r.effects) != []) <==> Commits(d, row, i, payload, w)
  {
    var outcome := w.execute(i, payload);
    var es := [Executed(i, payload, outcome)];
    assert es[1..] == [];
    if row.serviceId != d.serviceId || !ExpectedOrder(d.steps, i, row.results) {
      var error := if row.serviceId != d.serviceId then OTHER_SERVICE else OUT_OF_ORDER;
      RollBackSuccesses(d, row.(errors := row.errors + [ExecuteError(d.steps[i].name, error)]), i, w, []);
    } else if outcome.Failure? {
      RollBackSuccesses(d, row.(errors := row.errors + [ExecuteError(d.steps[i].name, outcome.error)]), i, w, es);
    } else {
      PublishSuccesses(d, id, row, i, payload, w, es);
    }
  }

  lemma OnRowCommitsExactly(d: Definition, id: string, row: Row, payload: Payload, w: World)
    requires ValidDefinition(d)
    ensures var r, i := OnRow(d, id, row, payload, w), IndexOf(d.steps, row.current);
      (r.Kept? && Successes(r.effects) != []) <==> i.Some? && Commits(d, row, i.value, payload, w)
  {
    var i := IndexOf(d.steps, row.current);
    if row.current != "" && i.Some? {
      if row.errors == [] {
        CommitsExactly(d, id, row, i.value, payload, w);
      } else {
        RollBackSuccesses(d, row, i.value, w, []);
      }
    }
  }

  /** A stored workflow executes a step exactly when a delivery passes the guard on its row. */
  lemma AdvancesExactly(d: Definition, s: State, dl: Delivery, id: string)
    requires ValidDefinition(d) && (IdOf(dl.payload) == Success(None) ==> dl.world.newId !in s.log)
    requires s.rows.Keys <= s.log.Keys && (id in s.rows || History(s, id) != [])
    ensures History(Next(d, s, dl), id) != History(s, id) <==> Advances(d, s.rows, dl, id)
  {
    if IdOf(dl.payload) == Success(Some(id)) && id != "" && id in s.rows {
      var row := s.rows[id];
      DeliverToRow(d, s.rows, id, dl.payload, dl.world);
      OnRowCommitsExactly(d, id, row, dl.payload, dl.world);
    } else {
      NotNamed(d, s, dl, id);
    }
  }

  lemma NotNamed(d: Definition, s: State, dl: Delivery, id: string)
    requires d.steps != [] && (IdOf(dl.payload) == Success(None) ==> dl.world.newId !in s.log)
    requires s.rows.Keys <= s.log.Keys && (id in s.rows || History(s, id) != [])
    requires IdOf(dl.payload) != Success(Some(id)) || id == "" || id !in s.rows
    ensures History(Next(d, s, dl), id) == History(s, id)
  {
    var touched := NextIsOnRow(d, s, dl);
    if touched == Some(id) {
      TouchedByName(d, s.rows, dl.payload, dl.world);
    }
  }

  /** In a reachable state the row tells what the newest result is, and how far the workflow has come. */
  lemma NewestMessage(d: Definition, row: Row, l: seq<Exec>)
    requires ValidDefinition(d) && Consistent(d, Some(row), l) && row.errors == []
    ensures var i := IndexOf(d.steps, row.current).value;
      && (0 < |l| < |d.steps| <==> i > 0 && !row.completed)
      && (i > 0 && !row.completed ==> NewestResult(d, row, i) == l[|l| - 1].result)
  {
    var i := IndexOf(d.steps, row.current).value;
    if i > 0 && !row.completed {
      ResultOf(d, l, i - 1);
    }
  }

  /** Each step of a workflow runs on the message published for it if and only if every delivery that passes the
      guard on the stored row, while the workflow is under way, carries the message for the row's step. */
  lemma {:induction false} ComposedFrom(d: Definition, s: State, dls: seq<Delivery>, id: string)
    requires ValidDefinition(d) && Inv(d, s) && FreshIds(d, s, dls)
    ensures Composed(d, id, History(Run(d, s, dls), id)) <==>
            Composed(d, id, History(s, id)) && AllPrompt(d, s, dls, id)
    decreases |dls|
  {
    if dls == [] {
    } else {
      ComposedNext(d, s, dls[0], id);
      NextInv(d, s, dls[0]);
      ComposedFrom(d, Next(d, s, dls[0]), dls[1..], id);
    }
  }

  lemma ComposedExactly(d: Definition, dls: seq<Delivery>, id: string)
    requires ValidDefinition(d) && FreshIds(d, EMPTY, dls)
    ensures Composed(d, id, History(Run(d, EMPTY, dls), id)) <==> AllPrompt(d, EMPTY, dls, id)
  {
    ComposedFrom(d, EMPTY, dls, id);
  }

  lemma ComposedNext(d: Definition, s: State, dl: Delivery, id: string)
    requires ValidDefinition(d) && Inv(d, s) && (IdOf(dl.payload) == Success(None) ==> dl.world.newId !in s.log)
    ensures Composed(d, id, History(Next(d, s, dl), id)) <==>
            Composed(d, id, History(s, id)) && Prompt(d, s.rows, dl, id)
  {
    var l, l' := History(s, id), History(Next(d, s, dl), id);
    NextExecutesOnce(d, s, dl, id);
    ComposedOneMore(d, id, l, l', dl.payload);
    if id in s.rows || l != [] {
      AdvancesExactly(d, s, dl, id);
    }
    if id in s.rows {
      assert Consistent(d, RowOf(s, id), s.log[id]);
      if s.rows[id].errors == [] { NewestMessage(d, s.rows[id], l); }
    }
  }

  lemma ComposedOneMore(d: Definition, id: string, l: seq<Exec>, l': seq<Exec>, payload: Payload)
    requires AtMostOneMore(l, l', payload)
    ensures Composed(d, id, l') <==>
            Composed(d, id, l)
            && (0 < |l| < |d.steps| && l' != l ==> Carries(payload, id, l[|l| - 1].result))
  {
    if l' != l {
      assert forall i :: 0 <= i < |l| ==> l'[i] == l[i];
      if Composed(d, id, l') {
        forall i | 0 < i < |l| && i < |d.steps| ensures Carries(l[i].payload, id, l[i - 1].result) {
          assert Carries(l'[i].payload, id, l'[i - 1].result);
        }
      }
    }
  }
}
