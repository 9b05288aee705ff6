/** Workflows of several definitions over one store, where any message may carry any workflow's id. */
module WorkflowShared {
  import opened Wrappers
  import opened WorkflowModel
  import opened WorkflowRuns

  /** A delivery, and the definition whose step message it is. */
  datatype Addressed = Addressed(to: Definition, delivery: Delivery)

  function NextShared(s: State, a: Addressed): State {
    Next(a.to, s, a.delivery)
  }

  function RunShared(s: State, deliveries: seq<Addressed>): State
    decreases |deliveries|
  {
    if deliveries == [] then s else RunShared(NextShared(s, deliveries[0]), deliveries[1..])
  }

  /** Generated ids are never generated twice, by whatever definition. */
  ghost predicate FreshShared(s: State, deliveries: seq<Addressed>)
    decreases |deliveries|
  {
    deliveries != [] ==>
      var a := deliveries[0];
      && (IdOf(a.delivery.payload) == Success(None) ==> a.delivery.world.newId !in s.log)
      && FreshShared(NextShared(s, a), deliveries[1..])
  }

  /** A message of another definition does not start this workflow; if it carries its id, that definition has no
      step of the name the row has come to. */
  ghost predicate Harmless(d: Definition, s: State, a: Addressed, id: string) {
    a.to != d ==>
      match IdOf(a.delivery.payload)
      case Success(None) => a.delivery.world.newId != id
      case Success(Some(x)) => x == id && id in s.rows ==> IndexOf(a.to.steps, s.rows[id].current).None?
      case Failure(_) => true
  }

  ghost predicate AllHarmless(d: Definition, s: State, deliveries: seq<Addressed>, id: string)
    decreases |deliveries|
  {
    deliveries != [] ==>
      Harmless(d, s, deliveries[0], id) && AllHarmless(d, NextShared(s, deliveries[0]), deliveries[1..], id)
  }

  /** The row of this workflow agrees with what has executed for it. */
  ghost predicate InvAt(d: Definition, s: State, id: string)
    requires d.steps != []
  {
    && (id in s.rows ==> id in s.log)
    && (id in s.log ==> Consistent(d, RowOf(s, id), s.log[id]))
  }

  lemma OwnKeeps(d: Definition, s: State, dl: Delivery, id: string)
    requires ValidDefinition(d) && InvAt(d, s, id)
    requires IdOf(dl.payload) == Success(None) ==> dl.world.newId !in s.log
    ensures InvAt(d, Next(d, s, dl), id)
  {
    var s' := Next(d, s, dl);
    var touched := NextIsOnRow(d, s, dl);
    if touched == Some(id) {
      if id !in s.rows { IndexOfName(d.steps, 0); }
      OnRowKeeps(d, id, Met(d, s, id, dl.payload), History(s, id), dl.payload, dl.world);
    } else {
      assert RowOf(s', id) == RowOf(s, id) && History(s', id) == History(s, id);
    }
  }

  /** A harmless message of another definition leaves the workflow as it was. */
  lemma ForeignLeaves(d: Definition, s: State, a: Addressed, id: string)
    requires a.to != d && Harmless(d, s, a, id)
    ensures RowOf(NextShared(s, a), id) == RowOf(s, id) && History(NextShared(s, a), id) == History(s, id)
    ensures id in NextShared(s, a).log <==> id in s.log
  {
    if a.to.steps != [] {
      var touched := NextIsOnRow(a.to, s, a.delivery);
    }
  }

  lemma {:induction false} SharedRun(d: Definition, s: State, deliveries: seq<Addressed>, id: string)
    requires ValidDefinition(d) && InvAt(d, s, id)
    requires FreshShared(s, deliveries) && AllHarmless(d, s, deliveries, id)
    ensures InvAt(d, RunShared(s, deliveries), id)
    decreases |deliveries|
  {
    if deliveries == [] {
    } else {
      if deliveries[0].to == d {
        OwnKeeps(d, s, deliveries[0].delivery, id);
      } else {
        ForeignLeaves(d, s, deliveries[0], id);
      }
      SharedRun(d, NextShared(s, deliveries[0]), deliveries[1..], id);
    }
  }

  /** Execution order survives other definitions over the same store, and whatever they are sent, as long as none
      of them is sent this workflow's id while it has a step of the name the row has come to. */
  lemma SharedStepsRunInOrder(d: Definition, deliveries: seq<Addressed>, id: string)
    requires ValidDefinition(d) && FreshShared(EMPTY, deliveries) && AllHarmless(d, EMPTY, deliveries, id)
    ensures InOrder(d, History(RunShared(EMPTY, deliveries), id))
  {
    SharedRun(d, EMPTY, deliveries, id);
  }

  /** A message of another definition that does have a step of that name disturbs the workflow, in its row or in
      what has executed, exactly when its delivery does not throw. */
  lemma ForeignDisturbsExactly(other: Definition, s: State, dl: Delivery, id: string)
    requires ValidDefinition(other) && id in s.rows && id in s.log && id != "" && s.rows[id].errors == []
    requires IdOf(dl.payload) == Success(Some(id))
    ensures var s' := Next(other, s, dl);
      (RowOf(s', id) == RowOf(s, id) && History(s', id) == History(s, id)) <==>
      IndexOf(other.steps, s.rows[id].current).None? || OnRow(other, id, s.rows[id], dl.payload, dl.world).Thrown?
  {
    var row, i := s.rows[id], IndexOf(other.steps, s.rows[id].current);
    DeliverToRow(other, s.rows, id, dl.payload, dl.world);
    if i.Some? && OnRow(other, id, row, dl.payload, dl.world).Kept? {
      DisturbsRow(other, id, row, i.value, dl.payload, dl.world);
    }
  }

  lemma DisturbsRow(d: Definition, id: string, row: Row, i: nat, payload: Payload, w: World)
    requires ValidDefinition(d) && row.errors == [] && IndexOf(d.steps, row.current) == Some(i)
    requires Execute(d, id, row, i, payload, w).Kept?
    ensures var r := Execute(d, id, row, i, payload, w); r.row != Some(row) || Successes(r.effects) != []
  {
    if row.serviceId == d.serviceId && ExpectedOrder(d.steps, i, row.results) && w.execute(i, payload).Success? {
      if i + 1 < |d.steps| {
        assert d.steps[i + 1].name != d.steps[i].name;
      } else {
        var es := [Executed(i, payload, w.execute(i, payload))];
        assert es[1..] == [] && Successes(es) != [];
      }
    }
  }

  /** For instance, a definition whose only step shares the name completes the workflow out of order. */
  lemma ForeignCompletes(d: Definition, other: Definition, s: State, dl: Delivery, id: string)
    requires ValidDefinition(d) && InvAt(d, s, id) && id in s.rows && id != "" && History(s, id) != []
    requires var row := s.rows[id];
      && row.errors == [] && !row.completed && other != d && other.serviceId == d.serviceId
      && |other.steps| == 1 && other.steps[0].name == row.current && !other.deleteOnComplete
    requires IdOf(dl.payload) == Success(Some(id)) && dl.world.execute(0, dl.payload).Success?
    ensures var s' := Next(other, s, dl);
      id in s'.rows && s'.rows[id].completed && !InOrder(d, History(s', id))
  {
    var l, result := History(s, id), dl.world.execute(0, dl.payload).value;
    IndexOfName(other.steps, 0);
    DeliverToRow(other, s.rows, id, dl.payload, dl.world);
    var es := [Executed(0, dl.payload, Success(result))];
    assert es[1..] == [] && Successes(es) == [Exec(0, dl.payload, result)];
    assert History(Next(other, s, dl), id) == l + [Exec(0, dl.payload, result)];
    assert (l + [Exec(0, dl.payload, result)])[|l|].step == 0;
  }
}
