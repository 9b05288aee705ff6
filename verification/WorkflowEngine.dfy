/** The engine and its row store as they run: rows updated in place inside a transaction. */
module WorkflowEngine {
  import opened Wrappers
  import opened WorkflowModel

  const NOT_UNIQUE := "Unique constraint failed"

  const NO_RECORD := "Record to update not found"

  /** packages/storage-postgres/src/repo/workflow-postgres-repo.ts */
  class WorkflowStateRepository {
    var rows: Rows

    constructor ()
      ensures rows == map[]
    {
      rows := map[];
    }

    method WorkflowInit(id: string, row: Row) returns (o: Outcome<string>)
      modifies this
      ensures o.Fail? <==> id in old(rows)
      ensures rows == if o.Fail? then old(rows) else old(rows)[id := row]
    {
      if id in rows {
        return Fail(NOT_UNIQUE);
      }
      rows := rows[id := row];
      return Pass;
    }

    method LoadWorkflow(id: string) returns (row: Option<Row>)
      ensures row.Some? <==> id in rows
      ensures row.Some? ==> rows == rows[id := row.value]
    {
      return if id in rows then Some(rows[id]) else None;
    }

    method UpdateWorkflowCompleted(id: string) returns (o: Outcome<string>)
      modifies this
      ensures o.Fail? <==> id !in old(rows)
      ensures rows == if o.Fail? then old(rows) else old(rows)[id := old(rows)[id].(completed := true)]
    {
      if id !in rows {
        return Fail(NO_RECORD);
      }
      rows := rows[id := rows[id].(completed := true)];
      return Pass;
    }

    method DeleteWorkflow(id: string) returns (o: Outcome<string>)
      modifies this
      ensures o.Fail? <==> id !in old(rows)
      ensures rows == old(rows) - {id}
    {
      if id !in rows {
        return Fail(NO_RECORD);
      }
      rows := rows - {id};
      return Pass;
    }

    method UpdateCurrentStep(id: string, stepName: string) returns (o: Outcome<string>)
      modifies this
      ensures o.Fail? <==> id !in old(rows)
      ensures rows == if o.Fail? then old(rows) else old(rows)[id := old(rows)[id].(current := stepName)]
    {
      if id !in rows {
        return Fail(NO_RECORD);
      }
      rows := rows[id := rows[id].(current := stepName)];
      return Pass;
    }

    method StoreExecuteError(id: string, identifier: string, error: string) returns (o: Outcome<string>)
      modifies this
      ensures o.Fail? <==> id !in old(rows)
      ensures rows == if o.Fail? then old(rows)
                      else var row := old(rows)[id];
                        old(rows)[id := row.(errors := row.errors + [ExecuteError(identifier, error)])]
    {
      var existing := LoadWorkflow(id);
      var errors := if existing.Some? then existing.value.errors else [];
      if id !in rows {
        return Fail(NO_RECORD);
      }
      rows := rows[id := rows[id].(errors := errors + [ExecuteError(identifier, error)])];
      return Pass;
    }

    method StoreStepResult(id: string, nextStep: string, result: Json) returns (o: Outcome<string>)
      modifies this
      ensures o.Fail? <==> id !in old(rows)
      ensures rows == if o.Fail? then old(rows)
                      else old(rows)[id := old(rows)[id].(current := nextStep,
                                                          results := Stored(old(rows)[id].results, nextStep, result))]
    {
      var existing := LoadWorkflow(id);
      var results := if existing.Some? then existing.value.results else map[];
      results := Stored(results, nextStep, result);
      if id !in rows {
        return Fail(NO_RECORD);
      }
      rows := rows[id := rows[id].(current := nextStep, results := results)];
      return Pass;
    }

    method RollbackStepExecute(id: string, nextStep: string) returns (o: Outcome<string>)
      modifies this
      ensures o.Fail? <==> id !in old(rows)
      ensures rows == if o.Fail? then old(rows) else old(rows)[id := old(rows)[id].(current := nextStep)]
    {
      o := UpdateCurrentStep(id, nextStep);
    }
  }

  /** packages/steveo/src/runtime/workflow.ts */
  class Workflow {
    const name: string
    const serviceId: string
    const deleteOnComplete: bool
    const workflow: WorkflowStateRepository
    var steps: seq<Step>
    /** What the engine has asked of the outside world, oldest first. */
    var effects: seq<Effect>

    function Definition(): Definition
      reads this
    {
      WorkflowModel.Definition.Definition(name, steps, serviceId, deleteOnComplete)
    }

    constructor (name: string, serviceId: string, deleteOnComplete: bool, workflow: WorkflowStateRepository)
      ensures Definition() == WorkflowModel.Definition.Definition(name, [], serviceId, deleteOnComplete)
      ensures this.workflow == workflow && effects == []
    {
      this.name, this.serviceId, this.deleteOnComplete := name, serviceId, deleteOnComplete;
      this.workflow := workflow;
      steps, effects := [], [];
    }

    method Next(step: Step)
      modifies this`steps
      ensures Definition() == old(Definition()).(steps := old(steps) + [step])
    {
      steps := steps + [step];
    }

    method Emit(effect: Effect)
      modifies this`effects
      ensures effects == old(effects) + [effect]
    {
      effects := effects + [effect];
    }

    function GetPreviousStep(stepName: string): Result<Option<nat>, string>
      reads this
    {
      match IndexOf(steps, stepName)
      case None => Failure("Step was not found in workflow")
      case Some(index) => if index == 0 then Success(None) else Success(Some(index - 1))
    }

    function GetNextStep(stepName: string): Result<Option<nat>, string>
      reads this
    {
      match IndexOf(steps, stepName)
      case None => Failure("Step was not found in workflow")
      case Some(index) => if index + 1 >= |steps| then Success(None) else Success(Some(index + 1))
    }

    /** One turn of executeRollback's loop, for its `calls`-th call of the handler. */
    method TurnBack(id: string, i: nat, w: World, calls: nat) returns (o: Outcome<string>)
      requires UniqueNames(steps) && i < |steps| && id in workflow.rows
      modifies this`effects, workflow
      ensures effects == if steps[i].hasRollback then old(effects) + [RolledBack(i)] else old(effects)
      ensures o == if steps[i].hasRollback then w.rollback(calls) else Pass
      ensures o.Pass? ==> workflow.rows == old(workflow.rows)[id := MovedBack(steps, old(workflow.rows)[id], i)]
    {
      if steps[i].hasRollback {
        Emit(RolledBack(i));
        if w.rollback(calls).Fail? {
          var error := w.rollback(calls).error;
          var _ := workflow.StoreExecuteError(id, steps[i].name, error);
          return Fail(error);
        }
      }
      IndexOfName(steps, i);
      var previous := GetPreviousStep(steps[i].name);
      if previous.value.Some? {
        var _ := workflow.RollbackStepExecute(id, steps[previous.value.value].name);
      } else {
        var _ := workflow.UpdateWorkflowCompleted(id);
      }
      return Pass;
    }

    /** The turn after `calls` others, in a rollback that began with these rows and effects. */
    method TurnAgain(id: string, i: nat, w: World, calls: nat, ghost before: Rows, ghost emitted: seq<Effect>)
      returns (o: Outcome<string>)
      requires UniqueNames(steps) && i < |steps| && id in before
      requires workflow.rows == RolledRows(steps, before, id, i, calls)
      requires effects == emitted + RolledEffects(steps, i, calls)
      modifies this`effects, workflow
      ensures o == if steps[i].hasRollback then w.rollback(calls) else Pass
      ensures effects == emitted + RolledEffects(steps, i, calls + 1)
      ensures o.Pass? ==> workflow.rows == RolledRows(steps, before, id, i, calls + 1)
    {
      RolledOnce(steps, emitted, before, id, i, calls);
      o := TurnBack(id, i, w, calls);
    }

    /** Calls the rollback of the same step once per step from it down to the first. */
    method ExecuteRollback(id: string, i: nat, w: World) returns (o: Outcome<string>)
      requires UniqueNames(steps) && i < |steps| && id in workflow.rows
      modifies this`effects, workflow
      ensures Did(RollBack(old(Definition()), old(workflow.rows)[id], i, w, []), id,
                  old(workflow.rows), old(effects), o, workflow.rows, effects)
    {
      ghost var before, emitted := workflow.rows, effects;
      var calls := 0;
      var current := Some(i);
      assert effects == emitted + RolledEffects(steps, i, 0);
      while current.Some?
        invariant 0 <= calls <= i + 1
        invariant current == if calls == i + 1 then None else Some(i - calls)
        invariant workflow.rows == RolledRows(steps, before, id, i, calls)
        invariant effects == emitted + RolledEffects(steps, i, calls)
        invariant steps[i].hasRollback ==> forall k :: 0 <= k < calls ==> w.rollback(k).Pass?
        decreases i + 1 - calls
      {
        o := TurnAgain(id, i, w, calls, before, emitted);
        if o.Fail? {
          RollBackThrows(Definition(), before[id], i, w, calls);
          return;
        }
        IndexOfName(steps, current.value);
        current := GetPreviousStep(steps[current.value].name).value;
        calls := calls + 1;
      }
      RollBackPasses(Definition(), before[id], i, w);
      return Pass;
    }

    method PublishNextStep(id: string, i: nat, result: Json, w: World) returns (o: Outcome<string>)
      requires UniqueNames(steps) && i < |steps| && id in workflow.rows
      modifies this`effects, workflow
      ensures i + 1 == |steps| ==>
                && o == Pass && effects == old(effects)
                && workflow.rows == if deleteOnComplete then old(workflow.rows) - {id}
                                    else old(workflow.rows)[id := old(workflow.rows)[id].(completed := true)]
      ensures i + 1 < |steps| ==>
                && o == w.publish
                && workflow.rows == old(workflow.rows)[id := old(workflow.rows)[id].(current := steps[i + 1].name)]
                && if w.publish.Fail? then effects == old(effects)
                   else Publishes(old(effects), effects, name + "__" + steps[i + 1].name, id, result)
    {
      IndexOfName(steps, i);
      var next := GetNextStep(steps[i].name);
      if next.value.None? {
        if deleteOnComplete {
          o := workflow.DeleteWorkflow(id);
        } else {
          o := workflow.UpdateWorkflowCompleted(id);
        }
        return;
      }
      var _ := workflow.UpdateCurrentStep(id, steps[next.value.value].name);
      if w.publish.Pass? {
        Emit(Sent(StepMessage(Definition(), next.value.value), NextPayload(id, result)));
        CarriesExactly(NextPayload(id, result), id, result);
      }
      return w.publish;
    }

    /** The body of executeNextStep's try block. */
    method TryNextStep(id: string, i: nat, payload: Payload, w: World) returns (o: Outcome<string>)
      requires UniqueNames(steps) && i < |steps| && id in workflow.rows && workflow.rows[id].current == steps[i].name
      modifies this`effects, workflow
      ensures o.Pass? ==> Did(Execute(old(Definition()), id, old(workflow.rows)[id], i, payload, w), id,
                              old(workflow.rows), old(effects), o, workflow.rows, effects)
      ensures o.Fail? ==>
                && id in workflow.rows && workflow.rows == old(workflow.rows)[id := workflow.rows[id]]
                && old(effects) <= effects
                && Execute(old(Definition()), id, old(workflow.rows)[id], i, payload, w) ==
                   FailAndRollBack(old(Definition()), workflow.rows[id], i, o.error, w, effects[|old(effects)|..])
    {
      var state := workflow.rows[id];
      if state.serviceId != serviceId {
        return Fail(OTHER_SERVICE);
      }
      if !ExpectedOrder(steps, i, state.results) {
        return Fail(OUT_OF_ORDER);
      }
      var outcome := w.execute(i, payload);
      Emit(Executed(i, payload, outcome));
      if outcome.Failure? {
        return Fail(outcome.error);
      }
      var _ := workflow.StoreStepResult(id, state.current, outcome.value);
      o := PublishNextStep(id, i, outcome.value, w);
      if i + 1 < |steps| && o.Pass? {
        CarriesExactly(effects[|effects| - 1].payload, id, outcome.value);
      }
    }

    method ExecuteNextStep(id: string, i: nat, payload: Payload, w: World) returns (o: Outcome<string>)
      requires UniqueNames(steps) && i < |steps| && id in workflow.rows && workflow.rows[id].current == steps[i].name
      modifies this`effects, workflow
      ensures Did(Execute(old(Definition()), id, old(workflow.rows)[id], i, payload, w), id,
                  old(workflow.rows), old(effects), o, workflow.rows, effects)
    {
      o := TryNextStep(id, i, payload, w);
      if o.Fail? {
        o := CatchNextStep(id, i, o.error, w, old(workflow.rows), old(effects));
      }
    }

    /** Its catch block, after a try block that began with these rows and effects. */
    method CatchNextStep(id: string, i: nat, error: string, w: World, ghost before: Rows, ghost emitted: seq<Effect>)
      returns (o: Outcome<string>)
      requires UniqueNames(steps) && i < |steps| && id in workflow.rows
      requires workflow.rows == before[id := workflow.rows[id]] && emitted <= effects
      modifies this`effects, workflow
      ensures Did(FailAndRollBack(old(Definition()), old(workflow.rows)[id], i, error, w, old(effects)[|emitted|..]),
                  id, before, emitted, o, workflow.rows, effects)
    {
      var _ := workflow.StoreExecuteError(id, steps[i].name, error);
      RollBackAfter(Definition(), workflow.rows[id], i, w, effects[|emitted|..]);
      o := ExecuteRollback(id, i, w);
    }

    /** The stored row, or why there is none to load. */
    method LoadState(id: string) returns (state: Result<Row, string>)
      ensures state.Success? <==> id != "" && id in workflow.rows
      ensures state.Success? ==> workflow.rows == workflow.rows[id := state.value]
      ensures state.Failure? ==> state.error == if id == "" then EMPTY_ID else NO_STATE
    {
      if id == "" {
        return Failure(EMPTY_ID);
      }
      var state' := workflow.LoadWorkflow(id);
      if state'.None? {
        return Failure(NO_STATE);
      }
      return Success(state'.value);
    }

    /** The delivery once the row is there to be loaded. */
    method ProcessRow(id: string, payload: Payload, w: World) returns (o: Outcome<string>)
      requires UniqueNames(steps) && steps != []
      modifies this`effects, workflow
      ensures var done := OnRows(old(Definition()), old(workflow.rows), old(workflow.rows), id, payload, w);
        && effects == old(effects) + done.effects
        && if o.Fail? then done.result == Failure(o.error)
           else done.result == Success(id) && done.rows == workflow.rows
    {
      var loaded := LoadState(id);
      if loaded.Failure? {
        return Fail(loaded.error);
      }
      var state := loaded.value;
      if state.current == "" {
        return Fail("Workflow state was not found");
      }
      var step := IndexOf(steps, state.current);
      if step.None? {
        return Fail("Workflow could not find current step");
      }
      if state.errors != [] {
        o := ExecuteRollback(id, step.value, w);
      } else {
        o := ExecuteNextStep(id, step.value, payload, w);
      }
    }

    /** Creates the row if need be and hands the delivery to it; the transaction around it deals with a failure. */
    method ProcessPayload(id: string, initialise: bool, payload: Payload, w: World) returns (o: Outcome<string>)
      requires UniqueNames(steps) && steps != []
      modifies this`effects, workflow
      ensures Processed(old(Definition()), old(workflow.rows), id, initialise, payload, w, old(effects),
                        o, workflow.rows, effects)
    {
      ghost var before := workflow.rows;
      if initialise {
        o := workflow.WorkflowInit(id, InitialRow(Definition(), payload));
        if o.Fail? {
          return Fail(NOT_UNIQUE);
        }
      }
      ghost var rows := workflow.rows;
      o := ProcessRow(id, payload, w);
      OnRowsBefore(old(Definition()), before, rows, id, payload, w);
    }

    method Subscribe(payload: Payload, w: World) returns (result: Result<string, string>)
      requires UniqueNames(steps)
      modifies this`effects, workflow
      ensures var done := Deliver(old(Definition()), old(workflow.rows), payload, w);
        result == done.result && workflow.rows == done.rows && effects == old(effects) + done.effects
    {
      if |steps| == 0 {
        return Failure("Steps must be defined before a flow is executed");
      }
      var payloadId := IdOf(payload);
      if payloadId.Failure? {
        return Failure(payloadId.error);
      }
      var workflowId := if payloadId.value.Some? then payloadId.value.value else w.newId;
      var initialise := payloadId.value.None? || payloadId.value.value == "";
      var snapshot := workflow.rows;
      var o := ProcessPayload(workflowId, initialise, payload, w);
      if o.Fail? {
        workflow.rows := snapshot;
        return Failure(o.error);
      }
      return Success(workflowId);
    }
  }

  /** What processPayload leaves behind, compared with the model's view of the delivery. */
  ghost predicate Processed(d: Definition, before: Rows, id: string, initialise: bool, payload: Payload, w: World,
                            emitted: seq<Effect>, o: Outcome<string>, after: Rows, effects: seq<Effect>)
    requires d.steps != []
  {
    if initialise && id in before then o == Fail(NOT_UNIQUE) && effects == emitted
    else
      var rows := if initialise then before[id := InitialRow(d, payload)] else before;
      var done := OnRows(d, before, rows, id, payload, w);
      && effects == emitted + done.effects
      && (o.Fail? ==> done.result == Failure(o.error) && done.rows == before)
      && (o.Pass? ==> done.result == Success(id) && done.rows == after)
  }

  /** One message more has been sent, which carries the result. */
  ghost predicate Publishes(before: seq<Effect>, after: seq<Effect>, message: string, id: string, result: Json) {
    && |after| == |before| + 1 && before <= after
    && after[|before|].Sent? && after[|before|].message == message
    && Carries(after[|before|].payload, id, result)
  }

  /** The delivery's outcome, effects and rows are those of the model; after a throw the rows are left to the
      transaction. */
  ghost predicate Did(d: Delivered, id: string, before: Rows, emitted: seq<Effect>, o: Outcome<string>,
                      after: Rows, effects: seq<Effect>)
  {
    && effects == emitted + d.effects
    && match d
       case Thrown(error, _) => o == Fail(error)
       case Kept(row, _) => o == Pass && after == if row.Some? then before[id := row.value] else before - {id}
  }

  /** A throw leaves whatever rows it is told to go back to. */
  lemma OnRowsBefore(d: Definition, before: Rows, rows: Rows, id: string, payload: Payload, w: World)
    ensures var done, same := OnRows(d, before, rows, id, payload, w), OnRows(d, rows, rows, id, payload, w);
      && done.result == same.result && done.effects == same.effects
      && done.rows == if same.result.Failure? then before else same.rows
  {
  }

  /** Rolling back only adds to the effects before it. */
  lemma RollBackAfter(d: Definition, row: Row, i: nat, w: World, done: seq<Effect>)
    requires i < |d.steps|
    ensures RollBack(d, row, i, w, done) ==
            match RollBack(d, row, i, w, [])
            case Kept(moved, effects) => Kept(moved, done + effects)
            case Thrown(error, effects) => Thrown(error, done + effects)
  {
  }

  /** The rows and effects after some turns of a rollback. */
  function RolledRows(steps: seq<Step>, before: Rows, id: string, i: nat, calls: nat): Rows
    requires i < |steps| && id in before
  {
    if calls == 0 then before else before[id := MovedBack(steps, before[id], i)]
  }

  function RolledEffects(steps: seq<Step>, i: nat, calls: nat): seq<Effect>
    requires i < |steps|
  {
    Repeat(RolledBack(i), if steps[i].hasRollback then calls else 0)
  }

  lemma RolledOnce(steps: seq<Step>, emitted: seq<Effect>, before: Rows, id: string, i: nat, calls: nat)
    requires i < |steps| && id in before
    ensures emitted + RolledEffects(steps, i, calls + 1) ==
            emitted + RolledEffects(steps, i, calls) + if steps[i].hasRollback then [RolledBack(i)] else []
    ensures var rows := RolledRows(steps, before, id, i, calls);
      rows[id := MovedBack(steps, rows[id], i)] == RolledRows(steps, before, id, i, calls + 1)
  {
  }

  lemma RollBackThrows(d: Definition, row: Row, i: nat, w: World, k: nat)
    requires i < |d.steps| && d.steps[i].hasRollback
    requires k <= i && w.rollback(k).Fail? && forall j :: 0 <= j < k ==> w.rollback(j).Pass?
    ensures RollBack(d, row, i, w, []) == Thrown(w.rollback(k).error, RolledEffects(d.steps, i, k + 1))
  {
    var made := CallsMade(w, i + 1);
    assert made > k + 1 ==> w.rollback(k).Pass?;
  }

  lemma RollBackPasses(d: Definition, row: Row, i: nat, w: World)
    requires i < |d.steps|
    requires d.steps[i].hasRollback ==> forall j :: 0 <= j <= i ==> w.rollback(j).Pass?
    ensures RollBack(d, row, i, w, []) ==
            Kept(Some(MovedBack(d.steps, row, i)), RolledEffects(d.steps, i, i + 1))
  {
  }
}
