/** What each kind of delivery does to its workflow, told from the stored row, the message and the world alone. */
module WorkflowSteps {
  import opened Wrappers
  import opened WorkflowModel

  /** The delivery is for the workflow `id`, whose row it finds, or has just made, in this state. */
  ghost predicate Takes(d: Definition, rows: Rows, payload: Payload, w: World, id: string, row: Row) {
    && d.steps != [] && id != ""
    && if "workflowId" !in payload || payload["workflowId"] == Undefined || payload["workflowId"] == Null then
         id == w.newId && id !in rows && row == Row(d.serviceId, d.steps[0].name, payload, map[], [], false)
       else payload["workflowId"] == Str(id) && id in rows && row == rows[id]
  }

  /** A delivery for step k of a workflow. */
  ghost predicate At(d: Definition, rows: Rows, payload: Payload, w: World, id: string, row: Row, k: nat) {
    ValidDefinition(d) && Takes(d, rows, payload, w, id, row) && k < |d.steps| && row.current == d.steps[k].name
  }

  /** Step k may run: nothing has failed, the row is this service's, and every step before the one preceding it has
      stored a truthy result. */
  ghost predicate MayRun(d: Definition, row: Row, k: nat)
    requires k < |d.steps|
  {
    && row.errors == [] && row.serviceId == d.serviceId
    && forall j: nat :: j + 1 < k ==> d.steps[j].name in row.results && Truthy(row.results[d.steps[j].name])
  }

  /** The results column once a step has returned this. */
  function With(results: map<string, Json>, name: string, result: Json): map<string, Json> {
    if result == Undefined then results - {name} else results[name := result]
  }

  lemma AtRow(d: Definition, rows: Rows, payload: Payload, w: World, id: string, row: Row, k: nat)
    requires At(d, rows, payload, w, id, row, k)
    ensures var r := if row.errors != [] then RollBack(d, row, k, w, []) else Execute(d, id, row, k, payload, w);
      Deliver(d, rows, payload, w) ==
      match r
      case Kept(Some(after), effects) => Subscribed(rows[id := after], Success(id), effects)
      case Kept(None, effects) => Subscribed(rows - {id}, Success(id), effects)
      case Thrown(error, effects) => Subscribed(rows, Failure(error), effects)
  {
    IndexOfName(d.steps, k);
    var r := if row.errors != [] then RollBack(d, row, k, w, []) else Execute(d, id, row, k, payload, w);
    if id !in rows && r.Kept? {
      assert if r.row.Some? then rows[id := row][id := r.row.value] == rows[id := r.row.value]
             else rows[id := row] - {id} == rows - {id};
    }
  }

  /** A step that returns has its result stored, and the message for the next step carries that result. */
  lemma Proceeds(d: Definition, rows: Rows, payload: Payload, w: World, id: string, row: Row, k: nat, result: Json)
    returns (sent: Payload)
    requires At(d, rows, payload, w, id, row, k) && MayRun(d, row, k) && k + 1 < |d.steps|
    requires w.execute(k, payload) == Success(result) && w.publish.Pass?
    ensures Carries(sent, id, result)
    ensures Deliver(d, rows, payload, w) ==
            Subscribed(rows[id := row.(current := d.steps[k + 1].name,
                                       results := With(row.results, d.steps[k].name, result))],
                       Success(id),
                       [Executed(k, payload, Success(result)), Sent(d.name + "__" + d.steps[k + 1].name, sent)])
  {
    AtRow(d, rows, payload, w, id, row, k);
    sent := NextPayload(id, result);
    CarriesExactly(sent, id, result);
  }

  /** The last step to return completes the workflow, or removes it. */
  lemma Completes(d: Definition, rows: Rows, payload: Payload, w: World, id: string, row: Row, k: nat, result: Json)
    requires At(d, rows, payload, w, id, row, k) && MayRun(d, row, k) && k + 1 == |d.steps|
    requires w.execute(k, payload) == Success(result)
    ensures Deliver(d, rows, payload, w) ==
            Subscribed(if d.deleteOnComplete then rows - {id}
                       else rows[id := row.(completed := true,
                                            results := With(row.results, d.steps[k].name, result))],
                       Success(id), [Executed(k, payload, Success(result))])
  {
    AtRow(d, rows, payload, w, id, row, k);
  }

  /** Why a delivery to a workflow without errors fails: the row is another service's, an earlier result is falsy or
      missing, the step throws, or the next message cannot be published. */
  datatype Cause = Foreign | Unordered | Threw(error: string) | Unpublished(result: Json, error: string)

  ghost predicate Fails(d: Definition, row: Row, k: nat, payload: Payload, w: World, cause: Cause)
    requires k < |d.steps|
  {
    row.errors == []
    && match cause
       case Foreign => row.serviceId != d.serviceId
       case Unordered =>
         && row.serviceId == d.serviceId
         && exists j: nat :: j + 1 < k
                             && !(d.steps[j].name in row.results && Truthy(row.results[d.steps[j].name]))
       case Threw(error) => MayRun(d, row, k) && w.execute(k, payload) == Failure(error)
       case Unpublished(result, error) =>
         MayRun(d, row, k) && w.execute(k, payload) == Success(result)
         && k + 1 < |d.steps| && w.publish == Fail(error)
  }

  /** A delivery at step k of a workflow without errors fails exactly when it neither proceeds nor completes. */
  lemma FailsExactly(d: Definition, row: Row, k: nat, payload: Payload, w: World)
    requires k < |d.steps| && row.errors == []
    ensures (exists cause :: Fails(d, row, k, payload, w, cause)) <==>
            !(MayRun(d, row, k) && w.execute(k, payload).Success? && (k + 1 == |d.steps| || w.publish.Pass?))
  {
    var cause := if row.serviceId != d.serviceId then Foreign
                 else if !MayRun(d, row, k) then Unordered
                 else match w.execute(k, payload)
                   case Failure(error) => Threw(error)
                   case Success(result) => Unpublished(result, if w.publish.Fail? then w.publish.error else "");
    assert Fails(d, row, k, payload, w, cause)
      || (MayRun(d, row, k) && w.execute(k, payload).Success? && (k + 1 == |d.steps| || w.publish.Pass?));
  }

  function Reason(cause: Cause): string {
    match cause
    case Foreign => "Workflow attempted to execute across network boundary"
    case Unordered => "Out of order step execution detected on workflow"
    case Threw(error) => error
    case Unpublished(_, error) => error
  }

  /** What a failing delivery has executed. */
  function Ran(k: nat, payload: Payload, cause: Cause): seq<Effect> {
    match cause
    case Foreign => []
    case Unordered => []
    case Threw(error) => [Executed(k, payload, Failure(error))]
    case Unpublished(result, _) => [Executed(k, payload, Success(result))]
  }

  /** The row after the failure of step k: the error, the result if there is one, and the pointer one step back or,
      at the first step, the workflow completed. */
  function Failed(d: Definition, row: Row, k: nat, cause: Cause): Row
    requires k < |d.steps| && (cause.Unpublished? ==> k + 1 < |d.steps|)
  {
    row.(errors := [ExecuteError(d.steps[k].name, Reason(cause))],
         results := if cause.Unpublished? then With(row.results, d.steps[k].name, cause.result) else row.results,
         current := if k > 0 then d.steps[k - 1].name
                    else if cause.Unpublished? then d.steps[1].name
                    else d.steps[0].name,
         completed := k == 0 || row.completed)
  }

  /** These calls, then so many of step k's handler. */
  ghost predicate CallsBack(effects: seq<Effect>, first: seq<Effect>, k: nat, calls: nat) {
    && first <= effects && |effects| == |first| + calls
    && forall i :: |first| <= i < |effects| ==> effects[i] == RolledBack(k)
  }

  /** How often a step's handler is called when none of its calls throws: once per step up to and including it. */
  function Calls(d: Definition, k: nat): nat
    requires k < |d.steps|
  {
    if d.steps[k].hasRollback then k + 1 else 0
  }

  /** The first call of step k's handler to throw in this delivery. */
  ghost predicate ThrowsAt(d: Definition, k: nat, w: World, call: nat)
    requires k < |d.steps|
  {
    call < Calls(d, k) && w.rollback(call).Fail? && forall c: nat :: c < call ==> w.rollback(c).Pass?
  }

  lemma RollsBack(d: Definition, row: Row, k: nat, w: World, first: seq<Effect>)
    requires k < |d.steps| && forall c: nat :: c < Calls(d, k) ==> w.rollback(c).Pass?
    ensures var r := RollBack(d, row, k, w, first);
      && r.Kept? && CallsBack(r.effects, first, k, Calls(d, k))
      && r.row == Some(if k > 0 then row.(current := d.steps[k - 1].name) else row.(completed := true))
  {
    assert CallsMade(w, Calls(d, k)) == Calls(d, k);
  }

  lemma RollBackThrows(d: Definition, row: Row, k: nat, w: World, first: seq<Effect>, call: nat)
    requires k < |d.steps| && ThrowsAt(d, k, w, call)
    ensures var r := RollBack(d, row, k, w, first);
      r.Thrown? && r.error == w.rollback(call).error && CallsBack(r.effects, first, k, call + 1)
  {
    var made := CallsMade(w, Calls(d, k));
    assert made > call + 1 ==> w.rollback(call).Pass?;
    assert made == call + 1;
  }

  /** Every failing delivery stores one error and calls the step's own handler once per step up to and including
      it, and its row is then set back by one step. */
  lemma FailsOnce(d: Definition, rows: Rows, payload: Payload, w: World, id: string, row: Row, k: nat, cause: Cause)
    requires At(d, rows, payload, w, id, row, k) && Fails(d, row, k, payload, w, cause)
    requires forall c: nat :: c < Calls(d, k) ==> w.rollback(c).Pass?
    ensures var done := Deliver(d, rows, payload, w);
      && done.result == Success(id) && done.rows == rows[id := Failed(d, row, k, cause)]
      && CallsBack(done.effects, Ran(k, payload, cause), k, Calls(d, k))
  {
    AtRow(d, rows, payload, w, id, row, k);
    var noted := Noted(d, row, k, cause);
    FailsInto(d, row, k, id, payload, w, cause);
    RollsBack(d, noted, k, w, Ran(k, payload, cause));
  }

  /** The row that a failing delivery hands to the rollback. */
  function Noted(d: Definition, row: Row, k: nat, cause: Cause): Row
    requires k < |d.steps| && (cause.Unpublished? ==> k + 1 < |d.steps|)
  {
    var errors := [ExecuteError(d.steps[k].name, Reason(cause))];
    if cause.Unpublished? then
      row.(errors := errors, results := With(row.results, d.steps[k].name, cause.result),
           current := d.steps[k + 1].name)
    else row.(errors := errors)
  }

  lemma FailsInto(d: Definition, row: Row, k: nat, id: string, payload: Payload, w: World, cause: Cause)
    requires k < |d.steps| && Fails(d, row, k, payload, w, cause)
    ensures Execute(d, id, row, k, payload, w) ==
            RollBack(d, Noted(d, row, k, cause), k, w, Ran(k, payload, cause))
  {
    assert row.errors + [ExecuteError(d.steps[k].name, Reason(cause))] == Noted(d, row, k, cause).errors;
  }

  /** A handler that throws makes the whole delivery fail, and leaves the rows as they were. */
  lemma FailsForNothing(d: Definition, rows: Rows, payload: Payload, w: World, id: string, row: Row, k: nat,
                        cause: Cause, call: nat)
    requires At(d, rows, payload, w, id, row, k) && Fails(d, row, k, payload, w, cause)
    requires ThrowsAt(d, k, w, call)
    ensures var done := Deliver(d, rows, payload, w);
      && done.result == Failure(w.rollback(call).error) && done.rows == rows
      && CallsBack(done.effects, Ran(k, payload, cause), k, call + 1)
  {
    AtRow(d, rows, payload, w, id, row, k);
    FailsInto(d, row, k, id, payload, w, cause);
    RollBackThrows(d, Noted(d, row, k, cause), k, w, Ran(k, payload, cause), call);
  }

  /** A delivery to a failed workflow calls the handler of the step it is at, and sets it back by one step more. */
  lemma Undoes(d: Definition, rows: Rows, payload: Payload, w: World, id: string, row: Row, k: nat)
    requires At(d, rows, payload, w, id, row, k) && row.errors != []
    requires forall c: nat :: c < Calls(d, k) ==> w.rollback(c).Pass?
    ensures var done := Deliver(d, rows, payload, w);
      && done.result == Success(id)
      && done.rows == rows[id := if k > 0 then row.(current := d.steps[k - 1].name) else row.(completed := true)]
      && CallsBack(done.effects, [], k, Calls(d, k))
  {
    AtRow(d, rows, payload, w, id, row, k);
    RollsBack(d, row, k, w, []);
  }

  lemma UndoesNothing(d: Definition, rows: Rows, payload: Payload, w: World, id: string, row: Row, k: nat, call: nat)
    requires At(d, rows, payload, w, id, row, k) && row.errors != [] && ThrowsAt(d, k, w, call)
    ensures var done := Deliver(d, rows, payload, w);
      && done.result == Failure(w.rollback(call).error) && done.rows == rows
      && CallsBack(done.effects, [], k, call + 1)
  {
    AtRow(d, rows, payload, w, id, row, k);
    RollBackThrows(d, row, k, w, [], call);
  }

  /** A delivery for no workflow, or for one at no step of the definition, is refused, without a trace. */
  lemma Refuses(d: Definition, rows: Rows, payload: Payload, w: World)
    requires ValidDefinition(d)
    requires !exists id, row, k :: At(d, rows, payload, w, id, row, k)
    ensures var done := Deliver(d, rows, payload, w);
      done.result.Failure? && done.rows == rows && done.effects == []
  {
    var id := IdOf(payload);
    if id.Success? {
      var newId := if id.value.Some? then id.value.value else w.newId;
      var row := if id.value.Some? && newId in rows then rows[newId] else InitialRow(d, payload);
      var i := IndexOf(d.steps, row.current);
      if i.Some? {
        assert !At(d, rows, payload, w, newId, row, i.value);
      }
    }
  }

  /** Whatever a delivery sends follows the step that returned it, names the next step and carries the result. */
  lemma SentCarries(d: Definition, rows: Rows, payload: Payload, w: World, e: Effect)
    requires ValidDefinition(d) && e in Deliver(d, rows, payload, w).effects && e.Sent?
    ensures var done := Deliver(d, rows, payload, w);
      && done.result.Success?
      && exists k: nat, result ::
           && k + 1 < |d.steps| && w.execute(k, payload) == Success(result)
           && done.effects == [Executed(k, payload, Success(result)), e]
           && e.message == d.name + "__" + d.steps[k + 1].name && Carries(e.payload, done.result.value, result)
  {
    var id, row, k := TakenBy(d, rows, payload, w);
    AtRow(d, rows, payload, w, id, row, k);
    if row.errors == [] && MayRun(d, row, k) && w.execute(k, payload).Success? && k + 1 < |d.steps| && w.publish.Pass? {
      var sent := Proceeds(d, rows, payload, w, id, row, k, w.execute(k, payload).value);
    } else {
      SendsNothing(d, id, row, k, payload, w);
    }
  }

  lemma TakenBy(d: Definition, rows: Rows, payload: Payload, w: World) returns (id: string, row: Row, k: nat)
    requires ValidDefinition(d) && Deliver(d, rows, payload, w).effects != []
    ensures At(d, rows, payload, w, id, row, k)
  {
    if !exists id, row, k :: At(d, rows, payload, w, id, row, k) {
      Refuses(d, rows, payload, w);
    }
    id, row, k :| At(d, rows, payload, w, id, row, k);
  }

  lemma SendsNothing(d: Definition, id: string, row: Row, k: nat, payload: Payload, w: World)
    requires k < |d.steps|
    requires !(row.errors == [] && MayRun(d, row, k) && w.execute(k, payload).Success? && k + 1 < |d.steps|
               && w.publish.Pass?)
    ensures var r := if row.errors != [] then RollBack(d, row, k, w, []) else Execute(d, id, row, k, payload, w);
      forall e :: e in r.effects ==> !e.Sent?
  {
  }
}
