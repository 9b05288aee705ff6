/** Workflow definitions, stored rows, and what one delivery does to them (packages/steveo/src/runtime/workflow.ts). */
module WorkflowModel {
  import opened Wrappers
  import opened Decimals

  /** A JavaScript value as far as a step's result can be stored as JSON. */
  datatype Json =
    | Undefined | Null | Bool(b: bool) | Number(n: int) | Str(s: string)
    | Arr(items: seq<Json>) | Obj(fields: map<string, Json>)

  type Payload = map<string, Json>

  const WORKFLOW_ID := "workflowId"

  const EMPTY_ID := "WorkflowId was empty for run"

  const NO_STATE := "State was not found"

  const OTHER_SERVICE := "Workflow attempted to execute across network boundary"

  const OUT_OF_ORDER := "Out of order step execution detected on workflow"

  predicate Truthy(v: Json): (truthy: bool)
    ensures truthy <==> v != Undefined && v != Null && v != Bool(false) && v != Number(0) && v != Str("")
  {
    match v
    case Undefined => false
    case Null => false
    case Bool(b) => b
    case Number(n) => n != 0
    case Str(s) => s != ""
    case Arr(_) => true
    case Obj(_) => true
  }

  function Indexed(items: seq<Json>): Payload {
    DecimalIsInjective();
    map j | 0 <= j < |items| :: Decimal(j) := items[j]
  }

  /** The own enumerable properties that `...v` copies into an object. */
  function Spread(v: Json): Payload {
    match v
    case Obj(fields) => fields
    case Arr(items) => Indexed(items)
    case Str(s) => Indexed(seq(|s|, i requires 0 <= i < |s| => Str([s[i]])))
    case _ => map[]
  }

  /** A step as the engine sees it; what it executes is part of the World below. */
  datatype Step = Step(name: string, hasRollback: bool)

  datatype Definition = Definition(name: string, steps: seq<Step>, serviceId: string, deleteOnComplete: bool)

  datatype ExecuteError = ExecuteError(identifier: string, error: string)

  datatype Row = Row(serviceId: string, current: string, initial: Payload, results: map<string, Json>,
                     errors: seq<ExecuteError>, completed: bool)

  /** What the engine cannot control during one delivery: the step functions, the rollback handlers (whether
      the k-th call throws), the producer, and the generated id. */
  datatype World = World(execute: (nat, Payload) -> Result<Json, string>, rollback: nat -> Outcome<string>,
                         publish: Outcome<string>, newId: string)

  datatype Delivery = Delivery(payload: Payload, world: World)

  datatype Effect =
    | Executed(step: nat, payload: Payload, outcome: Result<Json, string>)
    | Sent(message: string, payload: Payload)
    | RolledBack(step: nat)

  predicate UniqueNames(steps: seq<Step>) {
    forall i, j :: 0 <= i < j < |steps| ==> steps[i].name != steps[j].name
  }

  predicate ValidDefinition(d: Definition) {
    && d.steps != [] && UniqueNames(d.steps)
    && forall i :: 0 <= i < |d.steps| ==> d.steps[i].name != ""
  }

  /** findIndex by name: the first match. */
  function IndexOf(steps: seq<Step>, name: string): (i: Option<nat>)
    ensures i.Some? ==> i.value < |steps| && steps[i.value].name == name
    ensures i.None? ==> forall j :: 0 <= j < |steps| ==> steps[j].name != name
    ensures i.Some? ==> forall j :: 0 <= j < i.value ==> steps[j].name != name
  {
    if steps == [] then None
    else if steps[0].name == name then Some(0)
    else match IndexOf(steps[1..], name)
      case None => None
      case Some(i) =>
        assert steps[1..][i] == steps[i + 1];
        assert forall j :: 0 < j < i + 1 ==> steps[j] == steps[1..][j - 1];
        Some(i + 1)
  }

  lemma IndexOfName(steps: seq<Step>, i: nat)
    requires UniqueNames(steps) && i < |steps|
    ensures IndexOf(steps, steps[i].name) == Some(i)
  {
  }

  /** The id a payload carries: none when undefined or null; other values are not ids. */
  function IdOf(payload: Payload): Result<Option<string>, string> {
    if WORKFLOW_ID !in payload then Success(None)
    else match payload[WORKFLOW_ID]
      case Undefined => Success(None)
      case Null => Success(None)
      case Str(s) => Success(Some(s))
      case _ => Failure("workflowId is not a string")
  }

  /** Setting a key in the results column: JSON keeps no undefined values. */
  function Stored(results: map<string, Json>, name: string, v: Json): map<string, Json> {
    if v.Undefined? then results - {name} else results[name := v]
  }

  /** The order guard: every step before the one preceding this must have a truthy result. */
  predicate ExpectedOrder(steps: seq<Step>, i: nat, results: map<string, Json>)
    requires i < |steps|
  {
    forall j :: 0 <= j < i - 1 ==> steps[j].name in results && Truthy(results[steps[j].name])
  }

  function InitialRow(d: Definition, payload: Payload): Row
    requires d.steps != []
  {
    Row(d.serviceId, d.steps[0].name, payload, map[], [], false)
  }

  function StepMessage(d: Definition, i: nat): string
    requires i < |d.steps|
  {
    d.name + "__" + d.steps[i].name
  }

  /** What one delivery does to its row: keeps a new row (None once deleted), or throws and leaves no trace in it. */
  datatype Delivered =
    | Kept(row: Option<Row>, effects: seq<Effect>)
    | Thrown(error: string, effects: seq<Effect>)

  /** The number of rollback calls up to and including the first that throws, among the first `calls`. */
  function CallsMade(w: World, calls: nat): (made: nat)
    ensures made <= calls
    ensures forall k :: 0 <= k < made - 1 ==> w.rollback(k).Pass?
    ensures made < calls ==> made > 0 && w.rollback(made - 1).Fail?
  {
    if calls == 0 then 0
    else
      var before := CallsMade(w, calls - 1);
      if before < calls - 1 || (before > 0 && w.rollback(before - 1).Fail?) then before else calls
  }

  predicate RollbackThrows(w: World, calls: nat) {
    exists k :: 0 <= k < calls && w.rollback(k).Fail?
  }

  function Repeat(e: Effect, n: nat): (es: seq<Effect>)
    ensures |es| == n && forall k :: 0 <= k < n ==> es[k] == e
  {
    seq(n, _ => e)
  }

  /** The row once step i is rolled back. */
  function MovedBack(steps: seq<Step>, row: Row, i: nat): Row
    requires i < |steps|
  {
    if i == 0 then row.(completed := true) else row.(current := steps[i - 1].name)
  }

  /** Rolling back from step i calls its own handler i + 1 times, then moves the pointer one step back. */
  function RollBack(d: Definition, row: Row, i: nat, w: World, effects: seq<Effect>): Delivered
    requires i < |d.steps|
  {
    var calls := if d.steps[i].hasRollback then i + 1 else 0;
    var made := CallsMade(w, calls);
    var effects' := effects + Repeat(RolledBack(i), made);
    if RollbackThrows(w, calls) then Thrown(w.rollback(made - 1).error, effects')
    else Kept(Some(MovedBack(d.steps, row, i)), effects')
  }

  function FailAndRollBack(d: Definition, row: Row, i: nat, error: string, w: World, effects: seq<Effect>): Delivered
    requires i < |d.steps|
  {
    RollBack(d, row.(errors := row.errors + [ExecuteError(d.steps[i].name, error)]), i, w, effects)
  }

  /** The payload of the message that starts the next step. */
  function NextPayload(id: string, result: Json): Payload {
    map[WORKFLOW_ID := Str(id)] + Spread(result)
  }

  /** The message for the next step holds the result's own properties and, unless one of them is named so, the
      workflow's id, and nothing else. */
  ghost predicate Carries(payload: Payload, id: string, result: Json) {
    match result
    case Obj(fields) =>
      && (forall k :: k in payload <==> k in fields || k == "workflowId")
      && (forall k :: k in fields ==> payload[k] == fields[k])
      && ("workflowId" !in fields ==> payload["workflowId"] == Str(id))
    case Arr(items) => CarriesList(payload, id, items)
    case Str(s) => CarriesList(payload, id, seq(|s|, j requires 0 <= j < |s| => Str([s[j]])))
    case _ => payload == map["workflowId" := Str(id)]
  }

  /** Each item stands under its index. */
  ghost predicate CarriesList(payload: Payload, id: string, items: seq<Json>) {
    && "workflowId" in payload && payload["workflowId"] == Str(id)
    && (forall j :: 0 <= j < |items| ==> Decimal(j) in payload && payload[Decimal(j)] == items[j])
    && forall k :: k in payload && k != "workflowId" ==> exists j :: 0 <= j < |items| && k == Decimal(j)
  }

  lemma IndexedAt(items: seq<Json>, j: nat)
    requires j < |items|
    ensures Decimal(j) in Indexed(items) && Indexed(items)[Decimal(j)] == items[j]
  {
    DecimalIsInjective();
  }

  lemma ListCarries(id: string, items: seq<Json>)
    ensures CarriesList(map[WORKFLOW_ID := Str(id)] + Indexed(items), id, items)
  {
    forall j | 0 <= j < |items| ensures Decimal(j) in Indexed(items) && Indexed(items)[Decimal(j)] == items[j] {
      IndexedAt(items, j);
    }
    forall k | k in Indexed(items) ensures k != "workflowId" && exists j :: 0 <= j < |items| && k == Decimal(j) {
      var j :| 0 <= j < |items| && k == Decimal(j);
      assert Decimal(j)[0] != "workflowId"[0];
    }
  }

  lemma ResultCarried(id: string, result: Json)
    ensures Carries(NextPayload(id, result), id, result)
  {
    match result
    case Obj(_) =>
    case Arr(items) => ListCarries(id, items);
    case Str(s) => ListCarries(id, seq(|s|, j requires 0 <= j < |s| => Str([s[j]])));
    case _ =>
  }

  lemma CarriedOnce(payload: Payload, other: Payload, id: string, result: Json)
    requires Carries(payload, id, result) && Carries(other, id, result)
    ensures payload == other
  {
  }

  /** The message published after a step is the one that carries its result. */
  lemma CarriesExactly(payload: Payload, id: string, result: Json)
    ensures Carries(payload, id, result) <==> payload == NextPayload(id, result)
  {
    ResultCarried(id, result);
    if Carries(payload, id, result) { CarriedOnce(payload, NextPayload(id, result), id, result); }
  }

  /** A delivery to a row without errors: run the step the row points at, store, move on and publish. */
  function Execute(d: Definition, id: string, row: Row, i: nat, payload: Payload, w: World): Delivered
    requires i < |d.steps|
  {
    if row.serviceId != d.serviceId then
      FailAndRollBack(d, row, i, OTHER_SERVICE, w, [])
    else if !ExpectedOrder(d.steps, i, row.results) then
      FailAndRollBack(d, row, i, OUT_OF_ORDER, w, [])
    else
      var outcome := w.execute(i, payload);
      var effects := [Executed(i, payload, outcome)];
      match outcome
      case Failure(error) => FailAndRollBack(d, row, i, error, w, effects)
      case Success(result) =>
        var stored := row.(results := Stored(row.results, d.steps[i].name, result));
        if i + 1 == |d.steps| then
          Kept(if d.deleteOnComplete then None else Some(stored.(completed := true)), effects)
        else
          var moved := stored.(current := d.steps[i + 1].name);
          match w.publish
          case Pass => Kept(Some(moved), effects + [Sent(StepMessage(d, i + 1), NextPayload(id, result))])
          case Fail(error) => FailAndRollBack(d, moved, i, error, w, effects)
  }

  /** A delivery to a stored row: the row, not the message, says which step it is for. */
  function OnRow(d: Definition, id: string, row: Row, payload: Payload, w: World): Delivered {
    if row.current == "" then Thrown("Workflow state was not found", [])
    else match IndexOf(d.steps, row.current)
      case None => Thrown("Workflow could not find current step", [])
      case Some(i) =>
        if row.errors != [] then RollBack(d, row, i, w, []) else Execute(d, id, row, i, payload, w)
  }

  type Rows = map<string, Row>

  /** The store and the caller's view after one delivery; a throw leaves the store as it was. */
  datatype Subscribed = Subscribed(rows: Rows, result: Result<string, string>, effects: seq<Effect>)

  function OnRows(d: Definition, before: Rows, rows: Rows, id: string, payload: Payload, w: World): Subscribed {
    if id == "" then Subscribed(before, Failure(EMPTY_ID), [])
    else if id !in rows then Subscribed(before, Failure(NO_STATE), [])
    else match OnRow(d, id, rows[id], payload, w)
      case Kept(Some(row), effects) => Subscribed(rows[id := row], Success(id), effects)
      case Kept(None, effects) => Subscribed(rows - {id}, Success(id), effects)
      case Thrown(error, effects) => Subscribed(before, Failure(error), effects)
  }

  function Deliver(d: Definition, rows: Rows, payload: Payload, w: World): (done: Subscribed)
    ensures done.result.Failure? ==> done.rows == rows
  {
    if d.steps == [] then Subscribed(rows, Failure("Steps must be defined before a flow is executed"), [])
    else match IdOf(payload)
      case Failure(error) => Subscribed(rows, Failure(error), [])
      case Success(id) =>
        var newId := if id.Some? then id.value else w.newId;
        if id.Some? && id.value != "" then OnRows(d, rows, rows, newId, payload, w)
        else if newId in rows then Subscribed(rows, Failure("Unique constraint failed"), [])
        else OnRows(d, rows, rows[newId := InitialRow(d, payload)], newId, payload, w)
  }

  /** A message that carries the id of a stored workflow goes to its row. */
  lemma DeliverToRow(d: Definition, rows: Rows, id: string, payload: Payload, w: World)
    requires d.steps != [] && IdOf(payload) == Success(Some(id)) && id != "" && id in rows
    ensures Deliver(d, rows, payload, w) ==
            match OnRow(d, id, rows[id], payload, w)
            case Kept(Some(row), effects) => Subscribed(rows[id := row], Success(id), effects)
            case Kept(None, effects) => Subscribed(rows - {id}, Success(id), effects)
            case Thrown(error, effects) => Subscribed(rows, Failure(error), effects)
  {
  }

  /** All a delivery to a stored workflow does is for the step its row points at, whichever step the message is
      for: only that step executes, on the payload delivered, or is rolled back, and only its successor is sent. */
  lemma RowChoosesStep(d: Definition, rows: Rows, id: string, payload: Payload, w: World, e: Effect)
    requires d.steps != [] && IdOf(payload) == Success(Some(id)) && id != "" && id in rows
    requires e in Deliver(d, rows, payload, w).effects
    ensures var i := IndexOf(d.steps, rows[id].current);
      && i.Some?
      && match e
         case Executed(step, p, o) => step == i.value && p == payload && o == w.execute(i.value, payload)
                                      && rows[id].errors == []
         case RolledBack(step) => step == i.value
         case Sent(message, _) => i.value + 1 < |d.steps| && message == StepMessage(d, i.value + 1)
  {
    DeliverToRow(d, rows, id, payload, w);
    var i := IndexOf(d.steps, rows[id].current);
    if rows[id].current != "" && i.Some? {
      var row := rows[id];
      if row.errors == [] {
        ExecuteActsOn(d, id, row, i.value, payload, w, e);
      } else {
        RollBackActsOn(d, row, i.value, w, [], e);
      }
    }
  }

  lemma RollBackActsOn(d: Definition, row: Row, i: nat, w: World, done: seq<Effect>, e: Effect)
    requires i < |d.steps| && e in RollBack(d, row, i, w, done).effects
    ensures e in done || e == RolledBack(i)
  {
  }

  lemma ExecuteActsOn(d: Definition, id: string, row: Row, i: nat, payload: Payload, w: World, e: Effect)
    requires i < |d.steps| && e in Execute(d, id, row, i, payload, w).effects
    ensures match e
            case Executed(step, p, o) => step == i && p == payload && o == w.execute(i, payload)
            case RolledBack(step) => step == i
            case Sent(message, _) => i + 1 < |d.steps| && message == StepMessage(d, i + 1)
  {
    var executed := [Executed(i, payload, w.execute(i, payload))];
    if row.serviceId != d.serviceId || !ExpectedOrder(d.steps, i, row.results) {
      var error := if row.serviceId != d.serviceId then OTHER_SERVICE else OUT_OF_ORDER;
      RollBackActsOn(d, row.(errors := row.errors + [ExecuteError(d.steps[i].name, error)]), i, w, [], e);
    }
  }
}
