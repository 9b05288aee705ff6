/** A workflow driven by its own messages, and a failed workflow driven back to its first step. */
module WorkflowFold {
  import opened Wrappers
  import opened WorkflowModel

  /** The store, and the message waiting to be delivered. */
  datatype Driven = Driven(rows: Rows, inbox: Option<Payload>)

  function Published(effects: seq<Effect>): Option<Payload> {
    if effects != [] && effects[|effects| - 1].Sent? then Some(effects[|effects| - 1].payload) else None
  }

  /** k deliveries: the first of p0, each later one of the message the one before it published. */
  function Drive(d: Definition, w: World, rows: Rows, p0: Payload, k: nat): Driven {
    if k == 0 then Driven(rows, Some(p0)) else DriveOn(d, w, Drive(d, w, rows, p0, k - 1))
  }

  function DriveOn(d: Definition, w: World, before: Driven): Driven {
    match before.inbox
    case None => before
    case Some(payload) =>
      var done := Deliver(d, before.rows, payload, w);
      Driven(done.rows, if done.result.Success? then Published(done.effects) else None)
  }

  /** The step functions return for every input, and nothing else goes wrong. */
  ghost predicate Returns(w: World) {
    w.publish.Pass? && forall i: nat, p: Payload :: w.execute(i, p).Success?
  }

  /** The direct composition: each step applied to the result of the one before, with the id added. */
  function Input(w: World, p0: Payload, i: nat): Payload
    requires forall i: nat, p: Payload :: w.execute(i, p).Success?
    decreases i, 0
  {
    if i == 0 then p0 else NextPayload(w.newId, Output(w, p0, i - 1))
  }

  /** Each step's input carries the result of the step before it. */
  lemma InputCarries(w: World, p0: Payload, i: nat)
    requires forall i: nat, p: Payload :: w.execute(i, p).Success?
    ensures Carries(Input(w, p0, i + 1), w.newId, Output(w, p0, i))
  {
    CarriesExactly(Input(w, p0, i + 1), w.newId, Output(w, p0, i));
  }

  function Output(w: World, p0: Payload, i: nat): Json
    requires forall i: nat, p: Payload :: w.execute(i, p).Success?
    decreases i, 1
  {
    w.execute(i, Input(w, p0, i)).value
  }

  /** The left fold of the first k steps, keyed by step name. */
  function Fold(d: Definition, w: World, p0: Payload, k: nat): map<string, Json>
    requires forall i: nat, p: Payload :: w.execute(i, p).Success?
    requires k <= |d.steps|
  {
    if k == 0 then map[] else Stored(Fold(d, w, p0, k - 1), d.steps[k - 1].name, Output(w, p0, k - 1))
  }

  /** A fresh workflow whose steps return, none of them redirecting the next message to another workflow. */
  ghost predicate Fresh(d: Definition, w: World, rows: Rows, p0: Payload) {
    && ValidDefinition(d) && Returns(w)
    && w.newId != "" && w.newId !in rows && IdOf(p0) == Success(None)
    && forall i: nat :: i + 1 < |d.steps| ==>
         var fields := Spread(Output(w, p0, i));
         WORKFLOW_ID in fields ==> fields[WORKFLOW_ID] == Str(w.newId)
  }

  function RowAt(d: Definition, w: World, p0: Payload, k: nat): Row
    requires forall i: nat, p: Payload :: w.execute(i, p).Success?
    requires d.steps != [] && k <= |d.steps|
  {
    Row(d.serviceId, d.steps[if k == |d.steps| then k - 1 else k].name, p0, Fold(d, w, p0, k), [], k == |d.steps|)
  }

  ghost predicate TruthyBelow(w: World, p0: Payload, k: int)
    requires forall i: nat, p: Payload :: w.execute(i, p).Success?
  {
    forall j: nat :: j < k ==> Truthy(Output(w, p0, j))
  }

  lemma {:induction false} FoldAt(d: Definition, w: World, p0: Payload, k: nat, j: nat)
    requires ValidDefinition(d) && Returns(w) && j < k <= |d.steps|
    ensures var rs, name := Fold(d, w, p0, k), d.steps[j].name;
      if Output(w, p0, j).Undefined? then name !in rs else name in rs && rs[name] == Output(w, p0, j)
  {
    if j == k - 1 {
    } else {
      FoldAt(d, w, p0, k - 1, j);
    }
  }

  /** The guard at step k of the fold sees exactly the first k - 1 outputs. */
  lemma GuardAt(d: Definition, w: World, p0: Payload, k: nat)
    requires ValidDefinition(d) && Returns(w) && k < |d.steps|
    ensures ExpectedOrder(d.steps, k, Fold(d, w, p0, k)) <==> TruthyBelow(w, p0, k - 1)
  {
    forall j: nat | j < k { FoldAt(d, w, p0, k, j); }
  }

  /** One delivery of the message for step k. */
  lemma DeliverStep(d: Definition, w: World, rows: Rows, p0: Payload, k: nat)
    requires Fresh(d, w, rows, p0) && k < |d.steps| && TruthyBelow(w, p0, k - 1)
    ensures var r := OnRow(d, w.newId, RowAt(d, w, p0, k), Input(w, p0, k), w);
      && r.Kept?
      && r.row == (if k + 1 == |d.steps| && d.deleteOnComplete then None else Some(RowAt(d, w, p0, k + 1)))
      && Published(r.effects) == if k + 1 == |d.steps| then None else Some(Input(w, p0, k + 1))
  {
    GuardAt(d, w, p0, k);
    IndexOfName(d.steps, k);
  }

  function Stage(d: Definition, w: World, rows: Rows, p0: Payload, k: nat): Driven
    requires forall i: nat, p: Payload :: w.execute(i, p).Success?
    requires 0 < k <= |d.steps|
  {
    Driven(if k == |d.steps| && d.deleteOnComplete then rows - {w.newId} else rows[w.newId := RowAt(d, w, p0, k)],
           if k == |d.steps| then None else Some(Input(w, p0, k)))
  }

  lemma Overwrite(rows: Rows, id: string, row: Row, row': Row)
    ensures rows[id := row][id := row'] == rows[id := row']
    ensures rows[id := row] - {id} == rows - {id}
  {
  }

  /** Every message after the first names the workflow's own row. */
  lemma InputNamesRow(d: Definition, w: World, rows: Rows, p0: Payload, k: nat)
    requires Fresh(d, w, rows, p0) && 0 < k < |d.steps|
    ensures IdOf(Input(w, p0, k)) == Success(Some(w.newId))
  {
  }

  /** One delivery takes the store from each stage to the next. */
  lemma DeliverStage(d: Definition, w: World, rows: Rows, p0: Payload, k: nat)
    requires Fresh(d, w, rows, p0) && 0 < k < |d.steps| && TruthyBelow(w, p0, k - 1)
    ensures var before, after := Stage(d, w, rows, p0, k), Stage(d, w, rows, p0, k + 1);
      var done := Deliver(d, before.rows, before.inbox.value, w);
      done.result.Success? && done.rows == after.rows && Published(done.effects) == after.inbox
  {
    DeliverStep(d, w, rows, p0, k);
    InputNamesRow(d, w, rows, p0, k);
    DeliverToRow(d, rows[w.newId := RowAt(d, w, p0, k)], w.newId, Input(w, p0, k), w);
    Overwrite(rows, w.newId, RowAt(d, w, p0, k), RowAt(d, w, p0, k + 1));
  }

  /** A repeat of an earlier message makes the step the row has come to run on it; what is stored and published is
      what that step makes of the repeated message. */
  lemma RepeatRunsNextStep(d: Definition, w: World, rows: Rows, p0: Payload, k: nat, j: nat)
    requires Fresh(d, w, rows, p0) && 0 < j <= k < |d.steps| && TruthyBelow(w, p0, k - 1)
    ensures var done := Deliver(d, Stage(d, w, rows, p0, k).rows, Input(w, p0, j), w);
      var result := w.execute(k, Input(w, p0, j)).value;
      && done.result.Success?
      && done.effects != [] && done.effects[0] == Executed(k, Input(w, p0, j), Success(result))
      && (k + 1 == |d.steps| ==> Published(done.effects).None?)
      && (k + 1 < |d.steps| ==>
            && Published(done.effects).Some? && Carries(Published(done.effects).value, w.newId, result)
            && w.newId in done.rows && done.rows[w.newId].current == d.steps[k + 1].name
            && done.rows[w.newId].results == Stored(Fold(d, w, p0, k), d.steps[k].name, result))
  {
    GuardAt(d, w, p0, k);
    IndexOfName(d.steps, k);
    InputNamesRow(d, w, rows, p0, j);
    DeliverToRow(d, rows[w.newId := RowAt(d, w, p0, k)], w.newId, Input(w, p0, j), w);
    var result := w.execute(k, Input(w, p0, j)).value;
    CarriesExactly(NextPayload(w.newId, result), w.newId, result);
  }

  lemma DeliverFirst(d: Definition, w: World, rows: Rows, p0: Payload)
    requires Fresh(d, w, rows, p0)
    ensures var done, after := Deliver(d, rows, p0, w), Stage(d, w, rows, p0, 1);
      done.result.Success? && done.rows == after.rows && Published(done.effects) == after.inbox
  {
    DeliverStep(d, w, rows, p0, 0);
    assert RowAt(d, w, p0, 0) == InitialRow(d, p0);
    Overwrite(rows, w.newId, RowAt(d, w, p0, 0), RowAt(d, w, p0, 1));
  }

  lemma {:induction false} DriveStage(d: Definition, w: World, rows: Rows, p0: Payload, k: nat)
    requires Fresh(d, w, rows, p0) && 0 < k <= |d.steps| && TruthyBelow(w, p0, k - 2)
    ensures Drive(d, w, rows, p0, k) == Stage(d, w, rows, p0, k)
  {
    if k == 1 {
      DeliverFirst(d, w, rows, p0);
      assert Drive(d, w, rows, p0, 0) == Driven(rows, Some(p0));
    } else {
      DriveStage(d, w, rows, p0, k - 1);
      DeliverStage(d, w, rows, p0, k - 1);
    }
  }

  /** The message waiting makes step k run, on this payload and with this result. */
  ghost predicate Executes(d: Definition, w: World, now: Driven, k: nat, payload: Payload, result: Json) {
    && now.inbox == Some(payload)
    && var effects := Deliver(d, now.rows, payload, w).effects;
    effects != [] && effects[0] == Executed(k, payload, Success(result))
  }

  /** In the driven run, delivery k executes step k on its input. */
  lemma RunsOnInput(d: Definition, w: World, rows: Rows, p0: Payload, k: nat)
    requires Fresh(d, w, rows, p0) && k < |d.steps| && TruthyBelow(w, p0, k - 1)
    ensures Executes(d, w, Drive(d, w, rows, p0, k), k, Input(w, p0, k), Output(w, p0, k))
  {
    if k > 0 {
      DriveStage(d, w, rows, p0, k);
    }
    StageExecutes(d, w, rows, p0, k);
  }

  lemma StageExecutes(d: Definition, w: World, rows: Rows, p0: Payload, k: nat)
    requires Fresh(d, w, rows, p0) && k < |d.steps| && TruthyBelow(w, p0, k - 1)
    ensures Executes(d, w, if k == 0 then Driven(rows, Some(p0)) else Stage(d, w, rows, p0, k), k,
                     Input(w, p0, k), Output(w, p0, k))
  {
    GuardAt(d, w, p0, k);
    IndexOfName(d.steps, k);
    if k > 0 {
      InputNamesRow(d, w, rows, p0, k);
      DeliverToRow(d, rows[w.newId := RowAt(d, w, p0, k)], w.newId, Input(w, p0, k), w);
    }
  }

  /** Nothing more is published once a delivery has failed. */
  lemma {:induction false} DriveStops(d: Definition, w: World, rows: Rows, p0: Payload, k: nat, n: nat)
    requires k <= n && Drive(d, w, rows, p0, k).inbox.None?
    ensures Drive(d, w, rows, p0, n) == Drive(d, w, rows, p0, k)
  {
    if k == n {
    } else {
      DriveStops(d, w, rows, p0, k, n - 1);
    }
  }

  ghost predicate Finished(rows: Rows, id: string) {
    id !in rows || (rows[id].completed && rows[id].errors == [])
  }

  /** A falsy result among those the guard looks at: the row gets an error, and nothing is published. */
  lemma FalsyOnRow(d: Definition, w: World, rows: Rows, p0: Payload, k: nat)
    requires Fresh(d, w, rows, p0) && k < |d.steps| && !TruthyBelow(w, p0, k - 1)
    ensures var r := OnRow(d, w.newId, RowAt(d, w, p0, k), Input(w, p0, k), w);
      Published(r.effects).None? && (r.Kept? ==> r.row.Some? && r.row.value.errors != [])
  {
    GuardAt(d, w, p0, k);
    IndexOfName(d.steps, k);
  }

  lemma DeliverFalsy(d: Definition, w: World, rows: Rows, p0: Payload, k: nat)
    requires Fresh(d, w, rows, p0) && 0 < k < |d.steps| && !TruthyBelow(w, p0, k - 1)
    ensures var after := DriveOn(d, w, Stage(d, w, rows, p0, k));
      after.inbox.None? && !Finished(after.rows, w.newId)
  {
    FalsyOnRow(d, w, rows, p0, k);
    InputNamesRow(d, w, rows, p0, k);
    DeliverToRow(d, rows[w.newId := RowAt(d, w, p0, k)], w.newId, Input(w, p0, k), w);
  }

  /** After k deliveries nothing is left to deliver, and the workflow is unfinished. */
  ghost predicate Stopped(d: Definition, w: World, rows: Rows, p0: Payload, k: nat) {
    var after := Drive(d, w, rows, p0, k);
    after.inbox.None? && !Finished(after.rows, w.newId)
  }

  /** The guard at step j + 2 fails on the falsy result of step j, and the workflow is left unfinished. */
  lemma FalsyStops(d: Definition, w: World, rows: Rows, p0: Payload, j: nat)
    requires Fresh(d, w, rows, p0) && j + 2 < |d.steps| && TruthyBelow(w, p0, j) && !Truthy(Output(w, p0, j))
    ensures Stopped(d, w, rows, p0, j + 3)
  {
    DriveStage(d, w, rows, p0, j + 2);
    DeliverFalsy(d, w, rows, p0, j + 2);
    assert Drive(d, w, rows, p0, j + 3) == DriveOn(d, w, Drive(d, w, rows, p0, j + 2));
  }

  lemma StaysStopped(d: Definition, w: World, rows: Rows, p0: Payload, k: nat, n: nat)
    requires k <= n && Stopped(d, w, rows, p0, k)
    ensures Stopped(d, w, rows, p0, n)
  {
    DriveStops(d, w, rows, p0, k, n);
  }

  lemma FalsyNeverFinishes(d: Definition, w: World, rows: Rows, p0: Payload, j: nat)
    requires Fresh(d, w, rows, p0) && j + 2 < |d.steps| && TruthyBelow(w, p0, j) && !Truthy(Output(w, p0, j))
    ensures Stopped(d, w, rows, p0, |d.steps|)
  {
    FalsyStops(d, w, rows, p0, j);
    StaysStopped(d, w, rows, p0, j + 3, |d.steps|);
  }

  /** Message-driven run equals sequential composition: n deliveries finish an n-step workflow, with the direct
      fold's results, exactly when the first n - 2 results are truthy. */
  lemma RunIsFold(d: Definition, w: World, rows: Rows, p0: Payload)
    requires Fresh(d, w, rows, p0)
    ensures var n := |d.steps|;
      && (TruthyBelow(w, p0, n - 2) <==> Finished(Drive(d, w, rows, p0, n).rows, w.newId))
      && (TruthyBelow(w, p0, n - 2) ==> forall k :: 0 < k <= n ==>
            Drive(d, w, rows, p0, k) == Stage(d, w, rows, p0, k))
  {
    var n := |d.steps|;
    if TruthyBelow(w, p0, n - 2) {
      forall k | 0 < k <= n ensures Drive(d, w, rows, p0, k) == Stage(d, w, rows, p0, k) {
        DriveStage(d, w, rows, p0, k);
      }
    } else {
      var j := FirstFalsy(w, p0, n - 2);
      FalsyNeverFinishes(d, w, rows, p0, j);
    }
  }

  lemma {:induction false} FirstFalsy(w: World, p0: Payload, k: int) returns (j: nat)
    requires Returns(w) && !TruthyBelow(w, p0, k)
    ensures j < k && !Truthy(Output(w, p0, j)) && TruthyBelow(w, p0, j)
    decreases k
  {
    if TruthyBelow(w, p0, k - 1) { j := k - 1; } else { j := FirstFalsy(w, p0, k - 1); }
  }
}
