/** What it takes to roll a failed workflow back to its first step. */
module WorkflowRollback {
  import opened Wrappers
  import opened WorkflowModel
  import opened WorkflowSteps

  /** The store and all effects after a list of deliveries. */
  function Trace(d: Definition, rows: Rows, dls: seq<Delivery>): (Rows, seq<Effect>)
    decreases |dls|
  {
    if dls == [] then (rows, [])
    else
      var done := Deliver(d, rows, dls[0].payload, dls[0].world);
      var (rows', effects) := Trace(d, done.rows, dls[1..]);
      (rows', done.effects + effects)
  }

  /** Deliveries for this workflow during which no rollback handler throws. */
  ghost predicate Undoing(id: string, dls: seq<Delivery>) {
    forall dl :: dl in dls ==> Names(dl.payload, id) && Passes(dl.world)
  }

  predicate Names(payload: Payload, id: string) {
    "workflowId" in payload && payload["workflowId"] == Str(id)
  }

  ghost predicate Passes(w: World) {
    forall k: nat :: w.rollback(k).Pass?
  }

  /** The rollback calls of the steps from j back to the first: each step calls its own handler once per step
      up to and including itself. */
  function Rollbacks(d: Definition, j: nat): seq<Effect>
    requires j < |d.steps|
  {
    Repeat(RolledBack(j), if d.steps[j].hasRollback then j + 1 else 0)
    + if j == 0 then [] else Rollbacks(d, j - 1)
  }

  /** One delivery to a failed row: the step's handler, once per step up to and including it. */
  lemma UndoOne(d: Definition, rows: Rows, id: string, j: nat, dl: Delivery)
    requires ValidDefinition(d) && id != "" && id in rows && j < |d.steps|
    requires rows[id].errors != [] && rows[id].current == d.steps[j].name
    requires Undoing(id, [dl])
    ensures Deliver(d, rows, dl.payload, dl.world) ==
            Subscribed(rows[id := OneBack(d, rows[id], j)], Success(id),
                       Repeat(RolledBack(j), if d.steps[j].hasRollback then j + 1 else 0))
  {
    assert dl in [dl];
    Undoes(d, rows, dl.payload, dl.world, id, rows[id], j);
    assert Deliver(d, rows, dl.payload, dl.world).effects ==
           Repeat(RolledBack(j), if d.steps[j].hasRollback then j + 1 else 0);
  }

  function OneBack(d: Definition, row: Row, j: nat): Row
    requires j < |d.steps|
  {
    if j > 0 then row.(current := d.steps[j - 1].name) else row.(completed := true)
  }

  lemma TraceOne(d: Definition, rows: Rows, dls: seq<Delivery>)
    requires dls != []
    ensures var done := Deliver(d, rows, dls[0].payload, dls[0].world);
      var rest := Trace(d, done.rows, dls[1..]);
      Trace(d, rows, dls) == (rest.0, done.effects + rest.1)
  {
  }

  lemma UndoingParts(id: string, dls: seq<Delivery>)
    requires dls != [] && Undoing(id, dls)
    ensures Undoing(id, [dls[0]]) && Undoing(id, dls[1..])
  {
    assert dls[0] in dls;
    assert forall dl :: dl in dls[1..] ==> dl in dls;
  }

  lemma Overwrite(rows: Rows, id: string, row: Row, row': Row)
    ensures rows[id := row][id := row'] == rows[id := row']
  {
  }

  function Undone(d: Definition, row: Row): Row
    requires d.steps != []
  {
    row.(current := d.steps[0].name, completed := true)
  }

  lemma MovedOn(d: Definition, row: Row, j: nat)
    requires ValidDefinition(d) && j < |d.steps| && row.current == d.steps[j].name
    ensures var moved := OneBack(d, row, j);
      && moved.errors == row.errors && Undone(d, moved) == Undone(d, row)
      && if j == 0 then moved == Undone(d, row) else moved.current == d.steps[j - 1].name
  {
  }

  lemma TraceUndo(d: Definition, rows: Rows, id: string, j: nat, dls: seq<Delivery>)
    requires ValidDefinition(d) && id != "" && id in rows && j < |d.steps|
    requires rows[id].errors != [] && rows[id].current == d.steps[j].name
    requires Undoing(id, dls) && dls != []
    ensures var rest := Trace(d, rows[id := OneBack(d, rows[id], j)], dls[1..]);
      Trace(d, rows, dls) == (rest.0, Repeat(RolledBack(j), if d.steps[j].hasRollback then j + 1 else 0) + rest.1)
  {
    UndoingParts(id, dls);
    UndoOne(d, rows, id, j, dls[0]);
    TraceOne(d, rows, dls);
  }

  /** j + 1 deliveries take a failed workflow from step j to completion. */
  lemma {:induction false} RollsBackToFirst(d: Definition, rows: Rows, id: string, j: nat, dls: seq<Delivery>)
    requires ValidDefinition(d) && id != "" && id in rows && j < |d.steps|
    requires rows[id].errors != [] && rows[id].current == d.steps[j].name
    requires Undoing(id, dls) && |dls| == j + 1
    ensures Trace(d, rows, dls) == (rows[id := Undone(d, rows[id])], Rollbacks(d, j))
    decreases j
  {
    TraceUndo(d, rows, id, j, dls);
    MovedOn(d, rows[id], j);
    if j == 0 {
      assert dls[1..] == [];
    } else {
      UndoingParts(id, dls);
      var moved := OneBack(d, rows[id], j);
      RollsBackToFirst(d, rows[id := moved], id, j - 1, dls[1..]);
      Overwrite(rows, id, moved, Undone(d, rows[id]));
    }
  }

  /** A delivery that fails at step k, whatever the cause, while no rollback handler throws. */
  ghost predicate Failing(d: Definition, rows: Rows, id: string, row: Row, k: nat, cause: Cause, dl: Delivery) {
    && At(d, rows, dl.payload, dl.world, id, row, k) && Fails(d, row, k, dl.payload, dl.world, cause)
    && Passes(dl.world)
  }

  /** It stores the error and runs the first rollback at once. */
  lemma FailOne(d: Definition, rows: Rows, id: string, row: Row, k: nat, cause: Cause, dl: Delivery)
    requires Failing(d, rows, id, row, k, cause, dl)
    ensures Deliver(d, rows, dl.payload, dl.world) ==
            Subscribed(rows[id := Failed(d, row, k, cause)], Success(id),
                       Ran(k, dl.payload, cause)
                       + Repeat(RolledBack(k), if d.steps[k].hasRollback then k + 1 else 0))
  {
    FailsOnce(d, rows, dl.payload, dl.world, id, row, k, cause);
    assert Deliver(d, rows, dl.payload, dl.world).effects ==
           Ran(k, dl.payload, cause) + Repeat(RolledBack(k), if d.steps[k].hasRollback then k + 1 else 0);
  }

  /** However step k fails, the failing delivery and k more complete the workflow with that one error, visiting
      steps k to 0 in reverse. */
  lemma FailureRollsBack(d: Definition, rows: Rows, id: string, row: Row, k: nat, cause: Cause, dls: seq<Delivery>)
    requires |dls| == k + 1 && Failing(d, rows, id, row, k, cause, dls[0]) && Undoing(id, dls[1..])
    ensures var failed := Failed(d, row, k, cause);
      Trace(d, rows, dls) ==
      (rows[id := failed.(current := if k > 0 then d.steps[0].name else failed.current, completed := true)],
       Ran(k, dls[0].payload, cause) + Rollbacks(d, k))
  {
    FailOne(d, rows, id, row, k, cause, dls[0]);
    TraceOne(d, rows, dls);
    var failed := Failed(d, row, k, cause);
    var own := Repeat(RolledBack(k), if d.steps[k].hasRollback then k + 1 else 0);
    if k == 0 {
      assert dls[1..] == [];
      Associative(Ran(k, dls[0].payload, cause), own, []);
    } else {
      RollsBackToFirst(d, rows[id := failed], id, k - 1, dls[1..]);
      Overwrite(rows, id, failed, Undone(d, failed));
      Associative(Ran(k, dls[0].payload, cause), own, Rollbacks(d, k - 1));
    }
  }

  /** Rollback calls of the steps from k down: no call of a step's handler follows one of an earlier step's. */
  ghost predicate Descends(es: seq<Effect>, k: int) {
    && (forall i :: 0 <= i < |es| ==> es[i].RolledBack? && es[i].step <= k)
    && forall i, j :: 0 <= i < j < |es| ==> es[i].step >= es[j].step
  }

  lemma DescendsFrom(own: seq<Effect>, rest: seq<Effect>, k: nat)
    requires (forall i :: 0 <= i < |own| ==> own[i] == RolledBack(k)) && Descends(rest, k - 1)
    ensures Descends(own + rest, k)
  {
  }

  lemma {:induction false} RollbacksDescend(d: Definition, k: nat)
    requires k < |d.steps|
    ensures Descends(Rollbacks(d, k), k)
  {
    var own := Repeat(RolledBack(k), if d.steps[k].hasRollback then k + 1 else 0);
    if k == 0 {
      DescendsFrom(own, [], k);
    } else {
      RollbacksDescend(d, k - 1);
      DescendsFrom(own, Rollbacks(d, k - 1), k);
    }
  }

  /** All handlers together run (k + 1)(k + 2) / 2 times. */
  lemma {:induction false} RollbackTotal(d: Definition, k: nat)
    requires k < |d.steps| && forall i :: 0 <= i <= k ==> d.steps[i].hasRollback
    ensures 2 * |Rollbacks(d, k)| == (k + 1) * (k + 2)
  {
    if k == 0 {
    } else {
      RollbackTotal(d, k - 1);
      assert (k + 1) * (k + 2) == k * (k + 1) + 2 * (k + 1);
    }
  }

  lemma Associative<T>(a: seq<T>, b: seq<T>, c: seq<T>)
    ensures a + b + c == a + (b + c)
  {
  }

  function Count(es: seq<Effect>, e: Effect): nat {
    if es == [] then 0 else (if es[0] == e then 1 else 0) + Count(es[1..], e)
  }

  lemma {:induction false} CountAppend(a: seq<Effect>, b: seq<Effect>, e: Effect)
    ensures Count(a + b, e) == Count(a, e) + Count(b, e)
  {
    if a == [] {
      assert a + b == b;
    } else {
      assert (a + b)[1..] == a[1..] + b;
      CountAppend(a[1..], b, e);
    }
  }

  lemma {:induction false} CountRepeat(r: Effect, n: nat, e: Effect)
    ensures Count(Repeat(r, n), e) == if r == e then n else 0
  {
    if n == 0 {
    } else {
      assert Repeat(r, n)[1..] == Repeat(r, n - 1);
      CountRepeat(r, n - 1, e);
    }
  }

  /** Step j's handler runs j + 1 times, if it has one, and no step after k is rolled back. */
  lemma {:induction false} RollbackCount(d: Definition, k: nat, j: nat)
    requires k < |d.steps| && j < |d.steps|
    ensures Count(Rollbacks(d, k), RolledBack(j)) == if j <= k && d.steps[j].hasRollback then j + 1 else 0
  {
    var own := Repeat(RolledBack(k), if d.steps[k].hasRollback then k + 1 else 0);
    CountRepeat(RolledBack(k), |own|, RolledBack(j));
    CountAppend(own, if k == 0 then [] else Rollbacks(d, k - 1), RolledBack(j));
    if k == 0 {
    } else {
      RollbackCount(d, k - 1, j);
    }
  }

  /** The comment on executeRollback wants each handler called once; that is so exactly when no step after the
      first, up to the one that failed, has a handler. */
  lemma RolledBackOnceExactly(d: Definition, k: nat)
    requires k < |d.steps|
    ensures (forall j :: 0 <= j <= k && d.steps[j].hasRollback ==> Count(Rollbacks(d, k), RolledBack(j)) == 1) <==>
            (forall j :: 0 < j <= k ==> !d.steps[j].hasRollback)
  {
    forall j: nat | j <= k
      ensures Count(Rollbacks(d, k), RolledBack(j)) == if d.steps[j].hasRollback then j + 1 else 0
    {
      RollbackCount(d, k, j);
    }
  }
}
