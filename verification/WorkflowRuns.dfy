/** Every run of deliveries to the engine: duplicated, stale, in any order, for any ids and any step behaviour. */
module WorkflowRuns {
  import opened Wrappers
  import opened WorkflowModel

  /** A step function that returned for a payload, in a transaction that committed. */
  datatype Exec = Exec(step: nat, payload: Payload, result: Json)

  /** The store, and per id ever initialised the step functions that returned, oldest first. */
  datatype State = State(rows: Rows, log: map<string, seq<Exec>>)

  const EMPTY := State(map[], map[])

  function Successes(es: seq<Effect>): seq<Exec> {
    if es == [] then []
    else if es[0].Executed? && es[0].outcome.Success? then
      [Exec(es[0].step, es[0].payload, es[0].outcome.value)] + Successes(es[1..])
    else Successes(es[1..])
  }

  function History(s: State, id: string): seq<Exec> {
    if id in s.log then s.log[id] else []
  }

  function Next(d: Definition, s: State, dl: Delivery): State {
    var done := Deliver(d, s.rows, dl.payload, dl.world);
    match done.result
    case Failure(_) => State(done.rows, s.log)
    case Success(id) => State(done.rows, s.log[id := History(s, id) + Successes(done.effects)])
  }

  function Run(d: Definition, s: State, dls: seq<Delivery>): State
    decreases |dls|
  {
    if dls == [] then s else Run(d, Next(d, s, dls[0]), dls[1..])
  }

  /** Generated ids are never generated twice. */
  ghost predicate FreshIds(d: Definition, s: State, dls: seq<Delivery>)
    decreases |dls|
  {
    dls != [] ==>
      && (IdOf(dls[0].payload) == Success(None) ==> dls[0].world.newId !in s.log)
      && FreshIds(d, Next(d, s, dls[0]), dls[1..])
  }

  function Results(d: Definition, l: seq<Exec>): map<string, Json>
    requires forall e :: e in l ==> e.step < |d.steps|
  {
    if l == [] then map[]
    else var e := l[|l| - 1]; Stored(Results(d, l[..|l| - 1]), d.steps[e.step].name, e.result)
  }

  /** The steps in order, then only repeats of the last, and none of those if the row is deleted on completion. */
  ghost predicate InOrder(d: Definition, l: seq<Exec>)
    requires d.steps != []
  {
    && (forall i :: 0 <= i < |l| ==> l[i].step == if i < |d.steps| then i else |d.steps| - 1)
    && (d.deleteOnComplete ==> |l| <= |d.steps|)
  }

  ghost predicate Consistent(d: Definition, row: Option<Row>, l: seq<Exec>)
    requires d.steps != []
  {
    && InOrder(d, l)
    && match row
       case None => d.deleteOnComplete && |l| == |d.steps|
       case Some(r) =>
         && r.serviceId == d.serviceId
         && var c := IndexOf(d.steps, r.current);
         && c.Some?
         && (r.errors == [] ==>
              && r.results == Results(d, l)
              && if r.completed then !d.deleteOnComplete && c.value == |d.steps| - 1 && |l| >= |d.steps|
                 else c.value == |l|)
  }

  function RowOf(s: State, id: string): Option<Row> {
    if id in s.rows then Some(s.rows[id]) else None
  }

  ghost predicate Inv(d: Definition, s: State)
    requires d.steps != []
  {
    && s.rows.Keys <= s.log.Keys
    && forall id :: id in s.log ==> Consistent(d, RowOf(s, id), s.log[id])
  }

  lemma {:induction false} SuccessesAppend(a: seq<Effect>, b: seq<Effect>)
    ensures Successes(a + b) == Successes(a) + Successes(b)
  {
    if a == [] {
      assert a + b == b;
    } else {
      assert (a + b)[1..] == a[1..] + b;
      SuccessesAppend(a[1..], b);
    }
  }

  lemma {:induction false} NoSuccesses(es: seq<Effect>)
    requires forall e :: e in es ==> !(e.Executed? && e.outcome.Success?)
    ensures Successes(es) == []
  {
    if es == [] {
    } else {
      NoSuccesses(es[1..]);
    }
  }

  /** Rolling back keeps errors and results, and executes nothing. */
  lemma RollBackKeeps(d: Definition, row: Row, i: nat, w: World, es: seq<Effect>)
    requires ValidDefinition(d) && i < |d.steps|
    ensures var r := RollBack(d, row, i, w, es);
      && Successes(r.effects) == Successes(es)
      && (r.Kept? ==>
            && r.row.Some? && r.row.value == MovedBack(d.steps, row, i)
            && IndexOf(d.steps, r.row.value.current) ==
               if i == 0 then IndexOf(d.steps, row.current) else Some(i - 1))
  {
    var calls := if d.steps[i].hasRollback then i + 1 else 0;
    var back := Repeat(RolledBack(i), CallsMade(w, calls));
    SuccessesAppend(es, back);
    NoSuccesses(back);
    if i > 0 { IndexOfName(d.steps, i - 1); }
  }

  lemma OneMoreResult(d: Definition, l: seq<Exec>, e: Exec)
    requires forall x :: x in l ==> x.step < |d.steps|
    requires e.step < |d.steps|
    ensures forall x :: x in l + [e] ==> x.step < |d.steps|
    ensures Results(d, l + [e]) == Stored(Results(d, l), d.steps[e.step].name, e.result)
  {
    assert (l + [e])[..|l|] == l;
  }

  /** A step that returned: the log grows by it, in order. */
  lemma Grows(d: Definition, row: Row, l: seq<Exec>, i: nat, payload: Payload, result: Json)
    requires ValidDefinition(d) && Consistent(d, Some(row), l) && row.errors == []
    requires IndexOf(d.steps, row.current) == Some(i)
    ensures InOrder(d, l + [Exec(i, payload, result)])
    ensures forall x :: x in l + [Exec(i, payload, result)] ==> x.step < |d.steps|
    ensures Results(d, l + [Exec(i, payload, result)]) == Stored(row.results, d.steps[i].name, result)
    ensures i + 1 < |d.steps| ==> |l| == i
  {
    OneMoreResult(d, l, Exec(i, payload, result));
  }

  /** A failing delivery, whatever has executed before it failed. */
  lemma FailKeeps(d: Definition, row: Row, l: seq<Exec>, i: nat, error: string, w: World, es: seq<Effect>)
    requires ValidDefinition(d) && InOrder(d, l) && i < |d.steps|
    requires row.serviceId == d.serviceId && IndexOf(d.steps, row.current).Some?
    ensures var r := FailAndRollBack(d, row, i, error, w, es);
      && Successes(r.effects) == Successes(es)
      && (r.Kept? ==> Consistent(d, r.row, l))
  {
    RollBackKeeps(d, row.(errors := row.errors + [ExecuteError(d.steps[i].name, error)]), i, w, es);
  }

  lemma ReturnKeeps(d: Definition, id: string, row: Row, l: seq<Exec>, i: nat, payload: Payload, w: World)
    requires ValidDefinition(d) && Consistent(d, Some(row), l) && row.errors == []
    requires IndexOf(d.steps, row.current) == Some(i)
    requires ExpectedOrder(d.steps, i, row.results) && w.execute(i, payload).Success?
    ensures var r := Execute(d, id, row, i, payload, w);
      r.Kept? ==> Consistent(d, r.row, l + Successes(r.effects))
  {
    var result := w.execute(i, payload).value;
    var es := [Executed(i, payload, Success(result))];
    assert es[1..] == [] && Successes(es) == [Exec(i, payload, result)];
    Grows(d, row, l, i, payload, result);
    if i + 1 < |d.steps| {
      IndexOfName(d.steps, i + 1);
      var moved := row.(results := Stored(row.results, d.steps[i].name, result), current := d.steps[i + 1].name);
      if w.publish.Fail? {
        FailKeeps(d, moved, l + [Exec(i, payload, result)], i, w.publish.error, w, es);
      } else {
        var sent := [Sent(StepMessage(d, i + 1), NextPayload(id, result))];
        SuccessesAppend(es, sent);
        assert sent[1..] == [] && Successes(sent) == [];
      }
    }
  }

  lemma ExecuteKeeps(d: Definition, id: string, row: Row, l: seq<Exec>, i: nat, payload: Payload, w: World)
    requires ValidDefinition(d) && Consistent(d, Some(row), l) && row.errors == []
    requires IndexOf(d.steps, row.current) == Some(i)
    ensures var r := Execute(d, id, row, i, payload, w);
      r.Kept? ==> Consistent(d, r.row, l + Successes(r.effects))
  {
    assert l + [] == l;
    if !ExpectedOrder(d.steps, i, row.results) {
      FailKeeps(d, row, l, i, OUT_OF_ORDER, w, []);
    } else if w.execute(i, payload).Failure? {
      var es := [Executed(i, payload, w.execute(i, payload))];
      assert es[1..] == [] && Successes(es) == [];
      FailKeeps(d, row, l, i, w.execute(i, payload).error, w, es);
    } else {
      ReturnKeeps(d, id, row, l, i, payload, w);
    }
  }

  lemma OnRowKeeps(d: Definition, id: string, row: Row, l: seq<Exec>, payload: Payload, w: World)
    requires ValidDefinition(d) && Consistent(d, Some(row), l)
    ensures var r := OnRow(d, id, row, payload, w);
      && (r.Kept? ==> Consistent(d, r.row, l + Successes(r.effects)))
      && (row.errors != [] && r.Kept? ==>
            r.row.Some? && r.row.value.errors == row.errors && Successes(r.effects) == [])
  {
    var i := IndexOf(d.steps, row.current).value;
    if row.errors == [] {
      ExecuteKeeps(d, id, row, l, i, payload, w);
    } else {
      RollBackKeeps(d, row, i, w, []);
      assert l + [] == l;
    }
  }

  /** The row a delivery for this id meets: a new one if there is none. */
  function Met(d: Definition, s: State, id: string, payload: Payload): Row
    requires d.steps != []
  {
    if id in s.rows then s.rows[id] else InitialRow(d, payload)
  }

  /** A delivery that does not throw is one delivery to one row; a row it creates has a generated id. */
  lemma DeliveredOnRow(d: Definition, rows: Rows, payload: Payload, w: World)
    requires d.steps != [] && Deliver(d, rows, payload, w).result.Success?
    ensures var done := Deliver(d, rows, payload, w);
      var id := done.result.value;
      var r := OnRow(d, id, if id in rows then rows[id] else InitialRow(d, payload), payload, w);
      && (id !in rows ==> IdOf(payload) == Success(None) && id == w.newId)
      && r.Kept? && done.effects == r.effects
      && r.row == (if id in done.rows then Some(done.rows[id]) else None)
      && forall other :: other != id ==>
           (other in done.rows <==> other in rows) && (other in rows ==> done.rows[other] == rows[other])
  {
  }

  lemma NextIsOnRow(d: Definition, s: State, dl: Delivery) returns (touched: Option<string>)
    requires d.steps != []
    ensures touched.None? ==> Next(d, s, dl) == s
    ensures touched.Some? ==> Deliver(d, s.rows, dl.payload, dl.world).result == Success(touched.value)
    ensures touched.Some? ==>
              var id, s' := touched.value, Next(d, s, dl);
              var r := OnRow(d, id, Met(d, s, id, dl.payload), dl.payload, dl.world);
              && (id !in s.rows ==> IdOf(dl.payload) == Success(None) && id == dl.world.newId)
              && r.Kept? && RowOf(s', id) == r.row && History(s', id) == History(s, id) + Successes(r.effects)
              && s'.log.Keys == s.log.Keys + {id}
              && forall other :: other != id ==>
                   RowOf(s', other) == RowOf(s, other) && History(s', other) == History(s, other)
  {
    var result := Deliver(d, s.rows, dl.payload, dl.world).result;
    touched := if result.Success? then Some(result.value) else None;
    if result.Success? {
      DeliveredOnRow(d, s.rows, dl.payload, dl.world);
    }
  }

  lemma NextInv(d: Definition, s: State, dl: Delivery)
    requires ValidDefinition(d) && Inv(d, s)
    requires IdOf(dl.payload) == Success(None) ==> dl.world.newId !in s.log
    ensures Inv(d, Next(d, s, dl))
  {
    var s' := Next(d, s, dl);
    var touched := NextTouches(d, s, dl);
    if touched.Some? {
      var id := touched.value;
      forall other | other in s'.log && other != id ensures Consistent(d, RowOf(s', other), s'.log[other]) {
        assert History(s', other) == History(s, other);
      }
      forall other | other in s'.rows ensures other in s'.log {
        assert other != id ==> RowOf(s', other) == RowOf(s, other);
      }
    }
  }

  /** What a delivery touches stays consistent, and it touches nothing else. */
  lemma NextTouches(d: Definition, s: State, dl: Delivery) returns (touched: Option<string>)
    requires ValidDefinition(d) && Inv(d, s)
    requires IdOf(dl.payload) == Success(None) ==> dl.world.newId !in s.log
    ensures touched.None? ==> Next(d, s, dl) == s
    ensures touched.Some? ==>
              var id, s' := touched.value, Next(d, s, dl);
              && Consistent(d, RowOf(s', id), History(s', id))
              && s'.log.Keys == s.log.Keys + {id}
              && forall other :: other != id ==>
                   RowOf(s', other) == RowOf(s, other) && History(s', other) == History(s, other)
  {
    touched := NextIsOnRow(d, s, dl);
    if touched.Some? {
      var id := touched.value;
      MetIsConsistent(d, s, id, dl.payload);
      OnRowKeeps(d, id, Met(d, s, id, dl.payload), History(s, id), dl.payload, dl.world);
    }
  }

  lemma MetIsConsistent(d: Definition, s: State, id: string, payload: Payload)
    requires ValidDefinition(d) && Inv(d, s) && (id in s.rows || id !in s.log)
    ensures Consistent(d, Some(Met(d, s, id, payload)), History(s, id))
  {
    if id in s.rows {
      assert Consistent(d, RowOf(s, id), s.log[id]);
    } else {
      IndexOfName(d.steps, 0);
    }
  }

  lemma NextKeepsErrors(d: Definition, s: State, dl: Delivery, id: string)
    requires ValidDefinition(d) && Inv(d, s) && id in s.rows && s.rows[id].errors != []
    ensures var s' := Next(d, s, dl);
      id in s'.rows && s'.rows[id].errors == s.rows[id].errors && History(s', id) == History(s, id)
  {
    var touched := NextIsOnRow(d, s, dl);
    if touched == Some(id) {
      MetIsConsistent(d, s, id, dl.payload);
      OnRowKeeps(d, id, s.rows[id], History(s, id), dl.payload, dl.world);
      assert RowOf(Next(d, s, dl), id).Some?;
    } else {
      assert RowOf(Next(d, s, dl), id) == RowOf(s, id);
    }
  }

  lemma {:induction false} RunInv(d: Definition, s: State, dls: seq<Delivery>)
    requires ValidDefinition(d) && Inv(d, s) && FreshIds(d, s, dls)
    ensures Inv(d, Run(d, s, dls))
    decreases |dls|
  {
    if dls == [] {
    } else {
      NextInv(d, s, dls[0]);
      RunInv(d, Next(d, s, dls[0]), dls[1..]);
    }
  }

  /** Execution order: whatever is delivered, each workflow executes its steps in order, then only its last again,
      and that only when the row is kept. */
  lemma StepsRunInOrder(d: Definition, dls: seq<Delivery>, id: string)
    requires ValidDefinition(d) && FreshIds(d, EMPTY, dls)
    ensures InOrder(d, History(Run(d, EMPTY, dls), id))
  {
    RunInv(d, EMPTY, dls);
  }

  /** What is stored for each step that can no longer run again. */
  lemma {:induction false} ResultOf(d: Definition, l: seq<Exec>, j: nat)
    requires ValidDefinition(d) && InOrder(d, l) && j < |d.steps| - 1 && j < |l|
    ensures forall e :: e in l ==> e.step < |d.steps|
    ensures var rs, name := Results(d, l), d.steps[j].name;
      if l[j].result.Undefined? then name !in rs else name in rs && rs[name] == l[j].result
  {
    var before, e := l[..|l| - 1], l[|l| - 1];
    if j == |before| {
    } else {
      ResultOf(d, before, j);
      assert before[j] == l[j];
    }
  }

  lemma GuardOnRow(d: Definition, row: Row, l: seq<Exec>, i: nat)
    requires ValidDefinition(d) && Consistent(d, Some(row), l) && row.errors == []
    requires IndexOf(d.steps, row.current) == Some(i)
    ensures i <= |l|
    ensures ExpectedOrder(d.steps, i, row.results) <==> forall j :: 0 <= j < i - 1 ==> Truthy(l[j].result)
  {
    forall j: nat | j < i - 1
      ensures Truthy(l[j].result) <==> d.steps[j].name in row.results && Truthy(row.results[d.steps[j].name])
    {
      ResultOf(d, l, j);
    }
  }

  /** In a reachable row without errors the guard at step i fails exactly when one of the first i - 1 steps
      returned a falsy value; the result of step i - 1 itself is never looked at. */
  lemma GuardExactly(d: Definition, dls: seq<Delivery>, id: string)
    requires ValidDefinition(d) && FreshIds(d, EMPTY, dls)
    ensures var s := Run(d, EMPTY, dls);
      id in s.rows && s.rows[id].errors == [] ==>
        var l, i := History(s, id), IndexOf(d.steps, s.rows[id].current);
        && i.Some? && i.value <= |l|
        && (ExpectedOrder(d.steps, i.value, s.rows[id].results) <==>
            forall j :: 0 <= j < i.value - 1 ==> Truthy(l[j].result))
  {
    RunInv(d, EMPTY, dls);
    var s := Run(d, EMPTY, dls);
    if id in s.rows && s.rows[id].errors == [] {
      assert Consistent(d, RowOf(s, id), s.log[id]);
      GuardOnRow(d, s.rows[id], History(s, id), IndexOf(d.steps, s.rows[id].current).value);
    }
  }

  /** The guard does not stop re-execution of the last step: on a workflow that has completed and kept its row,
      any further delivery executes that step again exactly when the first n - 2 results are truthy. */
  lemma CompletedRunsAgainExactly(d: Definition, dls: seq<Delivery>, id: string, payload: Payload, w: World)
    requires ValidDefinition(d) && FreshIds(d, EMPTY, dls)
    requires var s := Run(d, EMPTY, dls); id in s.rows && s.rows[id].errors == [] && s.rows[id].completed
    ensures var s, n := Run(d, EMPTY, dls), |d.steps|;
      && |History(s, id)| >= n
      && (Executed(n - 1, payload, w.execute(n - 1, payload)) in OnRow(d, id, s.rows[id], payload, w).effects <==>
          forall j :: 0 <= j < n - 2 ==> Truthy(History(s, id)[j].result))
  {
    RunInv(d, EMPTY, dls);
    var s := Run(d, EMPTY, dls);
    assert Consistent(d, RowOf(s, id), s.log[id]);
    CompletedRowRunsAgain(d, id, s.rows[id], History(s, id), payload, w);
  }

  lemma CompletedRowRunsAgain(d: Definition, id: string, row: Row, l: seq<Exec>, payload: Payload, w: World)
    requires ValidDefinition(d) && Consistent(d, Some(row), l) && row.errors == [] && row.completed
    ensures |l| >= |d.steps|
    ensures var n := |d.steps|;
      Executed(n - 1, payload, w.execute(n - 1, payload)) in OnRow(d, id, row, payload, w).effects <==>
      forall j :: 0 <= j < n - 2 ==> Truthy(l[j].result)
  {
    GuardOnRow(d, row, l, |d.steps| - 1);
    ExecutesWithGuard(d, id, row, |d.steps| - 1, payload, w);
  }

  lemma ExecutesWithGuard(d: Definition, id: string, row: Row, i: nat, payload: Payload, w: World)
    requires i < |d.steps| && row.serviceId == d.serviceId
    ensures Executed(i, payload, w.execute(i, payload)) in Execute(d, id, row, i, payload, w).effects <==>
            ExpectedOrder(d.steps, i, row.results)
  {
    if ExpectedOrder(d.steps, i, row.results) {
      assert Execute(d, id, row, i, payload, w).effects[0] == Executed(i, payload, w.execute(i, payload));
    }
  }

  lemma {:induction false} ResultKeys(d: Definition, l: seq<Exec>, k: string)
    requires ValidDefinition(d) && InOrder(d, l)
    requires forall e :: e in l ==> e.step < |d.steps|
    requires k in Results(d, l)
    ensures exists j :: 0 <= j < |l| && j < |d.steps| && d.steps[j].name == k
  {
    var before, e := l[..|l| - 1], l[|l| - 1];
    if k == d.steps[e.step].name {
      assert e.step < |l|;
    } else {
      ResultKeys(d, before, k);
    }
  }

  /** What is stored for a step that returned v. */
  ghost predicate Holds(results: map<string, Json>, name: string, v: Json) {
    if v.Undefined? then name !in results else name in results && results[name] == v
  }

  /** The stored results are those of the steps before step i (all steps once completed, the last with what it
      returned last) that did not return undefined. */
  ghost predicate ResultsFit(d: Definition, row: Row, l: seq<Exec>, i: nat)
    requires d.steps != [] && i < |d.steps|
  {
    && i <= |l|
    && (forall k :: k in row.results ==>
          exists j :: 0 <= j < (if row.completed then |d.steps| else i) && d.steps[j].name == k)
    && (forall j :: 0 <= j < i ==> Holds(row.results, d.steps[j].name, l[j].result))
    && (row.completed ==>
          && i == |d.steps| - 1 && |l| >= |d.steps|
          && Holds(row.results, d.steps[i].name, l[|l| - 1].result))
  }

  lemma ResultsOfRow(d: Definition, row: Row, l: seq<Exec>, i: nat)
    requires ValidDefinition(d) && Consistent(d, Some(row), l) && row.errors == []
    requires IndexOf(d.steps, row.current) == Some(i)
    ensures ResultsFit(d, row, l, i)
  {
    forall k | k in row.results
      ensures exists j :: 0 <= j < (if row.completed then |d.steps| else i) && d.steps[j].name == k
    {
      ResultKeys(d, l, k);
    }
    forall j | 0 <= j < i ensures Holds(row.results, d.steps[j].name, l[j].result) {
      ResultOf(d, l, j);
    }
    if row.completed {
      assert l[|l| - 1].step == i;
    }
  }

  /** In a reachable row without errors, the stored results are those of the steps its pointer has passed. */
  lemma ResultsArePrefix(d: Definition, dls: seq<Delivery>, id: string)
    requires ValidDefinition(d) && FreshIds(d, EMPTY, dls)
    requires var s := Run(d, EMPTY, dls); id in s.rows && s.rows[id].errors == []
    ensures var s := Run(d, EMPTY, dls);
      var i := IndexOf(d.steps, s.rows[id].current);
      i.Some? && ResultsFit(d, s.rows[id], History(s, id), i.value)
  {
    RunInv(d, EMPTY, dls);
    var s := Run(d, EMPTY, dls);
    assert Consistent(d, RowOf(s, id), s.log[id]);
    ResultsOfRow(d, s.rows[id], History(s, id), IndexOf(d.steps, s.rows[id].current).value);
  }

  lemma FailedRowOnlyRollsBack(d: Definition, id: string, row: Row, payload: Payload, w: World)
    requires row.errors != []
    ensures forall e :: e in OnRow(d, id, row, payload, w).effects ==> e.RolledBack?
  {
  }

  /** Once a committed row holds an error, no delivery changes its errors, deletes it or executes a step for it. */
  lemma {:induction false} FailureIsPermanent(d: Definition, s: State, dls: seq<Delivery>, id: string)
    requires ValidDefinition(d) && Inv(d, s) && FreshIds(d, s, dls)
    requires id in s.rows && s.rows[id].errors != []
    ensures var s' := Run(d, s, dls);
      && id in s'.rows && s'.rows[id].errors == s.rows[id].errors && History(s', id) == History(s, id)
      && forall payload, w, e :: e in OnRow(d, id, s'.rows[id], payload, w).effects ==> e.RolledBack?
    decreases |dls|
  {
    if dls == [] {
      forall payload, w, e | e in OnRow(d, id, s.rows[id], payload, w).effects ensures e.RolledBack? {
        FailedRowOnlyRollsBack(d, id, s.rows[id], payload, w);
      }
    } else {
      NextInv(d, s, dls[0]);
      NextKeepsErrors(d, s, dls[0], id);
      FailureIsPermanent(d, Next(d, s, dls[0]), dls[1..], id);
    }
  }
}
