/** The dispatcher behind composePublish and composeConsume (packages/steveo/src/middleware.ts). */
module Middleware {
  import opened Wrappers

  const CALLED_TWICE := "next() called multiple times"

  /** Calls that got past the guard, and the functions that were started. */
  datatype Progress = Progress(index: int, passed: seq<nat>, started: seq<nat>)

  const FRESH := Progress(-1, [], [])

  /** A middleware that defines the method and calls next exactly once, then settles as it likes. */
  datatype Layer = Layer(settle: Outcome<string> -> Outcome<string>)

  datatype Event = Enter(i: nat) | Exit(i: nat, o: Outcome<string>)

  /** Whether dispatch(i) finds a function: a middleware that defines the method, or after them the handler. */
  predicate HasFn(defines: seq<bool>, i: nat) {
    if i < |defines| then defines[i] else i == |defines|
  }

  function Defines(layers: seq<Option<Layer>>): seq<bool> {
    seq(|layers|, i requires 0 <= i < |layers| => layers[i].Some?)
  }

  class Dispatcher {
    /** None where a middleware does not define the method. */
    const layers: seq<Option<Layer>>
    const handler: Outcome<string>
    var index: int
    var passed: seq<nat>
    var started: seq<nat>
    var trace: seq<Event>

    ghost function State(): Progress
      reads this
    {
      Progress(index, passed, started)
    }

    constructor (layers: seq<Option<Layer>>, handler: Outcome<string>)
      ensures State() == FRESH && trace == [] && this.layers == layers && this.handler == handler
    {
      this.layers, this.handler := layers, handler;
      index, passed, started, trace := -1, [], [], [];
    }

    /** The guard of dispatch, and the function it goes on to call. */
    method Guard(i: nat) returns (o: Outcome<string>)
      modifies this`index, this`passed, this`started
      ensures State() == After(Defines(layers), old(State()), i)
      ensures i <= old(index) ==> o == Fail("next() called multiple times") && State() == old(State())
      ensures i > old(index) ==>
                && o == Pass && index == i && passed == old(passed) + [i]
                && started == if i == |layers| || (i < |layers| && layers[i].Some?) then old(started) + [i]
                              else old(started)
    {
      if i <= index {
        return Fail(CALLED_TWICE);
      }
      index := i;
      passed := passed + [i];
      if HasFn(Defines(layers), i) {
        started := started + [i];
      }
      return Pass;
    }

    /** dispatch run to completion, when every function calls next exactly once. */
    method Dispatch(i: nat) returns (o: Outcome<string>)
      requires i <= |layers|
      modifies this
      ensures i <= old(index) ==> o == Fail(CALLED_TWICE) && State() == old(State()) && trace == old(trace)
      ensures i > old(index) ==>
                o == Nested(layers, handler, i).0 && trace == old(trace) + Nested(layers, handler, i).1
      decreases |layers| - i
    {
      o := Guard(i);
      if o.Fail? {
        return;
      }
      if !HasFn(Defines(layers), i) {
        assert trace == trace + [];
        return Pass;
      }
      trace := trace + [Enter(i)];
      if i == |layers| {
        o := handler;
      } else {
        var inner := Dispatch(i + 1);
        o := layers[i].value.settle(inner);
      }
      trace := trace + [Exit(i, o)];
      assert trace == old(trace) + Nested(layers, handler, i).1;
    }
  }

  /** Plain right-nested composition ending in the handler, without any index: its outcome and trace. A
      middleware that does not define the method resolves at once and goes no further. */
  function Nested(layers: seq<Option<Layer>>, handler: Outcome<string>, i: nat): (Outcome<string>, seq<Event>)
    requires i <= |layers|
    decreases |layers| - i
  {
    if i == |layers| then (handler, [Enter(i), Exit(i, handler)])
    else match layers[i]
      case None => (Pass, [])
      case Some(layer) =>
        var (inner, trace) := Nested(layers, handler, i + 1);
        (layer.settle(inner), [Enter(i)] + trace + [Exit(i, layer.settle(inner))])
  }

  function After(defines: seq<bool>, p: Progress, i: nat): Progress {
    if i <= p.index then p
    else Progress(i, p.passed + [i], if HasFn(defines, i) then p.started + [i] else p.started)
  }

  function AfterAll(defines: seq<bool>, calls: seq<nat>): Progress {
    if calls == [] then FRESH else After(defines, AfterAll(defines, calls[..|calls| - 1]), calls[|calls| - 1])
  }

  /** Any behaviour: dispatch(0) comes first, and dispatch(i + 1) is only ever called by a holder of
      function i's next, at any time and any number of times once i has started. */
  ghost predicate Adversarial(defines: seq<bool>, calls: seq<nat>) {
    calls != [] ==>
      var before, i := calls[..|calls| - 1], calls[|calls| - 1];
      && Adversarial(defines, before)
      && if before == [] then i == 0 else i > 0 && i - 1 in AfterAll(defines, before).started
  }

  /** The calls that passed are 0, 1, ..., m; what started are their functions, each once and in order; and nothing
      has passed beyond a middleware that does not define the method. */
  ghost predicate InSequence(defines: seq<bool>, p: Progress) {
    && p.index == |p.passed| - 1 && |p.passed| <= |defines| + 2
    && (forall k :: 0 <= k < |p.passed| ==> p.passed[k] == k)
    && (forall i: nat :: i in p.started <==> i < |p.passed| && HasFn(defines, i))
    && (forall j, k :: 0 <= j < k < |p.started| ==> p.started[j] < p.started[k])
    && (forall i :: 0 <= i < |defines| && !defines[i] ==> |p.passed| <= i + 1)
  }

  lemma StaysInSequence(defines: seq<bool>, p: Progress, i: nat)
    requires InSequence(defines, p)
    requires i == 0 || i - 1 in p.started
    ensures InSequence(defines, After(defines, p, i))
  {
    var p' := After(defines, p, i);
    if i > p.index {
      assert i == |p.passed|;
      assert forall k: nat :: k in p'.started <==> k in p.started || (k == i && HasFn(defines, i));
      forall j | 0 <= j < |p.started| ensures p.started[j] < i {
        assert p.started[j] in p.started;
      }
    }
  }

  lemma {:induction false} NextAtMostOnce(defines: seq<bool>, calls: seq<nat>)
    requires Adversarial(defines, calls)
    ensures InSequence(defines, AfterAll(defines, calls))
  {
    if calls == [] {
    } else {
      NextAtMostOnce(defines, calls[..|calls| - 1]);
      StaysInSequence(defines, AfterAll(defines, calls[..|calls| - 1]), calls[|calls| - 1]);
    }
  }

  /** In the nested composition every middleware wraps all later ones, and the handler runs exactly when all of
      them define the method. */
  lemma {:induction false} NestedReaches(layers: seq<Option<Layer>>, handler: Outcome<string>, i: nat)
    requires i <= |layers|
    ensures var trace := Nested(layers, handler, i).1;
      && (Enter(|layers|) in trace <==> forall j :: i <= j < |layers| ==> layers[j].Some?)
      && (trace != [] ==> trace[0] == Enter(i) && trace[|trace| - 1] == Exit(i, Nested(layers, handler, i).0))
    decreases |layers| - i
  {
    if i == |layers| {
    } else {
      NestedReaches(layers, handler, i + 1);
    }
  }

  lemma {:induction false} IndexIsHighest(defines: seq<bool>, calls: seq<nat>)
    ensures var p := AfterAll(defines, calls);
      (forall c :: c in calls ==> c <= p.index) && (p.index == -1 || p.index in calls)
  {
    if calls == [] {
    } else {
      var before, i := calls[..|calls| - 1], calls[|calls| - 1];
      assert calls == before + [i];
      IndexIsHighest(defines, before);
    }
  }

  /** Whatever the calls, one passes the guard exactly when it goes further than every call before it, and it then
      starts its function if there is one. */
  lemma PassesExactly(defines: seq<bool>, calls: seq<nat>, i: nat)
    ensures var before, after := AfterAll(defines, calls), AfterAll(defines, calls + [i]);
      && AfterAll(defines, []).passed == [] && AfterAll(defines, []).started == []
      && (if forall c :: c in calls ==> c < i then
            && after.passed == before.passed + [i]
            && after.started == before.started + (if i == |defines| || (i < |defines| && defines[i]) then [i] else [])
          else after == before)
  {
    assert (calls + [i])[..|calls|] == calls;
    IndexIsHighest(defines, calls);
  }

  /** The outcomes of a nested composition from the inside out, of the functions i to m - 1 and what they wrap: each
      layer settles the outcome of the one inside it, the innermost that of the handler, or of nothing where a
      middleware does not define the method. */
  ghost predicate Settles(layers: seq<Option<Layer>>, handler: Outcome<string>, i: nat, m: nat,
                          outs: seq<Outcome<string>>)
  {
    && i <= m <= |layers| && |outs| == m - i + 1
    && (forall k :: i <= k < m ==> layers[k].Some? && outs[k - i] == layers[k].value.settle(outs[k - i + 1]))
    && (if m == |layers| then outs[m - i] == handler else layers[m].None? && outs[m - i] == Pass)
  }

  /** The functions entered are exited in reverse, each with its outcome. */
  ghost predicate Wraps(trace: seq<Event>, i: nat, n: nat, outs: seq<Outcome<string>>) {
    && |trace| == 2 * n && n <= |outs|
    && forall k :: 0 <= k < n ==> trace[k] == Enter(i + k) && trace[2 * n - 1 - k] == Exit(i + k, outs[k])
  }

  lemma WrapsMore(trace: seq<Event>, i: nat, n: nat, outs: seq<Outcome<string>>, o: Outcome<string>)
    requires Wraps(trace, i + 1, n, outs)
    ensures Wraps([Enter(i)] + trace + [Exit(i, o)], i, n + 1, [o] + outs)
  {
    var trace', outs' := [Enter(i)] + trace + [Exit(i, o)], [o] + outs;
    forall k | 0 <= k < n + 1
      ensures trace'[k] == Enter(i + k) && trace'[2 * (n + 1) - 1 - k] == Exit(i + k, outs'[k])
    {
      if k > 0 {
        assert trace[k - 1] == Enter(i + 1 + (k - 1));
        assert trace[2 * n - 1 - (k - 1)] == Exit(i + 1 + (k - 1), outs[k - 1]);
      }
    }
  }

  lemma {:induction false} NestedExactly(layers: seq<Option<Layer>>, handler: Outcome<string>, i: nat)
    returns (m: nat, outs: seq<Outcome<string>>)
    requires i <= |layers|
    ensures Settles(layers, handler, i, m, outs)
    ensures Nested(layers, handler, i).0 == outs[0]
    ensures Wraps(Nested(layers, handler, i).1, i, if m == |layers| then m - i + 1 else m - i, outs)
    decreases |layers| - i
  {
    if i == |layers| || layers[i].None? {
      m := i;
      outs := [if i == |layers| then handler else Pass];
    } else {
      var inner;
      m, inner := NestedExactly(layers, handler, i + 1);
      var o := layers[i].value.settle(inner[0]);
      outs := [o] + inner;
      WrapsMore(Nested(layers, handler, i + 1).1, i, if m == |layers| then m - i else m - i - 1, inner, o);
    }
  }
}
