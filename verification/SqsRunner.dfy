/** When the SQS runner deletes a message, over a queue that redelivers (packages/steveo/src/consumers/sqs.ts). */
module SqsRunner {
  import opened Wrappers

  /** A message body: not JSON, the JSON text `null`, or any other value. */
  datatype Body = Malformed | Null | Value

  /** What happens around one message: its body; whether the middlewares call next, and how they settle given how
      that settles (or Pass if they do not call it); termination, the pool, its task and options, its receipt
      handle, what the delete call does (whether it takes effect and whether it reports success), and how the
      handler ends. */
  datatype Env = Env(body: Body, enters: bool, settle: Outcome<string> -> Outcome<string>, shouldTerminate: bool,
                     acquire: Outcome<string>, hasTask: bool, taskWaits: bool, configWaits: bool,
                     hasReceipt: bool, deleteApplies: bool, deleteReply: Outcome<string>, handler: Outcome<string>)

  const NOT_JSON := "Unexpected token in JSON"

  const NULL_PAYLOAD := "Cannot destructure null"

  datatype Action = Acquire | Delete(applied: bool, reply: Outcome<string>) | Start | End(o: Outcome<string>) | Release

  predicate WaitToCommit(env: Env) {
    (env.hasTask && env.taskWaits) || env.configWaits
  }

  /** deleteMessage: nothing without a receipt handle. */
  function Deletes(env: Env): seq<Action> {
    if env.hasReceipt then [Delete(env.deleteApplies, env.deleteReply)] else []
  }

  predicate DeleteThrows(env: Env) {
    env.hasReceipt && env.deleteReply.Fail?
  }

  /** What is done with a message inside the try block, while a pool resource is held. */
  function Handled(env: Env): seq<Action> {
    var before := if WaitToCommit(env) then [] else Deletes(env);
    if !env.hasTask || (!WaitToCommit(env) && DeleteThrows(env)) then before
    else
      before + [Start, End(env.handler)]
      + if WaitToCommit(env) && env.handler.Pass? then Deletes(env) else []
  }

  /** Whether the message gets a pool resource. */
  predicate Acquires(env: Env) {
    !env.body.Malformed? && env.enters && !env.shouldTerminate && env.acquire.Pass?
  }

  /** A null payload throws between the acquire and the try block whose finally releases. */
  predicate Leaks(env: Env) {
    Acquires(env) && env.body.Null?
  }

  /** Everything done with one message, in order. */
  function Actions(env: Env): seq<Action> {
    if !Acquires(env) then []
    else if env.body.Null? then [Acquire]
    else [Acquire] + Handled(env) + [Release]
  }

  /** How processMessage settles: what throws inside its try block is only logged. */
  function Processed(env: Env): Outcome<string> {
    if env.shouldTerminate then Pass
    else if env.acquire.Fail? then env.acquire
    else if env.body.Null? then Fail(NULL_PAYLOAD)
    else Pass
  }

  /** Whether a message makes its batch reject: its body does not parse, or the middlewares around processMessage
      end in a throw, their own or one they pass on. */
  predicate Rejects(env: Env) {
    env.body.Malformed? || env.settle(if env.enters then Processed(env) else Pass).Fail?
  }

  /** Everything done with the first n messages of a batch. */
  function AllActions(envs: seq<Env>, n: nat): seq<Action>
    requires n <= |envs|
  {
    if n == 0 then [] else AllActions(envs, n - 1) + Actions(envs[n - 1])
  }

  /** The messages started from the i-th on, when one is handled at a time and they are taken in the order of
      `queue`: a rejection keeps those after it from starting. */
  function Started(queue: seq<Env>, i: nat): seq<Env>
    requires i <= |queue|
    decreases |queue| - i
  {
    if i == |queue| then [] else [queue[i]] + if Rejects(queue[i]) then [] else Started(queue, i + 1)
  }

  /** The resources left held by those messages. */
  function Leaked(queue: seq<Env>, i: nat): nat
    requires i <= |queue|
    decreases |queue| - i
  {
    if i == |queue| then 0
    else (if Leaks(queue[i]) then 1 else 0) + if Rejects(queue[i]) then 0 else Leaked(queue, i + 1)
  }

  /** A batch stops at its end or right after a message that rejects. */
  lemma {:induction false} StartedStops(queue: seq<Env>, i: nat)
    requires i <= |queue|
    ensures var n := i + |Started(queue, i)|;
      n <= |queue| && (n < |queue| ==> n > i && Rejects(queue[n - 1]))
    decreases |queue| - i
  {
    if i == |queue| || Rejects(queue[i]) {
    } else {
      StartedStops(queue, i + 1);
    }
  }

  /** Messages are started in the order given, one after another only if that one does not reject. */
  lemma {:induction false} StartedAt(queue: seq<Env>, i: nat, k: nat)
    requires i <= |queue| && k < |Started(queue, i)|
    ensures i + k < |queue| && Started(queue, i)[k] == queue[i + k]
    ensures k + 1 < |Started(queue, i)| ==> !Rejects(queue[i + k])
    decreases k
  {
    if k == 0 {
    } else {
      StartedAt(queue, i + 1, k - 1);
    }
  }

  class Runner {
    /** What has been done with the message in hand, and the messages before it. */
    var current: seq<Action>
    var done: seq<Env>
    /** Pool resources held. */
    var held: int

    constructor ()
      ensures done == [] && current == [] && held == 0
    {
      current, done, held := [], [], 0;
    }

    method DeleteMessage(env: Env) returns (o: Outcome<string>)
      modifies this`current
      ensures current == old(current) + Deletes(env)
      ensures o.Fail? <==> DeleteThrows(env)
    {
      if !env.hasReceipt {
        return Pass;
      }
      current := current + [Delete(env.deleteApplies, env.deleteReply)];
      return env.deleteReply;
    }

    /** The try block of processMessage; a throw is only logged. */
    method Handle(env: Env)
      modifies this`current
      ensures current == old(current) + Handled(env)
    {
      if !WaitToCommit(env) {
        var o := DeleteMessage(env);
        if o.Fail? {
          return;
        }
      }
      if !env.hasTask {
        return;
      }
      current := current + [Start, End(env.handler)];
      if env.handler.Fail? {
        return;
      }
      if WaitToCommit(env) {
        var _ := DeleteMessage(env);
      }
    }

    method ProcessMessage(env: Env) returns (o: Outcome<string>)
      requires !env.body.Malformed? && env.enters && current == []
      modifies this`current, this`held
      ensures o == Processed(env) && current == Actions(env)
      ensures held == old(held) + if Leaks(env) then 1 else 0
    {
      if env.shouldTerminate {
        return Pass;
      }
      if env.acquire.Fail? {
        return env.acquire;
      }
      current, held := [Acquire], held + 1;
      if env.body.Null? {
        return Fail(NULL_PAYLOAD);
      }
      Handle(env);
      current, held := current + [Release], held - 1;
      return Pass;
    }

    /** One message: parsed, and passed through the middlewares to processMessage. */
    method ReceiveOne(env: Env) returns (o: Outcome<string>)
      modifies this
      ensures o.Fail? <==> Rejects(env)
      ensures current == Actions(env) && done == old(done) + [env]
      ensures held == old(held) + if Leaks(env) then 1 else 0
    {
      current := [];
      if env.body.Malformed? {
        o := Fail(NOT_JSON);
      } else {
        o := Pass;
        if env.enters {
          o := ProcessMessage(env);
        }
        o := env.settle(o);
      }
      done := done + [env];
    }

    /** A batch with one message handled at a time; `queue` is the batch in the order its messages are started,
        which may be any. */
    method Receive(queue: seq<Env>)
      modifies this
      ensures done == old(done) + Started(queue, 0) && held == old(held) + Leaked(queue, 0)
    {
      var i := 0;
      while i < |queue|
        invariant i <= |queue|
        invariant done + Started(queue, i) == old(done) + Started(queue, 0)
        invariant held + Leaked(queue, i) == old(held) + Leaked(queue, 0)
      {
        OneMore(done, held, queue, i);
        var o := ReceiveOne(queue[i]);
        if o.Fail? {
          return;
        }
        i := i + 1;
      }
    }
  }

  /** What the i-th message adds to those done and to the resources held. */
  lemma OneMore(done: seq<Env>, held: int, queue: seq<Env>, i: nat)
    requires i < |queue|
    ensures var env := queue[i];
      var held' := held + if Leaks(env) then 1 else 0;
      if Rejects(env) then done + Started(queue, i) == done + [env] && held + Leaked(queue, i) == held'
      else
        && done + Started(queue, i) == done + [env] + Started(queue, i + 1)
        && held + Leaked(queue, i) == held' + Leaked(queue, i + 1)
  {
  }

  lemma HandledHoldsPool(env: Env)
    ensures Acquire !in Handled(env) && Release !in Handled(env)
  {
  }

  function Change(a: Action): int {
    match a
    case Acquire => 1
    case Release => -1
    case _ => 0
  }

  /** Pool resources acquired and not released. */
  function Held(log: seq<Action>): int {
    if log == [] then 0 else Held(log[..|log| - 1]) + Change(log[|log| - 1])
  }

  lemma {:induction false} HeldAppend(a: seq<Action>, b: seq<Action>)
    ensures Held(a + b) == Held(a) + Held(b)
  {
    if b == [] {
      assert a + b == a;
    } else {
      assert (a + b)[..|a + b| - 1] == a + b[..|b| - 1];
      HeldAppend(a, b[..|b| - 1]);
    }
  }

  lemma {:induction false} NothingHeld(log: seq<Action>)
    requires Acquire !in log && Release !in log
    ensures Held(log) == 0
  {
    if log == [] {
    } else {
      assert log[|log| - 1] in log;
      NothingHeld(log[..|log| - 1]);
    }
  }

  lemma HeldBetween(log: seq<Action>)
    requires Acquire !in log && Release !in log
    ensures Held([Acquire] + log + [Release]) == 0
  {
    NothingHeld(log);
    HeldAppend([Acquire], log);
    HeldAppend([Acquire] + log, [Release]);
    assert [Acquire][..0] == [] && [Release][..0] == [];
  }

  /** One message leaves a resource held if it is a null payload, and else none. */
  lemma ActionsHold(env: Env)
    ensures Held(Actions(env)) == if Leaks(env) then 1 else 0
  {
    if Leaks(env) {
      assert [Acquire][..0] == [];
    } else if Acquires(env) {
      HandledHoldsPool(env);
      HeldBetween(Handled(env));
    }
  }

  lemma MoreHeld(before: seq<Action>, env: Env, after: seq<Action>)
    requires after == before + Actions(env)
    ensures Held(after) == Held(before) + if Leaks(env) then 1 else 0
  {
    ActionsHold(env);
    HeldAppend(before, Actions(env));
  }

  /** The null payloads among the first n messages that get a resource. */
  function LeakCount(envs: seq<Env>, n: nat): nat
    requires n <= |envs|
  {
    if n == 0 then 0 else LeakCount(envs, n - 1) + if Leaks(envs[n - 1]) then 1 else 0
  }

  lemma {:induction false} LeakCountZero(envs: seq<Env>, n: nat)
    requires n <= |envs|
    ensures LeakCount(envs, n) == 0 <==> forall i :: 0 <= i < n ==> !Leaks(envs[i])
  {
    if n == 0 {
    } else {
      LeakCountZero(envs, n - 1);
    }
  }

  lemma {:induction false} BatchHolds(envs: seq<Env>, n: nat)
    requires n <= |envs|
    ensures Held(AllActions(envs, n)) == LeakCount(envs, n)
  {
    if n == 0 {
    } else {
      BatchHolds(envs, n - 1);
      MoreHeld(AllActions(envs, n - 1), envs[n - 1], AllActions(envs, n));
    }
  }

  lemma {:induction false} HeldCounts(log: seq<Action>)
    ensures Held(log) + multiset(log)[Release] == multiset(log)[Acquire]
  {
    if log == [] {
    } else {
      var before, last := log[..|log| - 1], log[|log| - 1];
      HeldCounts(before);
      assert log == before + [last];
    }
  }

  /** However the messages of a batch interleave and whatever fails, one resource stays held for each null payload
      that gets one; acquires and releases balance exactly when there is none. */
  lemma PoolBalancesExactly(envs: seq<Env>, log: seq<Action>)
    requires multiset(log) == multiset(AllActions(envs, |envs|))
    ensures multiset(log)[Acquire] == multiset(log)[Release] + LeakCount(envs, |envs|)
    ensures Held(log) == 0 <==> forall i :: 0 <= i < |envs| ==> !Leaks(envs[i])
  {
    BatchHolds(envs, |envs|);
    LeakCountZero(envs, |envs|);
    HeldCounts(AllActions(envs, |envs|));
    HeldCounts(log);
  }

  /** For instance, a batch of one message whose body is `null`, with no middleware and a free resource: it rejects
      and keeps the resource, whatever its task and options. */
  lemma NullPayloadLeaks(env: Env)
    requires env.body.Null? && env.enters && (forall o :: env.settle(o) == o)
    requires !env.shouldTerminate && env.acquire.Pass?
    ensures Rejects(env) && Actions(env) == [Acquire] && Leaked([env], 0) == 1
  {
  }

  type MessageId = nat

  type DeliveryId = nat

  /** A queue and the deliveries under way, each with the rest of its actions; `handled` lists, in order, the
      handler runs that started and `succeeded` those that ended well. */
  datatype Queue = Queue(deleted: set<MessageId>, active: map<DeliveryId, (MessageId, seq<Action>)>,
                         handled: seq<MessageId>, succeeded: set<MessageId>)

  datatype Event = Deliver(d: DeliveryId, m: MessageId, env: Env) | Step(d: DeliveryId) | Die(d: DeliveryId)

  predicate Enabled(q: Queue, e: Event) {
    match e
    case Deliver(d, m, _) => d !in q.active && m !in q.deleted
    case Step(d) => d in q.active && q.active[d].1 != []
    case Die(d) => d in q.active
  }

  function Next(q: Queue, e: Event): Queue
    requires Enabled(q, e)
  {
    match e
    case Deliver(d, m, env) => q.(active := q.active[d := (m, Actions(env))])
    case Die(d) => q.(active := q.active - {d})
    case Step(d) =>
      var (m, todo) := q.active[d];
      var rest := if |todo| == 1 then q.(active := q.active - {d}) else q.(active := q.active[d := (m, todo[1..])]);
      match todo[0]
      case Delete(applied, _) => if applied then rest.(deleted := q.deleted + {m}) else rest
      case Start => rest.(handled := q.handled + [m])
      case End(o) => if o.Pass? then rest.(succeeded := q.succeeded + {m}) else rest
      case _ => rest
  }

  ghost predicate Possible(q: Queue, es: seq<Event>)
    decreases |es|
  {
    es != [] ==> Enabled(q, es[0]) && Possible(Next(q, es[0]), es[1..])
  }

  ghost function Run(q: Queue, es: seq<Event>): Queue
    requires Possible(q, es)
    decreases |es|
  {
    if es == [] then q else Run(Next(q, es[0]), es[1..])
  }

  const EMPTY := Queue({}, map[], [], {})

  /** Every delete is preceded by a handler that ended well. */
  ghost predicate DeletesLast(todo: seq<Action>) {
    forall i :: 0 <= i < |todo| && todo[i].Delete? ==> exists j :: 0 <= j < i && todo[j] == End(Pass)
  }

  ghost predicate WaitInv(q: Queue) {
    && q.deleted <= q.succeeded
    && forall d :: d in q.active ==> q.active[d].0 in q.succeeded || DeletesLast(q.active[d].1)
  }

  lemma WaitingDeletesLast(env: Env)
    requires WaitToCommit(env)
    ensures DeletesLast(Actions(env))
  {
    var todo := Actions(env);
    forall i | 0 <= i < |todo| && todo[i].Delete? ensures exists j :: 0 <= j < i && todo[j] == End(Pass) {
      assert env.handler.Pass? && todo[2] == End(Pass) && 2 < i;
    }
  }

  lemma {:induction false} WaitRun(q: Queue, es: seq<Event>)
    requires WaitInv(q) && Possible(q, es)
    requires forall e :: e in es && e.Deliver? ==> WaitToCommit(e.env)
    ensures WaitInv(Run(q, es))
    decreases |es|
  {
    if es == [] {
    } else {
      assert es[0] in es;
      if es[0].Deliver? { WaitingDeletesLast(es[0].env); }
      WaitStep(q, es[0]);
      WaitRun(Next(q, es[0]), es[1..]);
    }
  }

  lemma WaitStep(q: Queue, e: Event)
    requires WaitInv(q) && Enabled(q, e)
    requires e.Deliver? ==> DeletesLast(Actions(e.env))
    ensures WaitInv(Next(q, e))
  {
    if e.Step? {
      var (m, todo) := q.active[e.d];
      if m !in Next(q, e).succeeded {
        forall i | 0 <= i < |todo[1..]| && todo[1..][i].Delete?
          ensures exists j :: 0 <= j < i && todo[1..][j] == End(Pass)
        {
          assert todo[i + 1].Delete?;
          var j :| 0 <= j < i + 1 && todo[j] == End(Pass);
          assert todo[1..][j - 1] == End(Pass);
        }
      }
    }
  }

  /** With waitToCommit, whatever is redelivered, a deleted message has been handled well at least once. */
  lemma DeletedWasHandled(es: seq<Event>, m: MessageId)
    requires Possible(EMPTY, es)
    requires forall e :: e in es && e.Deliver? ==> WaitToCommit(e.env)
    ensures m in Run(EMPTY, es).deleted ==> m in Run(EMPTY, es).succeeded
  {
    WaitRun(EMPTY, es);
  }

  /** Deletes first: nothing is delivered again while under way, and every message has a receipt handle. */
  ghost predicate DeletesFirst(q: Queue, e: Event) {
    e.Deliver? ==>
      !WaitToCommit(e.env) && e.env.hasReceipt && (e.env.deleteReply.Pass? ==> e.env.deleteApplies)
      && forall d :: d in q.active ==> q.active[d].0 != e.m
  }

  ghost predicate FirstRun(q: Queue, es: seq<Event>)
    decreases |es|
  {
    es != [] ==> Enabled(q, es[0]) && DeletesFirst(q, es[0]) && FirstRun(Next(q, es[0]), es[1..])
  }

  /** A delivery's handler still to start is behind a delete that takes effect, unless that is already done. */
  ghost predicate StartsLast(todo: seq<Action>, deleted: bool) {
    && (forall i, j :: 0 <= i < j < |todo| ==> !(todo[i].Start? && todo[j].Start?))
    && (deleted || forall i :: 0 <= i < |todo| && todo[i].Start? ==>
          exists j :: 0 <= j < i && todo[j].Delete? && todo[j].applied)
  }

  ghost predicate FirstInv(q: Queue) {
    && (forall m :: m in q.handled ==> m in q.deleted)
    && (forall i, j :: 0 <= i < j < |q.handled| ==> q.handled[i] != q.handled[j])
    && (forall d, e :: d in q.active && e in q.active && q.active[d].0 == q.active[e].0 ==> d == e)
    && (forall d :: d in q.active ==>
          && StartsLast(q.active[d].1, q.active[d].0 in q.deleted)
          && (q.active[d].0 in q.handled ==> forall a :: a in q.active[d].1 ==> !a.Start?))
  }

  lemma FirstStartsLast(env: Env)
    requires !WaitToCommit(env) && env.hasReceipt && (env.deleteReply.Pass? ==> env.deleteApplies)
    ensures StartsLast(Actions(env), false)
  {
    var todo := Actions(env);
    if |todo| > 1 && !DeleteThrows(env) {
      assert todo[1] == Delete(true, env.deleteReply);
      forall i | 0 <= i < |todo| && todo[i].Start?
        ensures exists j :: 0 <= j < i && todo[j].Delete? && todo[j].applied
      {
        assert 1 < i;
      }
    }
  }

  lemma RestStartsLast(todo: seq<Action>, before: bool, after: bool)
    requires todo != [] && StartsLast(todo, before)
    requires before ==> after
    requires todo[0].Delete? && todo[0].applied ==> after
    ensures StartsLast(todo[1..], after)
    ensures todo[0].Start? ==> before && forall a :: a in todo[1..] ==> !a.Start?
  {
    var rest := todo[1..];
    if !after {
      forall i | 0 <= i < |rest| && rest[i].Start?
        ensures exists j :: 0 <= j < i && rest[j].Delete? && rest[j].applied
      {
        assert todo[i + 1].Start?;
        var j :| 0 <= j < i + 1 && todo[j].Delete? && todo[j].applied;
        assert rest[j - 1].Delete?;
      }
    }
  }

  lemma FirstDeliver(q: Queue, e: Event)
    requires FirstInv(q) && e.Deliver? && Enabled(q, e) && DeletesFirst(q, e)
    ensures FirstInv(Next(q, e))
  {
    FirstStartsLast(e.env);
  }

  /** What a step starts has not been started before, and has been deleted. */
  lemma FirstHandled(q: Queue, e: Event)
    requires FirstInv(q) && e.Step? && Enabled(q, e)
    ensures var handled := Next(q, e).handled;
      && (forall m :: m in handled ==> m in Next(q, e).deleted)
      && forall i, j :: 0 <= i < j < |handled| ==> handled[i] != handled[j]
  {
    var (m, todo) := q.active[e.d];
    RestStartsLast(todo, m in q.deleted, m in Next(q, e).deleted);
    assert todo[0] in todo;
  }

  /** Each delivery under way stays behind its delete. */
  lemma FirstActive(q: Queue, e: Event, x: DeliveryId)
    requires FirstInv(q) && e.Step? && Enabled(q, e) && x in Next(q, e).active
    ensures var q' := Next(q, e);
      && x in q.active && q'.active[x].0 == q.active[x].0
      && StartsLast(q'.active[x].1, q'.active[x].0 in q'.deleted)
      && (q'.active[x].0 in q'.handled ==> forall a :: a in q'.active[x].1 ==> !a.Start?)
  {
    var (m, todo) := q.active[e.d];
    RestStartsLast(todo, m in q.deleted, m in Next(q, e).deleted);
    if x != e.d { assert q.active[x].0 != m; }
  }

  lemma FirstActs(q: Queue, e: Event)
    requires FirstInv(q) && e.Step? && Enabled(q, e)
    ensures FirstInv(Next(q, e))
  {
    FirstHandled(q, e);
    forall x | x in Next(q, e).active
      ensures x in q.active && Next(q, e).active[x].0 == q.active[x].0
      ensures StartsLast(Next(q, e).active[x].1, Next(q, e).active[x].0 in Next(q, e).deleted)
      ensures Next(q, e).active[x].0 in Next(q, e).handled ==> forall a :: a in Next(q, e).active[x].1 ==> !a.Start?
    {
      FirstActive(q, e, x);
    }
  }

  lemma FirstStep(q: Queue, e: Event)
    requires FirstInv(q) && Enabled(q, e) && DeletesFirst(q, e)
    ensures FirstInv(Next(q, e))
  {
    match e
    case Deliver(_, _, _) => FirstDeliver(q, e);
    case Step(_) => FirstActs(q, e);
    case Die(_) =>
  }

  lemma {:induction false} FirstRunInv(q: Queue, es: seq<Event>)
    requires FirstInv(q) && FirstRun(q, es)
    ensures Possible(q, es) && FirstInv(Run(q, es))
    decreases |es|
  {
    if es == [] {
    } else {
      FirstStep(q, es[0]);
      FirstRunInv(Next(q, es[0]), es[1..]);
    }
  }

  /** Without waitToCommit, each handler starts at most once, and only for a message already deleted. */
  lemma HandledAtMostOnce(es: seq<Event>)
    requires FirstRun(EMPTY, es)
    ensures Possible(EMPTY, es)
    ensures var q := Run(EMPTY, es);
      && (forall m :: m in q.handled ==> m in q.deleted)
      && (forall i, j :: 0 <= i < j < |q.handled| ==> q.handled[i] != q.handled[j])
  {
    FirstRunInv(EMPTY, es);
  }
}
