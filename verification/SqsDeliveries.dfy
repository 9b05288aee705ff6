/** What each delivery of an SQS message comes to, told from its surroundings alone. */
module SqsDeliveries {
  import opened Wrappers
  import opened SqsRunner

  /** Acquire a resource; delete the message before its handler, or after it where waitToCommit is set; release. */
  lemma ActionsExactly(env: Env)
    ensures var waits := (env.hasTask && env.taskWaits) || env.configWaits;
      var delete := if env.hasReceipt then [Delete(env.deleteApplies, env.deleteReply)] else [];
      var run := if env.hasTask then [Start, End(env.handler)] else [];
      Actions(env) ==
      if env.body == Malformed || !env.enters || env.shouldTerminate || env.acquire.Fail? then []
      else if env.body == Null then [Acquire]
      else if waits then
        [Acquire] + run + (if env.hasTask && env.handler.Pass? then delete else []) + [Release]
      else if env.hasReceipt && env.deleteReply.Fail? then [Acquire] + delete + [Release]
      else [Acquire] + delete + run + [Release]
  {
  }

  /** The message of this delivery is to be handled: it gets a resource, its body is neither malformed nor null, its
      task is known, and no delete that throws comes first. */
  ghost predicate Served(env: Env) {
    && env.body == Value && env.enters && !env.shouldTerminate && env.acquire.Pass? && env.hasTask
    && (env.taskWaits || env.configWaits || !env.hasReceipt || env.deleteReply.Pass?)
  }

  ghost predicate OnlyAt(todo: seq<Action>, i: nat, a: Action) {
    i < |todo| && todo[i] == a && forall j :: 0 <= j < |todo| && j != i ==> todo[j] != a
  }

  /** Its handler is started once, and ends at once as it does; the delete, if it has a receipt handle, stands right
      before the start, or with waitToCommit right after a good end, and nowhere else. */
  lemma ServedActions(env: Env) returns (i: nat)
    requires Served(env)
    ensures OnlyAt(Actions(env), i, Start)
    ensures i + 1 < |Actions(env)| && Actions(env)[i + 1] == End(env.handler)
    ensures var deletes := Delete(env.deleteApplies, env.deleteReply);
      if !env.hasReceipt then forall a :: a in Actions(env) ==> !a.Delete?
      else if !env.taskWaits && !env.configWaits then i > 0 && OnlyAt(Actions(env), i - 1, deletes)
      else if env.handler.Pass? then OnlyAt(Actions(env), i + 2, deletes)
      else forall a :: a in Actions(env) ==> !a.Delete?
  {
    ActionsExactly(env);
    i := if env.taskWaits || env.configWaits || !env.hasReceipt then 1 else 2;
  }

  /** And no other message's handler is started. */
  lemma ServedExactly(env: Env)
    ensures Start in Actions(env) <==> Served(env)
  {
    ActionsExactly(env);
    if Served(env) {
      var i := ServedActions(env);
      assert Actions(env)[i] == Start;
    }
  }

  /** A delete that takes effect is made of the messages that get this far, with waitToCommit only if their handler
      ends well. */
  lemma DeletedExactly(env: Env)
    ensures (exists reply :: Delete(true, reply) in Actions(env)) <==>
            && env.body == Value && env.enters && !env.shouldTerminate && env.acquire.Pass?
            && env.hasReceipt && env.deleteApplies
            && ((env.hasTask && env.taskWaits) || env.configWaits ==> env.hasTask && env.handler.Pass?)
  {
    ActionsExactly(env);
    if env.hasReceipt && env.deleteApplies && Acquires(env) && env.body == Value {
      var todo, delete := Actions(env), Delete(true, env.deleteReply);
      if !WaitToCommit(env) {
        assert todo[1] == delete;
      } else if env.hasTask && env.handler.Pass? {
        assert todo[3] == delete;
      }
    }
  }

  /** What makes a message reject. */
  lemma RejectsExactly(env: Env)
    ensures var o := if !env.enters || env.shouldTerminate then Pass
                     else if env.acquire.Fail? then env.acquire
                     else if env.body == Null then Fail(NULL_PAYLOAD)
                     else Pass;
      Rejects(env) <==> env.body == Malformed || env.settle(o).Fail?
  {
  }

  /** The resources a batch leaves held are those of the null payloads among the messages it starts. */
  lemma {:induction false} LeakedExactly(queue: seq<Env>, i: nat)
    requires i <= |queue|
    ensures Leaked(queue, i) == LeakCount(Started(queue, i), |Started(queue, i)|)
    decreases |queue| - i
  {
    var rest := if i == |queue| || Rejects(queue[i]) then [] else Started(queue, i + 1);
    if i == |queue| {
    } else {
      if !Rejects(queue[i]) { LeakedExactly(queue, i + 1); }
      LeakCountCons(queue[i], rest, |rest|);
    }
  }

  lemma {:induction false} LeakCountCons(env: Env, rest: seq<Env>, n: nat)
    requires n <= |rest|
    ensures LeakCount([env] + rest, n + 1) == (if Leaks(env) then 1 else 0) + LeakCount(rest, n)
  {
    if n == 0 {
    } else {
      LeakCountCons(env, rest, n - 1);
    }
  }

  /** This action has had its effect on the queue. */
  ghost predicate Took(q: Queue, m: MessageId, a: Action) {
    match a
    case Start => m in q.handled
    case End(o) => o.Pass? ==> m in q.succeeded
    case Delete(applied, _) => applied ==> m in q.deleted
    case _ => true
  }

  lemma StepTakes(q: Queue, e: Event, m: MessageId, a: Action)
    requires Enabled(q, e)
    ensures Took(q, m, a) ==> Took(Next(q, e), m, a)
    ensures e.Step? && q.active[e.d].0 == m && q.active[e.d].1[0] == a ==> Took(Next(q, e), m, a)
  {
  }

  lemma {:induction false} StaysTaken(q: Queue, es: seq<Event>, m: MessageId, a: Action)
    requires Possible(q, es) && Took(q, m, a)
    ensures Took(Run(q, es), m, a)
    decreases |es|
  {
    if es == [] {
    } else {
      StepTakes(q, es[0], m, a);
      StaysTaken(Next(q, es[0]), es[1..], m, a);
    }
  }

  /** A delivery that has come to its end, without dying, has done all it had to do. */
  lemma {:induction false} EndedTook(q: Queue, es: seq<Event>, d: DeliveryId, a: Action)
    requires Possible(q, es) && d in q.active && Die(d) !in es && d !in Run(q, es).active
    requires a in q.active[d].1
    ensures Took(Run(q, es), q.active[d].0, a)
    decreases |es|
  {
    if es == [] {
    } else {
      var (m, todo) := q.active[d];
      var q' := Next(q, es[0]);
      if es[0] == Step(d) && todo[0] == a {
        StepTakes(q, es[0], m, a);
        StaysTaken(q', es[1..], m, a);
      } else {
        assert es[0] != Die(d);
        EndedTook(q', es[1..], d, a);
      }
    }
  }

  /** A message to be handled has been, once its delivery has come to its end; and well, if its handler ends well. */
  lemma ServedIsHandled(q: Queue, es: seq<Event>, d: DeliveryId, m: MessageId, env: Env)
    requires Enabled(q, Deliver(d, m, env)) && Served(env)
    requires var q' := Next(q, Deliver(d, m, env));
      Possible(q', es) && Die(d) !in es && d !in Run(q', es).active
    ensures var done := Run(Next(q, Deliver(d, m, env)), es);
      && m in done.handled
      && (env.handler.Pass? ==> m in done.succeeded)
      && (env.hasReceipt && env.deleteApplies && (env.taskWaits || env.configWaits ==> env.handler.Pass?) ==>
            m in done.deleted)
  {
    var q' := Next(q, Deliver(d, m, env));
    var i := ServedActions(env);
    assert Actions(env)[i] == Start;
    EndedTook(q', es, d, Start);
    EndedTook(q', es, d, End(env.handler));
    if env.hasReceipt && env.deleteApplies && (env.taskWaits || env.configWaits ==> env.handler.Pass?) {
      EndedTook(q', es, d, Delete(env.deleteApplies, env.deleteReply));
    }
  }

  /** A message without a known task, too, is deleted unless waitToCommit is set. */
  lemma UnservedIsDeleted(q: Queue, es: seq<Event>, d: DeliveryId, m: MessageId, env: Env)
    requires Enabled(q, Deliver(d, m, env)) && Acquires(env) && env.body == Value
    requires !env.configWaits && !(env.hasTask && env.taskWaits) && env.hasReceipt && env.deleteApplies
    requires var q' := Next(q, Deliver(d, m, env));
      Possible(q', es) && Die(d) !in es && d !in Run(q', es).active
    ensures m in Run(Next(q, Deliver(d, m, env)), es).deleted
  {
    DeletedExactly(env);
    var reply :| Delete(true, reply) in Actions(env);
    EndedTook(Next(q, Deliver(d, m, env)), es, d, Delete(true, reply));
  }
}
