/** The loop that runs the tasks of claimed jobs (packages/scheduler-sequelize/src/index.ts). */
module SchedulerLoop {
  import opened Wrappers
  import opened SchedulerModel

  /** A row the enqueue query returns: claimed jobs of one priority and name. */
  datatype JobSet = JobSet(name: string, items: seq<JobId>)

  datatype Call = Call(task: string, job: JobId)

  class Scheduler {
    /** The tasks by name, each with how its run for a job ends. */
    const tasks: map<string, JobId -> Outcome<string>>
    var exiting: bool
    var processing: bool
    var processingCount: nat
    var calls: seq<Call>
    var log: seq<string>

    constructor (tasks: map<string, JobId -> Outcome<string>>)
      ensures this.tasks == tasks && !exiting && !processing && processingCount == 0 && calls == [] && log == []
    {
      this.tasks := tasks;
      exiting, processing, processingCount, calls, log := false, false, 0, [], [];
    }

    /** A task that throws is logged and does not stop the ones after it. */
    method RunBatch(batch: JobSet)
      modifies this`calls, this`log
      ensures calls == old(calls) + CallsOf(tasks.Keys, batch) && old(log) <= log
    {
      if batch.name !in tasks {
        log := log + ["no action defined for the supplied task name"];
        return;
      }
      for i := 0 to |batch.items|
        invariant calls == old(calls) + CallsOf(tasks.Keys, batch)[..i] && old(log) <= log
      {
        calls := calls + [Call(batch.name, batch.items[i])];
        var o := tasks[batch.name](batch.items[i]);
        if o.Fail? {
          log := log + [o.error];
        }
      }
    }

    method PublishMessages(rows: seq<JobSet>) returns (published: bool)
      modifies this`processing, this`processingCount, this`calls, this`log
      ensures published <==> rows != []
      ensures calls == old(calls) + Calls(tasks.Keys, rows)
      ensures if published then !processing && processingCount == 0
              else processing == old(processing) && processingCount == old(processingCount)
    {
      if |rows| == 0 {
        return false;
      }
      processing, processingCount := true, |rows|;
      for i := 0 to |rows|
        invariant calls == old(calls) + Calls(tasks.Keys, rows[..i])
      {
        OneMore(old(calls), tasks.Keys, rows, i);
        RunBatch(rows[i]);
      }
      assert rows[..|rows|] == rows;
      processing, processingCount := false, 0;
      return true;
    }

    /** `fetch` is what the enqueue query would return; a terminating scheduler does not ask. */
    method QueueScheduledJobs(fetch: Result<seq<JobSet>, string>) returns (o: Outcome<string>)
      modifies this`processing, this`processingCount, this`calls, this`log
      ensures o.Fail? <==> !exiting && fetch.Failure?
      ensures calls == if exiting || fetch.Failure? then old(calls) else old(calls) + Calls(tasks.Keys, fetch.value)
    {
      if exiting {
        return Pass;
      }
      if fetch.Failure? {
        log := log + [fetch.error];
        return Fail(fetch.error);
      }
      var _ := PublishMessages(fetch.value);
      return Pass;
    }
  }

  function CallsOf(tasks: set<string>, batch: JobSet): (cs: seq<Call>)
    ensures |cs| == if batch.name in tasks then |batch.items| else 0
    ensures forall i :: 0 <= i < |cs| ==> cs[i] == Call(batch.name, batch.items[i])
  {
    if batch.name !in tasks then []
    else seq(|batch.items|, i requires 0 <= i < |batch.items| => Call(batch.name, batch.items[i]))
  }

  function Calls(tasks: set<string>, rows: seq<JobSet>): seq<Call> {
    if rows == [] then [] else Calls(tasks, rows[..|rows| - 1]) + CallsOf(tasks, rows[|rows| - 1])
  }

  /** A batch more runs after all the others, its items in their order. */
  lemma CallsInOrder(tasks: set<string>, rows: seq<JobSet>, batch: JobSet)
    ensures Calls(tasks, []) == []
    ensures var before, after := Calls(tasks, rows), Calls(tasks, rows + [batch]);
      && before <= after && |after| == |before| + (if batch.name in tasks then |batch.items| else 0)
      && forall i :: |before| <= i < |after| ==> after[i] == Call(batch.name, batch.items[i - |before|])
  {
    assert (rows + [batch])[..|rows|] == rows;
  }

  lemma OneMore(before: seq<Call>, tasks: set<string>, rows: seq<JobSet>, i: nat)
    requires i < |rows|
    ensures before + Calls(tasks, rows[..i + 1]) == before + Calls(tasks, rows[..i]) + CallsOf(tasks, rows[i])
  {
    assert rows[..i + 1][..i] == rows[..i];
  }

  /** How often a list of rows names a job under a task name. */
  function Listed(rows: seq<JobSet>, name: string, id: JobId): nat {
    if rows == [] then 0
    else
      var last := rows[|rows| - 1];
      Listed(rows[..|rows| - 1], name, id) + if last.name == name then multiset(last.items)[id] else 0
  }

  /** What the query returns for a claim: every claimed job once, under its name. */
  ghost predicate Groups(rows: seq<JobSet>, claimed: map<JobId, string>) {
    forall name, id :: Listed(rows, name, id) == if id in claimed && claimed[id] == name then 1 else 0
  }

  lemma {:induction false} CallsOfOnce(tasks: set<string>, name: string, items: seq<JobId>, c: Call)
    ensures multiset(CallsOf(tasks, JobSet(name, items)))[c] ==
            if c.task == name && name in tasks then multiset(items)[c.job] else 0
  {
    if items == [] {
    } else {
      var before, last := items[..|items| - 1], items[|items| - 1];
      CallsOfOnce(tasks, name, before, c);
      assert items == before + [last];
      if name in tasks {
        assert CallsOf(tasks, JobSet(name, items)) == CallsOf(tasks, JobSet(name, before)) + [Call(name, last)];
      }
    }
  }

  lemma {:induction false} CallsAreListed(tasks: set<string>, rows: seq<JobSet>, c: Call)
    ensures multiset(Calls(tasks, rows))[c] == if c.task in tasks then Listed(rows, c.task, c.job) else 0
  {
    if rows == [] {
    } else {
      var last := rows[|rows| - 1];
      CallsAreListed(tasks, rows[..|rows| - 1], c);
      CallsOfOnce(tasks, last.name, last.items, c);
    }
  }

  /** One claim runs each claimed job's task exactly once, and nothing else. */
  lemma ClaimedRunOnce(tasks: set<string>, rows: seq<JobSet>, claimed: map<JobId, string>, c: Call)
    requires Groups(rows, claimed)
    ensures multiset(Calls(tasks, rows))[c] ==
            if c.job in claimed && claimed[c.job] == c.task && c.task in tasks then 1 else 0
  {
    CallsAreListed(tasks, rows, c);
  }
}
