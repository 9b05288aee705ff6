/** What a maintenance pass does to a row, told from its columns alone. */
module SchedulerPasses {
  import opened Wrappers
  import opened SchedulerModel
  import Lease = SchedulerLease

  /** Queued, not deleted, claimed at least `blocked` ago and not accepted since. */
  ghost predicate NeverAccepted(c: Config, now: Time, j: Job) {
    && j.queued && j.deletedAt == None
    && j.lastRunAt.Some? && j.lastRunAt.value + c.blocked <= now
    && (j.acceptedAt == None || j.acceptedAt.value <= j.lastRunAt.value)
  }

  /** Queued, accepted after its claim and at least `lag` ago, and not finished within `lag`. */
  ghost predicate NeverFinished(c: Config, now: Time, j: Job) {
    && j.queued
    && j.lastRunAt.Some? && j.acceptedAt.Some? && j.lastRunAt.value < j.acceptedAt.value
    && j.acceptedAt.value + c.lag <= now
    && (j.lastFinishedAt == None || j.lastFinishedAt.value + c.lag <= now)
  }

  /** It has a restart rule of its own that has not run out. */
  ghost predicate Ruled(c: Config, now: Time, j: Job)
    requires j.acceptedAt.Some?
  {
    j.name != "check" && j.name in c.custom && now < j.acceptedAt.value + c.custom[j.name]
  }

  /** The row that waits for its next run, or for the time it had if its rule has no next. */
  function Postponed(j: Job, next: Option<Time>): Job {
    j.(queued := false, nextRunAt := if next == None then j.nextRunAt else next)
  }

  /** Each statement of a pass, if it comes to it, changes the rows it is for and no others: safe jobs never
      accepted, other risky ones, safe jobs never finished, and others with a restart rule. */
  lemma PassExactly(c: Config, now: Time, j: Job, next: NextRun, done: nat)
    ensures var j' := Maintain(c, now, j, next, done);
      var postponed := if j.repeats && next.Computed? then Postponed(j, next.at) else j;
      && (NeverAccepted(c, now, j) && j.name in c.safe ==>
            j' == if done >= 1 then j.(queued := false, nextRunAt := Some(now), failures := 0) else j)
      && (NeverAccepted(c, now, j) && j.name !in c.safe ==>
            j' == if done >= 2 && j.name in c.risky then postponed else j)
      && (NeverFinished(c, now, j) && j.name in c.safe ==>
            j' == if done >= 3 then j.(queued := false, nextRunAt := Some(now), lastFinishedAt := Some(now)) else j)
      && (NeverFinished(c, now, j) && j.name !in c.safe ==>
            j' == if done >= 4 && Ruled(c, now, j) then postponed else j)
      && (!NeverAccepted(c, now, j) && !NeverFinished(c, now, j) ==> j' == j)
  {
  }

  /** A complete pass unqueues a risky job that was never accepted exactly when it repeats and its next run can be
      computed, and it then waits for that run. */
  lemma RiskyUnqueuedExactly(c: Config, now: Time, j: Job, next: NextRun)
    requires NeverAccepted(c, now, j) && j.name in c.risky && j.name !in c.safe
    ensures var j' := Maintain(c, now, j, next, PASS);
      && (!j'.queued <==> j.repeats && next.Computed?)
      && (!j'.queued ==> j'.nextRunAt == if next.at == None then j.nextRunAt else next.at)
      && j' == j.(queued := j'.queued, nextRunAt := j'.nextRunAt)
      && (j'.queued ==> j' == j)
  {
    PassExactly(c, now, j, next, PASS);
  }

  /** The jobs a complete pass reports: never finished, not safe, not the maintenance job, without a rule. */
  lemma NotifiedExactly(c: Config, now: Time, j: Job, next: NextRun)
    ensures Notified(c, now, Maintain(c, now, j, next, 3)) <==>
            NeverFinished(c, now, j) && j.name !in c.safe && j.name != "check" && j.name !in c.custom
  {
    NotifiedAfter(c, now, j, next);
  }

  /** In every run, a risky job still queued after a complete pass has been claimed within the blocked time, or
      accepted since its claim, or is a one-shot, or its next run cannot be computed; and one that has not been
      accepted since its claim is still queued exactly then. */
  lemma RiskySweepInRuns(c: Config, s: Lease.Sys, es: seq<Lease.Event>, next: JobId -> NextRun, id: JobId)
    requires Lease.Init(s) && Lease.Possible(c, s, es) && id in Lease.Run(c, s, es).jobs
    requires var j := Lease.Run(c, s, es).jobs[id];
      j.queued && j.name in c.risky && j.name !in c.safe && j.deletedAt == None
    ensures var s' := Lease.Run(c, s, es);
      var j := s'.jobs[id];
      var swept := Lease.Next(c, s', Lease.Sweep(next, PASS));
      var accepted := j.acceptedAt.Some? && j.lastRunAt.Some? && j.lastRunAt.value < j.acceptedAt.value;
      && j.lastRunAt.Some? && id in swept.jobs
      && (swept.jobs[id].queued ==>
            s'.now < j.lastRunAt.value + c.blocked || accepted || !j.repeats || next(id).Uncomputable?)
      && (!accepted ==>
            (swept.jobs[id].queued <==>
             s'.now < j.lastRunAt.value + c.blocked || !j.repeats || next(id).Uncomputable?))
  {
    Lease.RowsInRuns(c, s, es);
    var s' := Lease.Run(c, s, es);
    assert Lease.RowOk(s'.now, s'.jobs[id]);
    PassExactly(c, s'.now, s'.jobs[id], next(id), PASS);
  }
}
