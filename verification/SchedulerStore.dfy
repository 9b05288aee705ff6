/** The jobs table and the statements the scheduler runs against it, one transaction at a time. */
module SchedulerStore {
  import opened Wrappers
  import opened SchedulerModel

  /** Unqueued, undeleted and due, of a name and namespace this scheduler is for. */
  ghost predicate Due(c: Config, now: Time, j: Job) {
    && !j.queued && j.deletedAt == None && j.nextRunAt.Some? && j.nextRunAt.value < now
    && j.name in c.all && (c.namespace == "" || j.namespace == Some(c.namespace))
  }

  /** Of the due rows whose lock it gets, it queues all, or as many as it may, and stamps them; no row else changes. */
  ghost predicate Claims(c: Config, now: Time, before: map<JobId, Job>, locked: set<JobId>, claimed: set<JobId>,
                         after: map<JobId, Job>)
  {
    && |claimed| <= c.enqueueLimit
    && (forall id :: id in claimed ==> id in before && id in locked && Due(c, now, before[id]))
    && (|claimed| < c.enqueueLimit ==>
          forall id :: id in before && id in locked && Due(c, now, before[id]) ==> id in claimed)
    && after.Keys == before.Keys
    && forall id :: id in before ==>
         after[id] == if id in claimed then before[id].(queued := true, lastRunAt := Some(now)) else before[id]
  }

  lemma ClaimsFree(c: Config, now: Time, before: map<JobId, Job>, locked: set<JobId>, free: set<JobId>,
                   claimed: set<JobId>, after: map<JobId, Job>)
    requires free == set id | id in before && id in locked && Claimable(c, now, before[id])
    requires claimed <= free && |claimed| <= c.enqueueLimit && (|claimed| < c.enqueueLimit ==> claimed == free)
    requires after == map id | id in before :: if id in claimed then Claim(now, before[id]) else before[id]
    ensures Claims(c, now, before, locked, claimed, after)
  {
  }

  class JobTable {
    const config: Config
    var jobs: map<JobId, Job>

    constructor (config: Config)
      ensures this.config == config && jobs == map[]
    {
      this.config := config;
      jobs := map[];
    }

    /** packages/scheduler-sequelize/src/enqueue_jobs_query.ts; `locked` are the rows whose lock it gets. */
    method FetchAndEnqueueJobs(now: Time, locked: set<JobId>) returns (claimed: set<JobId>)
      modifies this
      ensures Claims(config, now, old(jobs), locked, claimed, jobs)
    {
      var free := set id | id in jobs && id in locked && Claimable(config, now, jobs[id]);
      claimed := {};
      while |claimed| < config.enqueueLimit && claimed != free
        invariant claimed <= free && |claimed| <= config.enqueueLimit
        invariant jobs == map id | id in old(jobs) :: if id in claimed then Claim(now, old(jobs)[id]) else old(jobs)[id]
        decreases free - claimed
      {
        assert free == claimed + (free - claimed);
        var id :| id in free - claimed;
        jobs := jobs[id := jobs[id].(queued := true, lastRunAt := Some(now))];
        claimed := claimed + {id};
      }
      ClaimsFree(config, now, old(jobs), locked, free, claimed, jobs);
    }

    /** An instance's update: the changed fields of its row, and nothing when the row is gone. */
    method Update(id: JobId, loaded: Job, given: Job)
      modifies this
      ensures jobs == if id in old(jobs) then old(jobs)[id := Save(loaded, given, old(jobs)[id])] else old(jobs)
    {
      if id in jobs {
        jobs := jobs[id := Save(loaded, given, jobs[id])];
      }
    }

    /** Returns the instance as it is after the update. */
    method UpdateStartTask(id: JobId, job: Job, now: Time) returns (accepted: Job)
      modifies this
      ensures accepted == Accept(now, job)
      ensures jobs == if id in old(jobs) then old(jobs)[id := Save(job, accepted, old(jobs)[id])] else old(jobs)
      ensures accepted == job.(acceptedAt := Some(now))
      ensures id in jobs ==>
                jobs[id] == old(jobs)[id].(acceptedAt := Sent(job.acceptedAt, Some(now), old(jobs)[id].acceptedAt))
    {
      accepted := job.(acceptedAt := Some(now));
      Update(id, job, accepted);
    }

    /** Throws when the next run of a repeating job cannot be computed. */
    method UpdateFinishTask(id: JobId, job: Job, now: Time, next: NextRun) returns (o: Outcome<string>)
      modifies this
      ensures o.Fail? <==> job.repeats && next.Uncomputable?
      ensures jobs == if o.Fail? then old(jobs)
                      else if !job.repeats then old(jobs) - {id}
                      else if id !in old(jobs) then old(jobs)
                      else old(jobs)[id := Save(job, Finish(now, job, next.at).value, old(jobs)[id])]
      ensures o.Pass? && id in old(jobs) ==>
                if !job.repeats then id !in jobs
                else var row := old(jobs)[id];
                  id in jobs
                  && jobs[id] ==
                     row.(queued := Sent(job.queued, false, row.queued),
                          failures := Sent(job.failures, 0, row.failures),
                          lastFinishedAt := Sent(job.lastFinishedAt, Some(now), row.lastFinishedAt),
                          failedAt := Sent(job.failedAt, None, row.failedAt),
                          nextRunAt := if next.at == None then row.nextRunAt
                                       else Sent(job.nextRunAt, next.at, row.nextRunAt))
    {
      if !job.repeats {
        jobs := jobs - {id};
        return Pass;
      }
      if next.Uncomputable? {
        return Fail("Need a valid interval to compute next run");
      }
      var nextRunAt := if next.at.Some? then next.at else job.nextRunAt;
      Update(id, job, job.(queued := false, nextRunAt := nextRunAt, lastFinishedAt := Some(now), failures := 0,
                           failedAt := None));
      return Pass;
    }

    method UpdateFailure(id: JobId, job: Job, now: Time, jitter: real)
      modifies this
      ensures jobs == if id !in old(jobs) then old(jobs)
                      else old(jobs)[id := Save(job, FailJob(config, now, job, jitter), old(jobs)[id])]
      ensures id in old(jobs) ==>
                var row := old(jobs)[id];
                var due := Some(now + RetryDelay(job.failures, config.backOffMs, jitter));
                var again := job.failures < config.maxRestarts && job.name in config.safe;
                && id in jobs
                && jobs[id] ==
                   row.(failures := job.failures + 1, failedAt := Sent(job.failedAt, Some(now), row.failedAt),
                        queued := if again then Sent(job.queued, false, row.queued) else row.queued,
                        nextRunAt := if again then Sent(job.nextRunAt, due, row.nextRunAt) else row.nextRunAt)
    {
      if job.failures < config.maxRestarts && job.name in config.safe {
        var nextRunAt := now + RetryDelay(job.failures, config.backOffMs, jitter);
        Update(id, job, job.(queued := false, nextRunAt := Some(nextRunAt), failures := job.failures + 1,
                             failedAt := Some(now)));
        return;
      }
      Update(id, job, job.(failures := job.failures + 1, failedAt := Some(now)));
    }

    /** timestampHelperFactory around a task that starts at `started` and settles at `ended`, by when others have
        left the table as `meanwhile`; returns whether the task counts as a success. */
    method RunTimestamped(id: JobId, started: Time, task: Outcome<string>, meanwhile: map<JobId, Job>, ended: Time,
                          next: NextRun, jitter: real)
      returns (success: bool, ghost between: map<JobId, Job>)
      modifies this
      ensures id !in old(jobs) ==> between == jobs == old(jobs) && !success
      ensures id in old(jobs) ==>
                var job := Accept(started, old(jobs)[id]);
                && between == old(jobs)[id := job]
                && success == (task.Pass? && (job.repeats ==> next.Computed?))
                && jobs ==
                   if success && !job.repeats then meanwhile - {id}
                   else if id !in meanwhile then meanwhile
                   else if success then meanwhile[id := Save(job, Finish(ended, job, next.at).value, meanwhile[id])]
                   else meanwhile[id := Save(job, FailJob(config, ended, job, jitter), meanwhile[id])]
    {
      between := jobs;
      if id !in jobs {
        return false, between;
      }
      var jobInstance := jobs[id];
      SaveAgreeing(config, started, jobInstance, None, 0.0);
      jobInstance := UpdateStartTask(id, jobInstance, started);
      between := jobs;
      jobs := meanwhile;
      var o := task;
      if o.Pass? {
        o := UpdateFinishTask(id, jobInstance, ended, next);
      }
      if o.Fail? {
        UpdateFailure(id, jobInstance, ended, jitter);
      }
      return o.Pass?, between;
    }

    /** Job.scope('blocked').update(...) and Job.scope('laggy').update(...) on the safe jobs. */
    method FreeSafe(now: Time, laggy: bool)
      modifies this
      ensures jobs == map id | id in old(jobs) ::
                        if laggy then FreeLaggy(config, now, old(jobs)[id]) else FreeBlocked(config, now, old(jobs)[id])
    {
      if laggy {
        jobs := map id | id in jobs ::
          if Laggy(config, now, jobs[id]) && jobs[id].name in config.safe then
            jobs[id].(lastFinishedAt := Some(now), nextRunAt := Some(now), queued := false)
          else jobs[id];
      } else {
        jobs := map id | id in jobs ::
          if Blocked(config, now, jobs[id]) && jobs[id].name in config.safe then
            jobs[id].(nextRunAt := Some(now), queued := false, failures := 0)
          else jobs[id];
      }
    }

    /** resetJob; a failure to compute the next run is only logged, by its callers. */
    method ResetJob(id: JobId, next: NextRun)
      requires id in jobs
      modifies this
      ensures jobs == old(jobs)[id := Reset(old(jobs)[id], next)]
    {
      if !jobs[id].repeats {
        return;
      }
      if next.Uncomputable? {
        return;
      }
      var nextRunAt := if next.at.Some? then next.at else jobs[id].nextRunAt;
      jobs := jobs[id := jobs[id].(queued := false, nextRunAt := nextRunAt)];
    }

    /** resetJob for each of the given rows. */
    method ResetAll(ids: set<JobId>, next: JobId -> NextRun)
      requires ids <= jobs.Keys
      modifies this
      ensures jobs == map id | id in old(jobs) :: if id in ids then Reset(old(jobs)[id], next(id)) else old(jobs)[id]
    {
      var done := {};
      while done != ids
        invariant done <= ids <= jobs.Keys
        invariant jobs == map id | id in old(jobs) ::
                            if id in done then Reset(old(jobs)[id], next(id)) else old(jobs)[id]
        decreases ids - done
      {
        assert ids == done + (ids - done);
        var id :| id in ids - done;
        ResetJob(id, next(id));
        done := done + {id};
      }
    }

    /** The laggy jobs left over, split into those with a restart rule of their own and those to report. */
    method SortLaggy(now: Time) returns (resetJobs: set<JobId>, notifyJobs: set<JobId>)
      ensures resetJobs == set id | id in jobs && CustomRestart(config, now, jobs[id])
      ensures notifyJobs == set id | id in jobs && Notified(config, now, jobs[id])
    {
      var laggyJobs := set id | id in jobs && Laggy(config, now, jobs[id]) && jobs[id].name != MAINTENANCE;
      var seen := {};
      resetJobs, notifyJobs := {}, {};
      while seen != laggyJobs
        invariant seen <= laggyJobs
        invariant resetJobs == set id | id in seen && CustomRestart(config, now, jobs[id])
        invariant notifyJobs == set id | id in seen && Notified(config, now, jobs[id])
        decreases laggyJobs - seen
      {
        assert laggyJobs == seen + (laggyJobs - seen);
        var id :| id in laggyJobs - seen;
        var laggyJob := jobs[id];
        if laggyJob.name in config.custom {
          if laggyJob.acceptedAt.value + config.custom[laggyJob.name] > now {
            resetJobs := resetJobs + {id};
          }
        } else {
          notifyJobs := notifyJobs + {id};
        }
        seen := seen + {id};
      }
    }

    /** Blocked jobs too risky to start again at once. */
    method ResetBlockedJobs(now: Time, next: JobId -> NextRun)
      modifies this
      ensures jobs == map id | id in old(jobs) :: ResetBlocked(config, now, old(jobs)[id], next(id))
    {
      var blockedJobs := set id | id in jobs && Blocked(config, now, jobs[id]) && jobs[id].name in config.risky;
      ResetAll(blockedJobs, next);
    }

    method ResetLaggyJobs(now: Time, next: JobId -> NextRun) returns (notified: set<JobId>)
      modifies this
      ensures jobs == map id | id in old(jobs) :: ResetLaggy(config, now, old(jobs)[id], next(id))
      ensures notified == set id | id in old(jobs) && Notified(config, now, old(jobs)[id])
    {
      var resetJobs, notifyJobs := SortLaggy(now);
      ResetAll(resetJobs, next);
      notified := notifyJobs;
    }

    method MaintainBlockedJobs(now: Time, next: JobId -> NextRun, done: nat)
      modifies this
      ensures jobs == map id | id in old(jobs) :: MaintainBlocked(config, now, old(jobs)[id], next(id), done)
    {
      if done >= 1 {
        FreeSafe(now, false);
      }
      if done >= 2 {
        ResetBlockedJobs(now, next);
      }
    }

    method MaintainLaggyJobs(now: Time, next: JobId -> NextRun, done: nat) returns (notified: set<JobId>)
      modifies this
      ensures jobs == map id | id in old(jobs) :: MaintainLaggy(config, now, old(jobs)[id], next(id), done)
      ensures notified == if done < PASS then {}
                          else set id | id in old(jobs) && Notified(config, now, FreeLaggy(config, now, old(jobs)[id]))
    {
      notified := {};
      if done >= 3 {
        FreeSafe(now, true);
      }
      if done >= PASS {
        notified := ResetLaggyJobs(now, next);
      }
    }

    /** packages/scheduler-sequelize/src/maintenance.ts: one pass over the whole table, of which the first `done`
        statements take effect before one fails. */
    method Maintenance(now: Time, next: JobId -> NextRun, done: nat) returns (notified: set<JobId>)
      modifies this
      ensures jobs == map id | id in old(jobs) :: Maintain(config, now, old(jobs)[id], next(id), done)
      ensures notified == if done < PASS then {}
                          else set id | id in old(jobs) && Notified(config, now, old(jobs)[id])
                                        && old(jobs)[id].name !in config.safe
    {
      MaintainBlockedJobs(now, next, done);
      notified := MaintainLaggyJobs(now, next, done);
      forall id | id in old(jobs) {
        NotifiedAfter(config, now, old(jobs)[id], next(id));
      }
    }
  }
}
