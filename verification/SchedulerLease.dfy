/** Any number of schedulers sharing the jobs table: a claim is a lease that time and maintenance can end. */
module SchedulerLease {
  import opened Wrappers
  import opened SchedulerModel

  /** One scheduler's hold on one job, from its claim until its task ends or it dies. */
  datatype LeaseId = LeaseId(scheduler: nat, serial: nat, job: JobId)

  /** Claimed; then the row loaded into an instance; then accepted, through that instance. */
  datatype Phase = Claimed | Loaded(job: Job) | Accepted(at: Time, job: Job)

  datatype Lease = Lease(claimedAt: Time, phase: Phase)

  /** Re-queues made by updateFailure since failures was last zeroed, and their total delay. */
  datatype Tally = Tally(requeues: nat, delay: int)

  const NO_TALLY := Tally(0, 0)

  datatype Sys = Sys(now: Time, serial: nat, jobs: map<JobId, Job>, leases: map<LeaseId, Lease>,
                     tallies: map<JobId, Tally>)

  datatype Event =
    | Tick(to: Time)
    | AddJob(id: JobId, job: Job)
    | ClaimJobs(scheduler: nat, chosen: set<JobId>)
    | LoadJob(l: LeaseId)
    | AcceptJob(l: LeaseId)
    | FinishTask(l: LeaseId, next: Option<Time>)
    | FailTask(l: LeaseId, jitter: real)
    | Drop(l: LeaseId)
    | Sweep(nextRun: JobId -> NextRun, done: nat)

  ghost predicate Init(s: Sys) {
    s.jobs == map[] && s.leases == map[] && s.tallies == map[]
  }

  predicate Holds(s: Sys, l: LeaseId) {
    l in s.leases && l.job in s.jobs
  }

  ghost predicate Enabled(c: Config, s: Sys, e: Event) {
    match e
    case Tick(to) => s.now <= to
    case AddJob(id, job) =>
      && id !in s.jobs && !job.queued && job.failures == 0
      && job.lastRunAt.None? && job.acceptedAt.None? && job.lastFinishedAt.None?
    case ClaimJobs(_, chosen) =>
      |chosen| <= c.enqueueLimit && forall id :: id in chosen ==> id in s.jobs && Claimable(c, s.now, s.jobs[id])
    case LoadJob(l) => Holds(s, l) && s.leases[l].phase.Claimed?
    case AcceptJob(l) => Holds(s, l) && s.leases[l].phase.Loaded?
    case FinishTask(l, _) => Holds(s, l) && s.leases[l].phase.Accepted?
    case FailTask(l, jitter) => Holds(s, l) && s.leases[l].phase.Accepted? && IsJitter(jitter)
    case Drop(l) => l in s.leases
    case Sweep(_, _) => true
  }

  ghost function Leased(s: Sys, scheduler: nat, chosen: set<JobId>): (leased: map<LeaseId, Lease>)
    ensures forall l :: l in leased <==> l.scheduler == scheduler && l.serial == s.serial && l.job in chosen
  {
    var ids := set id | id in chosen :: LeaseId(scheduler, s.serial, id);
    map l | l in ids :: Lease(s.now, Claimed)
  }

  function TallyOf(s: Sys, id: JobId): Tally {
    if id in s.tallies then s.tallies[id] else NO_TALLY
  }

  function Load(s: Sys, l: LeaseId): Sys
    requires Holds(s, l)
  {
    s.(leases := s.leases[l := s.leases[l].(phase := Loaded(s.jobs[l.job]))])
  }

  function AcceptedBy(s: Sys, l: LeaseId): Sys
    requires Holds(s, l) && s.leases[l].phase.Loaded?
  {
    var job := s.leases[l].phase.job;
    s.(jobs := s.jobs[l.job := Save(job, Accept(s.now, job), s.jobs[l.job])],
       leases := s.leases[l := s.leases[l].(phase := Accepted(s.now, Accept(s.now, job)))])
  }

  function FinishedBy(s: Sys, l: LeaseId, next: Option<Time>): Sys
    requires Holds(s, l) && s.leases[l].phase.Accepted?
  {
    var job := s.leases[l].phase.job;
    var done := Finish(s.now, job, next);
    s.(jobs := if done.Some? then s.jobs[l.job := Save(job, done.value, s.jobs[l.job])] else s.jobs - {l.job},
       leases := s.leases - {l}, tallies := s.tallies[l.job := NO_TALLY])
  }

  function FailedBy(c: Config, s: Sys, l: LeaseId, jitter: real): Sys
    requires Holds(s, l) && s.leases[l].phase.Accepted?
  {
    var job, t := s.leases[l].phase.job, TallyOf(s, l.job);
    s.(jobs := s.jobs[l.job := Save(job, FailJob(c, s.now, job, jitter), s.jobs[l.job])],
       leases := s.leases - {l},
       tallies := if Restartable(c, job.name, job.failures) then
                    s.tallies[l.job := Tally(t.requeues + 1, t.delay + RetryDelay(job.failures, c.backOffMs, jitter))]
                  else s.tallies)
  }

  ghost function Next(c: Config, s: Sys, e: Event): Sys
    requires Enabled(c, s, e)
  {
    match e
    case Tick(to) => s.(now := to)
    case AddJob(id, job) => s.(jobs := s.jobs[id := job], tallies := s.tallies[id := NO_TALLY])
    case ClaimJobs(scheduler, chosen) =>
      s.(serial := s.serial + 1,
         jobs := map id | id in s.jobs :: if id in chosen then Claim(s.now, s.jobs[id]) else s.jobs[id],
         leases := s.leases + Leased(s, scheduler, chosen))
    case LoadJob(l) => Load(s, l)
    case AcceptJob(l) => AcceptedBy(s, l)
    case FinishTask(l, next) => FinishedBy(s, l, next)
    case FailTask(l, jitter) => FailedBy(c, s, l, jitter)
    case Drop(l) => s.(leases := s.leases - {l})
    case Sweep(next, done) =>
      s.(jobs := map id | id in s.jobs :: Maintain(c, s.now, s.jobs[id], next(id), done),
         tallies := map id | id in s.tallies :: if id in s.jobs && Zeroed(c, s.now, s.jobs[id], done) then NO_TALLY
                                                else s.tallies[id])
  }

  /** A pass zeroes the failures of this row. */
  predicate Zeroed(c: Config, now: Time, j: Job, done: nat) {
    1 <= done && Blocked(c, now, j) && j.name in c.safe
  }

  /** When a maintenance pass may take the job back: blocked minutes after the claim until a later acceptance,
      lag minutes after that acceptance. */
  function Deadline(c: Config, lease: Lease): Time {
    if lease.phase.Accepted? && lease.claimedAt < lease.phase.at then lease.phase.at + c.lag
    else lease.claimedAt + c.blocked
  }

  ghost predicate Timely(c: Config, s: Sys) {
    forall l :: l in s.leases ==> s.now < Deadline(c, s.leases[l])
  }

  /** The terms a scheduler keeps: accept within blocked minutes of the claim, end within lag minutes of that,
      and either accept strictly after the claim or have a lag no longer than blocked. */
  lemma TermsSuffice(c: Config, now: Time, lease: Lease)
    requires match lease.phase
             case Accepted(at, _) => now < at + c.lag && lease.claimedAt <= at
                                     && (lease.claimedAt < at || c.lag <= c.blocked)
             case _ => now < lease.claimedAt + c.blocked
    ensures now < Deadline(c, lease)
  {
  }

  /** No timestamp is in the future, and a queued row has been claimed. */
  ghost predicate RowOk(now: Time, j: Job) {
    && (j.lastRunAt.Some? ==> j.lastRunAt.value <= now)
    && (j.acceptedAt.Some? ==> j.acceptedAt.value <= now)
    && (j.lastFinishedAt.Some? ==> j.lastFinishedAt.value <= now)
    && (j.queued ==> j.lastRunAt.Some?)
  }

  /** A queued row has been claimed since it last finished. */
  ghost predicate InTurn(j: Job) {
    j.queued && j.lastFinishedAt.Some? && j.lastRunAt.Some? ==> j.lastFinishedAt.value <= j.lastRunAt.value
  }

  function Min(a: nat, b: nat): nat {
    if a < b then a else b
  }

  ghost predicate TallyOk(c: Config, j: Job, t: Tally) {
    && t.requeues == (if j.name in c.safe then Min(j.failures, c.maxRestarts) else 0)
    && 0 <= t.delay <= c.backOffMs * (Pow2(t.requeues) - 1)
  }

  /** The instance a lease works through agrees with the row. */
  ghost predicate LeaseOk(now: Time, lease: Lease, j: Job) {
    && j.queued && j.deletedAt.None? && j.lastRunAt == Some(lease.claimedAt) && lease.claimedAt <= now
    && match lease.phase
       case Accepted(at, job) => j.acceptedAt == Some(at) && lease.claimedAt <= at <= now && job == j
       case Loaded(job) => (j.acceptedAt.None? || Le(j.acceptedAt, j.lastRunAt)) && job == j
       case Claimed => j.acceptedAt.None? || Le(j.acceptedAt, j.lastRunAt)
  }

  /** No job is held twice. */
  ghost predicate Exclusive(s: Sys) {
    forall k, l :: k in s.leases && l in s.leases && k.job == l.job ==> k == l
  }

  /** A held job exists and is queued. */
  ghost predicate HeldIsQueued(s: Sys) {
    forall l :: l in s.leases ==> l.job in s.jobs && s.jobs[l.job].queued
  }

  ghost predicate Inv(c: Config, s: Sys) {
    && Exclusive(s)
    && (forall id :: id in s.jobs ==>
          RowOk(s.now, s.jobs[id]) && InTurn(s.jobs[id]) && TallyOk(c, s.jobs[id], TallyOf(s, id)))
    && (forall l :: l in s.leases ==>
          l.serial < s.serial && l.job in s.jobs && LeaseOk(s.now, s.leases[l], s.jobs[l.job]))
  }

  lemma ClaimLeases(c: Config, s: Sys, e: Event, l: LeaseId)
    requires Inv(c, s) && Enabled(c, s, e) && e.ClaimJobs?
    requires l in Next(c, s, e).leases
    ensures var s' := Next(c, s, e);
      && l.serial <= s.serial && l.job in s'.jobs && LeaseOk(s'.now, s'.leases[l], s'.jobs[l.job])
      && (l in s.leases <==> l.job !in e.chosen)
      && (l.job in e.chosen ==> l == LeaseId(e.scheduler, s.serial, l.job))
  {
    if l in s.leases {
      assert l !in Leased(s, e.scheduler, e.chosen);
    }
  }

  lemma ClaimRow(c: Config, s: Sys, e: Event, id: JobId)
    requires Inv(c, s) && Enabled(c, s, e) && e.ClaimJobs? && id in s.jobs
    ensures var s' := Next(c, s, e);
      && id in s'.jobs
      && RowOk(s'.now, s'.jobs[id]) && InTurn(s'.jobs[id]) && TallyOk(c, s'.jobs[id], TallyOf(s', id))
  {
    assert RowOk(s.now, s.jobs[id]) && InTurn(s.jobs[id]) && TallyOk(c, s.jobs[id], TallyOf(s, id));
  }

  lemma ClaimExclusive(c: Config, s: Sys, e: Event)
    requires Inv(c, s) && Enabled(c, s, e) && e.ClaimJobs?
    ensures Exclusive(Next(c, s, e))
  {
    forall k, l | k in Next(c, s, e).leases && l in Next(c, s, e).leases && k.job == l.job ensures k == l {
      ClaimLeases(c, s, e, k);
      ClaimLeases(c, s, e, l);
    }
  }

  lemma ClaimInv(c: Config, s: Sys, e: Event)
    requires Inv(c, s) && Enabled(c, s, e) && e.ClaimJobs?
    ensures Inv(c, Next(c, s, e))
  {
    var s' := Next(c, s, e);
    ClaimExclusive(c, s, e);
    forall l | l in s'.leases
      ensures l.serial < s'.serial && l.job in s'.jobs && LeaseOk(s'.now, s'.leases[l], s'.jobs[l.job])
    {
      ClaimLeases(c, s, e, l);
    }
    forall id | id in s'.jobs
      ensures RowOk(s'.now, s'.jobs[id]) && InTurn(s'.jobs[id]) && TallyOk(c, s'.jobs[id], TallyOf(s', id))
    {
      ClaimRow(c, s, e, id);
    }
  }

  /** Failing counts on from what was loaded, which is what the row still says. */
  lemma FailTally(c: Config, now: Time, j: Job, t: Tally, jitter: real)
    requires TallyOk(c, j, t) && IsJitter(jitter)
    ensures TallyOk(c, FailJob(c, now, j, jitter),
                    if Restartable(c, j.name, j.failures) then
                      Tally(t.requeues + 1, t.delay + RetryDelay(j.failures, c.backOffMs, jitter))
                    else t)
  {
    RetryDelayBound(j.failures, c.backOffMs, jitter);
    if Restartable(c, j.name, j.failures) {
      assert c.backOffMs * (Pow2(j.failures) - 1) + c.backOffMs * Pow2(j.failures)
          == c.backOffMs * (2 * Pow2(j.failures) - 1);
    }
  }

  /** Only this lease, its job and the job's tally differ. */
  ghost predicate OwnJob(s: Sys, s': Sys, l: LeaseId) {
    && s'.now == s.now && s'.serial == s.serial
    && (forall k :: k != l ==> (k in s'.leases <==> k in s.leases) && (k in s.leases ==> s'.leases[k] == s.leases[k]))
    && (forall id :: id != l.job ==>
          (id in s'.jobs <==> id in s.jobs) && (id in s.jobs ==> s'.jobs[id] == s.jobs[id])
          && TallyOf(s', id) == TallyOf(s, id))
  }

  /** The lease's own job and the lease itself are in order. */
  ghost predicate OwnOk(c: Config, s: Sys, l: LeaseId) {
    && (l.job in s.jobs ==>
          && RowOk(s.now, s.jobs[l.job]) && InTurn(s.jobs[l.job])
          && TallyOk(c, s.jobs[l.job], TallyOf(s, l.job)))
    && (l in s.leases ==> l.job in s.jobs && LeaseOk(s.now, s.leases[l], s.jobs[l.job]))
  }

  /** Steps of one lease keep the rest. */
  lemma OwnJobInv(c: Config, s: Sys, s': Sys, l: LeaseId)
    requires Inv(c, s) && l in s.leases && OwnJob(s, s', l) && OwnOk(c, s', l)
    ensures Inv(c, s')
  {
    forall k | k in s'.leases
      ensures k.serial < s'.serial && k.job in s'.jobs && LeaseOk(s'.now, s'.leases[k], s'.jobs[k.job])
    {
      assert k in s.leases;
      assert k != l ==> k.job != l.job;
    }
  }

  lemma LoadInv(c: Config, s: Sys, l: LeaseId)
    requires Inv(c, s) && Holds(s, l) && s.leases[l].phase.Claimed?
    ensures Inv(c, Load(s, l))
  {
    OwnJobInv(c, s, Load(s, l), l);
  }

  lemma AcceptOwn(s: Sys, l: LeaseId)
    requires Holds(s, l) && s.leases[l].phase.Loaded?
    ensures OwnJob(s, AcceptedBy(s, l), l)
  {
  }

  lemma AcceptOk(c: Config, s: Sys, l: LeaseId)
    requires Inv(c, s) && Holds(s, l) && s.leases[l].phase.Loaded?
    ensures OwnOk(c, AcceptedBy(s, l), l)
  {
    var j := s.jobs[l.job];
    AcceptedRow(s.now, s.leases[l], j);
    SaveAgreeing(c, s.now, j, None, 0.0);
    assert TallyOf(AcceptedBy(s, l), l.job) == TallyOf(s, l.job);
  }

  lemma AcceptedRow(now: Time, lease: Lease, j: Job)
    requires RowOk(now, j) && InTurn(j) && LeaseOk(now, lease, j) && lease.phase.Loaded?
    ensures RowOk(now, Accept(now, j)) && InTurn(Accept(now, j))
    ensures LeaseOk(now, lease.(phase := Accepted(now, Accept(now, j))), Accept(now, j))
  {
  }

  lemma AcceptInv(c: Config, s: Sys, l: LeaseId)
    requires Inv(c, s) && Holds(s, l) && s.leases[l].phase.Loaded?
    ensures Inv(c, AcceptedBy(s, l))
  {
    AcceptOwn(s, l);
    AcceptOk(c, s, l);
    OwnJobInv(c, s, AcceptedBy(s, l), l);
  }

  lemma FinishOwn(s: Sys, l: LeaseId, next: Option<Time>)
    requires Holds(s, l) && s.leases[l].phase.Accepted?
    ensures OwnJob(s, FinishedBy(s, l, next), l)
  {
  }

  lemma FinishOk(c: Config, s: Sys, l: LeaseId, next: Option<Time>)
    requires Inv(c, s) && Holds(s, l) && s.leases[l].phase.Accepted?
    ensures OwnOk(c, FinishedBy(s, l, next), l)
  {
    var j := s.jobs[l.job];
    assert RowOk(s.now, j) && LeaseOk(s.now, s.leases[l], j);
    SaveAgreeing(c, s.now, j, next, 0.0);
  }

  lemma FinishInv(c: Config, s: Sys, l: LeaseId, next: Option<Time>)
    requires Inv(c, s) && Holds(s, l) && s.leases[l].phase.Accepted?
    ensures Inv(c, FinishedBy(s, l, next))
  {
    FinishOwn(s, l, next);
    FinishOk(c, s, l, next);
    OwnJobInv(c, s, FinishedBy(s, l, next), l);
  }

  lemma FailOwn(c: Config, s: Sys, l: LeaseId, jitter: real)
    requires Holds(s, l) && s.leases[l].phase.Accepted?
    ensures OwnJob(s, FailedBy(c, s, l, jitter), l)
  {
  }

  lemma FailOk(c: Config, s: Sys, l: LeaseId, jitter: real)
    requires Inv(c, s) && Holds(s, l) && s.leases[l].phase.Accepted? && IsJitter(jitter)
    ensures OwnOk(c, FailedBy(c, s, l, jitter), l)
  {
    var j := s.jobs[l.job];
    assert RowOk(s.now, j) && LeaseOk(s.now, s.leases[l], j);
    SaveAgreeing(c, s.now, j, None, jitter);
    FailTally(c, s.now, j, TallyOf(s, l.job), jitter);
  }

  lemma FailInv(c: Config, s: Sys, l: LeaseId, jitter: real)
    requires Inv(c, s) && Holds(s, l) && s.leases[l].phase.Accepted? && IsJitter(jitter)
    ensures Inv(c, FailedBy(c, s, l, jitter))
  {
    FailOwn(c, s, l, jitter);
    FailOk(c, s, l, jitter);
    OwnJobInv(c, s, FailedBy(c, s, l, jitter), l);
  }

  /** A pass takes back a leased safe job exactly when its lease has run out. */
  lemma SweptExactly(c: Config, now: Time, lease: Lease, j: Job)
    requires RowOk(now, j) && InTurn(j) && LeaseOk(now, lease, j)
    ensures Blocked(c, now, j) || Laggy(c, now, j) <==> now >= Deadline(c, lease)
  {
  }

  lemma SweepInv(c: Config, s: Sys, e: Event)
    requires Inv(c, s) && Timely(c, s) && e.Sweep?
    ensures Inv(c, Next(c, s, e))
  {
    var s' := Next(c, s, e);
    forall id | id in s'.jobs
      ensures RowOk(s'.now, s'.jobs[id]) && InTurn(s'.jobs[id]) && TallyOk(c, s'.jobs[id], TallyOf(s', id))
    {
      SweptRow(c, s.now, s.jobs[id], e.nextRun(id), e.done);
      SweptTally(c, s.now, s.jobs[id], e.nextRun(id), e.done, TallyOf(s, id));
    }
    forall l | l in s'.leases ensures LeaseOk(s'.now, s'.leases[l], s'.jobs[l.job]) {
      SweptExactly(c, s.now, s.leases[l], s.jobs[l.job]);
      MaintainSpares(c, s.now, s.jobs[l.job], e.nextRun(l.job), e.done);
    }
  }

  lemma SweptRow(c: Config, now: Time, j: Job, next: NextRun, done: nat)
    requires RowOk(now, j)
    ensures RowOk(now, Maintain(c, now, j, next, done)) && (InTurn(j) ==> InTurn(Maintain(c, now, j, next, done)))
  {
  }

  lemma SweptTally(c: Config, now: Time, j: Job, next: NextRun, done: nat, t: Tally)
    requires TallyOk(c, j, t)
    ensures TallyOk(c, Maintain(c, now, j, next, done), if Zeroed(c, now, j, done) then NO_TALLY else t)
  {
  }

  lemma AddInv(c: Config, s: Sys, e: Event)
    requires Inv(c, s) && Enabled(c, s, e) && e.AddJob?
    ensures Inv(c, Next(c, s, e))
  {
    var s' := Next(c, s, e);
    forall other | other in s'.jobs && other != e.id ensures TallyOf(s', other) == TallyOf(s, other) {}
  }

  lemma QuietInv(c: Config, s: Sys, e: Event)
    requires Inv(c, s) && Enabled(c, s, e) && (e.Drop? || e.Tick?)
    ensures Inv(c, Next(c, s, e))
  {
  }

  lemma NextInv(c: Config, s: Sys, e: Event)
    requires Inv(c, s) && Timely(c, s) && Enabled(c, s, e)
    ensures Inv(c, Next(c, s, e))
  {
    match e
    case Tick(_) => QuietInv(c, s, e);
    case AddJob(_, _) => AddInv(c, s, e);
    case ClaimJobs(_, _) => ClaimInv(c, s, e);
    case Sweep(_, _) => SweepInv(c, s, e);
    case LoadJob(l) => LoadInv(c, s, l);
    case AcceptJob(l) => AcceptInv(c, s, l);
    case FinishTask(l, next) => FinishInv(c, s, l, next);
    case FailTask(l, jitter) => FailInv(c, s, l, jitter);
    case Drop(_) => QuietInv(c, s, e);
  }

  ghost predicate Possible(c: Config, s: Sys, es: seq<Event>)
    decreases |es|
  {
    es != [] ==> Enabled(c, s, es[0]) && Possible(c, Next(c, s, es[0]), es[1..])
  }

  ghost function Run(c: Config, s: Sys, es: seq<Event>): Sys
    requires Possible(c, s, es)
    decreases |es|
  {
    if es == [] then s else Run(c, Next(c, s, es[0]), es[1..])
  }

  /** No lease is held past its deadline at any step. */
  ghost predicate Punctual(c: Config, s: Sys, es: seq<Event>)
    requires Possible(c, s, es)
    decreases |es|
  {
    es != [] ==> Timely(c, s) && Punctual(c, Next(c, s, es[0]), es[1..])
  }

  lemma {:induction false} RunInv(c: Config, s: Sys, es: seq<Event>)
    requires Inv(c, s) && Possible(c, s, es) && Punctual(c, s, es)
    ensures Inv(c, Run(c, s, es))
    decreases |es|
  {
    if es == [] {
    } else {
      NextInv(c, s, es[0]);
      RunInv(c, Next(c, s, es[0]), es[1..]);
    }
  }

  /** Lease mutual exclusion. */
  lemma AtMostOneHolder(c: Config, s: Sys, es: seq<Event>)
    requires Init(s) && Possible(c, s, es) && Punctual(c, s, es)
    ensures Exclusive(Run(c, s, es)) && HeldIsQueued(Run(c, s, es))
  {
    RunInv(c, s, es);
  }

  /** Retry conservation and the backoff bound. */
  lemma RetriesAreCounted(c: Config, s: Sys, es: seq<Event>, id: JobId)
    requires Init(s) && Possible(c, s, es) && Punctual(c, s, es)
    requires id in Run(c, s, es).jobs
    ensures var s' := Run(c, s, es);
      var j, t := s'.jobs[id], TallyOf(s', id);
      && t.requeues == (if j.name in c.safe then Min(j.failures, c.maxRestarts) else 0)
      && t.delay <= c.backOffMs * (Pow2(c.maxRestarts) - 1)
  {
    RunInv(c, s, es);
    var s' := Run(c, s, es);
    Pow2Monotone(TallyOf(s', id).requeues, c.maxRestarts);
    MulMonotone(c.backOffMs, Pow2(TallyOf(s', id).requeues) - 1, Pow2(c.maxRestarts) - 1);
  }

  lemma {:induction false} Pow2Monotone(a: nat, b: nat)
    requires a <= b
    ensures 0 < Pow2(a) <= Pow2(b)
    decreases b
  {
    if a < b {
      Pow2Monotone(a, b - 1);
    } else if a > 0 {
      Pow2Monotone(a - 1, a - 1);
    }
  }

  lemma MulMonotone(k: nat, a: int, b: int)
    requires a <= b
    ensures k * a <= k * b
  {
  }

  ghost predicate RowsOk(s: Sys) {
    forall id :: id in s.jobs ==> RowOk(s.now, s.jobs[id])
  }

  /** Saving a field or leaving it alone, through whatever instance, puts no timestamp in the future and claims
      no row. */
  lemma SavedRow(now: Time, loaded: Job, given: Job, j: Job)
    requires RowOk(now, j) && (given.queued ==> loaded.queued)
    requires given.acceptedAt == loaded.acceptedAt || given.acceptedAt == Some(now)
    requires given.lastFinishedAt == loaded.lastFinishedAt || given.lastFinishedAt == Some(now)
    ensures RowOk(now, Save(loaded, given, j))
  {
  }

  /** Rows stay so even when leases run out while held, and whatever has become of the row since it was loaded. */
  lemma RowsStep(c: Config, s: Sys, e: Event)
    requires RowsOk(s) && Enabled(c, s, e)
    ensures RowsOk(Next(c, s, e))
  {
    match e
    case Sweep(nextRun, done) =>
      forall id | id in s.jobs ensures RowOk(s.now, Maintain(c, s.now, s.jobs[id], nextRun(id), done)) {
        SweptRow(c, s.now, s.jobs[id], nextRun(id), done);
      }
    case AcceptJob(l) =>
      var job := s.leases[l].phase.job;
      SavedRow(s.now, job, Accept(s.now, job), s.jobs[l.job]);
    case FinishTask(l, next) =>
      var job := s.leases[l].phase.job;
      if job.repeats { SavedRow(s.now, job, Finish(s.now, job, next).value, s.jobs[l.job]); }
    case FailTask(l, jitter) =>
      var job := s.leases[l].phase.job;
      SavedRow(s.now, job, FailJob(c, s.now, job, jitter), s.jobs[l.job]);
    case _ =>
  }

  lemma {:induction false} RowsRun(c: Config, s: Sys, es: seq<Event>)
    requires RowsOk(s) && Possible(c, s, es)
    ensures RowsOk(Run(c, s, es))
    decreases |es|
  {
    if es == [] {
    } else {
      RowsStep(c, s, es[0]);
      RowsRun(c, Next(c, s, es[0]), es[1..]);
    }
  }

  /** A safe row that is still queued after a complete pass. */
  ghost predicate StillQueued(c: Config, s: Sys, next: JobId -> NextRun, id: JobId) {
    && id in s.jobs
    && var j := Next(c, s, Sweep(next, PASS)).jobs[id];
       j.queued && j.name in c.safe && j.deletedAt.None?
  }

  lemma SweptQueued(c: Config, s: Sys, next: JobId -> NextRun, id: JobId)
    requires RowsOk(s) && StillQueued(c, s, next, id)
    ensures var j := s.jobs[id];
      && Next(c, s, Sweep(next, PASS)).jobs[id] == j
      && (ClaimedOrAccepted(c, s.now, j) || Lt(Some(s.now - c.lag), j.lastFinishedAt))
      && (InTurn(j) ==> ClaimedOrAccepted(c, s.now, j))
  {
    SweepBound(c, s.now, s.jobs[id], next(id));
  }

  /** What a safe job still queued after a complete pass owes it to, in every run, punctual or not: a recent claim,
      a recent acceptance, or a recent finish. */
  lemma SweepBoundInRuns(c: Config, s: Sys, es: seq<Event>, next: JobId -> NextRun, id: JobId)
    requires Init(s) && Possible(c, s, es) && StillQueued(c, Run(c, s, es), next, id)
    ensures var s' := Run(c, s, es);
      ClaimedOrAccepted(c, s'.now, s'.jobs[id]) || Lt(Some(s'.now - c.lag), s'.jobs[id].lastFinishedAt)
  {
    RowsInRuns(c, s, es);
    SweptQueued(c, Run(c, s, es), next, id);
  }

  lemma RowsInRuns(c: Config, s: Sys, es: seq<Event>)
    requires Init(s) && Possible(c, s, es)
    ensures RowsOk(Run(c, s, es))
  {
    RowsRun(c, s, es);
  }

  /** In a punctual run a recent finish alone does not keep it queued. */
  lemma SweepBoundPunctual(c: Config, s: Sys, es: seq<Event>, next: JobId -> NextRun, id: JobId)
    requires Init(s) && Possible(c, s, es) && Punctual(c, s, es) && StillQueued(c, Run(c, s, es), next, id)
    ensures var s' := Run(c, s, es); ClaimedOrAccepted(c, s'.now, s'.jobs[id])
  {
    RunInv(c, s, es);
    SweptQueued(c, Run(c, s, es), next, id);
  }

  /** A holder that loaded the row while it was not queued, after a pass had taken its lease back, does not unqueue
      it by finishing: if someone has claimed it since, it stays queued, finished after it was claimed. */
  lemma FinishUnqueuesExactly(c: Config, s: Sys, l: LeaseId, next: Option<Time>)
    requires Enabled(c, s, FinishTask(l, next)) && s.leases[l].phase.job.repeats
    ensures var loaded, row := s.leases[l].phase.job, s.jobs[l.job];
      var j := Next(c, s, FinishTask(l, next)).jobs[l.job];
      && (!j.queued <==> loaded.queued || !row.queued)
      && (loaded.lastFinishedAt != Some(s.now) ==>
            && j.lastFinishedAt == Some(s.now)
            && (j.queued && Lt(row.lastRunAt, Some(s.now)) ==> !InTurn(j)))
  {
  }

  /** Whether one pass and an instant later the job of this lease could be claimed again. */
  ghost predicate Reclaimable(c: Config, s: Sys, next: JobId -> NextRun, l: LeaseId, scheduler: nat) {
    var swept := Next(c, s, Sweep(next, PASS));
    Enabled(c, swept, Tick(s.now + 1)) && Enabled(c, Next(c, swept, Tick(s.now + 1)), ClaimJobs(scheduler, {l.job}))
  }

  /** The assumption is exact: the next pass lets a safe job be claimed a second time if and only if
      its lease has run out. */
  lemma DoubleClaimExactly(c: Config, s: Sys, next: JobId -> NextRun, l: LeaseId, scheduler: nat)
    requires Inv(c, s) && l in s.leases && c.enqueueLimit > 0
    requires s.jobs[l.job].name in c.safe && s.jobs[l.job].name in c.all
    requires c.namespace == "" || s.jobs[l.job].namespace == Some(c.namespace)
    ensures Reclaimable(c, s, next, l, scheduler) <==> s.now >= Deadline(c, s.leases[l])
    ensures Reclaimable(c, s, next, l, scheduler) ==>
              var swept := Next(c, s, Sweep(next, PASS));
              !Exclusive(Next(c, Next(c, swept, Tick(s.now + 1)), ClaimJobs(scheduler, {l.job})))
  {
    var j := s.jobs[l.job];
    SweptExactly(c, s.now, s.leases[l], j);
    if Blocked(c, s.now, j) || Laggy(c, s.now, j) {
      MaintainFrees(c, s.now, j, next(l.job));
      MaintainKeepsName(c, s.now, j, next(l.job));
    } else {
      MaintainSpares(c, s.now, j, next(l.job), PASS);
    }
    if Reclaimable(c, s, next, l, scheduler) {
      var s' := Next(c, Next(c, Next(c, s, Sweep(next, PASS)), Tick(s.now + 1)), ClaimJobs(scheduler, {l.job}));
      var again := LeaseId(scheduler, s.serial, l.job);
      assert l.job in {l.job};
      assert l in s'.leases && again in s'.leases && l != again;
    }
  }

  lemma MaintainKeepsName(c: Config, now: Time, j: Job, next: NextRun)
    ensures var j' := Maintain(c, now, j, next, PASS);
      j'.name == j.name && j'.namespace == j.namespace && j'.deletedAt == j.deletedAt
  {
  }
}
