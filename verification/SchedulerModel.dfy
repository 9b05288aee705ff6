/** Job rows, the queries over them and the updates to them (packages/scheduler-sequelize/src). */
module SchedulerModel {
  import opened Wrappers

  type Time = int

  type JobId = string

  /** A row of the jobs table; `repeats` says whether repeatInterval is set. */
  datatype Job = Job(name: string, namespace: Option<string>, repeats: bool, queued: bool, failures: nat,
                     nextRunAt: Option<Time>, lastRunAt: Option<Time>, acceptedAt: Option<Time>,
                     lastFinishedAt: Option<Time>,
                     failedAt: Option<Time>, deletedAt: Option<Time>)

  datatype Config = Config(lag: nat, blocked: nat, safe: set<string>, risky: set<string>, custom: map<string, nat>,
                           all: set<string>, namespace: string, enqueueLimit: nat, backOffMs: nat, maxRestarts: nat)

  /** What computing the next run of a recurrence comes to: a throw, or a date; none when the rule has no
      occurrence within six months. */
  datatype NextRun = Uncomputable | Computed(at: Option<Time>)

  const MAINTENANCE := "check"

  /** SQL comparisons: never true of a null. */
  predicate Le(a: Option<Time>, b: Option<Time>) {
    a.Some? && b.Some? && a.value <= b.value
  }

  predicate Lt(a: Option<Time>, b: Option<Time>) {
    a.Some? && b.Some? && a.value < b.value
  }

  /** The 'blocked' scope: queued long ago and not accepted since. */
  predicate Blocked(c: Config, now: Time, j: Job) {
    && j.queued && j.deletedAt.None?
    && (Le(j.acceptedAt, j.lastRunAt) || j.acceptedAt.None?)
    && Le(j.lastRunAt, Some(now - c.blocked))
  }

  /** The 'laggy' scope: accepted long ago and not finished since. */
  predicate Laggy(c: Config, now: Time, j: Job) {
    && j.queued
    && Lt(j.lastRunAt, j.acceptedAt)
    && (Le(j.lastFinishedAt, Some(now - c.lag)) || j.lastFinishedAt.None?)
    && Le(j.acceptedAt, Some(now - c.lag))
  }

  /** What the enqueue query selects. */
  predicate Claimable(c: Config, now: Time, j: Job) {
    && !j.queued && j.name in c.all && Lt(j.nextRunAt, Some(now)) && j.deletedAt.None?
    && (c.namespace == "" || j.namespace == Some(c.namespace))
  }

  function Claim(now: Time, j: Job): Job {
    j.(queued := true, lastRunAt := Some(now))
  }

  /** An instance's update, which writes only the fields that differ from what the instance holds. */
  function Save(loaded: Job, given: Job, row: Job): Job {
    row.(queued := if given.queued != loaded.queued then given.queued else row.queued,
         failures := if given.failures != loaded.failures then given.failures else row.failures,
         nextRunAt := if given.nextRunAt != loaded.nextRunAt then given.nextRunAt else row.nextRunAt,
         acceptedAt := if given.acceptedAt != loaded.acceptedAt then given.acceptedAt else row.acceptedAt,
         lastFinishedAt := if given.lastFinishedAt != loaded.lastFinishedAt then given.lastFinishedAt
                           else row.lastFinishedAt,
         failedAt := if given.failedAt != loaded.failedAt then given.failedAt else row.failedAt)
  }

  /** What becomes of one column of the row: an update sends it only if it changes the instance's value. */
  function Sent<T(==)>(loaded: T, given: T, row: T): T {
    if given == loaded then row else given
  }

  /** updateStartTask. */
  function Accept(now: Time, j: Job): Job {
    j.(acceptedAt := Some(now))
  }

  /** An update leaves a column alone that it is given no value for. */
  function Given(next: Option<Time>, nextRunAt: Option<Time>): Option<Time> {
    if next.Some? then next else nextRunAt
  }

  /** updateFinishTask: a one-shot job is destroyed. */
  function Finish(now: Time, j: Job, next: Option<Time>): Option<Job> {
    if !j.repeats then None
    else Some(j.(queued := false, nextRunAt := Given(next, j.nextRunAt), lastFinishedAt := Some(now), failures := 0,
                 failedAt := None))
  }

  function Pow2(n: nat): nat {
    if n == 0 then 1 else 2 * Pow2(n - 1)
  }

  function Round(x: real): int {
    (x + 0.5).Floor
  }

  function Scale(jitter: real, delay: nat): real {
    jitter * delay as real
  }

  function RetryDelay(attempt: nat, backoff: nat, jitter: real): int {
    Round(Scale(jitter, backoff * Pow2(attempt)))
  }

  /** Math.random(). */
  predicate IsJitter(jitter: real) {
    0.0 <= jitter < 1.0
  }

  lemma NonNegative(a: real, b: real)
    requires a >= 0.0 && b >= 0.0
    ensures a * b >= 0.0
  {
  }

  lemma ScaleBound(jitter: real, delay: nat)
    requires IsJitter(jitter)
    ensures 0.0 <= Scale(jitter, delay) <= delay as real
  {
    NonNegative(jitter, delay as real);
    NonNegative(1.0 - jitter, delay as real);
  }

  lemma RoundBound(x: real, top: nat)
    requires 0.0 <= x <= top as real
    ensures 0 <= Round(x) <= top
  {
  }

  /** The delay is the jittered share of the backoff doubled once per attempt, to the nearest millisecond. */
  lemma RetryDelayBound(attempt: nat, backoff: nat, jitter: real)
    requires IsJitter(jitter)
    ensures 0 <= RetryDelay(attempt, backoff, jitter) <= backoff * Pow2(attempt)
    ensures var exact := jitter * (backoff * Pow2(attempt)) as real;
      exact - 0.5 < RetryDelay(attempt, backoff, jitter) as real <= exact + 0.5
  {
    ScaleBound(jitter, backoff * Pow2(attempt));
    RoundBound(Scale(jitter, backoff * Pow2(attempt)), backoff * Pow2(attempt));
  }

  lemma {:induction false} Pow2Doubles(a: nat, b: nat)
    ensures Pow2(0) == 1 && Pow2(1) == 2
    ensures Pow2(a + b) == Pow2(a) * Pow2(b)
    decreases b
  {
    if b == 0 {
    } else {
      Pow2Doubles(a, b - 1);
      assert Pow2(a) * (2 * Pow2(b - 1)) == 2 * (Pow2(a) * Pow2(b - 1));
    }
  }

  predicate Restartable(c: Config, name: string, failures: nat) {
    failures < c.maxRestarts && name in c.safe
  }

  /** updateFailure. */
  function FailJob(c: Config, now: Time, j: Job, jitter: real): Job {
    var failed := j.(failures := j.failures + 1, failedAt := Some(now));
    if Restartable(c, j.name, j.failures) then
      failed.(queued := false, nextRunAt := Some(now + RetryDelay(j.failures, c.backOffMs, jitter)))
    else failed
  }

  /** Through an instance that agrees with the row, an update is as good as an update of the row. */
  lemma SaveAgreeing(c: Config, now: Time, j: Job, next: Option<Time>, jitter: real)
    ensures Save(j, Accept(now, j), j) == Accept(now, j)
    ensures j.repeats ==> Save(j, Finish(now, j, next).value, j) == Finish(now, j, next).value
    ensures Save(j, FailJob(c, now, j, jitter), j) == FailJob(c, now, j, jitter)
  {
  }

  /** A finished job is due again only after its next run, or after its last one if there is no next; a failed one
      after its delay if it is restarted; one that is not stays claimed. */
  lemma DueAgainExactly(c: Config, now: Time, j: Job, next: Option<Time>, jitter: real, at: Time)
    requires j.queued && j.deletedAt.None? && j.name in c.all
    requires c.namespace == "" || j.namespace == Some(c.namespace)
    ensures j.repeats ==>
              (Claimable(c, at, Finish(now, j, next).value) <==>
               if next.Some? then next.value < at else Lt(j.nextRunAt, Some(at)))
    ensures Claimable(c, at, FailJob(c, now, j, jitter)) <==>
            Restartable(c, j.name, j.failures) && now + RetryDelay(j.failures, c.backOffMs, jitter) < at
  {
  }

  /** A repeating job that has been claimed, accepted and finished can be claimed again exactly after its next run,
      or at once when its rule has no occurrence within six months. */
  lemma ClaimedAgainExactly(c: Config, claimed: Time, accepted: Time, finished: Time, j: Job, next: Option<Time>,
                            at: Time)
    requires Claimable(c, claimed, j) && j.repeats && claimed <= at
    ensures Claimable(c, at, Finish(finished, Accept(accepted, Claim(claimed, j)), next).value) <==>
            next.None? || next.value < at
  {
    DueAgainExactly(c, finished, Accept(accepted, Claim(claimed, j)), next, 0.0, at);
  }

  /** resetJob; computing the next run of a bad interval throws, which leaves the row alone. */
  function Reset(j: Job, next: NextRun): Job {
    if j.repeats && next.Computed? then j.(queued := false, nextRunAt := Given(next.at, j.nextRunAt)) else j
  }

  function FreeBlocked(c: Config, now: Time, j: Job): Job {
    if Blocked(c, now, j) && j.name in c.safe then j.(nextRunAt := Some(now), queued := false, failures := 0) else j
  }

  function ResetBlocked(c: Config, now: Time, j: Job, next: NextRun): Job {
    if Blocked(c, now, j) && j.name in c.risky then Reset(j, next) else j
  }

  function FreeLaggy(c: Config, now: Time, j: Job): Job {
    if Laggy(c, now, j) && j.name in c.safe then
      j.(lastFinishedAt := Some(now), nextRunAt := Some(now), queued := false)
    else j
  }

  /** Laggy jobs with a restart rule of their own that has not run out. */
  predicate CustomRestart(c: Config, now: Time, j: Job) {
    && Laggy(c, now, j) && j.name != MAINTENANCE
    && j.name in c.custom && j.acceptedAt.value + c.custom[j.name] > now
  }

  predicate Notified(c: Config, now: Time, j: Job) {
    Laggy(c, now, j) && j.name != MAINTENANCE && j.name !in c.custom
  }

  function ResetLaggy(c: Config, now: Time, j: Job, next: NextRun): Job {
    if CustomRestart(c, now, j) then Reset(j, next) else j
  }

  /** A complete maintenance pass has four statements that change rows. */
  const PASS: nat := 4

  /** The two statements for blocked jobs, and the two for laggy jobs after them; the first `done` statements of a
      pass take effect before one fails. */
  function MaintainBlocked(c: Config, now: Time, j: Job, next: NextRun, done: nat): Job {
    if done < 1 then j
    else if done < 2 then FreeBlocked(c, now, j)
    else ResetBlocked(c, now, FreeBlocked(c, now, j), next)
  }

  function MaintainLaggy(c: Config, now: Time, j: Job, next: NextRun, done: nat): Job {
    if done < 3 then j
    else if done < PASS then FreeLaggy(c, now, j)
    else ResetLaggy(c, now, FreeLaggy(c, now, j), next)
  }

  /** One maintenance pass over one row. */
  function Maintain(c: Config, now: Time, j: Job, next: NextRun, done: nat): Job {
    MaintainLaggy(c, now, MaintainBlocked(c, now, j, next, done), next, done)
  }

  /** The laggy jobs reported are those that were laggy to begin with and were not freed. */
  lemma NotifiedAfter(c: Config, now: Time, j: Job, next: NextRun)
    ensures Notified(c, now, Maintain(c, now, j, next, 3)) <==> Notified(c, now, j) && j.name !in c.safe
  {
  }

  lemma NeverBoth(c: Config, now: Time, j: Job)
    ensures !(Blocked(c, now, j) && Laggy(c, now, j))
  {
  }

  /** A pass leaves alone whatever is in neither scope. */
  lemma MaintainSpares(c: Config, now: Time, j: Job, next: NextRun, done: nat)
    requires !Blocked(c, now, j) && !Laggy(c, now, j)
    ensures Maintain(c, now, j, next, done) == j
  {
  }

  /** A complete pass frees every safe row that is in either scope, to be claimed at once. */
  lemma MaintainFrees(c: Config, now: Time, j: Job, next: NextRun)
    requires j.name in c.safe && (Blocked(c, now, j) || Laggy(c, now, j))
    ensures var j' := Maintain(c, now, j, next, PASS); !j'.queued && j'.nextRunAt == Some(now)
  {
  }

  /** Claimed within the blocked time, or accepted within the lag. */
  predicate ClaimedOrAccepted(c: Config, now: Time, j: Job) {
    Lt(Some(now - c.blocked), j.lastRunAt) || Lt(Some(now - c.lag), j.acceptedAt)
  }

  /** What a safe job still queued after a complete pass at `now` owes it to. */
  lemma SweepBound(c: Config, now: Time, j: Job, next: NextRun)
    requires j.queued ==> j.lastRunAt.Some?
    requires var j' := Maintain(c, now, j, next, PASS); j'.queued && j'.name in c.safe && j'.deletedAt.None?
    ensures ClaimedOrAccepted(c, now, j) || Lt(Some(now - c.lag), j.lastFinishedAt)
    ensures Maintain(c, now, j, next, PASS) == j
  {
    if Blocked(c, now, j) || Laggy(c, now, j) {
      MaintainFrees(c, now, j, next);
      assert false;
    }
    MaintainSpares(c, now, j, next, PASS);
  }

  /** A laggy job is neither changed nor reported by a complete pass exactly when it is not safe to restart and
      is the maintenance job itself, or has a restart rule that has run out or cannot be applied. */
  lemma LeftSilentExactly(c: Config, now: Time, j: Job, next: NextRun)
    requires Laggy(c, now, j)
    ensures Maintain(c, now, j, next, PASS) == j && !Notified(c, now, Maintain(c, now, j, next, 3)) <==>
            && j.name !in c.safe
            && (j.name == MAINTENANCE
                || (j.name in c.custom
                    && (j.acceptedAt.value + c.custom[j.name] <= now || !j.repeats || next.Uncomputable?)))
  {
    NotifiedAfter(c, now, j, next);
    NeverBoth(c, now, j);
  }

  /** Once its restart rule has run out, no later pass changes or reports such a job. */
  lemma SilentForGood(c: Config, now: Time, j: Job, later: Time, next: NextRun)
    requires Laggy(c, now, j) && j.name !in c.safe && j.name in c.custom && now <= later
    requires j.acceptedAt.value + c.custom[j.name] <= now
    ensures Laggy(c, later, j) && Maintain(c, later, j, next, PASS) == j
    ensures !Notified(c, later, Maintain(c, later, j, next, 3))
  {
    LeftSilentExactly(c, later, j, next);
  }
}
