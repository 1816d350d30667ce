/**
 One scheduling pass (cron/scheduler.py, `tick` and `_fire`) on a table nobody else is
 using: which rows it touches, and when each fired job comes up again. What happens when
 several schedulers interleave is the subject of CronLease.
 */
module CronScheduler {
  import opened Domain
  import opened CronTable

  /** How waking a dialog ends; Unrecorded is a delivery whose bookkeeping then failed. */
  datatype Wake = Delivered | NotOurs | LimitReached | Raised | Unrecorded

  /** The row of a due job once it was fired. */
  function FiredRow(job: Job, wake: Wake, owner: Owner, now: Time, next: Time): Job {
    match wake
    case Delivered => job.(lastFire := Some(now), next := next, lease := None)
    case NotOurs => job.(lease := None)
    case Raised => job.(lease := None)
    case LimitReached => job.(lease := Some(Lease(owner, now)))
    case Unrecorded => job.(lease := Some(Lease(owner, now)))
  }

  /**
   When a fired job is due again: after a delivery at its next slot; at once if the dialog
   was elsewhere or the wake raised; only when the lease is stale if the process limit was hit
   or the completion was not recorded.
   */
  lemma DueAgainIff(job: Job, wake: Wake, owner: Owner, now: Time, next: Time, later: Time, ttl: Time)
    requires Due(job, now, now - ttl) && later >= now && next > now
    ensures
      var again := Due(FiredRow(job, wake, owner, now, next), later, later - ttl);
      match wake
      case Delivered => again <==> later >= next
      case NotOurs => again
      case Raised => again
      case LimitReached => again <==> later > now + ttl
      case Unrecorded => again <==> later > now + ttl
  {
  }

  /** The outside world of a tick: how each wake ends, and each job's slots. */
  datatype World = World(wake: JobId -> Wake, slot: (JobId, Time) -> Time)

  function Fired(jobs: map<JobId, Job>, w: World, owner: Owner, now: Time, ids: set<JobId>): map<JobId, Job> {
    map id | id in jobs ::
      if id in ids then FiredRow(jobs[id], w.wake(id), owner, now, w.slot(id, now)) else jobs[id]
  }

  class Scheduler {
    const owner: Owner
    const ttl: Time
    const replayLimit: nat
    const table: Table

    constructor (owner: Owner, ttl: Time, replayLimit: nat, table: Table)
      ensures this.owner == owner && this.ttl == ttl && this.replayLimit == replayLimit && this.table == table
    {
      this.owner, this.ttl, this.replayLimit, this.table := owner, ttl, replayLimit, table;
    }

    /** `_fire`: the compare-and-swap fails on a row that is no longer as it was listed. */
    method Fire(id: JobId, expectedNext: Time, now: Time, staleBefore: Time, w: World)
      modifies table
      ensures table.jobs ==
              if MayClaim(old(table.jobs), id, expectedNext, staleBefore)
              then old(table.jobs)[id := FiredRow(old(table.jobs)[id], w.wake(id), owner, now, w.slot(id, now))]
              else old(table.jobs)
    {
      var claimed := table.Claim(id, expectedNext, owner, now, staleBefore);
      if !claimed {
        return;
      }
      match w.wake(id)
      case Raised => table.ReleaseClaim(id);
      case NotOurs => table.ReleaseClaim(id);
      case LimitReached =>
      case Unrecorded =>
      case Delivered => table.CompleteFire(id, now, w.slot(id, now));
    }

    /** `tick`: every listed job is fired exactly once, every other row is left alone. */
    method Tick(now: Time, w: World) returns (due: seq<JobId>)
      modifies table
      ensures IsDueListing(old(table.jobs), now, now - ttl, replayLimit, due)
      ensures table.jobs == Fired(old(table.jobs), w, owner, now, set id | id in due)
    {
      var staleBefore := now - ttl;
      due := table.ListDue(now, staleBefore, replayLimit);
      ghost var was := table.jobs;
      var listed := seq(|due|, i requires 0 <= i < |due| && due[i] in table.jobs reads table =>
        table.jobs[due[i]].next);
      var i := 0;
      while i < |due|
        invariant 0 <= i <= |due|
        invariant table.jobs == Fired(was, w, owner, now, set id | id in due[..i])
      {
        assert due[i] !in due[..i];
        Fire(due[i], listed[i], now, staleBefore, w);
        assert due[..i + 1] == due[..i] + [due[i]];
        i := i + 1;
      }
      assert due[..i] == due;
    }
  }
}
