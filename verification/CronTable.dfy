/**
 The cron job table (cron/store.py) and the schedule arithmetic around it (cron/api.py).
 Every store operation is one SQL statement, so one atomic change of the table.
 Times are integers (the source's timestamps have a fixed resolution).
 */
module CronTable {
  import opened Domain

  type JobId = nat
  type Owner = nat
  type Time = int

  datatype Lease = Lease(owner: Owner, at: Time)

  datatype Job = Job(enabled: bool, next: Time, lastFire: Option<Time>, lease: Option<Lease>)

  predicate Claimable(job: Job, staleBefore: Time) {
    job.lease.None? || job.lease.value.at < staleBefore
  }

  predicate Due(job: Job, now: Time, staleBefore: Time) {
    job.enabled && job.next <= now && Claimable(job, staleBefore)
  }

  predicate MayClaim(jobs: map<JobId, Job>, id: JobId, expectedNext: Time, staleBefore: Time) {
    id in jobs && jobs[id].enabled && jobs[id].next == expectedNext && Claimable(jobs[id], staleBefore)
  }

  function Claimed(jobs: map<JobId, Job>, id: JobId, owner: Owner, now: Time): map<JobId, Job>
    requires id in jobs
  {
    jobs[id := jobs[id].(lease := Some(Lease(owner, now)))]
  }

  /** The unguarded release: whoever holds the lease, it is gone. */
  function Released(jobs: map<JobId, Job>, id: JobId): map<JobId, Job> {
    if id in jobs then jobs[id := jobs[id].(lease := None)] else jobs
  }

  function Completed(jobs: map<JobId, Job>, id: JobId, firedAt: Time, next: Time): map<JobId, Job> {
    if id in jobs then jobs[id := jobs[id].(lastFire := Some(firedAt), next := next, lease := None)] else jobs
  }

  /** Due jobs, earliest first, at most `limit`, and no due job left out before a listed one. */
  ghost predicate IsDueListing(jobs: map<JobId, Job>, now: Time, staleBefore: Time, limit: nat, due: seq<JobId>) {
    |due| <= limit &&
    (forall k :: 0 <= k < |due| ==> due[k] in jobs && Due(jobs[due[k]], now, staleBefore)) &&
    (forall j, k :: 0 <= j < k < |due| ==> due[j] != due[k] && jobs[due[j]].next <= jobs[due[k]].next) &&
    (forall id :: id in jobs && Due(jobs[id], now, staleBefore) && id !in due ==>
      |due| == limit && forall k :: 0 <= k < |due| ==> jobs[due[k]].next <= jobs[id].next)
  }

  class Table {
    var jobs: map<JobId, Job>

    constructor ()
      ensures jobs == map[]
    {
      jobs := map[];
    }

    /** The earliest of the candidate jobs. */
    method Earliest(candidates: set<JobId>) returns (first: JobId)
      requires candidates <= jobs.Keys && candidates != {}
      ensures first in candidates && forall id :: id in candidates ==> jobs[first].next <= jobs[id].next
    {
      first :| first in candidates;
      var rest := candidates - {first};
      while rest != {}
        invariant rest <= candidates && first in candidates
        invariant forall id :: id in candidates - rest ==> jobs[first].next <= jobs[id].next
        decreases rest
      {
        var id :| id in rest;
        if jobs[id].next < jobs[first].next { first := id; }
        rest := rest - {id};
      }
    }

    /** SELECT ... WHERE due ORDER BY next_fire_at LIMIT limit. */
    method ListDue(now: Time, staleBefore: Time, limit: nat) returns (due: seq<JobId>)
      ensures IsDueListing(jobs, now, staleBefore, limit, due)
    {
      var left := set id | id in jobs && Due(jobs[id], now, staleBefore);
      due := [];
      while left != {} && |due| < limit
        invariant |due| <= limit && left <= jobs.Keys
        invariant forall k :: 0 <= k < |due| ==>
          due[k] in jobs && due[k] !in left && Due(jobs[due[k]], now, staleBefore)
        invariant forall j, k :: 0 <= j < k < |due| ==> due[j] != due[k] && jobs[due[j]].next <= jobs[due[k]].next
        invariant forall id :: id in jobs && Due(jobs[id], now, staleBefore) ==> id in left || id in due
        invariant forall id, k :: id in left && 0 <= k < |due| ==> jobs[due[k]].next <= jobs[id].next
        decreases left
      {
        var first := Earliest(left);
        due := due + [first];
        left := left - {first};
      }
    }

    /** Compare-and-swap: take the lease if the row is still as listed and still free. */
    method Claim(id: JobId, expectedNext: Time, owner: Owner, now: Time, staleBefore: Time) returns (won: bool)
      modifies this
      ensures won == MayClaim(old(jobs), id, expectedNext, staleBefore)
      ensures jobs == if won then Claimed(old(jobs), id, owner, now) else old(jobs)
    {
      won := id in jobs && jobs[id].enabled && jobs[id].next == expectedNext && Claimable(jobs[id], staleBefore);
      if won {
        jobs := jobs[id := jobs[id].(lease := Some(Lease(owner, now)))];
      }
    }

    method ReleaseClaim(id: JobId)
      modifies this
      ensures jobs == Released(old(jobs), id)
    {
      if id in jobs {
        jobs := jobs[id := jobs[id].(lease := None)];
      }
    }

    method CompleteFire(id: JobId, firedAt: Time, next: Time)
      modifies this
      ensures jobs == Completed(old(jobs), id, firedAt, next)
    {
      if id in jobs {
        jobs := jobs[id := jobs[id].(lastFire := Some(firedAt), next := next, lease := None)];
      }
    }
  }

  // ----- schedule arithmetic

  /** `next` finds the first slot strictly after its argument. */
  ghost predicate IsSchedule(slot: Time -> bool, next: Time -> Time) {
    forall base :: next(base) > base && slot(next(base)) && forall t :: base < t < next(base) ==> !slot(t)
  }

  ghost function SlotsWithin(slot: Time -> bool, since: Time, now: Time): set<Time> {
    set t: Time | since < t <= now && slot(t)
  }

  lemma OneMoreSlot(slot: Time -> bool, next: Time -> Time, since: Time, at: Time)
    requires IsSchedule(slot, next) && since <= at
    ensures |SlotsWithin(slot, since, next(at))| == |SlotsWithin(slot, since, at)| + 1
  {
    assert SlotsWithin(slot, since, next(at)) == SlotsWithin(slot, since, at) + {next(at)} by {
      forall t | t in SlotsWithin(slot, since, next(at))
        ensures t in SlotsWithin(slot, since, at) + {next(at)} { }
    }
    assert next(at) !in SlotsWithin(slot, since, at);
  }

  lemma MoreTimeMoreSlots(slot: Time -> bool, since: Time, early: Time, late: Time)
    requires early <= late
    ensures |SlotsWithin(slot, since, early)| <= |SlotsWithin(slot, since, late)|
  {
    var extra := SlotsWithin(slot, since, late) - SlotsWithin(slot, since, early);
    assert SlotsWithin(slot, since, late) == SlotsWithin(slot, since, early) + extra;
  }

  /**
   How many scheduled runs a firing coalesces: the slots in (since, now] beyond the one
   being fired, never below zero and never above the cap, although the loop stops early.
   */
  method CountMissed(next: Time -> Time, since: Time, now: Time, cap: int, ghost slot: Time -> bool)
    returns (missed: int)
    requires IsSchedule(slot, next)
    ensures missed <= cap
    ensures missed < cap ==>
              missed == if SlotsWithin(slot, since, now) == {} then 0 else |SlotsWithin(slot, since, now)| - 1
    ensures missed == cap ==> cap <= 0 || cap < |SlotsWithin(slot, since, now)|
  {
    var slots, at := 0, since;
    assert SlotsWithin(slot, since, since) == {};
    while true
      invariant since <= at && slots == |SlotsWithin(slot, since, at)|
      invariant at <= now || (at == since && SlotsWithin(slot, since, now) == {})
      invariant at <= now || slots == 0
      decreases now - at
    {
      var upcoming := next(at);
      if upcoming > now || slots > cap {
        break;
      }
      OneMoreSlot(slot, next, since, at);
      slots := slots + 1;
      at := upcoming;
    }
    if at <= now {
      MoreTimeMoreSlots(slot, since, at, now);
      if next(at) > now {
        assert SlotsWithin(slot, since, now) == SlotsWithin(slot, since, at);
      }
    }
    missed := if slots < 1 then 0 else slots - 1;
    missed := if missed < cap then missed else cap;
  }
}
