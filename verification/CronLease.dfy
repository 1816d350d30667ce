/**
 Many schedulers sharing one job table (cron/scheduler.py). Releases and completions do
 not check whose lease they drop; that they only ever drop their own rests on timing: a
 tick is cut off `cut` time units after it began, and a lease goes stale `ttl` after it was
 taken. The source uses the same number for both.
 */
module CronLease {
  import opened Domain
  import opened CronTable

  type TickId = nat

  /** What a tick is doing between two awaits. */
  datatype Phase =
    | Begun
    | Stamped(fired: Time)
    | Looping(fired: Time, due: seq<(JobId, Time)>)
    | Holding(fired: Time, due: seq<(JobId, Time)>, job: JobId, expected: Time)

  datatype Tick = Tick(owner: Owner, started: Time, phase: Phase)

  /** `used` and `slots` are history: ids ever created, and slots completed per job. */
  datatype State = State(now: Time, jobs: map<JobId, Job>, ticks: map<TickId, Tick>, used: set<JobId>,
                         slots: map<JobId, seq<Time>>)

  /** `slot` stands for the cron expressions: the first slot of a job strictly after a time. */
  datatype Config = Config(ttl: Time, cut: Time, limit: nat, slot: (JobId, Time) -> Time)

  ghost predicate WellTimed(c: Config) {
    forall j, t :: c.slot(j, t) > t
  }

  datatype Label =
    | Advance(d: nat)
    | StartTick(k: TickId, owner: Owner)
    | ReadClock(k: TickId)
    | ListDue(k: TickId, ids: seq<JobId>)
    | TryClaim(k: TickId)
    | Release(k: TickId)
    | Keep(k: TickId)
    | Complete(k: TickId)
    | EndTick(k: TickId)
    | Create(j: JobId, next: Time)
    | Delete(j: JobId)
    | SetEnabled(j: JobId, enabled: bool, moveTo: Option<Time>)
    | RecordResult(j: JobId, retryAt: Option<Time>)

  ghost predicate Enabled(c: Config, s: State, l: Label) {
    match l
    case Advance(d) => forall k :: k in s.ticks ==> s.now + d <= s.ticks[k].started + c.cut
    case StartTick(k, owner) => k !in s.ticks && c.cut >= 0
    case ReadClock(k) => k in s.ticks && s.ticks[k].phase.Begun?
    case ListDue(k, ids) =>
      k in s.ticks && s.ticks[k].phase.Stamped? &&
      var fired := s.ticks[k].phase.fired;
      IsDueListing(s.jobs, fired, fired - c.ttl, c.limit, ids)
    case TryClaim(k) => k in s.ticks && s.ticks[k].phase.Looping? && s.ticks[k].phase.due != []
    case Release(k) => k in s.ticks && s.ticks[k].phase.Holding?
    case Keep(k) => k in s.ticks && s.ticks[k].phase.Holding?
    case Complete(k) => k in s.ticks && s.ticks[k].phase.Holding?
    case EndTick(k) => k in s.ticks
    case Create(j, next) => j !in s.used
    case Delete(j) => j in s.jobs
    case SetEnabled(j, _, _) => j in s.jobs
    case RecordResult(j, _) => true
  }

  function WithPhase(s: State, k: TickId, phase: Phase): State
    requires k in s.ticks
  {
    s.(ticks := s.ticks[k := s.ticks[k].(phase := phase)])
  }

  function Listed(jobs: map<JobId, Job>, ids: seq<JobId>): seq<(JobId, Time)>
    requires forall i :: 0 <= i < |ids| ==> ids[i] in jobs
  {
    seq(|ids|, i requires 0 <= i < |ids| => (ids[i], jobs[ids[i]].next))
  }

  function Claiming(c: Config, s: State, k: TickId): State
    requires k in s.ticks && s.ticks[k].phase.Looping? && s.ticks[k].phase.due != []
  {
    var tick := s.ticks[k];
    var fired := tick.phase.fired;
    var (id, expected) := tick.phase.due[0];
    var rest := tick.phase.due[1..];
    if MayClaim(s.jobs, id, expected, fired - c.ttl)
    then WithPhase(s, k, Holding(fired, rest, id, expected)).(jobs := Claimed(s.jobs, id, tick.owner, fired))
    else WithPhase(s, k, Looping(fired, rest))
  }

  /** Back to the loop with the next due job. */
  function Resume(s: State, k: TickId): State
    requires k in s.ticks && s.ticks[k].phase.Holding?
  {
    WithPhase(s, k, Looping(s.ticks[k].phase.fired, s.ticks[k].phase.due))
  }

  function Completing(c: Config, s: State, k: TickId): State
    requires k in s.ticks && s.ticks[k].phase.Holding?
  {
    var phase := s.ticks[k].phase;
    var id := phase.job;
    var done := if id in s.slots then s.slots[id] else [];
    Resume(s, k).(jobs := Completed(s.jobs, id, phase.fired, c.slot(id, phase.fired)),
                  slots := if id in s.jobs then s.slots[id := done + [s.jobs[id].next]] else s.slots)
  }

  ghost function Apply(c: Config, s: State, l: Label): State
    requires Enabled(c, s, l)
  {
    match l
    case Advance(d) => s.(now := s.now + d)
    case StartTick(k, owner) => s.(ticks := s.ticks[k := Tick(owner, s.now, Begun)])
    case ReadClock(k) => WithPhase(s, k, Stamped(s.now))
    case ListDue(k, ids) => WithPhase(s, k, Looping(s.ticks[k].phase.fired, Listed(s.jobs, ids)))
    case TryClaim(k) => Claiming(c, s, k)
    case Release(k) => Resume(s, k).(jobs := Released(s.jobs, s.ticks[k].phase.job))
    case Keep(k) => Resume(s, k)
    case Complete(k) => Completing(c, s, k)
    case EndTick(k) => s.(ticks := s.ticks - {k})
    case Create(j, next) =>
      s.(jobs := s.jobs[j := Job(true, next, None, None)], used := s.used + {j})
    case Delete(j) => s.(jobs := s.jobs - {j})
    case SetEnabled(j, enabled, moveTo) =>
      var next := if moveTo.Some? then moveTo.value else s.jobs[j].next;
      s.(jobs := s.jobs[j := s.jobs[j].(enabled := enabled, next := next)])
    case RecordResult(j, retryAt) =>
      if j in s.jobs && retryAt.Some? then s.(jobs := s.jobs[j := s.jobs[j].(next := retryAt.value)]) else s
  }

  ghost predicate Valid(c: Config, s: State, labels: seq<Label>)
    decreases |labels|
  {
    labels == [] || (Enabled(c, s, labels[0]) && Valid(c, Apply(c, s, labels[0]), labels[1..]))
  }

  ghost function End(c: Config, s: State, labels: seq<Label>): State
    requires Valid(c, s, labels)
    decreases |labels|
  {
    if labels == [] then s else End(c, Apply(c, s, labels[0]), labels[1..])
  }

  /** No schedulers running yet; any jobs, leases included. */
  predicate Initial(s: State) {
    s.ticks == map[] && s.used == s.jobs.Keys && s.slots == map[]
  }

  predicate Holds(s: State, k: TickId, j: JobId) {
    k in s.ticks && s.ticks[k].phase.Holding? && s.ticks[k].phase.job == j
  }

  ghost predicate Exclusive(s: State) {
    forall k, l, j :: j in s.jobs && Holds(s, k, j) && Holds(s, l, j) ==> k == l
  }

  // ----- mutual exclusion

  ghost predicate TickTimed(c: Config, s: State, tick: Tick) {
    tick.started <= s.now <= tick.started + c.cut &&
    (!tick.phase.Begun? ==> tick.started <= tick.phase.fired <= s.now)
  }

  /** The row names this tick: its owner, and the very moment it fired. */
  predicate LeaseIsOwn(s: State, k: TickId)
    requires k in s.ticks && s.ticks[k].phase.Holding?
  {
    var tick := s.ticks[k];
    tick.phase.job in s.jobs ==> s.jobs[tick.phase.job].lease == Some(Lease(tick.owner, tick.phase.fired))
  }

  ghost predicate Inv(c: Config, s: State) {
    (forall k :: k in s.ticks ==> TickTimed(c, s, s.ticks[k])) &&
    (forall k :: k in s.ticks && s.ticks[k].phase.Holding? ==> LeaseIsOwn(s, k) && s.ticks[k].phase.job in s.used) &&
    Exclusive(s) && s.jobs.Keys <= s.used
  }

  /** A lease held by a tick that has not been cut off can be taken by nobody. */
  lemma HeldIsNotClaimable(c: Config, s: State, k: TickId, fired: Time)
    requires Inv(c, s) && c.cut <= c.ttl && k in s.ticks && s.ticks[k].phase.Holding? && fired <= s.now
    requires s.ticks[k].phase.job in s.jobs
    ensures !Claimable(s.jobs[s.ticks[k].phase.job], fired - c.ttl)
  {
    assert TickTimed(c, s, s.ticks[k]) && LeaseIsOwn(s, k);
  }

  lemma ClaimKeepsInv(c: Config, s: State, k: TickId)
    requires Inv(c, s) && c.cut <= c.ttl && Enabled(c, s, TryClaim(k))
    ensures Inv(c, Claiming(c, s, k))
  {
    var s' := Claiming(c, s, k);
    var (id, expected) := s.ticks[k].phase.due[0];
    assert TickTimed(c, s, s.ticks[k]);
    forall l | l in s.ticks && s.ticks[l].phase.Holding? && id in s.jobs && s.ticks[l].phase.job == id
      ensures !Claimable(s.jobs[id], s.ticks[k].phase.fired - c.ttl)
    {
      HeldIsNotClaimable(c, s, l, s.ticks[k].phase.fired);
    }
    forall l | l in s'.ticks ensures TickTimed(c, s', s'.ticks[l]) { assert TickTimed(c, s, s.ticks[l]); }
    forall l | l in s'.ticks && s'.ticks[l].phase.Holding?
      ensures LeaseIsOwn(s', l) && s'.ticks[l].phase.job in s'.used
    {
      if l != k { assert LeaseIsOwn(s, l); }
    }
    forall a, b, j | j in s'.jobs && Holds(s', a, j) && Holds(s', b, j) ensures a == b {
      if a != k && b != k { assert Holds(s, a, j) && Holds(s, b, j); }
    }
  }

  /** A tick giving up its lease: the row it writes named nobody else. */
  lemma DropKeepsInv(c: Config, s: State, s': State, k: TickId)
    requires Inv(c, s) && k in s.ticks && s.ticks[k].phase.Holding?
    requires s'.now == s.now && s'.used == s.used && s'.ticks == Resume(s, k).ticks && s'.jobs.Keys == s.jobs.Keys
    requires forall j :: j in s.jobs && j != s.ticks[k].phase.job ==> s'.jobs[j] == s.jobs[j]
    ensures Inv(c, s')
  {
    forall l | l in s'.ticks ensures TickTimed(c, s', s'.ticks[l]) { assert TickTimed(c, s, s.ticks[l]); }
    forall l | l in s'.ticks && s'.ticks[l].phase.Holding?
      ensures LeaseIsOwn(s', l) && s'.ticks[l].phase.job in s'.used
    {
      assert LeaseIsOwn(s, l);
      assert Holds(s, l, s.ticks[l].phase.job) && Holds(s, k, s.ticks[k].phase.job);
    }
    forall a, b, j | j in s'.jobs && Holds(s', a, j) && Holds(s', b, j) ensures a == b {
      assert Holds(s, a, j) && Holds(s, b, j);
    }
  }

  /** Steps that move no tick into or out of a lease and write no lease. */
  lemma QuietKeepsInv(c: Config, s: State, s': State)
    requires Inv(c, s) && s.used <= s'.used && s'.jobs.Keys <= s'.used
    requires forall j :: j in s'.jobs ==> j in s.jobs || j !in s.used
    requires forall j :: j in s'.jobs && j in s.jobs ==> s'.jobs[j].lease == s.jobs[j].lease
    requires forall k :: k in s'.ticks ==> TickTimed(c, s', s'.ticks[k])
    requires forall k :: k in s'.ticks && s'.ticks[k].phase.Holding? ==> k in s.ticks && s'.ticks[k] == s.ticks[k]
    ensures Inv(c, s')
  {
    forall k | k in s'.ticks && s'.ticks[k].phase.Holding?
      ensures LeaseIsOwn(s', k) && s'.ticks[k].phase.job in s'.used
    {
      assert LeaseIsOwn(s, k);
    }
    forall a, b, j | j in s'.jobs && Holds(s', a, j) && Holds(s', b, j) ensures a == b {
      assert Holds(s, a, j) && Holds(s, b, j);
    }
  }

  lemma StepKeepsInv(c: Config, s: State, l: Label)
    requires Inv(c, s) && c.cut <= c.ttl && Enabled(c, s, l)
    ensures Inv(c, Apply(c, s, l))
  {
    assert forall k :: k in s.ticks ==> TickTimed(c, s, s.ticks[k]);
    match l
    case TryClaim(k) => ClaimKeepsInv(c, s, k);
    case Release(k) => DropKeepsInv(c, s, Apply(c, s, l), k);
    case Keep(k) => DropKeepsInv(c, s, Apply(c, s, l), k);
    case Complete(k) => DropKeepsInv(c, s, Apply(c, s, l), k);
    case _ => QuietKeepsInv(c, s, Apply(c, s, l));
  }

  lemma {:induction false} RunKeepsInv(c: Config, s: State, labels: seq<Label>)
    requires Inv(c, s) && c.cut <= c.ttl && Valid(c, s, labels)
    ensures Inv(c, End(c, s, labels))
    decreases |labels|
  {
    if labels != [] {
      StepKeepsInv(c, s, labels[0]);
      RunKeepsInv(c, Apply(c, s, labels[0]), labels[1..]);
    }
  }

  /**
   With ticks cut off no later than leases go stale, for any number of schedulers and any
   interleaving: no job's lease is held twice, and whenever a tick is about to release or
   complete a job, the lease in the row is its own.
   */
  lemma LeasesAreExclusive(c: Config, s: State, labels: seq<Label>)
    requires Initial(s) && c.cut <= c.ttl && Valid(c, s, labels)
    ensures Exclusive(End(c, s, labels))
    ensures
      var s' := End(c, s, labels);
      forall k :: k in s'.ticks && s'.ticks[k].phase.Holding? ==> LeaseIsOwn(s', k)
  {
    RunKeepsInv(c, s, labels);
  }

  // ----- the cut-off is exactly what makes it safe

  ghost predicate Step(c: Config, s: State, l: Label, s': State) {
    Enabled(c, s, l) && s' == Apply(c, s, l)
  }

  ghost predicate IsTrace(c: Config, states: seq<State>, labels: seq<Label>) {
    |states| == |labels| + 1 && forall k :: 0 <= k < |labels| ==> Step(c, states[k], labels[k], states[k + 1])
  }

  lemma {:induction false} TraceIsRun(c: Config, states: seq<State>, labels: seq<Label>)
    requires IsTrace(c, states, labels)
    ensures Valid(c, states[0], labels) && End(c, states[0], labels) == states[|labels|]
    decreases |labels|
  {
    if labels != [] {
      TraceIsRun(c, states[1..], labels[1..]);
    }
  }

  lemma JoinTraces(c: Config, a: seq<State>, la: seq<Label>, b: seq<State>, lb: seq<Label>)
    requires IsTrace(c, a, la) && IsTrace(c, b, lb) && a[|la|] == b[0]
    ensures IsTrace(c, a + b[1..], la + lb)
  {
    var states, labels := a + b[1..], la + lb;
    forall k | 0 <= k < |labels| ensures Step(c, states[k], labels[k], states[k + 1]) {
      if k < |la| {
        assert Step(c, a[k], la[k], a[k + 1]);
      } else {
        assert Step(c, b[k - |la|], lb[k - |la|], b[k - |la| + 1]);
      }
    }
  }

  function GrabLabels(k: TickId): seq<Label> {
    [StartTick(k, k), ReadClock(k), ListDue(k, [0]), TryClaim(k)]
  }

  const OVERDUE := Job(true, 0, None, None)

  /** A tick starting now takes the only job, which is due and claimable. */
  lemma Grab(c: Config, s: State, k: TickId) returns (states: seq<State>)
    requires c.cut >= 0 && c.limit >= 1 && k !in s.ticks
    requires s.jobs.Keys == {0} && Due(s.jobs[0], s.now, s.now - c.ttl)
    ensures IsTrace(c, states, GrabLabels(k)) && states[0] == s
    ensures states[4] == s.(jobs := Claimed(s.jobs, 0, k, s.now),
                            ticks := s.ticks[k := Tick(k, s.now, Holding(s.now, [], 0, s.jobs[0].next))])
  {
    var listed := [(0, s.jobs[0].next)];
    var s1 := s.(ticks := s.ticks[k := Tick(k, s.now, Begun)]);
    var s2 := s.(ticks := s.ticks[k := Tick(k, s.now, Stamped(s.now))]);
    var s3 := s.(ticks := s.ticks[k := Tick(k, s.now, Looping(s.now, listed))]);
    var s4 := s.(jobs := Claimed(s.jobs, 0, k, s.now),
                 ticks := s.ticks[k := Tick(k, s.now, Holding(s.now, [], 0, s.jobs[0].next))]);
    assert Step(c, s, StartTick(k, k), s1);
    assert Step(c, s1, ReadClock(k), s2);
    assert Step(c, s2, ListDue(k, [0]), s3) by { assert Listed(s.jobs, [0]) == listed; }
    assert Step(c, s3, TryClaim(k), s4) by { assert listed[1..] == []; }
    states := [s, s1, s2, s3, s4];
  }

  /** With a later cut-off, a stale lease is taken from a tick that is still holding it. */
  lemma LateCutoffSharesLease(c: Config) returns (s: State, labels: seq<Label>)
    requires 0 <= c.ttl < c.cut && c.limit >= 1
    ensures Initial(s) && Valid(c, s, labels) && !Exclusive(End(c, s, labels))
  {
    s := State(0, map[0 := OVERDUE], map[], {0}, map[]);
    var a := Grab(c, s, 1);
    var wait := [Advance(c.ttl + 1)];
    var later := a[4].(now := c.ttl + 1);
    assert IsTrace(c, [a[4], later], wait) by { assert Step(c, a[4], wait[0], later); }
    var b := Grab(c, later, 2);
    JoinTraces(c, a, GrabLabels(1), [a[4], later], wait);
    JoinTraces(c, a + [a[4], later][1..], GrabLabels(1) + wait, b, GrabLabels(2));
    labels := GrabLabels(1) + wait + GrabLabels(2);
    TraceIsRun(c, a + [a[4], later][1..] + b[1..], labels);
    assert Holds(b[4], 1, 0) && Holds(b[4], 2, 0);
  }

  /** Leases are exclusive in every run if and only if ticks are cut off within the lease. */
  lemma ExclusiveIffCutoff(c: Config)
    requires c.limit >= 1 && c.ttl >= 0
    ensures (forall s, labels :: Initial(s) && Valid(c, s, labels) ==> Exclusive(End(c, s, labels))) <==> c.cut <= c.ttl
  {
    if c.cut <= c.ttl {
      forall s, labels | Initial(s) && Valid(c, s, labels) ensures Exclusive(End(c, s, labels)) {
        LeasesAreExclusive(c, s, labels);
      }
    } else {
      var s, labels := LateCutoffSharesLease(c);
    }
  }

  // ----- no slot is completed twice

  /** Only a user resuming a job or a retry moves its next fire time outside the scheduler. */
  predicate MovesSchedule(l: Label) {
    (l.SetEnabled? && l.moveTo.Some?) || (l.RecordResult? && l.retryAt.Some?)
  }

  predicate SchedulerOnly(labels: seq<Label>) {
    forall k :: 0 <= k < |labels| ==> !MovesSchedule(labels[k])
  }

  ghost predicate Increasing(ts: seq<Time>) {
    forall i, j :: 0 <= i < j < |ts| ==> ts[i] < ts[j]
  }

  ghost predicate SlotsSound(s: State) {
    (forall j :: j in s.slots ==> Increasing(s.slots[j])) &&
    (forall j, i :: j in s.slots && j in s.jobs && 0 <= i < |s.slots[j]| ==> s.slots[j][i] < s.jobs[j].next) &&
    (forall j :: j in s.slots ==> j in s.used)
  }

  ghost predicate ListingSound(s: State, k: TickId)
    requires k in s.ticks
  {
    var phase := s.ticks[k].phase;
    (phase.Looping? || phase.Holding? ==>
      forall i :: 0 <= i < |phase.due| ==> phase.due[i].1 <= phase.fired) &&
    (phase.Holding? ==>
      phase.expected <= phase.fired && (phase.job in s.jobs ==> s.jobs[phase.job].next == phase.expected))
  }

  ghost predicate SlotInv(c: Config, s: State) {
    Inv(c, s) && SlotsSound(s) && forall k :: k in s.ticks ==> ListingSound(s, k)
  }

  lemma CompleteKeepsSlots(c: Config, s: State, k: TickId)
    requires SlotInv(c, s) && WellTimed(c) && Enabled(c, s, Complete(k))
    ensures SlotsSound(Completing(c, s, k)) && forall l :: l in Completing(c, s, k).ticks ==>
      ListingSound(Completing(c, s, k), l)
  {
    var s' := Completing(c, s, k);
    var phase := s.ticks[k].phase;
    assert ListingSound(s, k);
    forall l | l in s'.ticks ensures ListingSound(s', l) {
      assert ListingSound(s, l);
      assert s.ticks[l].phase.Holding? ==> Holds(s, l, s.ticks[l].phase.job);
      assert Holds(s, k, phase.job);
    }
  }

  lemma StepKeepsSlots(c: Config, s: State, l: Label)
    requires SlotInv(c, s) && c.cut <= c.ttl && WellTimed(c) && Enabled(c, s, l) && !MovesSchedule(l)
    ensures SlotInv(c, Apply(c, s, l))
  {
    StepKeepsInv(c, s, l);
    var s' := Apply(c, s, l);
    if l.Complete? {
      CompleteKeepsSlots(c, s, l.k);
    } else {
      forall k | k in s'.ticks ensures ListingSound(s', k) {
        assert k in s.ticks ==> ListingSound(s, k);
      }
    }
  }

  lemma {:induction false} RunKeepsSlots(c: Config, s: State, labels: seq<Label>)
    requires SlotInv(c, s) && c.cut <= c.ttl && WellTimed(c) && Valid(c, s, labels) && SchedulerOnly(labels)
    ensures SlotInv(c, End(c, s, labels))
    decreases |labels|
  {
    if labels != [] {
      StepKeepsSlots(c, s, labels[0]);
      RunKeepsSlots(c, Apply(c, s, labels[0]), labels[1..]);
    }
  }

  /** Under scheduler steps every job's completed slots are strictly increasing: none fires twice. */
  lemma NoSlotTwice(c: Config, s: State, labels: seq<Label>, j: JobId)
    requires Initial(s) && c.cut <= c.ttl && WellTimed(c) && Valid(c, s, labels) && SchedulerOnly(labels)
    requires j in End(c, s, labels).slots
    ensures Increasing(End(c, s, labels).slots[j])
    ensures j in End(c, s, labels).jobs ==> forall i :: 0 <= i < |End(c, s, labels).slots[j]| ==>
      End(c, s, labels).slots[j][i] < End(c, s, labels).jobs[j].next
  {
    RunKeepsSlots(c, s, labels);
  }

  // ----- what the row remembers of the last fire

  /**
   A job completed at least once: the row's last fire time lies at or after the newest
   completed slot and in the past, and the next slot is the first after it.
   */
  ghost predicate Dated(c: Config, s: State, j: JobId)
    requires j in s.slots && j in s.jobs
  {
    var done, job := s.slots[j], s.jobs[j];
    && done != [] && job.lastFire.Some?
    && done[|done| - 1] <= job.lastFire.value <= s.now
    && job.next == c.slot(j, job.lastFire.value)
  }

  ghost predicate AllDated(c: Config, s: State) {
    forall j :: j in s.slots && j in s.jobs ==> Dated(c, s, j)
  }

  lemma StepKeepsDates(c: Config, s: State, l: Label)
    requires SlotInv(c, s) && AllDated(c, s) && c.cut <= c.ttl && Enabled(c, s, l) && !MovesSchedule(l)
    ensures AllDated(c, Apply(c, s, l))
  {
    var s' := Apply(c, s, l);
    if l.Complete? {
      assert ListingSound(s, l.k) && TickTimed(c, s, s.ticks[l.k]);
    }
    forall j | j in s'.slots && j in s'.jobs ensures Dated(c, s', j) {
      assert j in s.slots && j in s.jobs ==> Dated(c, s, j);
    }
  }

  lemma {:induction false} RunKeepsDates(c: Config, s: State, labels: seq<Label>)
    requires SlotInv(c, s) && AllDated(c, s) && c.cut <= c.ttl && WellTimed(c)
    requires Valid(c, s, labels) && SchedulerOnly(labels)
    ensures AllDated(c, End(c, s, labels))
    decreases |labels|
  {
    if labels != [] {
      StepKeepsSlots(c, s, labels[0]);
      StepKeepsDates(c, s, labels[0]);
      RunKeepsDates(c, Apply(c, s, labels[0]), labels[1..]);
    }
  }

  function DateOf(s: State, j: JobId): Option<Time> {
    if j in s.jobs then s.jobs[j].lastFire else None
  }

  /** A job no fire was completed for keeps the last fire time it began with, none if it was created since. */
  lemma {:induction false} UntouchedDate(c: Config, s: State, labels: seq<Label>, j: JobId)
    requires Valid(c, s, labels) && j in End(c, s, labels).jobs && s.jobs.Keys <= s.used
    requires j !in End(c, s, labels).slots
    ensures End(c, s, labels).jobs[j].lastFire == DateOf(s, j)
    decreases |labels|
  {
    if labels != [] {
      var s' := Apply(c, s, labels[0]);
      HistoryKept(c, s', labels[1..], j);
      UntouchedDate(c, s', labels[1..], j);
    }
  }

  /** Completed slots stay on record, and a deleted job's id is not used again. */
  lemma {:induction false} HistoryKept(c: Config, s: State, labels: seq<Label>, j: JobId)
    requires Valid(c, s, labels) && s.jobs.Keys <= s.used
    ensures j in s.slots ==> j in End(c, s, labels).slots
    ensures j in s.used && j !in s.jobs ==> j !in End(c, s, labels).jobs
    decreases |labels|
  {
    if labels != [] {
      HistoryKept(c, Apply(c, s, labels[0]), labels[1..], j);
    }
  }

  /**
   The last fire time over every run of scheduler steps, from which the next firing counts what
   it coalesces: no completed slot lies after it, and before the first completion it is what the
   job began with.
   */
  lemma LastFireIsExact(c: Config, s: State, labels: seq<Label>, j: JobId)
    requires Initial(s) && c.cut <= c.ttl && WellTimed(c) && Valid(c, s, labels) && SchedulerOnly(labels)
    requires j in End(c, s, labels).jobs
    ensures
      var s' := End(c, s, labels);
      if j in s'.slots then Dated(c, s', j) && forall i :: 0 <= i < |s'.slots[j]| ==>
        s'.slots[j][i] <= s'.jobs[j].lastFire.value
      else s'.jobs[j].lastFire == DateOf(s, j)
  {
    RunKeepsSlots(c, s, labels);
    RunKeepsDates(c, s, labels);
    if j !in End(c, s, labels).slots { UntouchedDate(c, s, labels, j); }
  }
}
