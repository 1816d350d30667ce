/**
 What a run was shown, tied to the branches it was handed: a log position counts as shown only if,
 in some state of the run of the machine, an entry of the run's branch was that very position,
 marked. None of this depends on the order of tasks.
 */
module BranchHistory {
  import opened Domain
  import opened Branch
  import opened DialogState
  import opened DialogWatermark
  import opened DialogOwnership

  // ----- runs and terminations belong to stored tasks

  ghost predicate Stored(s: State) {
    (forall t :: t in s.processes ==> RunStored(s, t)) &&
    (forall k :: 0 <= k < |s.inbox| ==> CommandStored(s, s.inbox[k]))
  }

  /** Runs keep their exchange, terminations come from runs, and task rows are kept. */
  lemma QuietStored(s: State, s': State)
    requires Stored(s)
    requires forall t :: t in s.tasks ==> t in s'.tasks && s'.tasks[t] == s.tasks[t]
    requires forall t :: t in s'.processes ==>
      t in s.processes && s'.processes[t].exchange == s.processes[t].exchange &&
      s'.processes[t].narrativeBuilt == s.processes[t].narrativeBuilt
    requires forall k :: 0 <= k < |s'.inbox| ==>
      s'.inbox[k] in s.inbox ||
      (s'.inbox[k].task in s.processes && s'.inbox[k].exchange == s.processes[s'.inbox[k].task].exchange)
    ensures Stored(s')
  {
    forall t | t in s'.processes ensures RunStored(s', t) { assert RunStored(s, t); }
    forall k | 0 <= k < |s'.inbox| ensures CommandStored(s', s'.inbox[k]) {
      var c := s'.inbox[k];
      if c in s.inbox {
        var j :| 0 <= j < |s.inbox| && s.inbox[j] == c;
        assert CommandStored(s, s.inbox[j]);
      } else {
        assert RunStored(s, c.task);
      }
    }
  }

  /** The run of the committed task appears. */
  lemma CreateStored(s: State, s': State, t: TaskId)
    requires Stored(s) && t in s.tasks && s'.tasks == s.tasks && s'.inbox == s.inbox
    requires s'.processes.Keys == s.processes.Keys + {t}
    requires forall u :: u in s.processes && u != t ==>
      s'.processes[u].exchange == s.processes[u].exchange &&
      s'.processes[u].narrativeBuilt == s.processes[u].narrativeBuilt
    requires s'.processes[t].exchange == s.tasks[t].exchange
    requires s'.processes[t].exchange.Some? ==> s'.processes[t].narrativeBuilt
    ensures Stored(s')
  {
    forall u | u in s'.processes ensures RunStored(s', u) {
      if u != t { assert RunStored(s, u); }
    }
    forall k | 0 <= k < |s'.inbox| ensures CommandStored(s', s'.inbox[k]) { assert CommandStored(s, s.inbox[k]); }
  }

  /** A start leaves the inbox alone and adds at most one task row. */
  lemma LaunchRecords(s: State, l: LaunchStep)
    requires LaunchEnabled(s, l)
    ensures ApplyLaunch(s, l).inbox == s.inbox
    ensures forall t :: t in s.tasks ==> t in ApplyLaunch(s, l).tasks && ApplyLaunch(s, l).tasks[t] == s.tasks[t]
  {
    if l.PlaceCheck? || l.Admit? || l.ResumeCheck? { AdmissionFrame(s, l); }
    if l.RefuseBudget? || l.AbortLaunch? { GiveUpFrame(s, l); }
  }

  lemma LaunchStored(s: State, l: LaunchStep)
    requires Stored(s) && LaunchEnabled(s, l)
    ensures Stored(ApplyLaunch(s, l))
  {
    if l.CreateBackground? {
      CreateStored(s, ApplyLaunch(s, l), s.launch.value.task);
    } else {
      LaunchFrame(s, l);
      LaunchRecords(s, l);
      QuietStored(s, ApplyLaunch(s, l));
    }
  }

  lemma ViewStored(s: State, l: ViewStep)
    requires Stored(s) && ViewEnabled(s, l)
    ensures Stored(ApplyView(s, l))
  {
    if l.FinishAssembly? && s.assembly.value.purpose.ForLaunch? {
      CreateStored(s, FinishLaunch(s, l.system), s.launch.value.task);
    } else {
      QuietStored(s, ApplyView(s, l));
    }
  }

  lemma StepStored(s: State, l: Label)
    requires Stored(s) && Enabled(s, l)
    ensures Stored(Apply(s, l))
  {
    match l
    case OnStore(store) => QuietStored(s, ApplyStore(s, store));
    case OnRoute(route) => QuietStored(s, ApplyRoute(s, route));
    case OnLaunch(launch) => LaunchStored(s, launch);
    case OnView(view) => ViewStored(s, view);
    case OnEnd(end) => QuietStored(s, ApplyEnd(s, end));
  }

  lemma LogIsKept(s: State, l: Label)
    requires Enabled(s, l)
    ensures s.log <= Apply(s, l).log
  {
    LogGrows(s, l);
    var more :| Apply(s, l).log == s.log + more;
  }

  lemma TasksStay(s: State, l: Label)
    requires Enabled(s, l)
    ensures forall t :: t in s.tasks ==> t in Apply(s, l).tasks && Apply(s, l).tasks[t] == s.tasks[t]
  {
    if l.OnLaunch? { LaunchRecords(s, l.launch); }
  }

  /** Over a run, messages keep their position and tasks their row. */
  lemma {:induction false} RunKeepsRecords(s: State, labels: seq<Label>)
    requires Valid(s, labels)
    ensures s.log <= End(s, labels).log
    ensures forall t :: t in s.tasks ==> t in End(s, labels).tasks && End(s, labels).tasks[t] == s.tasks[t]
    decreases |labels|
  {
    if labels != [] {
      var s1 := Apply(s, labels[0]);
      LogIsKept(s, labels[0]);
      TasksStay(s, labels[0]);
      RunKeepsRecords(s1, labels[1..]);
      var e := End(s1, labels[1..]);
      assert forall i :: 0 <= i < |s.log| ==> e.log[i] == s1.log[i] == s.log[i];
    }
  }

  // ----- trails stay within the log

  /** Everything a trail speaks of is in a log of this length, and what it shows now counts as shown. */
  ghost predicate TrailWithin(trail: Trail, len: nat) {
    trail.born <= len && (forall i :: i in trail.shown ==> i < len) && (forall i :: i in trail.missed ==> i < len) &&
    (forall i: nat :: trail.from <= i < trail.seen ==> i in trail.shown)
  }

  ghost predicate PoolWithin(pool: map<TaskId, Process>, len: nat) {
    forall t :: t in pool ==> TrailWithin(pool[t].trail, len)
  }

  ghost predicate TrailsWithin(s: State) {
    PoolWithin(s.processes, |s.log|)
  }

  lemma InstallWithin(pool: map<TaskId, Process>, t: TaskId, p: Process, len: nat)
    requires PoolWithin(pool, len) && TrailWithin(p.trail, len)
    ensures PoolWithin(pool[t := p], len)
  {
  }

  predicate SameReach(a: Trail, b: Trail) {
    a.born == b.born && a.shown == b.shown && a.missed == b.missed && a.from == b.from && a.seen == b.seen
  }

  lemma QuietWithin(s: State, s': State)
    requires TrailsWithin(s) && |s.log| <= |s'.log|
    requires forall t :: t in s'.processes ==>
      t in s.processes && SameReach(s.processes[t].trail, s'.processes[t].trail)
    ensures TrailsWithin(s')
  {
  }

  lemma ShiftedWithin(s: State, drop: nat)
    requires TrailsWithin(s) && |s.narrative| <= |s.log| && drop <= |s.narrative|
    ensures PoolWithin(Shifted(s, drop), |s.log|)
  {
  }

  lemma RangeHas(lo: nat, hi: nat)
    ensures forall i: nat :: lo <= i < hi ==> i in Range(lo, hi)
    ensures forall i :: i in Range(lo, hi) ==> i < hi
  {
    forall i: nat | lo <= i < hi ensures i in Range(lo, hi) { assert Between(lo, i, hi); }
  }

  lemma ResyncedWithin(p: Process, system: Entry, a: Assembly, tail: seq<Message>, base: nat, len: nat)
    requires TrailWithin(p.trail, len) && p.syncedLen <= |p.branch| && base + a.tailCount <= len
    ensures TrailWithin(Resynced(p, system, a, tail, base).trail, len)
  {
    RangeHas(base, base + a.tailCount);
  }

  lemma NewAnswerWithin(system: Entry, e: Option<ExchangeId>, a: Assembly, tail: seq<Message>, base: nat, len: nat)
    requires base + a.tailCount <= len
    ensures TrailWithin(NewAnswer(system, e, a, tail, base).trail, len)
  {
    RangeHas(base, base + a.tailCount);
  }

  lemma FinishWithin(s: State, system: Entry)
    requires TrailsWithin(s) && ViewEnabled(s, FinishAssembly(system))
    ensures TrailsWithin(Finish(s, system))
  {
    ShiftedWithin(s, Drop(s));
    match s.assembly.value.purpose
    case ForTrim =>
    case ForSync(t) => SyncWithin(s, system, t);
    case ForLaunch => StartWithin(s, system);
  }

  lemma SyncWithin(s: State, system: Entry, t: TaskId)
    requires TrailsWithin(s) && Assembled(s) && t in s.processes && s.processes[t].syncedLen <= |s.processes[t].branch|
    ensures PoolWithin(FinishSync(s, system, t).processes, |s.log|)
  {
    ShiftedWithin(s, Drop(s));
    ResyncedPoolWithin(Shifted(s, Drop(s)), t, system, s.assembly.value, SnapshotTail(s), Base(s) + Drop(s), |s.log|);
  }

  lemma ResyncedPoolWithin(pool: map<TaskId, Process>, t: TaskId, system: Entry, a: Assembly, tail: seq<Message>,
                           base: nat, len: nat)
    requires PoolWithin(pool, len) && t in pool && pool[t].syncedLen <= |pool[t].branch| && base + a.tailCount <= len
    ensures PoolWithin(pool[t := Resynced(pool[t], system, a, tail, base)], len)
  {
    ResyncedWithin(pool[t], system, a, tail, base, len);
    InstallWithin(pool, t, Resynced(pool[t], system, a, tail, base), len);
  }

  lemma StartWithin(s: State, system: Entry)
    requires TrailsWithin(s) && Assembled(s) && MayCreate(s)
    ensures PoolWithin(FinishLaunch(s, system).processes, |s.log|)
  {
    ShiftedWithin(s, Drop(s));
    var t, a, tail, base := s.launch.value.task, s.assembly.value, SnapshotTail(s), Base(s) + Drop(s);
    NewAnswerWithin(system, s.tasks[t].exchange, a, tail, base, |s.log|);
    InstallWithin(Shifted(s, Drop(s)), t, NewAnswer(system, s.tasks[t].exchange, a, tail, base), |s.log|);
  }

  lemma LaunchWithin(s: State, l: LaunchStep)
    requires TrailsWithin(s) && LaunchEnabled(s, l)
    ensures TrailsWithin(ApplyLaunch(s, l))
  {
    LaunchFrame(s, l);
  }

  lemma StepWithin(s: State, l: Label)
    requires TrailsWithin(s) && Enabled(s, l)
    ensures TrailsWithin(Apply(s, l))
  {
    match l
    case OnStore(store) => QuietWithin(s, ApplyStore(s, store));
    case OnRoute(route) => RouteWithin(s, route);
    case OnLaunch(launch) => LaunchWithin(s, launch);
    case OnView(view) => ViewWithin(s, view);
    case OnEnd(end) => QuietWithin(s, ApplyEnd(s, end));
  }

  lemma RouteWithin(s: State, l: RouteStep)
    requires TrailsWithin(s) && RouteEnabled(s, l)
    ensures TrailsWithin(ApplyRoute(s, l))
  {
    RouteFrame(s, l);
    QuietWithin(s, ApplyRoute(s, l));
  }

  lemma ViewWithin(s: State, l: ViewStep)
    requires TrailsWithin(s) && ViewEnabled(s, l)
    ensures TrailsWithin(ApplyView(s, l))
  {
    if l.FinishAssembly? { FinishWithin(s, l.system); } else { QuietWithin(s, ApplyView(s, l)); }
  }

  // ----- over whole runs

  /** What every state of every run keeps about the records behind a branch. */
  ghost predicate Recorded(s: State) {
    Exact(s) && Stored(s) && TrailsWithin(s)
  }

  lemma StepRecorded(s: State, l: Label)
    requires Recorded(s) && Enabled(s, l)
    ensures Recorded(Apply(s, l))
  {
    StepExact(s, l);
    StepStored(s, l);
    StepWithin(s, l);
  }

  lemma {:induction false} RunRecorded(s: State, labels: seq<Label>)
    requires Recorded(s) && Valid(s, labels)
    ensures Recorded(End(s, labels))
    decreases |labels|
  {
    if labels != [] {
      StepRecorded(s, labels[0]);
      RunRecorded(Apply(s, labels[0]), labels[1..]);
    }
  }

  // ----- what a branch held

  /** Log position `i` stands in run `t`'s branch, marked as part of its own exchange. */
  ghost predicate InBranch(s: State, t: TaskId, i: nat) {
    t in s.processes && exists j: nat :: RendersAt(s.processes[t], s.log, i, j)
  }

  /** In some state of the run of the machine, position `i` stood in run `t`'s branch. */
  ghost predicate WasInBranch(s: State, labels: seq<Label>, t: TaskId, i: nat)
    requires Valid(s, labels)
    decreases |labels|
  {
    InBranch(s, t, i) || (labels != [] && WasInBranch(Apply(s, labels[0]), labels[1..], t, i))
  }

  predicate ShownIn(s: State, t: TaskId, i: nat) {
    t in s.processes && i in s.processes[t].trail.shown
  }

  lemma RebuiltHolds(s: State, system: Entry, t: TaskId, i: nat)
    requires Exact(s) && ViewEnabled(s, FinishAssembly(system)) && Rebuilt(s, OnView(FinishAssembly(system))) == Some(t)
    requires Exact(Finish(s, system)) && ShownIn(Finish(s, system), t, i) && !ShownIn(s, t, i)
    ensures Shows(Finish(s, system).processes[t], s.log)
    ensures Finish(s, system).processes[t].trail.from <= i < Finish(s, system).processes[t].trail.seen
  {
    RebuiltShows(s, system, t);
    var base := Base(s) + Drop(s);
    assert i in Range(base, base + s.assembly.value.tailCount);
  }

  /** A position is newly shown only by a branch that holds the message. */
  lemma StepShown(s: State, l: Label, t: TaskId, i: nat, e: ExchangeId)
    requires Exact(s) && Stored(s) && Enabled(s, l)
    requires ShownIn(Apply(s, l), t, i) && !ShownIn(s, t, i) && Apply(s, l).processes[t].exchange == Some(e)
    requires i < |Apply(s, l).log| && UserMessageOf(Apply(s, l).log[i], e)
    ensures InBranch(Apply(s, l), t, i)
  {
    if Rebuilt(s, l) != Some(t) {
      OthersKeepSnapshot(s, l, t);
    } else if l.OnView? {
      FinishShown(s, l.view.system, t, i, e);
    } else {
      LaunchFrame(s, l.launch);
    }
  }

  lemma FinishShown(s: State, system: Entry, t: TaskId, i: nat, e: ExchangeId)
    requires Exact(s) && Stored(s) && ViewEnabled(s, FinishAssembly(system))
    requires Rebuilt(s, OnView(FinishAssembly(system))) == Some(t)
    requires ShownIn(Finish(s, system), t, i) && !ShownIn(s, t, i) && Finish(s, system).processes[t].exchange == Some(e)
    requires i < |s.log| && UserMessageOf(s.log[i], e)
    ensures InBranch(Finish(s, system), t, i)
  {
    FinishExact(s, system);
    ViewStored(s, FinishAssembly(system));
    var s' := Finish(s, system);
    assert RunStored(s', t) && ProcessExact(s'.processes[t], |s'.log|, Base(s'));
    RebuiltHolds(s, system, t, i);
    var j := OwnMessageInBranch(s'.processes[t], s.log, i);
  }

  /** The step that first shows a position to `t` puts the message into its branch. */
  lemma FirstShown(s: State, l: Label, rest: seq<Label>, t: TaskId, i: nat, e: ExchangeId)
    requires Recorded(s) && Enabled(s, l) && Valid(Apply(s, l), rest)
    requires ShownIn(Apply(s, l), t, i) && !ShownIn(s, t, i)
    requires t in End(Apply(s, l), rest).tasks && End(Apply(s, l), rest).tasks[t].exchange == Some(e)
    requires i < |End(Apply(s, l), rest).log| && UserMessageOf(End(Apply(s, l), rest).log[i], e)
    ensures InBranch(Apply(s, l), t, i)
  {
    var s1 := Apply(s, l);
    StepRecorded(s, l);
    RunKeepsRecords(s1, rest);
    assert RunStored(s1, t) && TrailWithin(s1.processes[t].trail, |s1.log|);
    StepShown(s, l, t, i, e);
  }

  /**
   Over every run, what task `t` counts as shown of its own exchange was shown before the run
   began, or was in its branch, marked, in some state of the run.
   */
  lemma {:induction false} ShownWasInBranch(s: State, labels: seq<Label>, t: TaskId, i: nat, e: ExchangeId)
    requires Recorded(s) && Valid(s, labels) && ShownIn(End(s, labels), t, i)
    requires t in End(s, labels).tasks && End(s, labels).tasks[t].exchange == Some(e)
    requires i < |End(s, labels).log| && UserMessageOf(End(s, labels).log[i], e)
    ensures ShownIn(s, t, i) || WasInBranch(s, labels, t, i)
    decreases |labels|
  {
    if labels != [] {
      var s1 := Apply(s, labels[0]);
      StepRecorded(s, labels[0]);
      ShownWasInBranch(s1, labels[1..], t, i, e);
      if ShownIn(s1, t, i) && !ShownIn(s, t, i) { FirstShown(s, labels[0], labels[1..], t, i, e); }
    }
  }

  /** The same for a run whose termination waits in the inbox. */
  lemma {:induction false} ReportedWasInBranch(s: State, labels: seq<Label>, c: Terminated, i: nat, e: ExchangeId)
    requires Recorded(s) && Valid(s, labels) && c in End(s, labels).inbox && i in c.trail.shown
    requires c.task in End(s, labels).tasks && End(s, labels).tasks[c.task].exchange == Some(e)
    requires i < |End(s, labels).log| && UserMessageOf(End(s, labels).log[i], e)
    ensures c in s.inbox || ShownIn(s, c.task, i) || WasInBranch(s, labels, c.task, i)
    decreases |labels|
  {
    if labels != [] {
      var s1 := Apply(s, labels[0]);
      StepRecorded(s, labels[0]);
      ReportedWasInBranch(s1, labels[1..], c, i, e);
      if c in s1.inbox && c !in s.inbox {
        NewCommand(s, labels[0], c);
      } else if ShownIn(s1, c.task, i) && !ShownIn(s, c.task, i) {
        FirstShown(s, labels[0], labels[1..], c.task, i, e);
      }
    }
  }

  /** A new termination carries the trail of the run that ended. */
  lemma NewCommand(s: State, l: Label, c: Terminated)
    requires Enabled(s, l) && c in Apply(s, l).inbox && c !in s.inbox
    ensures c.task in s.processes && c.trail == s.processes[c.task].trail
    ensures c.exchange == s.processes[c.task].exchange && c.ended == |s.log|
    ensures c.unseen == UnseenKind(s.narrative, s.processes[c.task])
  {
    if !l.OnEnd? { InboxFrame(s, l); }
  }

  /** Only an ending run adds a termination, and only the actor takes one. */
  lemma InboxFrame(s: State, l: Label)
    requires Enabled(s, l) && !l.OnEnd?
    ensures Apply(s, l).inbox == s.inbox
  {
    if l.OnLaunch? { LaunchRecords(s, l.launch); }
  }
}
