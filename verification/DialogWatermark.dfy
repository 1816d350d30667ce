/**
 The pull model: a run reads the shared narrative through a watermark while messages
 are appended, trimmed and re-read by other runs.
 */
module DialogWatermark {
  import opened Domain
  import opened Branch
  import opened DialogState

  /** The narrative is exactly what has not been trimmed from the log. */
  ghost predicate Mirrors(s: State) {
    |s.narrative| <= |s.log| && s.narrative == s.log[Base(s)..]
  }

  /** Every position the run's branches could have shown is shown or was trimmed away unseen. */
  ghost predicate Tracked(p: Process, base: nat) {
    (forall i :: p.trail.born <= i < p.trail.seen ==> i in p.trail.shown || i in p.trail.missed) &&
    (forall i :: p.trail.seen <= i < base ==> i in p.trail.missed)
  }

  /** The branch is its narrative part followed by everything the run wrote itself. */
  ghost predicate BranchIntact(p: Process) {
    p.branch == p.trail.part + p.trail.private && p.syncedLen == |p.trail.part|
  }

  ghost predicate WatermarkExact(p: Process, base: nat) {
    p.watermark == Max(0, p.trail.seen - base)
  }

  /** What a run missed has left memory. */
  ghost predicate MissedGone(p: Process, base: nat) {
    forall i :: i in p.trail.missed ==> i < base
  }

  ghost predicate ProcessExact(p: Process, len: nat, base: nat) {
    p.trail.from <= p.trail.seen <= len && WatermarkExact(p, base) && BranchIntact(p) && MissedGone(p, base) &&
    (p.narrativeBuilt ==> Tracked(p, base))
  }

  ghost predicate AllExact(processes: map<TaskId, Process>, len: nat, base: nat) {
    forall t :: t in processes ==> ProcessExact(processes[t], len, base)
  }

  ghost predicate AssemblySound(s: State) {
    s.assembly.Some? ==>
      var a := s.assembly.value;
      a.tailCount <= a.snapshotLen <= |s.narrative| &&
      (a.purpose.ForSync? ==> a.purpose.task in s.processes && s.processes[a.purpose.task].narrativeBuilt)
  }

  ghost predicate Exact(s: State) {
    Mirrors(s) && AssemblySound(s) && AllExact(s.processes, |s.log|, Base(s))
  }

  lemma ShiftExact(p: Process, drop: nat, len: nat, base: nat)
    requires ProcessExact(p, len, base)
    ensures ProcessExact(Shift(p, drop, base), len, base + drop)
  {
    var p' := Shift(p, drop, base);
    forall i | p'.trail.seen <= i < base + drop ensures p.narrativeBuilt ==> i in p'.trail.missed {
      assert Between(Max(p.trail.seen, base), i, base + drop) || i < base;
    }
  }

  lemma ShiftedExact(s: State, drop: nat)
    requires Exact(s)
    ensures AllExact(Shifted(s, drop), |s.log|, Base(s) + drop)
  {
    forall t | t in s.processes ensures ProcessExact(Shifted(s, drop)[t], |s.log|, Base(s) + drop) {
      ShiftExact(s.processes[t], drop, |s.log|, Base(s));
    }
  }

  /** Dropping a prefix of the narrative leaves a suffix of the log. */
  lemma TrimMirrors(s: State, drop: nat)
    requires Mirrors(s) && drop <= |s.narrative|
    ensures s.narrative[drop..] == s.log[Base(s) + drop..] && |s.narrative[drop..]| == |s.log| - (Base(s) + drop)
  {
  }

  lemma ResyncExact(p: Process, system: Entry, a: Assembly, tail: seq<Message>, len: nat, base: nat)
    requires ProcessExact(p, len, base) && p.narrativeBuilt && base + a.tailCount <= len
    ensures p.syncedLen <= |p.branch| && ProcessExact(Resynced(p, system, a, tail, base), len, base)
  {
    var p' := Resynced(p, system, a, tail, base);
    assert p.branch[p.syncedLen..] == p.trail.private;
    forall i | p'.trail.born <= i < p'.trail.seen ensures i in p'.trail.shown || i in p'.trail.missed {
      if base <= i { assert Between(base, i, base + a.tailCount); }
    }
  }

  lemma NewAnswerExact(system: Entry, e: Option<ExchangeId>, a: Assembly, tail: seq<Message>, len: nat, base: nat)
    requires base + a.tailCount <= len
    ensures ProcessExact(NewAnswer(system, e, a, tail, base), len, base)
  {
    var p := NewAnswer(system, e, a, tail, base);
    forall i | p.trail.born <= i < p.trail.seen ensures i in p.trail.shown {
      assert Between(base, i, base + a.tailCount);
    }
  }

  lemma InstallExact(trimmed: map<TaskId, Process>, t: TaskId, p: Process, len: nat, base: nat)
    requires AllExact(trimmed, len, base) && ProcessExact(p, len, base)
    ensures AllExact(trimmed[t := p], len, base)
  {
  }

  /** After a trim, an exact pool of runs is all that is left to show. */
  lemma TrimmedExact(s: State, s': State, drop: nat, pool: map<TaskId, Process>)
    requires Mirrors(s) && drop <= |s.narrative|
    requires s'.log == s.log && s'.narrative == s.narrative[drop..] && s'.assembly.None? && s'.processes == pool
    requires AllExact(pool, |s.log|, Base(s) + drop)
    ensures Exact(s')
  {
    TrimMirrors(s, drop);
  }

  lemma ResyncedPoolExact(pool: map<TaskId, Process>, t: TaskId, system: Entry, a: Assembly, tail: seq<Message>,
                          len: nat, base: nat)
    requires AllExact(pool, len, base) && t in pool && pool[t].narrativeBuilt && base + a.tailCount <= len
    ensures pool[t].syncedLen <= |pool[t].branch|
    ensures AllExact(pool[t := Resynced(pool[t], system, a, tail, base)], len, base)
  {
    ResyncExact(pool[t], system, a, tail, len, base);
    InstallExact(pool, t, Resynced(pool[t], system, a, tail, base), len, base);
  }

  lemma SyncedWithinBranch(s: State, t: TaskId)
    requires Exact(s) && t in s.processes
    ensures s.processes[t].syncedLen <= |s.processes[t].branch|
  {
    assert ProcessExact(s.processes[t], |s.log|, Base(s));
  }

  lemma FinishSyncExact(s: State, system: Entry, t: TaskId)
    requires Exact(s) && Assembled(s) && t in s.processes && s.processes[t].narrativeBuilt
    ensures s.processes[t].syncedLen <= |s.processes[t].branch| && Exact(FinishSync(s, system, t))
  {
    SyncedWithinBranch(s, t);
    var pool, base := Shifted(s, Drop(s)), Base(s) + Drop(s);
    ShiftedExact(s, Drop(s));
    ResyncedPoolExact(pool, t, system, s.assembly.value, SnapshotTail(s), |s.log|, base);
    TrimmedExact(s, FinishSync(s, system, t), Drop(s),
                 pool[t := Resynced(pool[t], system, s.assembly.value, SnapshotTail(s), base)]);
  }

  lemma FinishLaunchExact(s: State, system: Entry)
    requires Exact(s) && Assembled(s) && MayCreate(s)
    ensures Exact(FinishLaunch(s, system))
  {
    var pool, base := Shifted(s, Drop(s)), Base(s) + Drop(s);
    var t := s.launch.value.task;
    var p := NewAnswer(system, s.tasks[t].exchange, s.assembly.value, SnapshotTail(s), base);
    ShiftedExact(s, Drop(s));
    NewAnswerExact(system, s.tasks[t].exchange, s.assembly.value, SnapshotTail(s), |s.log|, base);
    InstallExact(pool, t, p, |s.log|, base);
    TrimmedExact(s, FinishLaunch(s, system), Drop(s), pool[t := p]);
  }

  lemma FinishExact(s: State, system: Entry)
    requires Exact(s) && ViewEnabled(s, FinishAssembly(system))
    ensures Exact(Finish(s, system))
  {
    match s.assembly.value.purpose
    case ForTrim =>
      TrimMirrors(s, Drop(s));
      ShiftedExact(s, Drop(s));
    case ForSync(t) => FinishSyncExact(s, system, t);
    case ForLaunch => FinishLaunchExact(s, system);
  }

  lemma GrowExact(s: State, m: Message)
    requires Exact(s)
    ensures Exact(s.(log := s.log + [m], narrative := s.narrative + [m]))
  {
    var s' := s.(log := s.log + [m], narrative := s.narrative + [m]);
    assert s'.narrative == s'.log[Base(s')..];
    forall t | t in s'.processes ensures ProcessExact(s'.processes[t], |s'.log|, Base(s')) {
      assert ProcessExact(s.processes[t], |s.log|, Base(s));
    }
  }

  /** Two processes that differ at most in the cancel flag. */
  predicate SameView(p: Process, q: Process) {
    p.(cancelled := q.cancelled) == q
  }

  /** A step that leaves narrative, log and branches alone keeps everything exact. */
  lemma QuietExact(s: State, s': State)
    requires Exact(s) && s'.log == s.log && s'.narrative == s.narrative && AssemblySound(s')
    requires forall t :: t in s'.processes ==> t in s.processes && SameView(s.processes[t], s'.processes[t])
    ensures Exact(s')
  {
    forall t | t in s'.processes ensures ProcessExact(s'.processes[t], |s'.log|, Base(s')) {
      assert ProcessExact(s.processes[t], |s.log|, Base(s));
    }
  }

  lemma PrivateStep(s: State, t: TaskId, entry: Entry)
    requires Exact(s) && ViewEnabled(s, AppendPrivate(t, entry))
    ensures Exact(ApplyView(s, AppendPrivate(t, entry)))
  {
    var s' := ApplyView(s, AppendPrivate(t, entry));
    forall u | u in s'.processes ensures ProcessExact(s'.processes[u], |s'.log|, Base(s')) {
      assert ProcessExact(s.processes[u], |s.log|, Base(s));
    }
  }

  lemma RouteExact(s: State, l: RouteStep)
    requires Exact(s) && RouteEnabled(s, l)
    ensures Exact(ApplyRoute(s, l))
  {
    if l.AttachMessage? {
      GrowExact(s, l.m);
      QuietExact(s.(log := s.log + [l.m], narrative := s.narrative + [l.m]), ApplyRoute(s, l));
    } else {
      QuietExact(s, ApplyRoute(s, l));
    }
  }

  /** Routing touches no task, termination or start, and no run but the one it flags. */
  lemma RouteFrame(s: State, l: RouteStep)
    requires RouteEnabled(s, l)
    ensures
      var s' := ApplyRoute(s, l);
      && s'.tasks == s.tasks && s'.inbox == s.inbox && s'.launch == s.launch && s'.orphans == s.orphans
      && s'.assembly == s.assembly && s'.maxProcesses == s.maxProcesses
      && s'.processes.Keys == s.processes.Keys
      && forall t :: t in s.processes ==> SameView(s.processes[t], s'.processes[t])
  {
  }

  lemma LaunchFrame(s: State, l: LaunchStep)
    requires LaunchEnabled(s, l)
    ensures ApplyLaunch(s, l).log == s.log && ApplyLaunch(s, l).narrative == s.narrative
    ensures ApplyLaunch(s, l).assembly == s.assembly
    ensures ApplyLaunch(s, l).processes ==
      if l.CreateBackground? then s.processes[s.launch.value.task := NewBackground(l.branch)] else s.processes
  {
    if l.PlaceCheck? || l.Admit? || l.ResumeCheck? { AdmissionFrame(s, l); }
    if l.RefuseBudget? || l.AbortLaunch? { GiveUpFrame(s, l); }
  }

  /** Giving a start up moves nothing but the lock, the actor and what became of its message. */
  lemma GiveUpFrame(s: State, l: LaunchStep)
    requires LaunchEnabled(s, l) && (l.RefuseBudget? || l.AbortLaunch?)
    ensures
      var s' := ApplyLaunch(s, l);
      s' == s.(actor := s'.actor, launch := None, refused := s'.refused, dropped := s'.dropped, noted := s'.noted)
  {
    assert Refuse(s) == s.(actor := Refuse(s).actor, refused := Refuse(s).refused);
    assert Forget(s) == s.(actor := Forget(s).actor, dropped := Forget(s).dropped);
  }

  lemma AdmissionFrame(s: State, l: LaunchStep)
    requires LaunchEnabled(s, l) && (l.PlaceCheck? || l.Admit? || l.ResumeCheck?)
    ensures ApplyLaunch(s, l) == s.(actor := ApplyLaunch(s, l).actor, launch := ApplyLaunch(s, l).launch,
                                    refused := ApplyLaunch(s, l).refused)
  {
  }

  lemma LaunchExact(s: State, l: LaunchStep)
    requires Exact(s) && LaunchEnabled(s, l)
    ensures Exact(ApplyLaunch(s, l))
  {
    LaunchFrame(s, l);
    if l.CreateBackground? {
      InstallExact(s.processes, s.launch.value.task, NewBackground(l.branch), |s.log|, Base(s));
    } else {
      QuietExact(s, ApplyLaunch(s, l));
    }
  }

  lemma ViewExact(s: State, l: ViewStep)
    requires Exact(s) && ViewEnabled(s, l)
    ensures Exact(ApplyView(s, l))
  {
    match l
    case AppendOther(m) => GrowExact(s, m);
    case AppendPrivate(t, entry) => PrivateStep(s, t, entry);
    case Snapshot(_, _, _, _) => QuietExact(s, ApplyView(s, l));
    case FinishAssembly(system) => FinishExact(s, system);
    case AbortAssembly => QuietExact(s, ApplyView(s, l));
  }

  lemma EndExact(s: State, l: EndStep)
    requires Exact(s) && EndEnabled(s, l)
    ensures Exact(ApplyEnd(s, l))
  {
    match l
    case Terminate(t, outcome) => QuietExact(s, Terminating(s, t, outcome));
    case CancelRun(t) => QuietExact(s, s.(processes := Flagged(s.processes, t)));
    case Settle => QuietExact(s, Settling(s));
    case DropCommand => QuietExact(s, s.(inbox := s.inbox[1..]));
  }

  /** Every step of the machine keeps all watermarks and branches exact. */
  lemma StepExact(s: State, l: Label)
    requires Exact(s) && Enabled(s, l)
    ensures Exact(Apply(s, l))
  {
    match l
    case OnStore(store) => QuietExact(s, ApplyStore(s, store));
    case OnRoute(route) => RouteExact(s, route);
    case OnLaunch(launch) => LaunchExact(s, launch);
    case OnView(view) => ViewExact(s, view);
    case OnEnd(end) => EndExact(s, end);
  }

  lemma {:induction false} RunExact(s: State, labels: seq<Label>)
    requires Exact(s) && Valid(s, labels)
    ensures Exact(End(s, labels))
    decreases |labels|
  {
    if labels != [] {
      StepExact(s, labels[0]);
      RunExact(Apply(s, labels[0]), labels[1..]);
    }
  }

  /**
   After any run of the machine, what a run has above its watermark is exactly the
   messages appended after its last snapshot that are still in memory; the watermark is
   a valid position; and the skip test ("nothing above the watermark") holds exactly
   when no message in memory is newer than that snapshot.
   */
  lemma WatermarkIsExact(s: State, labels: seq<Label>, t: TaskId)
    requires Exact(s) && Valid(s, labels) && t in End(s, labels).processes
    ensures
      var e := End(s, labels);
      var p := e.processes[t];
      p.watermark <= |e.narrative| <= |e.log| && p.trail.seen <= |e.log| &&
      e.narrative[p.watermark..] == e.log[Max(p.trail.seen, Base(e))..] &&
      (|e.narrative| == p.watermark <==> Max(p.trail.seen, Base(e)) == |e.log|)
  {
    RunExact(s, labels);
  }

  /** The entries label `l` adds to run `t`'s own messages. */
  function Appended(l: Label, t: TaskId): seq<Entry> {
    if l.OnView? && l.view.AppendPrivate? && l.view.t == t then [l.view.entry] else []
  }

  lemma FinishPrivate(s: State, system: Entry, t: TaskId)
    requires ViewEnabled(s, FinishAssembly(system)) && t in s.processes && s.launch != Some(Committed(t))
    ensures t in Finish(s, system).processes &&
            Finish(s, system).processes[t].trail.private == s.processes[t].trail.private
  {
  }

  lemma StepPrivate(s: State, l: Label, t: TaskId)
    requires Enabled(s, l) && t in s.processes && t in Apply(s, l).processes && s.launch != Some(Committed(t))
    ensures Apply(s, l).processes[t].trail.private == s.processes[t].trail.private + Appended(l, t)
  {
    match l
    case OnLaunch(launch) => LaunchFrame(s, launch);
    case OnView(view) => if view.FinishAssembly? { FinishPrivate(s, view.system, t); }
    case OnRoute(route) => RoutePrivate(s, route, t);
    case OnEnd(end) => EndPrivate(s, end, t);
    case OnStore(_) =>
  }

  lemma RoutePrivate(s: State, l: RouteStep, t: TaskId)
    requires RouteEnabled(s, l) && t in s.processes
    ensures t in ApplyRoute(s, l).processes && ApplyRoute(s, l).processes[t].trail == s.processes[t].trail
  {
  }

  lemma EndPrivate(s: State, l: EndStep, t: TaskId)
    requires EndEnabled(s, l) && t in s.processes && t in ApplyEnd(s, l).processes
    ensures ApplyEnd(s, l).processes[t].trail == s.processes[t].trail
  {
  }

  /**
   No re-sync, trim or other step touches what a run wrote itself: the branch past its
   narrative part grows only by the run's own appends.
   */
  lemma StepKeepsPrivate(s: State, l: Label, t: TaskId)
    requires Exact(s) && Enabled(s, l) && t in s.processes && t in Apply(s, l).processes
    requires s.launch != Some(Committed(t))
    ensures
      var p, p' := s.processes[t], Apply(s, l).processes[t];
      p.syncedLen <= |p.branch| && p'.syncedLen <= |p'.branch| &&
      p'.branch[p'.syncedLen..] == p.branch[p.syncedLen..] + Appended(l, t)
  {
    StepExact(s, l);
    assert ProcessExact(s.processes[t], |s.log|, Base(s));
    assert ProcessExact(Apply(s, l).processes[t], |Apply(s, l).log|, Base(Apply(s, l)));
    StepPrivate(s, l, t);
  }

  // ----- what the branch actually shows

  /** The narrative part is the marked rendering of the snapshot it was built from. */
  ghost predicate Shows(p: Process, log: seq<Message>) {
    p.narrativeBuilt ==>
      p.trail.from <= p.trail.seen <= |log| && p.trail.part != [] &&
      p.trail.part == NarrativePart(p.trail.part[0], p.trail.topics, log[p.trail.from..p.trail.seen], p.exchange,
                                    p.trail.others)
  }

  ghost predicate AllShow(s: State) {
    forall t :: t in s.processes ==> Shows(s.processes[t], s.log)
  }

  /** Same view of the narrative: the parts of a run that only its own re-sync changes. */
  predicate SameSnapshot(p: Process, q: Process) {
    p.narrativeBuilt == q.narrativeBuilt && p.exchange == q.exchange &&
    p.trail.from == q.trail.from && p.trail.seen == q.trail.seen && p.trail.topics == q.trail.topics &&
    p.trail.others == q.trail.others && p.trail.part == q.trail.part && p.trail.shown == q.trail.shown
  }

  lemma ShowsStable(p: Process, q: Process, log: seq<Message>, more: seq<Message>)
    requires Shows(p, log) && SameSnapshot(p, q)
    ensures Shows(q, log + more)
  {
    if p.narrativeBuilt {
      assert (log + more)[p.trail.from..p.trail.seen] == log[p.trail.from..p.trail.seen];
    }
  }

  /** The run whose view label `l` rebuilds, if any. */
  function Rebuilt(s: State, l: Label): Option<TaskId>
    requires Enabled(s, l)
  {
    if l.OnView? && l.view.FinishAssembly? then
      match s.assembly.value.purpose
      case ForTrim => None
      case ForSync(t) => Some(t)
      case ForLaunch => Some(s.launch.value.task)
    else if l.OnLaunch? && l.launch.CreateBackground? then Some(s.launch.value.task)
    else None
  }

  lemma LogGrows(s: State, l: Label)
    requires Enabled(s, l)
    ensures exists more :: Apply(s, l).log == s.log + more
  {
    assert s.log == s.log + [];
    if l.OnLaunch? { LaunchFrame(s, l.launch); }
  }

  lemma FinishKeepsSnapshot(s: State, system: Entry, t: TaskId)
    requires ViewEnabled(s, FinishAssembly(system)) && t in Finish(s, system).processes
    requires Rebuilt(s, OnView(FinishAssembly(system))) != Some(t)
    ensures t in s.processes && SameSnapshot(s.processes[t], Finish(s, system).processes[t])
  {
    assert Finish(s, system).processes[t] == Shift(s.processes[t], Drop(s), Base(s));
  }

  lemma OthersKeepSnapshot(s: State, l: Label, t: TaskId)
    requires Enabled(s, l) && t in Apply(s, l).processes && Rebuilt(s, l) != Some(t)
    ensures t in s.processes && SameSnapshot(s.processes[t], Apply(s, l).processes[t])
  {
    match l
    case OnLaunch(launch) => LaunchFrame(s, launch);
    case OnView(view) => if view.FinishAssembly? { FinishKeepsSnapshot(s, view.system, t); }
    case OnRoute(route) => RouteKeepsSnapshot(s, route, t);
    case OnEnd(end) => EndKeepsSnapshot(s, end, t);
    case OnStore(_) =>
  }

  lemma EndKeepsSnapshot(s: State, l: EndStep, t: TaskId)
    requires EndEnabled(s, l) && t in ApplyEnd(s, l).processes
    ensures t in s.processes && SameSnapshot(s.processes[t], ApplyEnd(s, l).processes[t])
  {
  }

  lemma RouteKeepsSnapshot(s: State, l: RouteStep, t: TaskId)
    requires RouteEnabled(s, l) && t in ApplyRoute(s, l).processes
    ensures t in s.processes && SameSnapshot(s.processes[t], ApplyRoute(s, l).processes[t])
  {
  }

  lemma RebuiltShows(s: State, system: Entry, t: TaskId)
    requires Exact(s) && ViewEnabled(s, FinishAssembly(system)) && Rebuilt(s, OnView(FinishAssembly(system))) == Some(t)
    requires s.assembly.value.purpose.ForSync? ==> s.processes[t].narrativeBuilt
    ensures Shows(Finish(s, system).processes[t], s.log)
  {
    var base := Base(s) + Drop(s);
    assert SnapshotTail(s) == s.log[base..base + s.assembly.value.tailCount];
  }

  lemma StepShows(s: State, l: Label)
    requires Exact(s) && AllShow(s) && Enabled(s, l)
    ensures AllShow(Apply(s, l))
  {
    var s' := Apply(s, l);
    forall t | t in s'.processes ensures Shows(s'.processes[t], s'.log) {
      if Rebuilt(s, l) == Some(t) {
        if l.OnView? { RebuiltShows(s, l.view.system, t); }
      } else {
        OthersKeepSnapshot(s, l, t);
        LogGrows(s, l);
        var more :| s'.log == s.log + more;
        ShowsStable(s.processes[t], s'.processes[t], s.log, more);
      }
    }
  }

  /** After any run of the machine, every branch still shows the snapshot it was built from. */
  lemma {:induction false} RunShows(s: State, labels: seq<Label>)
    requires Exact(s) && AllShow(s) && Valid(s, labels)
    ensures AllShow(End(s, labels))
    decreases |labels|
  {
    if labels != [] {
      StepExact(s, labels[0]);
      StepShows(s, labels[0]);
      RunShows(Apply(s, labels[0]), labels[1..]);
    }
  }

  /**
   Entry `j` of the run's branch is log position `i`: the narrative part renders the log's window
   that holds `i`, and the entry is what the rendering keeps of that very position, marked.
   */
  ghost predicate RendersAt(p: Process, log: seq<Message>, i: nat, j: nat) {
    && p.narrativeBuilt && p.trail.from <= i < p.trail.seen <= |log|
    && 1 <= j < p.syncedLen <= |p.branch|
    && var input := p.trail.topics + log[p.trail.from..p.trail.seen];
       var kept := Kept(input, p.exchange, p.trail.others, |input|);
       && p.branch[..p.syncedLen] == [p.branch[0]] + Render(input, p.exchange, p.trail.others)
       && j - 1 < |kept| && kept[j - 1] == |p.trail.topics| + i - p.trail.from
       && p.branch[j].message == log[i] && p.branch[j].mark != Plain
  }

  /** A user message of the run's own exchange inside the snapshot is readable in its branch. */
  lemma OwnMessageInBranch(p: Process, log: seq<Message>, i: nat) returns (j: nat)
    requires Shows(p, log) && BranchIntact(p) && p.narrativeBuilt && p.exchange.Some?
    requires p.trail.from <= i < p.trail.seen && UserMessageOf(log[i], p.exchange.value)
    ensures RendersAt(p, log, i, j)
  {
    var input := p.trail.topics + log[p.trail.from..p.trail.seen];
    var at := |p.trail.topics| + (i - p.trail.from);
    assert input[at] == log[i];
    var k := OwnIsShown(input, p.exchange, p.trail.others, at);
    j := k + 1;
    assert p.branch[..p.syncedLen] == p.trail.part;
    assert p.branch[j] == p.trail.part[j] == Render(input, p.exchange, p.trail.others)[k];
  }
}
