/**
 A task runs once: its run, once ended, never comes back. So a termination reports as shown
 exactly what stood in the branches of the one run it speaks of, in every run of the machine.
 */
module TaskLife {
  import opened Domain
  import opened Branch
  import opened DialogState
  import opened DialogWatermark
  import opened DialogOwnership
  import opened BranchHistory

  /** Task `t` is stored and will not run (again): no run, no start, not to be restarted. */
  predicate Over(s: State, t: TaskId) {
    t in s.tasks && t !in s.processes && t !in s.orphans && s.launch != Some(Committed(t))
  }

  lemma LaunchOver(s: State, l: LaunchStep, t: TaskId)
    requires LaunchEnabled(s, l) && Over(s, t)
    ensures Over(ApplyLaunch(s, l), t)
  {
    LaunchFrame(s, l);
    LaunchRecords(s, l);
    if l.PlaceCheck? || l.Admit? || l.ResumeCheck? { AdmissionFrame(s, l); }
    if l.RefuseBudget? || l.AbortLaunch? { GiveUpFrame(s, l); }
  }

  lemma StepOver(s: State, l: Label, t: TaskId)
    requires Enabled(s, l) && Over(s, t)
    ensures Over(Apply(s, l), t)
  {
    match l
    case OnLaunch(launch) => LaunchOver(s, launch, t);
    case OnRoute(route) => RouteFrame(s, route);
    case OnView(view) => ViewFrame(s, view);
    case OnEnd(end) =>
    case OnStore(_) =>
  }

  /** Views add no run but that of a stored start, and no task or termination. */
  lemma ViewFrame(s: State, l: ViewStep)
    requires ViewEnabled(s, l)
    ensures
      var s' := ApplyView(s, l);
      && s'.tasks == s.tasks && s'.inbox == s.inbox && s'.orphans == s.orphans
      && ((s'.launch == s.launch && s'.processes.Keys == s.processes.Keys) ||
          (MayCreate(s) && s'.launch.None? && s'.processes.Keys == s.processes.Keys + {s.launch.value.task}))
  {
  }

  /** A task that is over leaves no new termination. */
  lemma {:induction false} OverAddsNothing(s: State, labels: seq<Label>, c: Terminated)
    requires Valid(s, labels) && Over(s, c.task) && c in End(s, labels).inbox
    ensures c in s.inbox
    decreases |labels|
  {
    if labels != [] {
      StepOver(s, labels[0], c.task);
      OverAddsNothing(Apply(s, labels[0]), labels[1..], c);
      if c !in s.inbox { NewCommand(s, labels[0], c); }
    }
  }

  /** A start is of a task that has not run, a termination of one that will not run again. */
  ghost predicate OneLife(s: State) {
    && OrphansIdle(s)
    && (s.launch.Some? && s.launch.value.Committed? ==> NotRun(s, s.launch.value.task))
    && (forall c :: c in s.inbox ==> Over(s, c.task))
    && (forall j, k :: 0 <= j < k < |s.inbox| ==> s.inbox[j].task != s.inbox[k].task)
  }

  ghost predicate NotRun(s: State, t: TaskId) {
    t in s.tasks && t !in s.processes && t !in s.orphans && forall c :: c in s.inbox ==> c.task != t
  }

  /** A step that adds no run and no termination. */
  lemma QuietLife(s: State, s': State)
    requires OneLife(s) && OrphansIdle(s') && s'.tasks == s.tasks && s'.processes.Keys == s.processes.Keys
    requires s'.orphans == s.orphans && (s'.launch == s.launch || s'.launch.None? || !s'.launch.value.Committed?)
    requires s'.inbox == s.inbox || (s.inbox != [] && s'.inbox == s.inbox[1..])
    ensures OneLife(s')
  {
  }

  lemma TerminateLife(s: State, t: TaskId, outcome: Status)
    requires OneLife(s) && Stored(s) && EndEnabled(s, Terminate(t, outcome))
    ensures OneLife(Terminating(s, t, outcome))
  {
    StepOrphans(s, OnEnd(Terminate(t, outcome)));
    assert RunStored(s, t);
    assert t in s.orphans ==> OrphanIdle(s, t);
  }

  lemma CreateLife(s: State, s': State)
    requires OneLife(s) && MayCreate(s) && OrphansIdle(s') && s'.tasks == s.tasks && s'.inbox == s.inbox
    requires s'.orphans == s.orphans && s'.launch.None?
    requires s'.processes.Keys == s.processes.Keys + {s.launch.value.task}
    ensures OneLife(s')
  {
  }

  lemma CommitLife(s: State, t: TaskId, at: nat)
    requires OneLife(s) && Stored(s) && LaunchEnabled(s, Commit(t, at))
    ensures OneLife(CommitTask(s, t, at))
  {
    StepOrphans(s, OnLaunch(Commit(t, at)));
    var s' := CommitTask(s, t, at);
    assert t in s.orphans ==> OrphanIdle(s, t);
    assert t in s.processes ==> RunStored(s, t);
    forall c | c in s'.inbox ensures c.task != t && Over(s', c.task) {
      assert Over(s, c.task);
    }
  }

  lemma RestartLife(s: State, t: TaskId)
    requires OneLife(s) && LaunchEnabled(s, RestartCheck(t))
    ensures OneLife(ApplyLaunch(s, RestartCheck(t)))
  {
    StepOrphans(s, OnLaunch(RestartCheck(t)));
    assert OrphanIdle(s, t);
    var s' := ApplyLaunch(s, RestartCheck(t));
    forall c | c in s'.inbox ensures Over(s', c.task) {
      assert Over(s, c.task);
      assert c.task != t;
    }
  }

  lemma LaunchLife(s: State, l: LaunchStep)
    requires OneLife(s) && Stored(s) && LaunchEnabled(s, l)
    ensures OneLife(ApplyLaunch(s, l))
  {
    match l
    case Commit(t, at) => CommitLife(s, t, at);
    case RestartCheck(t) => RestartLife(s, t);
    case CreateBackground(branch) => BackgroundLife(s, branch);
    case _ => CheckLife(s, l);
  }

  lemma BackgroundLife(s: State, branch: seq<Entry>)
    requires OneLife(s) && LaunchEnabled(s, CreateBackground(branch))
    ensures OneLife(ApplyLaunch(s, CreateBackground(branch)))
  {
    StepOrphans(s, OnLaunch(CreateBackground(branch)));
    CreateLife(s, ApplyLaunch(s, CreateBackground(branch)));
  }

  lemma CheckLife(s: State, l: LaunchStep)
    requires OneLife(s) && LaunchEnabled(s, l) && !l.Commit? && !l.RestartCheck? && !l.CreateBackground?
    ensures OneLife(ApplyLaunch(s, l))
  {
    StepOrphans(s, OnLaunch(l));
    CheckFrame(s, l);
    QuietLife(s, ApplyLaunch(s, l));
  }

  /** Checks and refusals change neither tasks nor runs nor terminations. */
  lemma CheckFrame(s: State, l: LaunchStep)
    requires LaunchEnabled(s, l) && !l.Commit? && !l.RestartCheck? && !l.CreateBackground?
    ensures
      var s' := ApplyLaunch(s, l);
      && s'.tasks == s.tasks && s'.processes == s.processes && s'.inbox == s.inbox && s'.orphans == s.orphans
      && (s'.launch == s.launch || s'.launch.None? || !s'.launch.value.Committed?)
  {
    if l.PlaceCheck? || l.Admit? || l.ResumeCheck? { AdmissionFrame(s, l); }
    if l.RefuseBudget? || l.AbortLaunch? { GiveUpFrame(s, l); }
  }

  lemma ViewLife(s: State, l: ViewStep)
    requires OneLife(s) && ViewEnabled(s, l)
    ensures OneLife(ApplyView(s, l))
  {
    StepOrphans(s, OnView(l));
    ViewFrame(s, l);
    if ApplyView(s, l).processes.Keys == s.processes.Keys && ApplyView(s, l).launch == s.launch {
      QuietLife(s, ApplyView(s, l));
    } else {
      CreateLife(s, ApplyView(s, l));
    }
  }

  lemma RouteLife(s: State, l: RouteStep)
    requires OneLife(s) && RouteEnabled(s, l)
    ensures OneLife(ApplyRoute(s, l))
  {
    StepOrphans(s, OnRoute(l));
    RouteFrame(s, l);
    QuietLife(s, ApplyRoute(s, l));
  }

  lemma EndLife(s: State, l: EndStep)
    requires OneLife(s) && Stored(s) && EndEnabled(s, l)
    ensures OneLife(ApplyEnd(s, l))
  {
    StepOrphans(s, OnEnd(l));
    match l
    case Terminate(t, outcome) => TerminateLife(s, t, outcome);
    case _ => QuietLife(s, ApplyEnd(s, l));
  }

  lemma StepLife(s: State, l: Label)
    requires OneLife(s) && Stored(s) && Enabled(s, l)
    ensures OneLife(Apply(s, l))
  {
    match l
    case OnStore(store) => QuietLife(s, ApplyStore(s, store));
    case OnRoute(route) => RouteLife(s, route);
    case OnLaunch(launch) => LaunchLife(s, launch);
    case OnView(view) => ViewLife(s, view);
    case OnEnd(end) => EndLife(s, end);
  }

  // ----- what was in the branch is in the report

  /** While a run lives, what it was shown stays shown. */
  lemma ShownStays(s: State, l: Label, t: TaskId, i: nat)
    requires OneLife(s) && Enabled(s, l) && ShownIn(s, t, i) && t in Apply(s, l).processes
    ensures ShownIn(Apply(s, l), t, i)
  {
    if Rebuilt(s, l) != Some(t) { OthersKeepSnapshot(s, l, t); }
  }

  lemma {:induction false} ShownIsReported(s: State, labels: seq<Label>, c: Terminated, i: nat)
    requires Recorded(s) && OneLife(s) && Valid(s, labels) && ShownIn(s, c.task, i) && c in End(s, labels).inbox
    ensures i in c.trail.shown
    decreases |labels|
  {
    if labels != [] {
      var s1 := Apply(s, labels[0]);
      StepRecorded(s, labels[0]);
      StepLife(s, labels[0]);
      if c.task in s1.processes {
        ShownStays(s, labels[0], c.task, i);
        ShownIsReported(s1, labels[1..], c, i);
      } else {
        RunGone(s, labels[0], c.task);
        OverAddsNothing(s1, labels[1..], c);
        NewCommand(s, labels[0], c);
      }
    }
  }

  /** A run disappears only by ending. */
  lemma RunGone(s: State, l: Label, t: TaskId)
    requires OneLife(s) && Recorded(s) && Enabled(s, l) && t in s.processes && t !in Apply(s, l).processes
    ensures Over(Apply(s, l), t)
  {
    match l
    case OnLaunch(launch) => LaunchFrame(s, launch);
    case OnRoute(route) => RouteFrame(s, route);
    case OnView(view) => ViewFrame(s, view);
    case OnStore(_) =>
    case OnEnd(end) => EndedIsOver(s, end, t);
  }

  lemma EndedIsOver(s: State, l: EndStep, t: TaskId)
    requires OneLife(s) && Stored(s) && EndEnabled(s, l) && t in s.processes && t !in ApplyEnd(s, l).processes
    ensures Over(ApplyEnd(s, l), t)
  {
    assert RunStored(s, t);
    assert t in s.orphans ==> OrphanIdle(s, t);
  }

  lemma {:induction false} HeldIsReported(s: State, labels: seq<Label>, c: Terminated, i: nat)
    requires Recorded(s) && OneLife(s) && Valid(s, labels) && c in End(s, labels).inbox
    requires WasInBranch(s, labels, c.task, i)
    ensures i in c.trail.shown
    decreases |labels|
  {
    if InBranch(s, c.task, i) {
      assert TrailWithin(s.processes[c.task].trail, |s.log|);
      ShownIsReported(s, labels, c, i);
    } else {
      StepRecorded(s, labels[0]);
      StepLife(s, labels[0]);
      HeldIsReported(Apply(s, labels[0]), labels[1..], c, i);
    }
  }

  /**
   Over every run from a state without runs, a termination reports exactly those user messages
   of its exchange as shown that stood in its run's branch.
   */
  lemma ReportedIffInBranch(s: State, labels: seq<Label>, c: Terminated, i: nat)
    requires Recorded(s) && OneLife(s) && s.processes == map[] && s.inbox == [] && Valid(s, labels)
    requires c in End(s, labels).inbox && c.exchange.Some?
    requires i < |End(s, labels).log| && UserMessageOf(End(s, labels).log[i], c.exchange.value)
    ensures i in c.trail.shown <==> WasInBranch(s, labels, c.task, i)
  {
    RunRecorded(s, labels);
    var k :| 0 <= k < |End(s, labels).inbox| && End(s, labels).inbox[k] == c;
    assert CommandStored(End(s, labels), End(s, labels).inbox[k]);
    if i in c.trail.shown { ReportedWasInBranch(s, labels, c, i, c.exchange.value); }
    if WasInBranch(s, labels, c.task, i) { HeldIsReported(s, labels, c, i); }
  }
}
