/**
 Who owes an exchange its answer: while starts are serialized by the spawn lock, the one
 live run of an exchange is always its newest task.
 */
module DialogOwnership {
  import opened Domain
  import opened DialogState
  import opened DialogWatermark

  /**
   What the surrounding system promises and the machine itself does not enforce. A task is
   stored with a creation time after (or, on a tie, an id above) its exchange's earlier
   tasks, and recovery restarts no task of an exchange that has a newer one.
   */
  predicate Clean(s: State, l: Label)
    requires Enabled(s, l)
  {
    match l
    case OnLaunch(Commit(t, at)) =>
      s.launch.value.target.Some? ==>
        forall u :: u in s.tasks && s.tasks[u].exchange == s.launch.value.target ==>
          Older(s.tasks[u], u, TaskRow(s.launch.value.target, at), t)
    case OnLaunch(RestartCheck(t)) =>
      s.tasks[t].exchange.Some? ==> IsNewest(s.tasks, s.tasks[t].exchange.value, t)
    case _ => true
  }

  predicate CleanRun(s: State, labels: seq<Label>)
    requires Valid(s, labels)
    decreases |labels|
  {
    labels == [] || (Clean(s, labels[0]) && CleanRun(Apply(s, labels[0]), labels[1..]))
  }

  // ----- the invariant

  /** A live run is the run of a stored task, and follows the narrative if it owes an answer. */
  predicate RunStored(s: State, t: TaskId)
    requires t in s.processes
  {
    t in s.tasks && s.tasks[t].exchange == s.processes[t].exchange &&
    (s.processes[t].exchange.Some? ==> s.processes[t].narrativeBuilt)
  }

  predicate CommandStored(s: State, c: Terminated) {
    c.task in s.tasks && s.tasks[c.task].exchange == c.exchange
  }

  ghost predicate RunOwns(s: State, t: TaskId)
    requires t in s.processes
  {
    RunStored(s, t) &&
    (s.processes[t].exchange.Some? ==> IsNewest(s.tasks, s.processes[t].exchange.value, t))
  }

  ghost predicate RunsOwn(s: State) {
    forall t :: t in s.processes ==> RunOwns(s, t)
  }

  ghost predicate CommandSound(s: State, c: Terminated) {
    CommandStored(s, c) && c.task !in s.processes && s.launch != Some(Committed(c.task))
  }

  ghost predicate CommandsSound(s: State) {
    forall k :: 0 <= k < |s.inbox| ==> CommandSound(s, s.inbox[k])
  }

  ghost predicate LaunchSound(s: State) {
    (s.launch.Some? ==>
      match s.launch.value
      case Checked(e) => !HasRun(s, e)
      case Admitted(target) => target.Some? ==> !HasRun(s, target.value)
      case Committed(t) =>
        t in s.tasks && t !in s.processes &&
        (s.tasks[t].exchange.Some? ==> IsNewest(s.tasks, s.tasks[t].exchange.value, t))) &&
    (s.actor.Admitting? ==>
      s.launch == Some(Checked(s.actor.exchange)) || s.launch == Some(Admitted(Some(s.actor.exchange))))
  }

  ghost predicate Owned(s: State) {
    RunsOwn(s) && CommandsSound(s) && LaunchSound(s)
  }

  /** A task recovery has still to restart has no run, no termination and no start of its own. */
  ghost predicate OrphanIdle(s: State, t: TaskId) {
    t in s.tasks && t !in s.processes && s.launch != Some(Committed(t)) &&
    forall k :: 0 <= k < |s.inbox| ==> s.inbox[k].task != t
  }

  ghost predicate OrphansIdle(s: State) {
    forall t :: t in s.orphans ==> OrphanIdle(s, t)
  }

  ghost predicate Ordered(s: State) {
    Owned(s) && OrphansIdle(s)
  }

  /** At most one live run per exchange. */
  lemma OneRunPerExchange(s: State, t: TaskId, u: TaskId)
    requires RunsOwn(s) && t in s.processes && u in s.processes
    requires s.processes[t].exchange == s.processes[u].exchange && s.processes[t].exchange.Some?
    ensures t == u
  {
    assert RunOwns(s, t) && RunOwns(s, u);
  }

  // ----- preservation

  /** Same runs of the same exchanges, possibly fewer. */
  ghost predicate RunsWithin(s: State, s': State) {
    forall t :: t in s'.processes ==>
      t in s.processes && s'.processes[t].exchange == s.processes[t].exchange &&
      s'.processes[t].narrativeBuilt == s.processes[t].narrativeBuilt
  }

  /** A step that starts nothing: same tasks and launch, no new runs or commands. */
  lemma QuietOrdered(s: State, s': State)
    requires Owned(s) && RunsWithin(s, s') && s'.tasks == s.tasks && s'.launch == s.launch
    requires forall k :: 0 <= k < |s'.inbox| ==> s'.inbox[k] in s.inbox
    requires s'.actor.Admitting? ==> s.actor.Admitting? && s'.actor.exchange == s.actor.exchange
    ensures Owned(s')
  {
    forall t | t in s'.processes ensures RunOwns(s', t) { assert RunOwns(s, t); }
    forall k | 0 <= k < |s'.inbox| ensures CommandSound(s', s'.inbox[k]) {
      var c := s'.inbox[k];
      assert c in s.inbox;
      var j :| 0 <= j < |s.inbox| && s.inbox[j] == c;
      assert CommandSound(s, s.inbox[j]);
    }
    NoNewRun(s, s');
  }

  lemma NoNewRun(s: State, s': State)
    requires RunsWithin(s, s')
    ensures forall e :: !HasRun(s, e) ==> !HasRun(s', e)
  {
  }

  lemma TerminateOrdered(s: State, t: TaskId, outcome: Status)
    requires Owned(s) && EndEnabled(s, Terminate(t, outcome))
    ensures Owned(Terminating(s, t, outcome))
  {
    var s' := Terminating(s, t, outcome);
    QuietOrdered(s, s'.(inbox := s.inbox));
    assert RunOwns(s, t);
    assert CommandSound(s', s'.inbox[|s.inbox|]);
    forall k | 0 <= k < |s'.inbox| ensures CommandSound(s', s'.inbox[k]) {
      if k < |s.inbox| { assert CommandSound(s, s.inbox[k]); }
    }
    forall u | u in s'.processes ensures RunOwns(s', u) { assert RunOwns(s, u); }
  }

  lemma CommitOrdered(s: State, t: TaskId, at: nat)
    requires Owned(s) && LaunchEnabled(s, Commit(t, at)) && Clean(s, OnLaunch(Commit(t, at)))
    ensures Owned(CommitTask(s, t, at))
  {
    var s' := CommitTask(s, t, at);
    var target := s.launch.value.target;
    forall u | u in s'.processes ensures RunOwns(s', u) {
      assert RunOwns(s, u);
      assert s.processes[u].exchange.Some? ==> HasRun(s, s.processes[u].exchange.value);
    }
    forall k | 0 <= k < |s'.inbox| ensures CommandSound(s', s'.inbox[k]) { assert CommandSound(s, s.inbox[k]); }
    assert t in s.processes ==> RunOwns(s, t);
  }

  /** The process of the committed task appears; nothing else changes hands. */
  lemma CreateOrdered(s: State, s': State)
    requires Owned(s) && MayCreate(s) && s'.tasks == s.tasks && s'.launch.None? && s'.inbox == s.inbox
    requires s'.processes.Keys == s.processes.Keys + {s.launch.value.task}
    requires forall u :: u in s.processes ==>
      s'.processes[u].exchange == s.processes[u].exchange &&
      s'.processes[u].narrativeBuilt == s.processes[u].narrativeBuilt
    requires s'.processes[s.launch.value.task].exchange == s.tasks[s.launch.value.task].exchange
    requires s'.processes[s.launch.value.task].exchange.Some? ==> s'.processes[s.launch.value.task].narrativeBuilt
    requires !s'.actor.Admitting?
    ensures Owned(s')
  {
    forall u | u in s'.processes ensures RunOwns(s', u) {
      if u in s.processes { assert RunOwns(s, u); }
    }
    forall k | 0 <= k < |s'.inbox| ensures CommandSound(s', s'.inbox[k]) { assert CommandSound(s, s.inbox[k]); }
  }

  /** Only the launch and the actor move: runs, tasks and commands stay sound. */
  lemma SamePoolOrdered(s: State, s': State)
    requires RunsOwn(s) && CommandsSound(s) && LaunchSound(s')
    requires s'.processes == s.processes && s'.tasks == s.tasks && s'.inbox == s.inbox
    requires s'.launch.Some? && s'.launch.value.Committed? ==>
      s'.launch == s.launch || forall k :: 0 <= k < |s.inbox| ==> s.inbox[k].task != s'.launch.value.task
    ensures Owned(s')
  {
    forall u | u in s'.processes ensures RunOwns(s', u) { assert RunOwns(s, u); }
    forall k | 0 <= k < |s'.inbox| ensures CommandSound(s', s'.inbox[k]) { assert CommandSound(s, s.inbox[k]); }
  }

  lemma AdmissionOrdered(s: State, l: LaunchStep)
    requires Owned(s) && LaunchEnabled(s, l) && (l.PlaceCheck? || l.Admit? || l.ResumeCheck?)
    ensures Owned(ApplyLaunch(s, l))
  {
    var s' := ApplyLaunch(s, l);
    AdmissionFrame(s, l);
    assert forall e :: HasRun(s', e) == HasRun(s, e);
    SamePoolOrdered(s, s');
  }

  lemma LaunchOrdered(s: State, l: LaunchStep)
    requires Ordered(s) && LaunchEnabled(s, l) && Clean(s, OnLaunch(l))
    ensures Owned(ApplyLaunch(s, l))
  {
    match l
    case Commit(t, at) => CommitOrdered(s, t, at);
    case CreateBackground(branch) => CreateOrdered(s, ApplyLaunch(s, l));
    case SpawnCheck => CheckOrdered(s, l);
    case RestartCheck(_) => CheckOrdered(s, l);
    case RefuseBudget(_, _) => GiveUpOrdered(s, l);
    case AbortLaunch => GiveUpOrdered(s, l);
    case _ => AdmissionOrdered(s, l);
  }

  lemma CheckOrdered(s: State, l: LaunchStep)
    requires Ordered(s) && LaunchEnabled(s, l) && Clean(s, OnLaunch(l)) && (l.SpawnCheck? || l.RestartCheck?)
    ensures Owned(ApplyLaunch(s, l))
  {
    if l.RestartCheck? { assert OrphanIdle(s, l.t); }
    SamePoolOrdered(s, ApplyLaunch(s, l));
  }

  lemma GiveUpOrdered(s: State, l: LaunchStep)
    requires Owned(s) && LaunchEnabled(s, l) && (l.RefuseBudget? || l.AbortLaunch?)
    ensures Owned(ApplyLaunch(s, l))
  {
    GiveUpFrame(s, l);
    SamePoolOrdered(s, ApplyLaunch(s, l));
  }

  lemma ViewOrdered(s: State, l: ViewStep)
    requires Owned(s) && ViewEnabled(s, l)
    ensures Owned(ApplyView(s, l))
  {
    if l.FinishAssembly? && s.assembly.value.purpose.ForLaunch? {
      CreateOrdered(s, FinishLaunch(s, l.system));
    } else {
      QuietOrdered(s, ApplyView(s, l));
    }
  }

  lemma EndOrdered(s: State, l: EndStep)
    requires Owned(s) && EndEnabled(s, l)
    ensures Owned(ApplyEnd(s, l))
  {
    match l
    case Terminate(t, outcome) => TerminateOrdered(s, t, outcome);
    case _ => QuietOrdered(s, ApplyEnd(s, l));
  }

  /** Every clean step keeps "the live run of an exchange is its newest task". */
  lemma StepOrdered(s: State, l: Label)
    requires Ordered(s) && Enabled(s, l) && Clean(s, l)
    ensures Ordered(Apply(s, l))
  {
    StepOrphans(s, l);
    match l
    case OnStore(store) => QuietOrdered(s, ApplyStore(s, store));
    case OnRoute(route) => RouteOrdered(s, route);
    case OnLaunch(launch) => LaunchOrdered(s, launch);
    case OnView(view) => ViewOrdered(s, view);
    case OnEnd(end) => EndOrdered(s, end);
  }

  lemma RouteOrdered(s: State, l: RouteStep)
    requires Owned(s) && RouteEnabled(s, l)
    ensures Owned(ApplyRoute(s, l))
  {
    RouteFrame(s, l);
    QuietOrdered(s, ApplyRoute(s, l));
  }

  /** Runs come from starts, terminations from runs, and starts of stored tasks from recovery. */
  lemma QuietOrphans(s: State, s': State)
    requires OrphansIdle(s) && s'.orphans <= s.orphans
    requires forall t :: t in s.tasks ==> t in s'.tasks
    requires forall t :: t in s'.processes ==> t in s.processes || s.launch == Some(Committed(t))
    requires forall k :: 0 <= k < |s'.inbox| ==> s'.inbox[k] in s.inbox || s'.inbox[k].task in s.processes
    requires s'.launch.Some? && s'.launch.value.Committed? ==>
      s'.launch == s.launch || s'.launch.value.task !in s.tasks || s'.launch.value.task !in s'.orphans
    ensures OrphansIdle(s')
  {
    forall t | t in s'.orphans ensures OrphanIdle(s', t) {
      assert OrphanIdle(s, t);
    }
  }

  lemma LaunchOrphans(s: State, l: LaunchStep)
    requires OrphansIdle(s) && LaunchEnabled(s, l)
    ensures OrphansIdle(ApplyLaunch(s, l))
  {
    if l.PlaceCheck? || l.Admit? || l.ResumeCheck? { AdmissionFrame(s, l); }
    if l.RefuseBudget? || l.AbortLaunch? { GiveUpFrame(s, l); }
    QuietOrphans(s, ApplyLaunch(s, l));
  }

  lemma StepOrphans(s: State, l: Label)
    requires OrphansIdle(s) && Enabled(s, l)
    ensures OrphansIdle(Apply(s, l))
  {
    match l
    case OnStore(store) => QuietOrphans(s, ApplyStore(s, store));
    case OnRoute(route) =>
      RouteFrame(s, route);
      QuietOrphans(s, ApplyRoute(s, route));
    case OnLaunch(launch) => LaunchOrphans(s, launch);
    case OnView(view) => QuietOrphans(s, ApplyView(s, view));
    case OnEnd(end) => QuietOrphans(s, ApplyEnd(s, end));
  }

  lemma {:induction false} RunOrdered(s: State, labels: seq<Label>)
    requires Ordered(s) && Valid(s, labels) && CleanRun(s, labels)
    ensures Ordered(End(s, labels))
    decreases |labels|
  {
    if labels != [] {
      StepOrdered(s, labels[0]);
      RunOrdered(Apply(s, labels[0]), labels[1..]);
    }
  }

  /** In every clean run, an exchange has at most one live run, and it is its newest task. */
  lemma LiveRunIsNewest(s: State, labels: seq<Label>, t: TaskId, e: ExchangeId)
    requires Ordered(s) && Valid(s, labels) && CleanRun(s, labels)
    requires t in End(s, labels).processes && End(s, labels).processes[t].exchange == Some(e)
    ensures IsNewest(End(s, labels).tasks, e, t)
    ensures forall u :: u in End(s, labels).processes && End(s, labels).processes[u].exchange == Some(e) ==> u == t
  {
    RunOrdered(s, labels);
    var s' := End(s, labels);
    assert RunOwns(s', t);
    forall u | u in s'.processes && s'.processes[u].exchange == Some(e) ensures u == t {
      OneRunPerExchange(s', t, u);
    }
  }
}
