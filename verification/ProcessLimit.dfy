/**
 The process limit: a bound on runs that have not been cancelled. Cancelled runs may
 still be unwinding, and a command that cancelled them may start another in their place.
 It holds in every run in which recovery starts at most one run per exchange; LimitBreach
 shows that it fails otherwise. The order of tasks does not matter here.
 */
module ProcessLimit {
  import opened Domain
  import opened Branch
  import opened DialogState
  import opened DialogWatermark

  function Uncancelled(processes: map<TaskId, Process>): set<TaskId> {
    set t | t in processes && !processes[t].cancelled
  }

  /** Exchanges the command in progress has cancelled, or is about to. */
  function Discounted(actor: Actor): set<ExchangeId> {
    match actor
    case Routing(cancelled, flagged) => cancelled + (if flagged.Some? then {flagged.value} else {})
    case Placing(_, _, cancelled) => cancelled
    case Admitting(_, _, cancelled) => cancelled
    case _ => {}
  }

  /** Recovery restarts no task of an exchange that already has a live run. */
  predicate SingleRestart(s: State, l: Label)
    requires Enabled(s, l)
  {
    l.OnLaunch? && l.launch.RestartCheck? && s.tasks[l.launch.t].exchange.Some? && |s.processes| < s.maxProcesses ==>
      !HasRun(s, s.tasks[l.launch.t].exchange.value)
  }

  predicate SingleRestarts(s: State, labels: seq<Label>)
    requires Valid(s, labels)
    decreases |labels|
  {
    labels == [] || (SingleRestart(s, labels[0]) && SingleRestarts(Apply(s, labels[0]), labels[1..]))
  }

  predicate SharesExchange(processes: map<TaskId, Process>, t: TaskId, u: TaskId)
    requires t in processes && u in processes
  {
    processes[t].exchange.Some? && processes[t].exchange == processes[u].exchange
  }

  /**
   An exchange has at most one live run; in the loose form, more than one only if all of them are
   cancelled and unwinding.
   */
  predicate OneEach(processes: map<TaskId, Process>, strict: bool) {
    forall t, u :: t in processes && u in processes && SharesExchange(processes, t, u) ==>
      t == u || (!strict && processes[t].cancelled && processes[u].cancelled)
  }

  /** A start in progress is for an exchange that nobody is running. */
  ghost predicate LaunchFree(s: State) {
    (LaunchTarget(s).Some? ==> !HasRun(s, LaunchTarget(s).value)) &&
    (s.actor.Admitting? ==>
      s.launch == Some(Checked(s.actor.exchange)) || s.launch == Some(Admitted(Some(s.actor.exchange))))
  }

  /**
   The actor takes no message before recovery is over, and from then on a start for an exchange
   is the actor's own.
   */
  predicate Phased(s: State) {
    (s.actor.Routing? || s.actor.Placing? || s.actor.Admitting? ==> !s.recovering) &&
    (!s.recovering && LaunchTarget(s).Some? ==> s.actor.Admitting? || s.actor.Launching?) &&
    (s.actor.Launching? || s.actor.Admitting? ==> s.launch.Some?)
  }

  /** Every live run of an exchange the current command cancelled carries the cancel flag. */
  ghost predicate DiscountsHonest(s: State) {
    forall t :: t in s.processes && s.processes[t].exchange.Some? ==>
      s.processes[t].exchange.value in Discounted(s.actor) ==> s.processes[t].cancelled
  }

  ghost predicate Bounded(s: State) {
    |Uncancelled(s.processes)| <= s.maxProcesses &&
    (s.launch.Some? && !s.launch.value.Checked? ==> |Uncancelled(s.processes)| < s.maxProcesses)
  }

  ghost predicate Limited(s: State, strict: bool) {
    Bounded(s) && DiscountsHonest(s) && OneEach(s.processes, strict) && LaunchFree(s) && Phased(s)
  }

  // ----- counting

  lemma {:induction false} ImageBound(processes: map<TaskId, Process>, runs: set<TaskId>, exchanges: set<ExchangeId>)
    requires forall t :: t in runs ==> t in processes
    requires forall e :: e in exchanges ==> exists t :: t in runs && processes[t].exchange == Some(e)
    ensures |exchanges| <= |runs|
    decreases runs
  {
    if exchanges != {} {
      var e :| e in exchanges;
      var t :| t in runs && processes[t].exchange == Some(e);
      forall f | f in exchanges - {e} ensures exists u :: u in runs - {t} && processes[u].exchange == Some(f) {
        var u :| u in runs && processes[u].exchange == Some(f);
        assert u in runs - {t};
      }
      ImageBound(processes, runs - {t}, exchanges - {e});
    }
  }

  /** The discounted limit test still counts every uncancelled run. */
  lemma DiscountCovered(s: State)
    requires DiscountsHonest(s) && s.actor.Admitting?
    ensures |Uncancelled(s.processes)| + |s.actor.cancelled * LiveExchanges(s)| <= |s.processes|
  {
    var flagged := s.processes.Keys - Uncancelled(s.processes);
    var discounted := s.actor.cancelled * LiveExchanges(s);
    forall e | e in discounted ensures exists t :: t in flagged && s.processes[t].exchange == Some(e) {
      var t :| t in s.processes && s.processes[t].exchange.Some? && s.processes[t].exchange.value == e;
      assert t in flagged;
    }
    ImageBound(s.processes, flagged, discounted);
    assert |flagged| == |s.processes.Keys| - |Uncancelled(s.processes)| by {
      assert Uncancelled(s.processes) <= s.processes.Keys;
    }
  }

  lemma SubsetSize(a: set<TaskId>, b: set<TaskId>)
    requires a <= b
    ensures |a| <= |b|
  {
    assert b == a + (b - a);
  }

  lemma FewerUncancelled(s: State, s': State)
    requires Uncancelled(s'.processes) <= Uncancelled(s.processes)
    ensures |Uncancelled(s'.processes)| <= |Uncancelled(s.processes)|
  {
    SubsetSize(Uncancelled(s'.processes), Uncancelled(s.processes));
  }

  lemma UncancelledAtMost(s: State)
    ensures |Uncancelled(s.processes)| <= |s.processes|
  {
    SubsetSize(Uncancelled(s.processes), s.processes.Keys);
  }

  // ----- preservation

  /** A step that starts nothing and lets no start go on. */
  lemma QuietLimited(s: State, s': State, strict: bool)
    requires Limited(s, strict) && s'.maxProcesses == s.maxProcesses && s'.tasks == s.tasks
    requires forall t :: t in s'.processes ==>
      t in s.processes && s'.processes[t].exchange == s.processes[t].exchange &&
      (s.processes[t].cancelled ==> s'.processes[t].cancelled)
    requires Discounted(s'.actor) <= Discounted(s.actor)
    requires s'.launch == s.launch || s'.launch.None?
    requires s'.actor.Admitting? ==> s'.actor == s.actor && s'.launch == s.launch
    requires Phased(s')
    ensures Limited(s', strict)
  {
    FewerUncancelled(s, s');
    assert forall e :: HasRun(s', e) ==> HasRun(s, e);
    FewerEach(s.processes, s'.processes, strict);
  }

  lemma FewerEach(before: map<TaskId, Process>, after: map<TaskId, Process>, strict: bool)
    requires OneEach(before, strict)
    requires forall t :: t in after ==>
      t in before && after[t].exchange == before[t].exchange && (before[t].cancelled ==> after[t].cancelled)
    ensures OneEach(after, strict)
  {
    forall t, u | t in after && u in after && SharesExchange(after, t, u)
      ensures t == u || (!strict && after[t].cancelled && after[u].cancelled)
    {
      assert SharesExchange(before, t, u);
    }
  }

  lemma FlagLimited(s: State, e: ExchangeId, run: Option<TaskId>, strict: bool)
    requires Limited(s, strict) && RouteEnabled(s, FlagCancel(e, run))
    ensures Limited(ApplyRoute(s, FlagCancel(e, run)), strict)
  {
    var s' := ApplyRoute(s, FlagCancel(e, run));
    FewerUncancelled(s, s');
    assert forall f :: HasRun(s', f) ==> HasRun(s, f);
    FewerEach(s.processes, s'.processes, strict);
    forall t | t in s'.processes && s'.processes[t].exchange.Some? &&
               s'.processes[t].exchange.value in Discounted(s'.actor)
      ensures s'.processes[t].cancelled
    {
      if s.processes[t].exchange == Some(e) {
        assert HasRun(s, e);
        assert run.Some? && SharesExchange(s.processes, t, run.value);
      }
    }
  }

  lemma AdmitLimited(s: State, strict: bool)
    requires Limited(s, strict) && LaunchEnabled(s, Admit)
    ensures Limited(ApplyLaunch(s, Admit), strict)
  {
    DiscountCovered(s);
    AdmissionFrame(s, Admit);
  }

  lemma PlaceLimited(s: State, strict: bool)
    requires Limited(s, strict) && LaunchEnabled(s, PlaceCheck)
    ensures Limited(ApplyLaunch(s, PlaceCheck), strict)
  {
    AdmissionFrame(s, PlaceCheck);
  }

  lemma CheckLimited(s: State, l: LaunchStep, strict: bool)
    requires Limited(s, strict) && LaunchEnabled(s, l) && SingleRestart(s, OnLaunch(l))
    requires l.ResumeCheck? || l.SpawnCheck? || l.RestartCheck?
    ensures Limited(ApplyLaunch(s, l), strict)
  {
    var s' := ApplyLaunch(s, l);
    UncancelledAtMost(s);
    if l.ResumeCheck? {
      AdmissionFrame(s, l);
      assert {} * LiveExchanges(s) == {};
    }
    assert s'.processes == s.processes;
    assert forall e :: HasRun(s', e) == HasRun(s, e);
  }

  lemma CommitLimited(s: State, t: TaskId, at: nat, strict: bool)
    requires Limited(s, strict) && LaunchEnabled(s, Commit(t, at))
    ensures Limited(CommitTask(s, t, at), strict)
  {
    var s' := CommitTask(s, t, at);
    assert s'.processes == s.processes && LaunchTarget(s') == LaunchTarget(s);
    assert forall e :: HasRun(s', e) == HasRun(s, e);
  }

  lemma GiveUpLimited(s: State, l: LaunchStep, strict: bool)
    requires Limited(s, strict) && LaunchEnabled(s, l) && (l.RefuseBudget? || l.AbortLaunch?)
    ensures Limited(ApplyLaunch(s, l), strict)
  {
    GiveUpFrame(s, l);
    QuietLimited(s, ApplyLaunch(s, l), strict);
  }

  /** The pool of `after` is that of `before` with one run more. */
  ghost predicate OneMoreRun(before: map<TaskId, Process>, after: map<TaskId, Process>, t: TaskId) {
    && after.Keys == before.Keys + {t}
    && forall u :: u in before && u != t ==>
         after[u].exchange == before[u].exchange && after[u].cancelled == before[u].cancelled
  }

  lemma OneMoreUncancelled(before: map<TaskId, Process>, after: map<TaskId, Process>, t: TaskId)
    requires OneMoreRun(before, after, t)
    ensures |Uncancelled(after)| <= |Uncancelled(before)| + 1
  {
    SubsetSize(Uncancelled(after), Uncancelled(before) + {t});
  }

  /** A run that starts for an exchange nobody runs and no command cancelled. */
  lemma CreateHonest(s: State, s': State, t: TaskId, strict: bool)
    requires DiscountsHonest(s) && OneEach(s.processes, strict) && OneMoreRun(s.processes, s'.processes, t)
    requires Discounted(s'.actor) <= Discounted(s.actor)
    requires s'.processes[t].exchange.Some? ==>
      s'.processes[t].exchange.value !in Discounted(s'.actor) && !HasRun(s, s'.processes[t].exchange.value)
    ensures DiscountsHonest(s') && OneEach(s'.processes, strict)
  {
    forall u, v | u in s'.processes && v in s'.processes && SharesExchange(s'.processes, u, v)
      ensures u == v || (!strict && s'.processes[u].cancelled && s'.processes[v].cancelled)
    {
      assert u == t || u in s.processes;
      assert v == t || v in s.processes;
      assert u != t && v != t ==> SharesExchange(s.processes, u, v);
    }
  }

  /** One run is added, and the bound had room for it. */
  lemma CreateLimited(s: State, s': State, t: TaskId, strict: bool)
    requires Limited(s, strict) && MayCreate(s) && t == s.launch.value.task
    requires s'.maxProcesses == s.maxProcesses && s'.launch.None? && s'.actor == AfterLaunch(s.actor)
    requires s'.recovering == s.recovering
    requires OneMoreRun(s.processes, s'.processes, t) && s'.processes[t].exchange == s.tasks[t].exchange
    ensures Limited(s', strict)
  {
    OneMoreUncancelled(s.processes, s'.processes, t);
    assert LaunchTarget(s) == s.tasks[t].exchange && !s.actor.Admitting?;
    CreateHonest(s, s', t, strict);
  }

  lemma BackgroundLimited(s: State, branch: seq<Entry>, strict: bool)
    requires Limited(s, strict) && LaunchEnabled(s, CreateBackground(branch))
    ensures Limited(ApplyLaunch(s, CreateBackground(branch)), strict)
  {
    CreateLimited(s, ApplyLaunch(s, CreateBackground(branch)), s.launch.value.task, strict);
  }

  lemma LaunchLimited(s: State, l: LaunchStep, strict: bool)
    requires Limited(s, strict) && LaunchEnabled(s, l) && SingleRestart(s, OnLaunch(l))
    ensures Limited(ApplyLaunch(s, l), strict)
  {
    match l
    case PlaceCheck => PlaceLimited(s, strict);
    case Admit => AdmitLimited(s, strict);
    case Commit(t, at) => CommitLimited(s, t, at, strict);
    case CreateBackground(branch) => BackgroundLimited(s, branch, strict);
    case RefuseBudget(_, _) => GiveUpLimited(s, l, strict);
    case AbortLaunch => GiveUpLimited(s, l, strict);
    case _ => CheckLimited(s, l, strict);
  }

  lemma ViewLimited(s: State, l: ViewStep, strict: bool)
    requires Limited(s, strict) && ViewEnabled(s, l)
    ensures Limited(ApplyView(s, l), strict)
  {
    if l.FinishAssembly? {
      FinishLimited(s, l.system, strict);
    } else {
      QuietLimited(s, ApplyView(s, l), strict);
    }
  }

  lemma FinishLimited(s: State, system: Entry, strict: bool)
    requires Limited(s, strict) && ViewEnabled(s, FinishAssembly(system))
    ensures Limited(Finish(s, system), strict)
  {
    match s.assembly.value.purpose
    case ForTrim => QuietLimited(s, FinishTrim(s), strict);
    case ForSync(t) => SyncLimited(s, system, t, strict);
    case ForLaunch => StartLimited(s, system, strict);
  }

  lemma SyncLimited(s: State, system: Entry, t: TaskId, strict: bool)
    requires Limited(s, strict) && Assembled(s) && t in s.processes
    requires s.processes[t].syncedLen <= |s.processes[t].branch|
    ensures Limited(FinishSync(s, system, t), strict)
  {
    var s' := FinishSync(s, system, t);
    assert s' == s.(narrative := s'.narrative, processes := s'.processes, assembly := None);
    QuietLimited(s, s', strict);
  }

  lemma StartLimited(s: State, system: Entry, strict: bool)
    requires Limited(s, strict) && Assembled(s) && MayCreate(s)
    ensures Limited(FinishLaunch(s, system), strict)
  {
    var s' := FinishLaunch(s, system);
    assert s'.processes.Keys == s.processes.Keys + {s.launch.value.task};
    CreateLimited(s, s', s.launch.value.task, strict);
  }

  lemma RouteLimited(s: State, l: RouteStep, strict: bool)
    requires Limited(s, strict) && RouteEnabled(s, l)
    ensures Limited(ApplyRoute(s, l), strict)
  {
    match l
    case FlagCancel(e, run) => FlagLimited(s, e, run, strict);
    case _ =>
      RouteQuiet(s, l);
      QuietLimited(s, ApplyRoute(s, l), strict);
  }

  /** Routing starts nothing, and cancels nothing beyond what it was told to. */
  lemma RouteQuiet(s: State, l: RouteStep)
    requires RouteEnabled(s, l) && !l.FlagCancel? && Phased(s)
    ensures
      var s' := ApplyRoute(s, l);
      && s'.processes == s.processes && s'.tasks == s.tasks && s'.launch == s.launch
      && s'.maxProcesses == s.maxProcesses
      && Discounted(s'.actor) <= Discounted(s.actor) && Phased(s')
  {
  }

  lemma StepLimited(s: State, l: Label, strict: bool)
    requires Limited(s, strict) && Enabled(s, l) && SingleRestart(s, l)
    ensures Limited(Apply(s, l), strict)
  {
    match l
    case OnStore(store) => QuietLimited(s, ApplyStore(s, store), strict);
    case OnRoute(route) => RouteLimited(s, route, strict);
    case OnLaunch(launch) => LaunchLimited(s, launch, strict);
    case OnView(view) => ViewLimited(s, view, strict);
    case OnEnd(end) => QuietLimited(s, ApplyEnd(s, end), strict);
  }

  lemma {:induction false} RunLimited(s: State, labels: seq<Label>, strict: bool)
    requires Limited(s, strict) && Valid(s, labels) && SingleRestarts(s, labels)
    ensures Limited(End(s, labels), strict) && End(s, labels).maxProcesses == s.maxProcesses
    decreases |labels|
  {
    if labels != [] {
      StepLimited(s, labels[0], strict);
      LimitStays(s, labels[0]);
      RunLimited(Apply(s, labels[0]), labels[1..], strict);
    }
  }

  lemma LimitStays(s: State, l: Label)
    requires Enabled(s, l)
    ensures Apply(s, l).maxProcesses == s.maxProcesses
  {
    if l.OnLaunch? {
      if l.launch.PlaceCheck? || l.launch.Admit? || l.launch.ResumeCheck? { AdmissionFrame(s, l.launch); }
      if l.launch.RefuseBudget? || l.launch.AbortLaunch? { GiveUpFrame(s, l.launch); }
    }
  }

  /**
   Across every start path - submit, resume, spawn, wake, restart - with runs ending and
   cancels arriving at any time: while recovery starts at most one run per exchange, uncancelled
   live runs never exceed the limit, and no exchange comes to have two live runs (in the loose form,
   two of which one is not cancelled).
   */
  lemma LimitHolds(s: State, labels: seq<Label>, strict: bool)
    requires Limited(s, strict) && Valid(s, labels) && SingleRestarts(s, labels)
    ensures |Uncancelled(End(s, labels).processes)| <= s.maxProcesses && OneEach(End(s, labels).processes, strict)
  {
    RunLimited(s, labels, strict);
  }
}
