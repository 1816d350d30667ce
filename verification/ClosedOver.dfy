/**
 Exactly which questions are closed over unread, in every run of the dialog machine: those
 attached after the settling run had ended, while no newer task took the exchange over.
 */
module ClosedOver {
  import opened Domain
  import opened DialogState
  import opened DialogWatermark
  import opened DialogOwnership
  import opened BranchHistory
  import opened TaskLife
  import opened UnseenReport
  import opened NoLostQuestion
  import opened SettleSafety
  import opened Reach

  /** A termination speaks of nothing newer than itself, and accounts for what came before. */
  ghost predicate CommandExact(s: State, c: Terminated) {
    TrailWithin(c.trail, c.ended) && Reports(s.log, c)
  }

  ghost predicate CommandsExact(s: State) {
    forall c :: c in s.inbox ==> CommandExact(s, c)
  }

  /** The actor takes messages only after recovery. */
  predicate RoutesAfter(s: State) {
    s.actor.Routing? || s.actor.Placing? || s.actor.Admitting? ==> !s.recovering
  }

  ghost predicate Fated(s: State) {
    Recorded(s) && OneLife(s) && CommandsExact(s) && RoutesAfter(s)
  }

  lemma StepRoutesAfter(s: State, l: Label)
    requires Enabled(s, l) && RoutesAfter(s)
    ensures RoutesAfter(Apply(s, l))
  {
    if l.OnLaunch? {
      if l.launch.PlaceCheck? || l.launch.Admit? || l.launch.ResumeCheck? { AdmissionFrame(s, l.launch); }
      if l.launch.RefuseBudget? || l.launch.AbortLaunch? { GiveUpFrame(s, l.launch); }
    }
  }

  /** A termination stays exact while the log grows. */
  lemma CommandStaysExact(s: State, s': State, c: Terminated)
    requires CommandExact(s, c) && s.log <= s'.log
    ensures CommandExact(s', c)
  {
    ReportsStays(s.log, s'.log, c);
  }

  lemma NewCommandExact(s: State, l: Label, c: Terminated)
    requires Recorded(s) && Enabled(s, l) && c in Apply(s, l).inbox && c !in s.inbox
    ensures CommandExact(s, c)
  {
    NewCommand(s, l, c);
    NewReport(s, l, c);
    assert TrailWithin(s.processes[c.task].trail, |s.log|);
  }

  lemma StepFated(s: State, l: Label)
    requires Fated(s) && Enabled(s, l)
    ensures Fated(Apply(s, l))
  {
    StepRecorded(s, l);
    StepLife(s, l);
    StepRoutesAfter(s, l);
    LogIsKept(s, l);
    forall c | c in Apply(s, l).inbox ensures CommandExact(Apply(s, l), c) {
      if c !in s.inbox { NewCommandExact(s, l, c); }
      CommandStaysExact(s, Apply(s, l), c);
    }
  }

  lemma {:induction false} RunFated(s: State, labels: seq<Label>)
    requires Fated(s) && Valid(s, labels)
    ensures Fated(End(s, labels))
    decreases |labels|
  {
    if labels != [] {
      StepFated(s, labels[0]);
      RunFated(Apply(s, labels[0]), labels[1..]);
    }
  }

  // ----- the question that is closed over

  /** The next settle closes the exchange of question `i`, which its run never accounted for. */
  predicate ClosesOver(s: State, i: nat) {
    Closes(s) && OwedBy(s, i) && !Accounted(s.inbox[0].trail, i)
  }

  /**
   In every run: a settle that closes an exchange closes over exactly those of its questions
   that were attached after the run had ended.
   */
  lemma ClosesOverIff(s: State, labels: seq<Label>, i: nat)
    requires Fated(s) && Valid(s, labels) && Closes(End(s, labels)) && OwedBy(End(s, labels), i)
    ensures ClosesOver(End(s, labels), i) <==> End(s, labels).inbox[0].ended <= i
  {
    RunFated(s, labels);
    var c := End(s, labels).inbox[0];
    assert CommandExact(End(s, labels), c);
  }

  /** What is closed over never stood in the run's branch, in no state of the run. */
  lemma ClosedOverUnread(s: State, labels: seq<Label>, i: nat)
    requires Initial(s) && Valid(s, labels) && ClosesOver(End(s, labels), i)
    ensures !WasInBranch(s, labels, End(s, labels).inbox[0].task, i)
  {
    InitialFated(s);
    ReportedIffInBranch(s, labels, End(s, labels).inbox[0], i);
  }

  /**
   The fate of every question of an exchange that a clean run closes: one attached while the run
   lived stood in its branch, unless it was compacted before the run began or trimmed past it; one
   attached later did not, and was given up.
   */
  lemma QuestionFate(s: State, labels: seq<Label>, i: nat)
    requires Initial(s) && Valid(s, labels) && CleanRun(s, labels)
    requires Closes(End(s, labels)) && OwedBy(End(s, labels), i)
    ensures
      var s' := End(s, labels);
      var c := s'.inbox[0];
      if i < c.ended then WasInBranch(s, labels, c.task, i) || i < c.trail.born || i in c.trail.missed
      else !WasInBranch(s, labels, c.task, i) && GivenUp(s', i)
  {
    InitialFated(s);
    InitialInv(s);
    RunFated(s, labels);
    var c := End(s, labels).inbox[0];
    assert CommandExact(End(s, labels), c);
    ReportedIffInBranch(s, labels, c, i);
    if c.ended <= i { AccountedOrGivenUp(s, labels, i); }
  }

  lemma InitialFated(s: State)
    requires Initial(s)
    ensures Fated(s)
  {
    InitialInv(s);
  }

  /** Terminations added during a run are newer than everything in the log before it. */
  lemma {:induction false} LaterCommands(s: State, labels: seq<Label>, c: Terminated)
    requires Valid(s, labels) && c in End(s, labels).inbox
    ensures c in s.inbox || c.ended >= |s.log|
    decreases |labels|
  {
    if labels != [] {
      LaterCommands(Apply(s, labels[0]), labels[1..], c);
      LogIsKept(s, labels[0]);
      if c in Apply(s, labels[0]).inbox && c !in s.inbox { NewCommand(s, labels[0], c); }
    }
  }

  /** A closing termination of the exchange's newest task, older than question `i`, waits in place `k`. */
  predicate Waits(s: State, k: nat, e: ExchangeId, i: nat) {
    k < |s.inbox| && s.inbox[k].exchange == Some(e) && IsNewest(s.tasks, e, s.inbox[k].task) &&
    (SettleTarget(s.inbox[k]) == Answered || SettleTarget(s.inbox[k]) == Failed) && s.inbox[k].ended <= i
  }

  lemma NewestBefore(before: map<TaskId, TaskRow>, after: map<TaskId, TaskRow>, e: ExchangeId, t: TaskId)
    requires forall u :: u in before ==> u in after && after[u] == before[u]
    requires t in before && IsNewest(after, e, t)
    ensures IsNewest(before, e, t)
  {
  }

  /** Whatever happens next, a question already attached is closed over only by a termination waiting now. */
  lemma ClosingWaited(s: State, labels: seq<Label>, e: ExchangeId, i: nat)
    requires Fated(s) && i < |s.log| && Spoken(s.log[i], e)
    requires Valid(s, labels) && ClosesOver(End(s, labels), i)
    ensures
      var c := End(s, labels).inbox[0];
      c in s.inbox && c.exchange == Some(e) && c.task in s.tasks && c.ended <= i
  {
    var c := End(s, labels).inbox[0];
    ClosesOverIff(s, labels, i);
    LaterCommands(s, labels, c);
    RunKeepsRecords(s, labels);
    assert End(s, labels).log[i] == s.log[i];
    var k :| 0 <= k < |s.inbox| && s.inbox[k] == c;
    assert CommandStored(s, s.inbox[k]);
  }

  lemma LostOnlyByWaiting(s: State, labels: seq<Label>, e: ExchangeId, i: nat)
    requires Fated(s) && i < |s.log| && Spoken(s.log[i], e)
    requires Valid(s, labels) && ClosesOver(End(s, labels), i)
    ensures exists k: nat :: Waits(s, k, e, i)
  {
    var c := End(s, labels).inbox[0];
    ClosingWaited(s, labels, e, i);
    RunKeepsRecords(s, labels);
    NewestBefore(s.tasks, End(s, labels).tasks, e, c.task);
    var k :| 0 <= k < |s.inbox| && s.inbox[k] == c;
    assert Waits(s, k, e, i);
  }

  ghost predicate SomeWaits(s: State, e: ExchangeId, i: nat) {
    exists k: nat :: Waits(s, k, e, i)
  }

  /** Some clean continuation of the run closes over question `i`. */
  ghost predicate MayCloseOver(s: State, i: nat) {
    exists s' :: Reaches(s, s', true) && ClosesOver(s', i)
  }

  // ----- a waiting termination is handled

  /** Nothing is in progress, and `e` is live; a parked one has no run of its own. */
  predicate Ready(s: State, e: ExchangeId) {
    s.actor == Idle && s.launch == None && e in s.exchanges && Live(s.exchanges[e]) &&
    (s.exchanges[e] == AwaitingUser ==> !HasRun(s, e))
  }

  /** The same but for the inbox, the budget note and other exchanges. */
  predicate SameBut(s: State, s': State, e: ExchangeId) {
    && s'.actor == Idle && s'.launch == None && s'.tasks == s.tasks && s'.log == s.log && s'.processes == s.processes
    && s'.recovering == s.recovering
    && (e in s.exchanges ==> e in s'.exchanges && s'.exchanges[e] == s.exchanges[e])
  }

  /** The actor tries to revive `f`; if it may, the budget refuses the run. */
  lemma ResumeRefused(s: State, f: ExchangeId) returns (s': State)
    requires s.actor == Resuming(f) && s.launch == None
    ensures Reaches(s, s', true) && s'.inbox == s.inbox && s'.exchanges == s.exchanges
    ensures s'.actor == Idle && s'.launch == None && s'.tasks == s.tasks && s'.log == s.log
    ensures s'.processes == s.processes && s'.recovering == s.recovering
  {
    var l := OnLaunch(ResumeCheck(f, true));
    var s1 := Apply(s, l);
    AdmissionFrame(s, ResumeCheck(f, true));
    if s1.launch == None {
      s' := s1;
      OneStep(s, l, true);
    } else {
      var r := OnLaunch(RefuseBudget(0, true));
      s' := Apply(s1, r);
      GiveUpFrame(s1, RefuseBudget(0, true));
      OneStep(s1, r, true);
      StepOnward(s, l, s', true);
    }
  }

  /** A termination ahead, not of the newest task of `e`, is settled out of the way. */
  lemma HandleHead(s: State, e: ExchangeId) returns (s': State)
    requires Ready(s, e) && s.inbox != []
    requires s.inbox[0].exchange != Some(e) || !IsNewest(s.tasks, e, s.inbox[0].task)
    ensures Reaches(s, s', true) && s'.inbox == s.inbox[1..] && SameBut(s, s', e)
  {
    var l := OnEnd(Settle);
    var s1 := Apply(s, l);
    if s1.actor == Idle {
      s' := s1;
      OneStep(s, l, true);
    } else {
      s' := ResumeRefused(s1, s1.actor.exchange);
      StepOnward(s, l, s', true);
    }
  }

  /** A collection is moved into the parked exchange, which opens it; its run is refused. */
  lemma Unpark(s: State, e: ExchangeId) returns (s': State)
    requires Ready(s, e) && s.exchanges[e] == AwaitingUser
    ensures Reaches(s, s', true) && s'.inbox == s.inbox && s'.actor == Idle && s'.tasks == s.tasks && s'.log == s.log
    ensures e in s'.exchanges && s'.exchanges[e] == Open
  {
    var f := FreshId(s.exchanges.Keys);
    var s1 := s.(exchanges := s.exchanges[f := Collecting]);
    var s2 := s1.(actor := Promoting(f, e));
    var s3 := s2.(exchanges := s1.exchanges[f := Cancelled], actor := Moved(e));
    var s4 := s3.(exchanges := s3.exchanges[e := Open], actor := Resuming(e));
    assert !HasRun(s3, e) by { assert s3.processes == s.processes; }
    assert Apply(s2, OnRoute(PromoteMove)) == s3;
    assert Apply(s3, OnRoute(PromoteWrite)) == s4;
    s' := ResumeRefused(s4, e);
    StepOnward(s3, OnRoute(PromoteWrite), s', true);
    StepOnward(s2, OnRoute(PromoteMove), s', true);
    StepOnward(s1, OnRoute(PromoteCheck(f, e)), s', true);
    StepOnward(s, OnStore(CreateExchange(f, Collecting)), s', true);
  }

  lemma HeadCloses(s: State, e: ExchangeId, i: nat)
    requires Fated(s) && Ready(s, e) && s.exchanges[e] != AwaitingUser
    requires i < |s.log| && Spoken(s.log[i], e) && Waits(s, 0, e, i)
    ensures ClosesOver(s, i)
  {
    assert CommandExact(s, s.inbox[0]);
  }

  lemma {:induction false} WaitingCloses(s: State, k: nat, e: ExchangeId, i: nat) returns (s': State)
    requires Fated(s) && Ready(s, e) && i < |s.log| && Spoken(s.log[i], e) && Waits(s, k, e, i)
    ensures Reaches(s, s', true) && ClosesOver(s', i)
    decreases k
  {
    if k > 0 {
      assert s.inbox[0].task != s.inbox[k].task;
      var s1 := HandleHead(s, e);
      ReachesFated(s, s1, true);
      assert Waits(s1, k - 1, e, i);
      s' := WaitingCloses(s1, k - 1, e, i);
      Onward(s, s1, s', true);
    } else if s.exchanges[e] == AwaitingUser {
      s' := Unpark(s, e);
      ReachesFated(s, s', true);
      assert CommandExact(s', s'.inbox[0]);
    } else {
      s' := s;
      HeadCloses(s, e, i);
      assert RunsTo(s, [], s, true);
    }
  }

  lemma ReachesFated(s: State, s': State, clean: bool)
    requires Fated(s) && Reaches(s, s', clean)
    ensures Fated(s')
  {
    var labels :| RunsTo(s, labels, s', clean);
    RunFated(s, labels);
  }

  // ----- a closed exchange does not come back

  predicate Targets(actor: Actor, e: ExchangeId) {
    (actor.Promoting? || actor.Moved?) && actor.target == e
  }

  /** Only a start for `e` or a run of `e` could bring it back. */
  lemma ClosedStep(s: State, l: Label, e: ExchangeId)
    requires Enabled(s, l) && !s.recovering && e in s.exchanges && Outcome(s.exchanges[e]) && !Targets(s.actor, e)
    requires !(l.OnLaunch? && l.launch.Commit? && s.launch.value.target == Some(e))
    requires !HasRun(s, e)
    ensures e in Apply(s, l).exchanges && Outcome(Apply(s, l).exchanges[e]) && !Targets(Apply(s, l).actor, e)
  {
    match l
    case OnLaunch(launch) =>
      LaunchKeepsStatus(s, launch, e);
      LaunchActor(s, launch);
    case OnRoute(route) => ClosedRoute(s, route, e);
    case OnEnd(end) => if end.Settle? { SettleEffect(s, e); }
    case _ =>
  }

  lemma ClosedRoute(s: State, l: RouteStep, e: ExchangeId)
    requires RouteEnabled(s, l) && e in s.exchanges && Outcome(s.exchanges[e]) && !Targets(s.actor, e)
    ensures e in ApplyRoute(s, l).exchanges && Outcome(ApplyRoute(s, l).exchanges[e])
    ensures !Targets(ApplyRoute(s, l).actor, e)
  {
  }

  lemma LaunchActor(s: State, l: LaunchStep)
    requires LaunchEnabled(s, l)
    ensures
      var a := ApplyLaunch(s, l).actor;
      a == s.actor || !(a.Promoting? || a.Moved?)
  {
    if l.PlaceCheck? || l.Admit? || l.ResumeCheck? { AdmissionFrame(s, l); }
    if l.RefuseBudget? || l.AbortLaunch? { GiveUpFrame(s, l); }
  }

  /** While the ended task is the newest of `e`, nobody runs `e`. */
  lemma EndedHasNoRun(s: State, c: Terminated, e: ExchangeId)
    requires Ordered(s) && c in s.inbox && IsNewest(s.tasks, e, c.task)
    ensures !HasRun(s, e) && Over(s, c.task)
  {
    var k :| 0 <= k < |s.inbox| && s.inbox[k] == c;
    assert CommandSound(s, s.inbox[k]);
    assert c.task in s.orphans ==> OrphanIdle(s, c.task);
    forall t | t in s.processes && s.processes[t].exchange == Some(e) ensures t == c.task { assert RunOwns(s, t); }
  }

  /** A start of `e` stored in order outvotes every earlier task of `e`. */
  lemma CommitSupersedes(s: State, t: TaskId, at: nat, e: ExchangeId, u: TaskId)
    requires LaunchEnabled(s, Commit(t, at)) && Clean(s, OnLaunch(Commit(t, at))) && s.launch.value.target == Some(e)
    requires u in s.tasks && s.tasks[u].exchange == Some(e)
    ensures Superseded(CommitTask(s, t, at).tasks, u, e)
  {
    var after := CommitTask(s, t, at).tasks;
    assert after[t] == TaskRow(Some(e), at) && after[u] == s.tasks[u];
    assert Older(after[u], u, after[t], t);
  }

  lemma {:induction false} ClosedStays(s: State, labels: seq<Label>, e: ExchangeId, c: Terminated)
    requires Ordered(s) && Valid(s, labels) && CleanRun(s, labels) && !s.recovering
    requires e in s.exchanges && Outcome(s.exchanges[e]) && !Targets(s.actor, e)
    requires c in s.inbox && c in End(s, labels).inbox && c.task in s.tasks && IsNewest(End(s, labels).tasks, e, c.task)
    ensures e in End(s, labels).exchanges && Outcome(End(s, labels).exchanges[e])
    decreases |labels|
  {
    if labels != [] {
      var l, s1, rest := labels[0], Apply(s, labels[0]), labels[1..];
      RunKeepsRecords(s, labels);
      NewestBefore(s.tasks, End(s, labels).tasks, e, c.task);
      EndedHasNoRun(s, c, e);
      StepOrdered(s, l);
      StaysOver(s, l);
      StepOver(s, l, c.task);
      OverAddsNothing(s1, rest, c);
      if l.OnLaunch? && l.launch.Commit? && s.launch.value.target == Some(e) {
        CommitSupersedes(s, l.launch.t, l.launch.at, e, c.task);
        SupersededForever(s1, rest, c.task, e);
        SupersededIsNotNewest(End(s1, rest).tasks, e, c.task);
      } else {
        ClosedStep(s, l, e);
        ClosedStays(s1, rest, e, c);
      }
    }
  }

  lemma SupersededIsNotNewest(tasks: map<TaskId, TaskRow>, e: ExchangeId, t: TaskId)
    requires Superseded(tasks, t, e)
    ensures !IsNewest(tasks, e, t)
  {
    var u :| u in tasks && tasks[u].exchange == Some(e) && Older(tasks[t], t, tasks[u], u);
  }

  // ----- the exact conditions

  lemma ClosedOnlyByWaiting(s: State, e: ExchangeId, i: nat)
    requires Fated(s) && i < |s.log| && Spoken(s.log[i], e) && MayCloseOver(s, i)
    ensures SomeWaits(s, e, i)
  {
    var s' :| Reaches(s, s', true) && ClosesOver(s', i);
    var labels :| RunsTo(s, labels, s', true);
    LostOnlyByWaiting(s, labels, e, i);
  }

  lemma ClosedOnlyWhileLive(s: State, e: ExchangeId, i: nat)
    requires Fated(s) && Ordered(s) && s.actor == Idle && !s.recovering && e in s.exchanges
    requires i < |s.log| && Spoken(s.log[i], e) && MayCloseOver(s, i)
    ensures Live(s.exchanges[e])
  {
    var s' :| Reaches(s, s', true) && ClosesOver(s', i);
    var labels :| RunsTo(s, labels, s', true);
    ClosingWaited(s, labels, e, i);
    if Outcome(s.exchanges[e]) { ClosedStays(s, labels, e, s'.inbox[0]); }
  }

  /** Nothing is in progress after recovery, and question `i` of `e` is attached. */
  predicate Rests(s: State, e: ExchangeId, i: nat) {
    s.actor == Idle && s.launch == None && !s.recovering && e in s.exchanges && i < |s.log| && Spoken(s.log[i], e)
  }

  /**
   An attached question can still be closed over unread if and only if its exchange is live and such
   a termination waits.
   */
  lemma QuestionLostIff(s: State, e: ExchangeId, i: nat)
    requires Fated(s) && Ordered(s) && Rests(s, e, i)
    ensures MayCloseOver(s, i) <==> SomeWaits(s, e, i) && Live(s.exchanges[e])
  {
    if SomeWaits(s, e, i) && Live(s.exchanges[e]) {
      var k: nat :| Waits(s, k, e, i);
      EndedHasNoRun(s, s.inbox[k], e);
      var s' := WaitingCloses(s, k, e, i);
    }
    if MayCloseOver(s, i) {
      ClosedOnlyByWaiting(s, e, i);
      ClosedOnlyWhileLive(s, e, i);
    }
  }

  /** The start of the placed question is given up in silence. */
  predicate Drops(s: State, l: LaunchStep) {
    s.actor.Admitting? && LaunchEnabled(s, l) &&
    (l.AbortLaunch? || (l.RefuseBudget? && s.noted == Some(l.day)))
  }

  /** The actor is placing a question of an exchange it knows. */
  predicate PlacesQuestion(s: State) {
    s.actor.Admitting? && s.actor.exchange in s.exchanges && s.actor.index < |s.log| &&
    Spoken(s.log[s.actor.index], s.actor.exchange)
  }

  /**
   A question whose start is given up in silence can be closed over if and only if, at that
   moment, its exchange is live and a closing termination of its newest task waits in the inbox.
   */
  lemma DroppedLostIff(s: State, l: LaunchStep)
    requires Fated(s) && Ordered(s) && PlacesQuestion(s) && Drops(s, l)
    ensures s.actor.index in ApplyLaunch(s, l).dropped
    ensures MayCloseOver(ApplyLaunch(s, l), s.actor.index) <==>
            SomeWaits(s, s.actor.exchange, s.actor.index) && Live(s.exchanges[s.actor.exchange])
  {
    var s', e, i := ApplyLaunch(s, l), s.actor.exchange, s.actor.index;
    StepFated(s, OnLaunch(l));
    StepOrdered(s, OnLaunch(l));
    GiveUpFrame(s, l);
    QuestionLostIff(s', e, i);
    assert forall k: nat :: Waits(s', k, e, i) <==> Waits(s, k, e, i);
  }

  /** A waiting termination whose task stays newest beside a new row of its exchange. */
  ghost predicate SomeOutlasts(s: State, e: ExchangeId, i: nat, t: TaskId, at: nat) {
    exists k: nat :: Waits(s, k, e, i) && s.inbox[k].task in s.tasks &&
                     Older(TaskRow(Some(e), at), t, s.tasks[s.inbox[k].task], s.inbox[k].task)
  }

  /**
   A question whose start is stored can be closed over if and only if the waiting termination's
   task still comes out newest: the new row has an earlier creation time, or the same and a smaller id.
   */
  lemma PlacedLostIff(s: State, t: TaskId, at: nat)
    requires Fated(s) && PlacesQuestion(s) && LaunchEnabled(s, Commit(t, at)) && !LaunchAssembles(s)
    requires s.launch.value.target == Some(s.actor.exchange)
    ensures MayCloseOver(CommitTask(s, t, at), s.actor.index) <==>
            SomeOutlasts(s, s.actor.exchange, s.actor.index, t, at)
  {
    var s', e, i := CommitTask(s, t, at), s.actor.exchange, s.actor.index;
    StepFated(s, OnLaunch(Commit(t, at)));
    forall k: nat | k < |s.inbox| ensures Waits(s', k, e, i) <==>
      (Waits(s, k, e, i) && Older(TaskRow(Some(e), at), t, s.tasks[s.inbox[k].task], s.inbox[k].task))
    {
      CommitNewest(s, t, at, e, k);
    }
    assert SomeWaits(s', e, i) <==> SomeOutlasts(s, e, i, t, at);
    if MayCloseOver(s', i) { ClosedOnlyByWaiting(s', e, i); }
    if SomeWaits(s', e, i) { AbortedMayClose(s', e, i); }
  }

  /** The start is given up after it was stored; the termination is handled next. */
  lemma AbortedMayClose(s: State, e: ExchangeId, i: nat)
    requires Fated(s) && s.actor.Launching? && s.launch.Some? && !LaunchAssembles(s)
    requires e in s.exchanges && s.exchanges[e] == InProgress
    requires i < |s.log| && Spoken(s.log[i], e) && SomeWaits(s, e, i)
    ensures MayCloseOver(s, i)
  {
    var l := OnLaunch(AbortLaunch);
    StepFated(s, l);
    GiveUpFrame(s, AbortLaunch);
    var k: nat :| Waits(s, k, e, i);
    assert Waits(Apply(s, l), k, e, i);
    var s' := WaitingCloses(Apply(s, l), k, e, i);
    StepOnward(s, l, s', true);
  }

  /** Which of the stored tasks stays newest when one more is stored. */
  lemma CommitNewest(s: State, t: TaskId, at: nat, e: ExchangeId, k: nat)
    requires Stored(s) && t !in s.tasks && k < |s.inbox|
    ensures
      var u := s.inbox[k].task;
      u in s.tasks &&
      (IsNewest(s.tasks[t := TaskRow(Some(e), at)], e, u) <==>
         IsNewest(s.tasks, e, u) && Older(TaskRow(Some(e), at), t, s.tasks[u], u))
  {
    assert CommandStored(s, s.inbox[k]);
    var after := s.tasks[t := TaskRow(Some(e), at)];
    var u := s.inbox[k].task;
    assert after[t] == TaskRow(Some(e), at) && after[u] == s.tasks[u];
    if IsNewest(after, e, u) {
      NewestBefore(s.tasks, after, e, u);
      assert Older(after[t], t, after[u], u);
    }
  }
}
