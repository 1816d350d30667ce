/**
 Where the dialog guarantees start and where they stop: every freshly loaded actor
 satisfies them, and two concrete runs close an exchange over a question nobody read.
 */
module DialogEdges {
  import opened Domain
  import opened Branch
  import opened DialogState
  import opened DialogWatermark
  import opened DialogOwnership
  import opened BranchHistory
  import opened NoLostQuestion
  import opened ClosedOver
  import opened ProcessLimit
  import opened Reach

  /** Every guarantee holds of a freshly loaded actor, whatever its history. */
  lemma InitialHolds(s: State)
    requires Initial(s)
    ensures Inv(s) && AllShow(s) && Fated(s) && Limited(s, true)
  {
    InitialFated(s);
    InitialInv(s);
    assert Uncancelled(s.processes) == {};
  }

  /** Restarting only the newest task of an exchange never makes two runs of it. */
  lemma {:induction false} CleanIsSingle(s: State, labels: seq<Label>)
    requires Ordered(s) && Valid(s, labels) && CleanRun(s, labels)
    ensures SingleRestarts(s, labels)
    decreases |labels|
  {
    if labels != [] {
      CleanRestart(s, labels[0]);
      StepOrdered(s, labels[0]);
      CleanIsSingle(Apply(s, labels[0]), labels[1..]);
    }
  }

  lemma CleanRestart(s: State, l: Label)
    requires Ordered(s) && Enabled(s, l) && Clean(s, l)
    ensures SingleRestart(s, l)
  {
    if l.OnLaunch? && l.launch.RestartCheck? {
      assert OrphanIdle(s, l.launch.t);
      forall u | u in s.processes && s.processes[u].exchange == s.tasks[l.launch.t].exchange
        ensures s.processes[u].exchange.None?
      {
        assert RunOwns(s, u);
      }
    }
  }

  function Ask(e: ExchangeId, text: string): Message {
    Message(User, text, Own, Some(e))
  }

  function FreshRun(log: seq<Message>, e: ExchangeId): Process {
    NewAnswer(SYSTEM_ENTRY, Some(e), Assembly(ForLaunch, |log|, |log|, [], {}), log, 0)
  }

  /** Nothing is in progress, no run is live, and there is room for one. */
  predicate Free(s: State, e: ExchangeId) {
    s.actor == Idle && !s.recovering && s.launch == None && s.assembly == None && s.processes == map[] &&
    s.maxProcesses == 1 && s.narrative == s.log && e in s.exchanges
  }

  function AskedOf(s: State, e: ExchangeId, text: string): State {
    s.(log := s.log + [Ask(e, text)], narrative := s.log + [Ask(e, text)], launch := Some(Admitted(Some(e))),
       actor := Admitting(e, |s.log|, {}))
  }

  /** The actor takes a question and a run for it passes the checks. */
  lemma Asks(s: State, e: ExchangeId, text: string)
    requires Free(s, e)
    ensures Reaches(s, AskedOf(s, e, text), true)
  {
    var s1 := s.(actor := Routing({}, None));
    var s2 := Attach(s1, Ask(e, text));
    var s3 := s2.(launch := Some(Checked(e)), actor := Admitting(e, |s.log|, {}));
    assert !HasRun(s2, e);
    assert Apply(s2, OnLaunch(PlaceCheck)) == s3;
    assert {} * LiveExchanges(s3) == {};
    assert Apply(s3, OnLaunch(Admit)) == AskedOf(s, e, text);
    OneStep(s3, OnLaunch(Admit), true);
    StepOnward(s2, OnLaunch(PlaceCheck), AskedOf(s, e, text), true);
    StepOnward(s1, OnRoute(AttachMessage(Ask(e, text))), AskedOf(s, e, text), true);
    StepOnward(s, OnRoute(BeginRoute), AskedOf(s, e, text), true);
  }

  function StartedOf(s: State, e: ExchangeId, text: string, t: TaskId, at: nat): State {
    var log := s.log + [Ask(e, text)];
    s.(log := log, narrative := log, processes := map[t := FreshRun(log, e)],
       tasks := s.tasks[t := TaskRow(Some(e), at)], exchanges := s.exchanges[e := InProgress])
  }

  /** The admitted run is stored and started, its branch showing the whole log. */
  lemma Starts(s: State, e: ExchangeId, text: string, t: TaskId, at: nat, clean: bool)
    requires Free(s, e) && t !in s.tasks
    requires clean ==> forall u :: u in s.tasks ==> Older(s.tasks[u], u, TaskRow(Some(e), at), t)
    ensures Reaches(AskedOf(s, e, text), StartedOf(s, e, text, t, at), clean)
  {
    var a := AskedOf(s, e, text);
    var l := OnView(Snapshot(ForLaunch, |a.log|, [], {}));
    var s1 := CommitTask(a, t, at);
    var s2 := s1.(assembly := Some(Assembly(ForLaunch, |a.log|, |a.log|, [], {})));
    var done := OnView(FinishAssembly(SYSTEM_ENTRY));
    assert Apply(s1, l) == s2;
    assert Drop(s2) == 0 && SnapshotTail(s2) == a.log && a.log[0..] == a.log;
    assert Shifted(s2, 0) == map[];
    assert Apply(s2, done) == StartedOf(s, e, text, t, at);
    OneStep(s2, done, clean);
    StepOnward(s1, l, StartedOf(s, e, text, t, at), clean);
    StepOnward(a, OnLaunch(Commit(t, at)), StartedOf(s, e, text, t, at), clean);
  }

  // ----- one run ends, its termination waits

  /** The termination of run 20 of exchange 1, which read the only question there was. */
  function Waiting(): Terminated {
    Terminated(20, Some(1), Answered, Nothing, FreshRun([Ask(1, "a")], 1).trail, 1)
  }

  function Loaded(): State {
    State([], [], map[], map[], map[1 := Open], [], Idle, None, None, {}, {}, true, {}, None, 1)
  }

  /** Run 20 has answered the first question of exchange 1; the actor has not heard of it yet. */
  function Ended(): State {
    State([Ask(1, "a")], [Ask(1, "a")], map[], map[20 := TaskRow(Some(1), 5)], map[1 := InProgress], [Waiting()],
          Idle, None, None, {}, {}, false, {}, None, 1)
  }

  lemma FirstRunEnds()
    ensures Reaches(Loaded(), Ended(), true)
  {
    var s := Loaded().(recovering := false);
    var started := StartedOf(s, 1, "a", 20, 5);
    var l := OnEnd(Terminate(20, Answered));
    Asks(s, 1, "a");
    Starts(s, 1, "a", 20, 5, true);
    Onward(s, AskedOf(s, 1, "a"), started, true);
    assert started.narrative == [Ask(1, "a")] && Arrived(started.narrative, 1, 1) == [];
    assert Apply(started, l) == Ended();
    OneStep(started, l, true);
    Onward(s, started, Ended(), true);
    StepOnward(Loaded(), OnRoute(EndRecovery), Ended(), true);
  }

  /** The waiting termination closes over every later question of exchange 1 while run 20 is newest. */
  lemma WaitingClosesOver(s: State, i: nat)
    requires s.actor == Idle && s.inbox == [Waiting()] && 1 in s.exchanges && s.exchanges[1] == InProgress
    requires IsNewest(s.tasks, 1, 20) && 1 <= i < |s.log| && Spoken(s.log[i], 1)
    ensures ClosesOver(s, i)
  {
  }

  // ----- two ways to lose a question

  /**
   Two tasks of one exchange created in the same clock tick, the newer with the smaller id:
   the older run is still taken for the newest and closes the exchange as answered over a
   question it never saw and nobody gave up.
   */
  lemma CreationTieLosesQuestion() returns (s: State, labels: seq<Label>)
    ensures Initial(s) && Valid(s, labels) && !CleanRun(s, labels)
    ensures ClosesOver(End(s, labels), 1) && !GivenUp(End(s, labels), 1)
    ensures !WasInBranch(s, labels, End(s, labels).inbox[0].task, 1)
  {
    s := Loaded();
    FirstRunEnds();
    Asks(Ended(), 1, "b");
    Starts(Ended(), 1, "b", 7, 5, false);
    var s' := StartedOf(Ended(), 1, "b", 7, 5);
    var a :| RunsTo(s, a, Ended(), true);
    var b :| RunsTo(Ended(), b, AskedOf(Ended(), 1, "b"), true);
    var c :| RunsTo(AskedOf(Ended(), 1, "b"), c, s', false);
    JoinRuns(s, a, b);
    JoinRuns(s, a + b, c);
    labels := a + b + c;
    assert IsNewest(s'.tasks, 1, 20);
    WaitingClosesOver(s', 1);
    ClosedOverUnread(s, labels, 1);
    if CleanRun(s, labels) {
      InitialInv(s);
      AccountedOrGivenUp(s, labels, 1);
    }
  }

  /** The budget refuses the start of the asked question. */
  lemma Refuses(s: State, text: string, day: nat)
    requires Free(s, 1)
    ensures Reaches(s, BudgetRefused(AskedOf(s, 1, text), day, true), true)
  {
    Asks(s, 1, text);
    OneStep(AskedOf(s, 1, text), OnLaunch(RefuseBudget(day, true)), true);
    Onward(s, AskedOf(s, 1, text), BudgetRefused(AskedOf(s, 1, text), day, true), true);
  }

  /**
   The budget refuses two questions on one day while a termination of their exchange waits. The
   user is told of the first refusal only, and the settle then closes the exchange as answered over
   the second question: a clean run loses it in silence.
   */
  lemma SecondRefusalLosesQuestion() returns (s: State, labels: seq<Label>)
    ensures Initial(s) && Valid(s, labels) && CleanRun(s, labels)
    ensures
      var s' := End(s, labels);
      && ClosesOver(s', 1) && 1 in s'.refused
      && ClosesOver(s', 2) && 2 in s'.dropped && 2 !in s'.refused
      && !WasInBranch(s, labels, s'.inbox[0].task, 2)
  {
    s := Loaded();
    FirstRunEnds();
    Refuses(Ended(), "b", 0);
    var told := BudgetRefused(AskedOf(Ended(), 1, "b"), 0, true);
    Refuses(told, "c", 0);
    var s' := BudgetRefused(AskedOf(told, 1, "c"), 0, true);
    Onward(s, Ended(), told, true);
    Onward(s, told, s', true);
    labels :| RunsTo(s, labels, s', true);
    assert s'.log == [Ask(1, "a"), Ask(1, "b"), Ask(1, "c")];
    assert IsNewest(s'.tasks, 1, 20);
    WaitingClosesOver(s', 1);
    WaitingClosesOver(s', 2);
    ClosedOverUnread(s, labels, 2);
  }
}
