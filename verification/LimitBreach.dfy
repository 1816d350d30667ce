/**
 Once recovery is over, the process limit holds from then on if and only if recovery left no
 uncancelled run that shares its exchange with another live run. A cancel stops only one of the two;
 the other goes on being discounted although nobody cancelled it, and one run too many is admitted
 in its place.
 */
module LimitBreach {
  import opened Domain
  import opened Branch
  import opened DialogState
  import opened DialogWatermark
  import opened ProcessLimit
  import opened Reach

  /** Recovery is over, nothing is in progress, and the limit holds; cancelled runs may be unwinding. */
  predicate Settled(s: State) {
    s.actor == Idle && s.launch == None && s.assembly == None && !s.recovering && |s.narrative| <= |s.log| &&
    |Uncancelled(s.processes)| <= s.maxProcesses
  }

  predicate NoneCancelled(processes: map<TaskId, Process>) {
    forall t :: t in processes ==> !processes[t].cancelled
  }

  // ----- the run that breaks it

  /** The command has cancelled `e`, a run of `e` lives on, and exchange `f` waits for a question. */
  predicate Crowded(s: State, e: ExchangeId, f: ExchangeId) {
    s.actor == Routing({e}, None) && s.launch == None && s.assembly == None && |s.narrative| <= |s.log| &&
    NoneCancelled(s.processes) && |s.processes| <= s.maxProcesses && HasRun(s, e) && !HasRun(s, f) && f in s.exchanges
  }

  /** Background runs fill every slot. */
  lemma {:induction false} Fill(s: State, e: ExchangeId, f: ExchangeId) returns (s': State)
    requires Crowded(s, e, f)
    ensures Reaches(s, s', false) && Crowded(s', e, f) && |s'.processes| == s'.maxProcesses == s.maxProcesses
    decreases s.maxProcesses - |s.processes|
  {
    if |s.processes| == s.maxProcesses {
      s' := s;
      assert RunsTo(s, [], s, false);
    } else {
      var s1 := SpawnOne(s, e, f);
      s' := Fill(s1, e, f);
      Onward(s, s1, s', false);
    }
  }

  lemma SpawnOne(s: State, e: ExchangeId, f: ExchangeId) returns (s': State)
    requires Crowded(s, e, f) && |s.processes| < s.maxProcesses
    ensures Reaches(s, s', false) && Crowded(s', e, f) && |s'.processes| == |s.processes| + 1
    ensures s'.maxProcesses == s.maxProcesses
  {
    var x := FreshId(s.tasks.Keys + s.processes.Keys);
    var s1 := s.(launch := Some(Admitted(None)));
    var s2 := s1.(tasks := s.tasks[x := TaskRow(None, 0)], launch := Some(Committed(x)));
    s' := s.(tasks := s.tasks[x := TaskRow(None, 0)], processes := s.processes[x := NewBackground([])]);
    assert Apply(s, OnLaunch(SpawnCheck)) == s1;
    assert Apply(s1, OnLaunch(Commit(x, 0))) == s2;
    assert Apply(s2, OnLaunch(CreateBackground([]))) == s';
    OneStep(s2, OnLaunch(CreateBackground([])), false);
    StepOnward(s1, OnLaunch(Commit(x, 0)), s', false);
    StepOnward(s, OnLaunch(SpawnCheck), s', false);
    MoreRuns(s, s', x, e, f);
  }

  /** A background run joins the pool without touching any exchange. */
  lemma MoreRuns(s: State, s': State, x: TaskId, e: ExchangeId, f: ExchangeId)
    requires Crowded(s, e, f) && x !in s.processes && s'.processes == s.processes[x := NewBackground([])]
    ensures |s'.processes| == |s.processes| + 1 && NoneCancelled(s'.processes) && HasRun(s', e) && !HasRun(s', f)
  {
    assert s'.processes.Keys == s.processes.Keys + {x};
    var t :| t in s.processes && s.processes[t].exchange == Some(e);
    assert t in s'.processes && s'.processes[t].exchange == Some(e);
  }

  /** With every slot taken, the discount still lets one more in. */
  lemma Overfill(s: State, e: ExchangeId, f: ExchangeId) returns (s': State)
    requires Crowded(s, e, f) && |s.processes| == s.maxProcesses
    ensures Reaches(s, s', false) && s'.maxProcesses == s.maxProcesses
    ensures NoneCancelled(s'.processes) && |s'.processes| == s.maxProcesses + 1
  {
    var m := Message(User, "?", Own, Some(f));
    var s1 := Attach(s, m);
    var s2 := s1.(launch := Some(Checked(f)), actor := Admitting(f, |s.log|, {e}));
    var s3 := s2.(launch := Some(Admitted(Some(f))));
    assert !HasRun(s1, f) by { assert s1.processes == s.processes; }
    assert Apply(s1, OnLaunch(PlaceCheck)) == s2;
    assert Apply(s2, OnLaunch(Admit)) == s3 by { DiscountedSlot(s2, e); }
    s' := StartOne(s3, f);
    StepOnward(s2, OnLaunch(Admit), s', false);
    StepOnward(s1, OnLaunch(PlaceCheck), s', false);
    StepOnward(s, OnRoute(AttachMessage(m)), s', false);
  }

  lemma DiscountedSlot(s: State, e: ExchangeId)
    requires s.actor.Admitting? && s.actor.cancelled == {e} && |s.processes| == s.maxProcesses
    requires exists t :: t in s.processes && s.processes[t].exchange == Some(e)
    ensures !ExceedsLimit(s, {e})
  {
    assert e in LiveExchanges(s);
    assert {e} * LiveExchanges(s) == {e};
  }

  /** The admitted start goes through. */
  lemma StartOne(s: State, f: ExchangeId) returns (s': State)
    requires s.actor.Admitting? && s.launch == Some(Admitted(Some(f))) && s.assembly == None
    requires |s.narrative| <= |s.log| && NoneCancelled(s.processes)
    ensures Reaches(s, s', false) && s'.maxProcesses == s.maxProcesses
    ensures NoneCancelled(s'.processes) && |s'.processes| == |s.processes| + 1
  {
    var x := FreshId(s.tasks.Keys + s.processes.Keys);
    s' := Assemble(CommitTask(s, x, 0));
    StepOnward(s, OnLaunch(Commit(x, 0)), s', false);
    assert s'.processes.Keys == s.processes.Keys + {x};
  }

  /** The stored task's run appears, with an empty tail. */
  lemma Assemble(s: State) returns (s': State)
    requires MayCreate(s) && s.assembly == None && |s.narrative| <= |s.log| && NoneCancelled(s.processes)
    ensures Reaches(s, s', false) && s'.processes.Keys == s.processes.Keys + {s.launch.value.task}
    ensures NoneCancelled(s'.processes) && s'.maxProcesses == s.maxProcesses
    ensures s'.launch == None && s'.assembly == None && s'.actor == AfterLaunch(s.actor)
    ensures s'.recovering == s.recovering && s'.tasks == s.tasks && s'.orphans == s.orphans && s'.log == s.log
    ensures |s'.narrative| <= |s'.log|
    ensures s'.processes[s.launch.value.task].exchange == s.tasks[s.launch.value.task].exchange
    ensures forall t :: t in s.processes && t != s.launch.value.task ==>
      s'.processes[t].exchange == s.processes[t].exchange
  {
    var l := OnView(Snapshot(ForLaunch, 0, [], {}));
    var s1 := Apply(s, l);
    s' := FinishLaunch(s1, SYSTEM_ENTRY);
    OneStep(s1, OnView(FinishAssembly(SYSTEM_ENTRY)), false);
    StepOnward(s, l, s', false);
  }

  /** Every cancelled run unwinds. */
  lemma {:induction false} Unwind(s: State) returns (s': State)
    requires s.assembly == None
    ensures Reaches(s, s', false)
    ensures s'.processes == Remaining(s.processes) && s'.actor == s.actor && s'.launch == s.launch
    ensures s'.assembly == None && s'.log == s.log && s'.narrative == s.narrative && s'.maxProcesses == s.maxProcesses
    ensures s'.exchanges == s.exchanges
    decreases |s.processes|
  {
    if t :| t in s.processes && s.processes[t].cancelled {
      var l := OnEnd(Terminate(t, Cancelled));
      var s1 := Apply(s, l);
      assert s1.processes.Keys == s.processes.Keys - {t};
      s' := Unwind(s1);
      StepOnward(s, l, s', false);
      assert Remaining(s1.processes) == Remaining(s.processes);
    } else {
      s' := s;
      assert RunsTo(s, [], s, false);
      assert Remaining(s.processes) == s.processes;
    }
  }

  function Remaining(processes: map<TaskId, Process>): map<TaskId, Process> {
    map t | t in processes && !processes[t].cancelled :: processes[t]
  }

  /** The command cancels the exchange of two live runs, finds run `t`, and all cancelled runs unwind. */
  lemma CancelOne(s: State, t: TaskId, u: TaskId, e: ExchangeId) returns (s': State, f: ExchangeId)
    requires Settled(s) && t in s.processes && u in s.processes && t != u && !s.processes[u].cancelled
    requires s.processes[t].exchange == Some(e) == s.processes[u].exchange
    ensures Reaches(s, s', false) && Crowded(s', e, f) && s'.maxProcesses == s.maxProcesses
  {
    f := FreshId(s.exchanges.Keys + LiveExchanges(s) + {e});
    var s1 := s.(exchanges := s.exchanges[f := Open]);
    var s2 := if e in s1.exchanges then s1 else s1.(exchanges := s1.exchanges[e := Open]);
    var s3 := s2.(actor := Routing({}, None));
    s' := CancelRunOf(s3, t, e);
    StepOnward(s2, OnRoute(BeginRoute), s', false);
    if e !in s1.exchanges { StepOnward(s1, OnStore(CreateExchange(e, Open)), s', false); }
    StepOnward(s, OnStore(CreateExchange(f, Open)), s', false);
    assert u in s'.processes && s'.processes[u].exchange == Some(e);
    assert !HasRun(s', f);
    SubsetSize(s'.processes.Keys, Uncancelled(s.processes));
  }

  lemma CancelRunOf(s: State, t: TaskId, e: ExchangeId) returns (s': State)
    requires s.actor == Routing({}, None) && s.launch == None && s.assembly == None
    requires t in s.processes && s.processes[t].exchange == Some(e) && e in s.exchanges
    ensures Reaches(s, s', false)
    ensures s'.processes == Remaining(Flagged(s.processes, t)) && s'.actor == Routing({e}, None) && s'.launch == None
    ensures s'.assembly == None && s'.log == s.log && s'.narrative == s.narrative && s'.maxProcesses == s.maxProcesses
    ensures s'.exchanges == s.exchanges[e := Cancelled]
  {
    var s1 := s.(processes := Flagged(s.processes, t), actor := Routing({}, Some(e)));
    var s2 := s1.(exchanges := s.exchanges[e := Cancelled], actor := Routing({e}, None));
    assert {} + {e} == {e};
    assert Apply(s1, OnRoute(WriteCancel)) == s2;
    s' := Unwind(s2);
    StepOnward(s1, OnRoute(WriteCancel), s', false);
    StepOnward(s, OnRoute(FlagCancel(e, Some(t))), s', false);
  }

  /** An uncancelled run that shares its exchange leads beyond the limit. */
  lemma TwoRunsExceed(s: State, t: TaskId, u: TaskId) returns (s': State)
    requires Settled(s) && t in s.processes && u in s.processes && t != u && SharesExchange(s.processes, t, u)
    requires !s.processes[u].cancelled
    ensures Reaches(s, s', false) && |Uncancelled(s'.processes)| > s.maxProcesses
  {
    var e := s.processes[t].exchange.value;
    var s1, f := CancelOne(s, t, u, e);
    var s2 := Fill(s1, e, f);
    s' := Overfill(s2, e, f);
    Onward(s, s1, s2, false);
    Onward(s, s2, s', false);
    assert Uncancelled(s'.processes) == s'.processes.Keys;
  }

  // ----- the exact condition

  /** No step after recovery restarts anything. */
  lemma {:induction false} RecoveryIsOver(s: State, labels: seq<Label>)
    requires !s.recovering && Valid(s, labels)
    ensures SingleRestarts(s, labels)
    decreases |labels|
  {
    if labels != [] {
      StaysOver(s, labels[0]);
      RecoveryIsOver(Apply(s, labels[0]), labels[1..]);
    }
  }

  lemma SettledLimited(s: State)
    requires Settled(s) && OneEach(s.processes, false)
    ensures Limited(s, false)
  {
  }

  ghost predicate NeverExceeds(s: State) {
    forall labels :: Valid(s, labels) ==> |Uncancelled(End(s, labels).processes)| <= s.maxProcesses
  }

  /**
   From any state in which recovery is over and nothing is in progress, the limit holds in every
   continuation if and only if no uncancelled run shares its exchange with another live run.
   */
  lemma LimitIff(s: State)
    requires Settled(s)
    ensures NeverExceeds(s) <==> OneEach(s.processes, false)
  {
    if OneEach(s.processes, false) {
      SettledLimited(s);
      forall labels | Valid(s, labels) ensures |Uncancelled(End(s, labels).processes)| <= s.maxProcesses {
        RecoveryIsOver(s, labels);
        LimitHolds(s, labels, false);
      }
    } else {
      var t, u :| t in s.processes && u in s.processes && SharesExchange(s.processes, t, u) && t != u &&
                  !(s.processes[t].cancelled && s.processes[u].cancelled);
      if s.processes[u].cancelled { t, u := u, t; }
      var s' := TwoRunsExceed(s, t, u);
      var labels :| RunsTo(s, labels, s', false);
      assert Valid(s, labels) && |Uncancelled(End(s, labels).processes)| > s.maxProcesses;
    }
  }

  // ----- recovery can leave two

  /** Recovery restarts task `t` and its run appears. */
  lemma RestartOne(s: State, t: TaskId) returns (s': State)
    requires s.recovering && s.actor == Idle && s.launch == None && s.assembly == None && |s.narrative| <= |s.log|
    requires t in s.orphans && t in s.tasks && |s.processes| < s.maxProcesses && NoneCancelled(s.processes)
    ensures Reaches(s, s', false) && s'.processes.Keys == s.processes.Keys + {t} && NoneCancelled(s'.processes)
    ensures s'.recovering && s'.actor == Idle && s'.launch == None && s'.assembly == None
    ensures |s'.narrative| <= |s'.log| && s'.maxProcesses == s.maxProcesses
    ensures s'.tasks == s.tasks && s'.orphans == s.orphans - {t}
    ensures s'.processes[t].exchange == s.tasks[t].exchange
    ensures forall u :: u in s.processes && u != t ==> s'.processes[u].exchange == s.processes[u].exchange
  {
    s' := Assemble(Apply(s, OnLaunch(RestartCheck(t))));
    StepOnward(s, OnLaunch(RestartCheck(t)), s', false);
  }

  /** Two orphaned tasks of one exchange are both restarted, for any limit above one. */
  lemma TwoOrphansExceed(limit: nat) returns (s: State, s': State)
    requires limit >= 2
    ensures Initial(s) && s.maxProcesses == limit && Reaches(s, s', false) && |Uncancelled(s'.processes)| > limit
  {
    s := State([], [], map[], map[0 := TaskRow(Some(0), 0), 1 := TaskRow(Some(0), 1)], map[0 := InProgress], [], Idle,
               None, None, {}, {}, true, {0, 1}, None, limit);
    var a := RestartOne(s, 0);
    assert a.processes.Keys == {0};
    assert |a.processes.Keys| == 1;
    var b := RestartOne(a, 1);
    assert b.processes.Keys == {0, 1};
    assert |b.processes.Keys| == 2;
    var c := Apply(b, OnRoute(EndRecovery));
    assert SharesExchange(c.processes, 0, 1);
    UncancelledAtMost(c);
    s' := TwoRunsExceed(c, 0, 1);
    StepOnward(b, OnRoute(EndRecovery), s', false);
    Onward(a, b, s', false);
    Onward(s, a, s', false);
  }

  /** With room for one run only, a restart that passes finds no other run. */
  lemma {:induction false} OneSlotIsSingle(s: State, labels: seq<Label>)
    requires s.maxProcesses <= 1 && Valid(s, labels)
    ensures SingleRestarts(s, labels)
    decreases |labels|
  {
    if labels != [] {
      LimitStays(s, labels[0]);
      OneSlotIsSingle(Apply(s, labels[0]), labels[1..]);
    }
  }

  /** The limit is safe from every initial state, orphans and all, if and only if it is at most one. */
  lemma LimitSafeIff(limit: nat)
    ensures (forall s :: Initial(s) && s.maxProcesses == limit ==> NeverExceeds(s)) <==> limit <= 1
  {
    if limit <= 1 {
      forall s | Initial(s) && s.maxProcesses == limit ensures NeverExceeds(s) {
        assert Uncancelled(s.processes) == {};
        forall labels | Valid(s, labels) ensures |Uncancelled(End(s, labels).processes)| <= s.maxProcesses {
          OneSlotIsSingle(s, labels);
          LimitHolds(s, labels, false);
        }
      }
    } else {
      var s, s' := TwoOrphansExceed(limit);
      var labels :| RunsTo(s, labels, s', false);
      assert Valid(s, labels) && |Uncancelled(End(s, labels).processes)| > s.maxProcesses;
      assert !NeverExceeds(s);
    }
  }
}
