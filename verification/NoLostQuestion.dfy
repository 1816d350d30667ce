/**
 No question is lost: a run may close its exchange only when every own-words message of
 that exchange has been accounted for.
 */
module NoLostQuestion {
  import opened Domain
  import opened DialogState
  import opened DialogWatermark
  import opened DialogOwnership
  import opened BranchHistory
  import opened UnseenReport

  predicate Superseded(tasks: map<TaskId, TaskRow>, t: TaskId, e: ExchangeId) {
    t in tasks && exists u :: u in tasks && tasks[u].exchange == Some(e) && Older(tasks[t], t, tasks[u], u)
  }

  /** The actor has appended message `i` to `e` and has not yet found it an owner. */
  predicate Pending(actor: Actor, e: ExchangeId, i: nat) {
    (actor.Placing? || actor.Admitting?) && actor.exchange == e && actor.index == i
  }

  /** The message was given up: with a notice to the user, or in silence. */
  predicate GivenUp(s: State, i: nat) {
    i in s.refused || i in s.dropped
  }

  ghost predicate Explained(s: State, c: Terminated, e: ExchangeId, i: nat) {
    Accounted(c.trail, i) || GivenUp(s, i) || Superseded(s.tasks, c.task, e) || Pending(s.actor, e, i)
  }

  ghost predicate CommandExplained(s: State, c: Terminated) {
    c.exchange.Some? && c.unseen != OwnWords ==>
      forall i :: 0 <= i < |s.log| && Spoken(s.log[i], c.exchange.value) ==> Explained(s, c, c.exchange.value, i)
  }

  ghost predicate AllExplained(s: State) {
    forall k :: 0 <= k < |s.inbox| ==> CommandExplained(s, s.inbox[k])
  }

  ghost predicate Inv(s: State) {
    Exact(s) && Ordered(s) && AllExplained(s)
  }

  // ----- preservation

  /** Explanations survive a step that adds no question and drops none that is pending. */
  lemma QuietExplained(s: State, s': State)
    requires AllExplained(s) && s.refused <= s'.refused && s.dropped <= s'.dropped
    requires |s.log| <= |s'.log| && s'.log[..|s.log|] == s.log
    requires forall i, e :: |s.log| <= i < |s'.log| ==> !Spoken(s'.log[i], e)
    requires forall t :: t in s.tasks ==> t in s'.tasks && s'.tasks[t] == s.tasks[t]
    requires forall e, i :: Pending(s.actor, e, i) ==> Pending(s'.actor, e, i) || GivenUp(s', i)
    requires forall k :: 0 <= k < |s'.inbox| ==> s'.inbox[k] in s.inbox
    ensures AllExplained(s')
  {
    forall k | 0 <= k < |s'.inbox| ensures CommandExplained(s', s'.inbox[k]) {
      var c := s'.inbox[k];
      assert c in s.inbox;
      var j :| 0 <= j < |s.inbox| && s.inbox[j] == c;
      assert CommandExplained(s, s.inbox[j]);
      if c.exchange.Some? && c.unseen != OwnWords {
        var e := c.exchange.value;
        forall i | 0 <= i < |s'.log| && Spoken(s'.log[i], e) ensures Explained(s', c, e, i) {
          assert i < |s.log| && s'.log[..|s.log|][i] == s.log[i];
          assert Explained(s, c, e, i);
        }
      }
    }
  }

  lemma TerminateExplained(s: State, t: TaskId, outcome: Status)
    requires Inv(s) && EndEnabled(s, Terminate(t, outcome))
    ensures AllExplained(Terminating(s, t, outcome))
  {
    var s' := Terminating(s, t, outcome);
    var p := s.processes[t];
    assert RunOwns(s, t) && ProcessExact(p, |s.log|, Base(s));
    QuietExplained(s, s'.(inbox := s.inbox));
    forall k | 0 <= k < |s'.inbox| ensures CommandExplained(s', s'.inbox[k]) {
      var c := s'.inbox[k];
      if k < |s.inbox| {
        assert CommandExplained(s, s.inbox[k]);
        assert forall e, i :: Explained(s, c, e, i) ==> Explained(s', c, e, i);
      } else if c.exchange.Some? && c.unseen != OwnWords {
        forall i | 0 <= i < |s'.log| && Spoken(s'.log[i], c.exchange.value)
          ensures Explained(s', c, c.exchange.value, i)
        {
          TerminatedReports(s, t, outcome);
        }
      }
    }
  }

  lemma AttachExplained(s: State, m: Message)
    requires Inv(s) && RouteEnabled(s, AttachMessage(m))
    ensures AllExplained(Attach(s, m))
  {
    var s' := Attach(s, m);
    forall k | 0 <= k < |s'.inbox| ensures CommandExplained(s', s'.inbox[k]) {
      var c := s.inbox[k];
      assert CommandExplained(s, c);
      if c.exchange.Some? && c.unseen != OwnWords {
        forall i | 0 <= i < |s'.log| && Spoken(s'.log[i], c.exchange.value)
          ensures Explained(s', c, c.exchange.value, i)
        {
          if i < |s.log| { assert Explained(s, c, c.exchange.value, i); }
        }
      }
    }
  }

  /** The placed message of `e` has an owner: commands of other tasks of `e` are superseded. */
  lemma OwnedExplained(s: State, s': State, e: ExchangeId, owner: TaskId)
    requires AllExplained(s) && CommandsSound(s)
    requires s'.log == s.log && s'.inbox == s.inbox && s.refused <= s'.refused && s.dropped <= s'.dropped
    requires forall t :: t in s.tasks ==> t in s'.tasks && s'.tasks[t] == s.tasks[t]
    requires IsNewest(s'.tasks, e, owner) && forall k :: 0 <= k < |s.inbox| ==> s.inbox[k].task != owner
    requires forall f, i :: Pending(s.actor, f, i) ==> f == e
    ensures AllExplained(s')
  {
    forall k | 0 <= k < |s'.inbox| ensures CommandExplained(s', s'.inbox[k]) {
      var c := s.inbox[k];
      assert CommandExplained(s, c) && CommandSound(s, c);
      if c.exchange.Some? && c.unseen != OwnWords {
        forall i | 0 <= i < |s'.log| && Spoken(s'.log[i], c.exchange.value)
          ensures Explained(s', c, c.exchange.value, i)
        {
          assert Explained(s, c, c.exchange.value, i);
          assert c.exchange.value == e ==> Superseded(s'.tasks, c.task, e);
        }
      }
    }
  }

  lemma PlaceExplained(s: State)
    requires Inv(s) && LaunchEnabled(s, PlaceCheck)
    ensures AllExplained(ApplyLaunch(s, PlaceCheck))
  {
    var e := s.actor.exchange;
    var s' := ApplyLaunch(s, PlaceCheck);
    if HasRun(s, e) {
      var owner :| owner in s.processes && s.processes[owner].exchange == Some(e);
      assert RunOwns(s, owner);
      forall k | 0 <= k < |s.inbox| ensures s.inbox[k].task != owner { assert CommandSound(s, s.inbox[k]); }
      OwnedExplained(s, s', e, owner);
    } else {
      QuietExplained(s, s');
    }
  }

  lemma CommitExplained(s: State, t: TaskId, at: nat)
    requires Inv(s) && LaunchEnabled(s, Commit(t, at)) && Clean(s, OnLaunch(Commit(t, at)))
    ensures AllExplained(CommitTask(s, t, at))
  {
    var s' := CommitTask(s, t, at);
    forall k | 0 <= k < |s.inbox| ensures s.inbox[k].task != t { assert CommandSound(s, s.inbox[k]); }
    if s.actor.Admitting? {
      OwnedExplained(s, s', s.actor.exchange, t);
    } else {
      QuietExplained(s, s');
    }
  }

  lemma AdmitExplained(s: State, l: LaunchStep)
    requires Inv(s) && LaunchEnabled(s, l) && (l.Admit? || l.ResumeCheck?)
    ensures AllExplained(ApplyLaunch(s, l))
  {
    AdmissionFrame(s, l);
    QuietExplained(s, ApplyLaunch(s, l));
  }

  lemma LaunchExplained(s: State, l: LaunchStep)
    requires Inv(s) && LaunchEnabled(s, l) && Clean(s, OnLaunch(l))
    ensures AllExplained(ApplyLaunch(s, l))
  {
    match l
    case PlaceCheck => PlaceExplained(s);
    case Commit(t, at) => CommitExplained(s, t, at);
    case ResumeCheck(_, _) => AdmitExplained(s, l);
    case Admit => AdmitExplained(s, l);
    case RefuseBudget(_, _) => GiveUpExplained(s, l);
    case AbortLaunch => GiveUpExplained(s, l);
    case _ => QuietExplained(s, ApplyLaunch(s, l));
  }

  lemma GiveUpExplained(s: State, l: LaunchStep)
    requires Inv(s) && LaunchEnabled(s, l) && (l.RefuseBudget? || l.AbortLaunch?)
    ensures AllExplained(ApplyLaunch(s, l))
  {
    GiveUpFrame(s, l);
    QuietExplained(s, ApplyLaunch(s, l));
  }

  lemma RouteExplained(s: State, l: RouteStep)
    requires Inv(s) && RouteEnabled(s, l)
    ensures AllExplained(ApplyRoute(s, l))
  {
    match l
    case AttachMessage(m) => AttachExplained(s, m);
    case _ => QuietExplained(s, ApplyRoute(s, l));
  }

  lemma EndExplained(s: State, l: EndStep)
    requires Inv(s) && EndEnabled(s, l)
    ensures AllExplained(ApplyEnd(s, l))
  {
    match l
    case Terminate(t, outcome) => TerminateExplained(s, t, outcome);
    case _ => QuietExplained(s, ApplyEnd(s, l));
  }

  lemma StepInv(s: State, l: Label)
    requires Inv(s) && Enabled(s, l) && Clean(s, l)
    ensures Inv(Apply(s, l))
  {
    StepExact(s, l);
    StepOrdered(s, l);
    match l
    case OnStore(store) => QuietExplained(s, ApplyStore(s, store));
    case OnRoute(route) => RouteExplained(s, route);
    case OnLaunch(launch) => LaunchExplained(s, launch);
    case OnView(view) => QuietExplained(s, ApplyView(s, view));
    case OnEnd(end) => EndExplained(s, end);
  }

  lemma {:induction false} RunInv(s: State, labels: seq<Label>)
    requires Inv(s) && Valid(s, labels) && CleanRun(s, labels)
    ensures Inv(End(s, labels))
    decreases |labels|
  {
    if labels != [] {
      StepInv(s, labels[0]);
      RunInv(Apply(s, labels[0]), labels[1..]);
    }
  }

  // ----- the theorems

  /** A freshly loaded actor, whatever its history. */
  lemma InitialInv(s: State)
    requires Initial(s)
    ensures Inv(s) && Recorded(s)
  {
    assert s.narrative == s.log[Base(s)..];
  }

  /** The actor is about to close an exchange as answered or failed. */
  predicate Closes(s: State) {
    EndEnabled(s, Settle) && SettleApplies(s, s.inbox[0]) &&
    (SettleTarget(s.inbox[0]) == Answered || SettleTarget(s.inbox[0]) == Failed)
  }

  /** An own-words message of the exchange whose termination is next. */
  predicate OwedBy(s: State, i: nat) {
    s.inbox != [] && s.inbox[0].exchange.Some? && i < |s.log| && Spoken(s.log[i], s.inbox[0].exchange.value)
  }

  /** A clean run closes over a question only if that was given up. */
  lemma AccountedOrGivenUp(s: State, labels: seq<Label>, i: nat)
    requires Inv(s) && Valid(s, labels) && CleanRun(s, labels)
    requires Closes(End(s, labels)) && OwedBy(End(s, labels), i)
    ensures Accounted(End(s, labels).inbox[0].trail, i) || GivenUp(End(s, labels), i)
  {
    RunInv(s, labels);
    var s' := End(s, labels);
    var c := s'.inbox[0];
    assert CommandExplained(s', c) && Explained(s', c, c.exchange.value, i);
  }

  /**
   In every interleaving of submits, syncs, trims, starts, cancels, terminations and
   settles: when a run's termination closes its exchange as answered or failed, each
   own-words message of that exchange stood, marked, in the run's branch in some state of the
   run; or it had been compacted before the run began, or was trimmed away unseen, or the user
   was told it would not be answered - or it was dropped in silence.
   */
  lemma NoQuestionLost(s: State, labels: seq<Label>, i: nat)
    requires Initial(s) && Valid(s, labels) && CleanRun(s, labels)
    requires Closes(End(s, labels)) && OwedBy(End(s, labels), i)
    ensures
      var s' := End(s, labels);
      var c := s'.inbox[0];
      || WasInBranch(s, labels, c.task, i)
      || i < c.trail.born || i in c.trail.missed
      || i in s'.refused || i in s'.dropped
  {
    InitialInv(s);
    RunInv(s, labels);
    AccountedOrGivenUp(s, labels, i);
    var s' := End(s, labels);
    var c := s'.inbox[0];
    assert CommandSound(s', c);
    if i in c.trail.shown { ReportedWasInBranch(s, labels, c, i, c.exchange.value); }
  }

  /**
   The other half: a finished, uncancelled run whose exchange holds a question nobody has
   accounted for leaves it to a newer run of the exchange, or the exchange is gone or closed
   already, or the settle reopens it and the actor goes on to resume it.
   */
  lemma UnreadQuestionReopens(s: State, labels: seq<Label>, i: nat)
    requires Inv(s) && Valid(s, labels) && CleanRun(s, labels)
    requires
      var s' := End(s, labels);
      EndEnabled(s', Settle) && OwedBy(s', i) && s'.inbox[0].outcome != Cancelled &&
      !Accounted(s'.inbox[0].trail, i) && !GivenUp(s', i)
    ensures
      var s' := End(s, labels);
      var e := s'.inbox[0].exchange.value;
      || Superseded(s'.tasks, s'.inbox[0].task, e)
      || e !in s'.exchanges || Outcome(s'.exchanges[e])
      || (Settling(s').exchanges == s'.exchanges[e := Open] && Settling(s').actor == Resuming(e))
  {
    RunInv(s, labels);
    var s' := End(s, labels);
    var c := s'.inbox[0];
    assert CommandExplained(s', c) && CommandSound(s', c);
    if c.unseen != OwnWords { assert Explained(s', c, c.exchange.value, i); }
    if !Superseded(s'.tasks, c.task, c.exchange.value) { NewestUnlessSuperseded(s'.tasks, c.task, c.exchange.value); }
  }

  lemma NewestUnlessSuperseded(tasks: map<TaskId, TaskRow>, t: TaskId, e: ExchangeId)
    requires t in tasks && tasks[t].exchange == Some(e) && !Superseded(tasks, t, e)
    ensures IsNewest(tasks, e, t)
  {
  }
}
