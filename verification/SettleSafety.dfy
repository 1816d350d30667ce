/**
 What a settle may never do to an exchange, over whole runs of the dialog machine.
 */
module SettleSafety {
  import opened Domain
  import opened DialogState
  import opened DialogWatermark
  import opened BranchHistory
  import opened UnseenReport
  import opened NoLostQuestion

  /** Once a newer task of the exchange exists, it always does: task rows are kept forever. */
  lemma {:induction false} SupersededForever(s: State, labels: seq<Label>, t: TaskId, e: ExchangeId)
    requires Valid(s, labels) && Superseded(s.tasks, t, e)
    ensures Superseded(End(s, labels).tasks, t, e)
    decreases |labels|
  {
    if labels != [] {
      var u :| u in s.tasks && s.tasks[u].exchange == Some(e) && Older(s.tasks[t], t, s.tasks[u], u);
      TasksStay(s, labels[0]);
      SupersededForever(Apply(s, labels[0]), labels[1..], t, e);
    }
  }

  /** However late its termination is handled, a superseded run changes no exchange. */
  lemma SupersededNeverSettles(s: State, labels: seq<Label>, t: TaskId, e: ExchangeId)
    requires Valid(s, labels) && Superseded(s.tasks, t, e)
    requires
      var s' := End(s, labels);
      EndEnabled(s', Settle) && s'.inbox[0].task == t && s'.inbox[0].exchange == Some(e)
    ensures Settling(End(s, labels)).exchanges == End(s, labels).exchanges
  {
    SupersededForever(s, labels, t, e);
    var s' := End(s, labels);
    var u :| u in s'.tasks && s'.tasks[u].exchange == Some(e) && Older(s'.tasks[t], t, s'.tasks[u], u);
    assert !IsNewest(s'.tasks, e, t);
  }

  // ----- steps that write an exchange, and steps that settle it

  /** A step other than a settle writes the status of exchange `e`. */
  predicate Writes(s: State, l: Label, e: ExchangeId)
    requires Enabled(s, l)
  {
    match l
    case OnStore(CreateExchange(f, _)) => f == e
    case OnStore(SetStatus(f, _)) => f == e
    case OnStore(AskUser(t)) => s.processes[t].exchange == Some(e)
    case OnRoute(WriteCancel) => s.actor.flagged == Some(e)
    case OnRoute(PromoteMove) => s.actor.collection == e
    case OnRoute(PromoteWrite) => s.actor.target == e
    case OnLaunch(Commit(_, _)) => s.launch.value.target == Some(e)
    case _ => false
  }

  /** Nobody but the terminations touches `e` in this run. */
  predicate Untouched(s: State, labels: seq<Label>, e: ExchangeId)
    requires Valid(s, labels)
    decreases |labels|
  {
    labels == [] || (!Writes(s, labels[0], e) && Untouched(Apply(s, labels[0]), labels[1..], e))
  }

  predicate Settles(s: State, l: Label, e: ExchangeId)
    requires Enabled(s, l)
  {
    l == OnEnd(Settle) && s.inbox[0].exchange == Some(e)
  }

  /** The exact effect of handling a termination on the exchange it is about. */
  lemma SettleEffect(s: State, e: ExchangeId)
    requires EndEnabled(s, Settle) && e in s.exchanges
    ensures e in Settling(s).exchanges
    ensures Settling(s).exchanges[e] ==
      if s.inbox[0].exchange == Some(e) && SettleApplies(s, s.inbox[0]) then SettleTarget(s.inbox[0])
      else s.exchanges[e]
  {
  }

  lemma LaunchKeepsStatus(s: State, l: LaunchStep, e: ExchangeId)
    requires LaunchEnabled(s, l) && e in s.exchanges && !Writes(s, OnLaunch(l), e)
    ensures e in ApplyLaunch(s, l).exchanges && ApplyLaunch(s, l).exchanges[e] == s.exchanges[e]
  {
    if l.PlaceCheck? || l.Admit? || l.ResumeCheck? { AdmissionFrame(s, l); }
    if l.RefuseBudget? || l.AbortLaunch? { GiveUpFrame(s, l); }
  }

  lemma StatusKept(s: State, l: Label, e: ExchangeId)
    requires Enabled(s, l) && e in s.exchanges && !Writes(s, l, e) && !Settles(s, l, e)
    ensures e in Apply(s, l).exchanges && Apply(s, l).exchanges[e] == s.exchanges[e]
  {
    if l.OnLaunch? { LaunchKeepsStatus(s, l.launch, e); }
    if l == OnEnd(Settle) { SettleEffect(s, e); }
  }

  // ----- what holds over whole runs

  /** However many terminations are settled, a closed exchange keeps its status. */
  lemma {:induction false} ClosedStaysClosed(s: State, labels: seq<Label>, e: ExchangeId)
    requires Valid(s, labels) && Untouched(s, labels, e) && e in s.exchanges && Outcome(s.exchanges[e])
    ensures e in End(s, labels).exchanges && End(s, labels).exchanges[e] == s.exchanges[e]
    decreases |labels|
  {
    if labels != [] {
      if Settles(s, labels[0], e) { SettleEffect(s, e); } else { StatusKept(s, labels[0], e); }
      ClosedStaysClosed(Apply(s, labels[0]), labels[1..], e);
    }
  }

  /** Every termination of `e` settled in this run is an uncancelled one that saw everything. */
  predicate NothingNew(s: State, labels: seq<Label>, e: ExchangeId)
    requires Valid(s, labels)
    decreases |labels|
  {
    labels == [] ||
    ((Settles(s, labels[0], e) ==> SettleKeepsAwaiting(s.inbox[0])) &&
     NothingNew(Apply(s, labels[0]), labels[1..], e))
  }

  /** However many such terminations are settled, an exchange parked on the user stays parked. */
  lemma {:induction false} AwaitingIsKept(s: State, labels: seq<Label>, e: ExchangeId)
    requires Valid(s, labels) && Untouched(s, labels, e) && NothingNew(s, labels, e)
    requires e in s.exchanges && s.exchanges[e] == AwaitingUser
    ensures e in End(s, labels).exchanges && End(s, labels).exchanges[e] == AwaitingUser
    decreases |labels|
  {
    if labels != [] {
      if Settles(s, labels[0], e) { SettleEffect(s, e); } else { StatusKept(s, labels[0], e); }
      AwaitingIsKept(Apply(s, labels[0]), labels[1..], e);
    }
  }

  /** This step's termination closes `e`. */
  predicate ClosesHere(s: State, l: Label, e: ExchangeId)
    requires Enabled(s, l)
  {
    Settles(s, l, e) && SettleApplies(s, s.inbox[0]) && Outcome(SettleTarget(s.inbox[0]))
  }

  function Closings(s: State, labels: seq<Label>, e: ExchangeId): nat
    requires Valid(s, labels)
    decreases |labels|
  {
    if labels == [] then 0
    else (if ClosesHere(s, labels[0], e) then 1 else 0) + Closings(Apply(s, labels[0]), labels[1..], e)
  }

  lemma StepStatus(s: State, l: Label, e: ExchangeId)
    requires Enabled(s, l) && !Writes(s, l, e) && e in s.exchanges
    ensures e in Apply(s, l).exchanges
    ensures !Outcome(s.exchanges[e]) ==> (Outcome(Apply(s, l).exchanges[e]) <==> ClosesHere(s, l, e))
    ensures Outcome(s.exchanges[e]) ==> Apply(s, l).exchanges[e] == s.exchanges[e] && !ClosesHere(s, l, e)
    ensures ClosesHere(s, l, e) ==> Apply(s, l).exchanges[e] == SettleTarget(s.inbox[0])
  {
    if Settles(s, l, e) { SettleEffect(s, e); } else { StatusKept(s, l, e); }
  }

  /**
   An exchange that nobody else writes is closed at most once, by one termination, and it ends
   closed if and only if that happened.
   */
  lemma {:induction false} ClosedOnce(s: State, labels: seq<Label>, e: ExchangeId)
    requires Valid(s, labels) && Untouched(s, labels, e) && e in s.exchanges
    ensures e in End(s, labels).exchanges
    ensures Closings(s, labels, e) ==
      if Outcome(End(s, labels).exchanges[e]) && !Outcome(s.exchanges[e]) then 1 else 0
    decreases |labels|
  {
    if labels != [] {
      StepStatus(s, labels[0], e);
      ClosedOnce(Apply(s, labels[0]), labels[1..], e);
      if Outcome(Apply(s, labels[0]).exchanges[e]) {
        ClosedStaysClosed(Apply(s, labels[0]), labels[1..], e);
      }
    }
  }

  /** Termination `c` was settled in this run. */
  predicate WasSettled(s: State, labels: seq<Label>, c: Terminated)
    requires Valid(s, labels)
    decreases |labels|
  {
    labels != [] &&
    ((labels[0] == OnEnd(Settle) && s.inbox[0] == c) || WasSettled(Apply(s, labels[0]), labels[1..], c))
  }

  /** Every user message of `e` up to the end of the run was shown, trimmed past it or compacted before it. */
  ghost predicate AllAccounted(log: seq<Message>, c: Terminated, e: ExchangeId) {
    c.ended <= |log| && forall i: nat :: i < c.ended && UserMessageOf(log[i], e) ==> Accounted(c.trail, i)
  }

  /** Without a start for `e`, the newest task of `e` stays the newest. */
  lemma {:induction false} NewestStays(s: State, labels: seq<Label>, e: ExchangeId, t: TaskId)
    requires Valid(s, labels) && Untouched(s, labels, e) && IsNewest(s.tasks, e, t)
    ensures IsNewest(End(s, labels).tasks, e, t)
    decreases |labels|
  {
    if labels != [] {
      TasksStay(s, labels[0]);
      NoNewTask(s, labels[0], e);
      NewestStays(Apply(s, labels[0]), labels[1..], e, t);
    }
  }

  lemma NoNewTask(s: State, l: Label, e: ExchangeId)
    requires Enabled(s, l) && !Writes(s, l, e)
    ensures forall t :: t in Apply(s, l).tasks && Apply(s, l).tasks[t].exchange == Some(e) ==> t in s.tasks
  {
    if l.OnLaunch? {
      if l.launch.PlaceCheck? || l.launch.Admit? || l.launch.ResumeCheck? { AdmissionFrame(s, l.launch); }
      if l.launch.RefuseBudget? || l.launch.AbortLaunch? { GiveUpFrame(s, l.launch); }
    }
  }

  /**
   Who closed it: a live exchange that ends closed with nobody else writing it was closed by the
   termination of the task that is its newest to the end, with that run's own outcome, and
   unless the user cancelled, every user message of the exchange up to the end of that run, material
   included, is accounted for.
   */
  lemma {:induction false} ClosedByNewestRun(s: State, labels: seq<Label>, e: ExchangeId) returns (c: Terminated)
    requires Valid(s, labels) && Untouched(s, labels, e) && e in s.exchanges && !Outcome(s.exchanges[e])
    requires e in End(s, labels).exchanges && Outcome(End(s, labels).exchanges[e])
    ensures WasSettled(s, labels, c) && c.exchange == Some(e) && c.outcome == End(s, labels).exchanges[e]
    ensures IsNewest(End(s, labels).tasks, e, c.task)
    ensures c.outcome == Cancelled || c.unseen == Nothing
    ensures Reported(s) && c.outcome != Cancelled ==> AllAccounted(End(s, labels).log, c, e)
    decreases |labels|
  {
    if Reported(s) { StepReported(s, labels[0]); }
    StepStatus(s, labels[0], e);
    if ClosesHere(s, labels[0], e) {
      c := s.inbox[0];
      RunKeepsRecords(s, labels);
      if Reported(s) { ReportsStays(s.log, End(s, labels).log, c); }
      ClosedStaysClosed(Apply(s, labels[0]), labels[1..], e);
      NewestStays(s, labels, e, c.task);
    } else {
      c := ClosedByNewestRun(Apply(s, labels[0]), labels[1..], e);
    }
  }

  /**
   Forwarded material is not closed over either: an uncancelled run of a live exchange's newest task
   that ends over unread material, and nothing else unread, parks the exchange as a collection.
   */
  lemma UnreadMaterialParks(s: State, labels: seq<Label>, i: nat)
    requires Reported(s) && Valid(s, labels) && EndEnabled(End(s, labels), Settle)
    requires
      var s' := End(s, labels);
      var c := s'.inbox[0];
      && c.exchange.Some? && c.outcome != Cancelled && IsNewest(s'.tasks, c.exchange.value, c.task)
      && c.exchange.value in s'.exchanges && Live(s'.exchanges[c.exchange.value])
      && UnreadAt(c.trail, s'.log, c.ended, c.exchange.value, i)
      && forall j: nat :: UnreadAt(c.trail, s'.log, c.ended, c.exchange.value, j) ==> s'.log[j].kind == Material
    ensures
      var s' := End(s, labels);
      Settling(s').exchanges == s'.exchanges[s'.inbox[0].exchange.value := Collecting]
  {
    UnseenIsExact(s, labels, End(s, labels).inbox[0]);
  }

  /** An exchange whose run has asked the user stays parked, whatever terminations that saw everything follow. */
  lemma AskedStaysParked(s: State, t: TaskId, labels: seq<Label>)
    requires StoreEnabled(s, AskUser(t)) && s.processes[t].exchange.value in s.exchanges
    requires Valid(ApplyStore(s, AskUser(t)), labels)
    requires Untouched(ApplyStore(s, AskUser(t)), labels, s.processes[t].exchange.value)
    requires NothingNew(ApplyStore(s, AskUser(t)), labels, s.processes[t].exchange.value)
    ensures
      var s', e := End(ApplyStore(s, AskUser(t)), labels), s.processes[t].exchange.value;
      e in s'.exchanges && s'.exchanges[e] == AwaitingUser
  {
    AwaitingIsKept(ApplyStore(s, AskUser(t)), labels, s.processes[t].exchange.value);
  }

  /** An exchange a command has cancelled stays cancelled, whatever its runs report later. */
  lemma CancelledStaysCancelled(s: State, labels: seq<Label>)
    requires RouteEnabled(s, WriteCancel) && s.actor.flagged.value in s.exchanges
    requires Valid(ApplyRoute(s, WriteCancel), labels)
    requires Untouched(ApplyRoute(s, WriteCancel), labels, s.actor.flagged.value)
    ensures
      var s', e := End(ApplyRoute(s, WriteCancel), labels), s.actor.flagged.value;
      e in s'.exchanges && s'.exchanges[e] == Cancelled
  {
    ClosedStaysClosed(ApplyRoute(s, WriteCancel), labels, s.actor.flagged.value);
  }
}
