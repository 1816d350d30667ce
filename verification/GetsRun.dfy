/**
 What is owed is started: a reopened question, a submitted one and a promoted collection each lead
 to a live run whose branch holds the message, whenever a slot and the locks are free; and nothing
 but an open exchange is revived.
 */
module GetsRun {
  import opened Domain
  import opened Branch
  import opened DialogState
  import opened DialogWatermark
  import opened DialogOwnership
  import opened BranchHistory
  import opened UnseenReport
  import opened NoLostQuestion
  import opened Reach

  /** A live, uncancelled run of `e` has log position `i` in its branch. */
  ghost predicate Answers(s: State, t: TaskId, e: ExchangeId, i: nat) {
    t in s.processes && s.processes[t].exchange == Some(e) && !s.processes[t].cancelled && InBranch(s, t, i)
  }

  /** Message `i` of `e` is in memory, and nobody holds the assemble lock. */
  predicate InMemory(s: State, e: ExchangeId, i: nat) {
    |s.narrative| <= |s.log| && Base(s) <= i < |s.log| && UserMessageOf(s.log[i], e) && s.assembly == None
  }

  /** The whole of memory is assembled for the start or the run that asked. */
  lemma Rebuilds(s: State, purpose: Purpose, t: TaskId, e: ExchangeId, i: nat) returns (s': State)
    requires Exact(s) && Stored(s) && InMemory(s, e, i)
    requires
      || (purpose == ForLaunch && MayCreate(s) && s.launch.value.task == t && s.tasks[t].exchange == Some(e))
      || (purpose == ForSync(t) && t in s.processes && s.processes[t].exchange == Some(e))
    ensures Reaches(s, s', true) && t in s'.processes && s'.processes[t].exchange == Some(e) && InBranch(s', t, i)
    ensures purpose == ForLaunch ==> !s'.processes[t].cancelled
    ensures purpose == ForSync(t) ==> s'.processes[t].cancelled == s.processes[t].cancelled
    ensures s'.exchanges == s.exchanges
  {
    var l := OnView(Snapshot(purpose, |s.narrative|, [], {}));
    assert purpose == ForSync(t) ==> RunStored(s, t);
    var s1 := Apply(s, l);
    StepExact(s, l);
    StepStored(s, l);
    s' := Finish(s1, SYSTEM_ENTRY);
    FinishExact(s1, SYSTEM_ENTRY);
    RebuiltShows(s1, SYSTEM_ENTRY, t);
    assert ProcessExact(s'.processes[t], |s'.log|, Base(s'));
    var j := OwnMessageInBranch(s'.processes[t], s.log, i);
    OneStep(s1, OnView(FinishAssembly(SYSTEM_ENTRY)), true);
    StepOnward(s, l, s', true);
  }

  /** An admitted start of `e` goes through, in the order of tasks. */
  lemma StartsRun(s: State, e: ExchangeId, i: nat) returns (s': State, t: TaskId)
    requires Exact(s) && Stored(s) && InMemory(s, e, i) && s.launch == Some(Admitted(Some(e))) && e in s.exchanges
    ensures Reaches(s, s', true) && Answers(s', t, e, i) && s'.exchanges == s.exchanges[e := InProgress]
  {
    t := FreshId(s.tasks.Keys + s.processes.Keys);
    var times := set u | u in s.tasks :: s.tasks[u].created;
    var at := FreshId(times);
    forall u | u in s.tasks ensures Older(s.tasks[u], u, TaskRow(Some(e), at), t) {
      assert s.tasks[u].created in times;
    }
    var l := OnLaunch(Commit(t, at));
    var s1 := Apply(s, l);
    StepExact(s, l);
    StepStored(s, l);
    s' := Rebuilds(s1, ForLaunch, t, e, i);
    StepOnward(s, l, s', true);
  }

  /** The actor is about to revive `e`, which is open, and there is a slot for it. */
  predicate MayRevive(s: State, e: ExchangeId) {
    s.actor == Resuming(e) && s.launch == None && e in s.exchanges && s.exchanges[e] == Open && !HasRun(s, e) &&
    |s.processes| < s.maxProcesses
  }

  /**
   Exactly such an exchange is revived: from `Resuming(e)`, a step begins a start if and only if it is
   the check of an open exchange without a run while a slot is free, and the start is for `e`.
   */
  lemma RevivesIff(s: State, e: ExchangeId, l: Label)
    requires s.actor == Resuming(e) && s.launch == None && Enabled(s, l)
    ensures Apply(s, l).actor == Launching <==> l == OnLaunch(ResumeCheck(e, true)) && MayRevive(s, e)
    ensures Apply(s, l).actor == Launching ==> Apply(s, l).launch == Some(Admitted(Some(e)))
  {
    assert {} * LiveExchanges(s) == {};
    if l.OnLaunch? && l.launch.ResumeCheck? { AdmissionFrame(s, l.launch); }
  }

  /** A revived exchange gets a run that reads message `i`. */
  lemma RevivedGetsRun(s: State, e: ExchangeId, i: nat) returns (s': State, t: TaskId)
    requires Exact(s) && Stored(s) && InMemory(s, e, i) && MayRevive(s, e)
    ensures Reaches(s, s', true) && Answers(s', t, e, i) && s'.exchanges == s.exchanges[e := InProgress]
  {
    var l := OnLaunch(ResumeCheck(e, true));
    RevivesIff(s, e, l);
    AdmissionFrame(s, ResumeCheck(e, true));
    StepExact(s, l);
    StepStored(s, l);
    s', t := StartsRun(Apply(s, l), e, i);
    StepOnward(s, l, s', true);
  }

  /**
   After every clean run: a finished, uncancelled run's termination over a question nobody accounted
   for or gave up, of a live exchange no newer run owns, leads to a live run of the exchange with that
   very question in its branch, if the question is in memory and a slot and the locks are free.
   */
  lemma UnreadQuestionIsAnswered(s: State, labels: seq<Label>, i: nat) returns (s': State, t: TaskId)
    requires Inv(s) && Recorded(s) && Valid(s, labels) && CleanRun(s, labels)
    requires
      var v := End(s, labels);
      && EndEnabled(v, Settle) && OwedBy(v, i) && v.inbox[0].outcome != Cancelled
      && !Accounted(v.inbox[0].trail, i) && !GivenUp(v, i)
    requires
      var v := End(s, labels);
      var e := v.inbox[0].exchange.value;
      && !Superseded(v.tasks, v.inbox[0].task, e) && e in v.exchanges && Live(v.exchanges[e])
      && InMemory(v, e, i) && !HasRun(v, e) && v.launch == None && |v.processes| < v.maxProcesses
    ensures Reaches(End(s, labels), s', true) && Answers(s', t, End(s, labels).inbox[0].exchange.value, i)
  {
    UnreadQuestionReopens(s, labels, i);
    RunRecorded(s, labels);
    s', t := ReopenedGetsRun(End(s, labels), i);
  }

  lemma ReopenedGetsRun(v: State, i: nat) returns (s': State, t: TaskId)
    requires Exact(v) && Stored(v) && EndEnabled(v, Settle) && v.inbox[0].exchange.Some?
    requires
      var e := v.inbox[0].exchange.value;
      && e in v.exchanges && Settling(v).exchanges == v.exchanges[e := Open] && Settling(v).actor == Resuming(e)
      && InMemory(v, e, i) && !HasRun(v, e) && v.launch == None && |v.processes| < v.maxProcesses
    ensures Reaches(v, s', true) && Answers(s', t, v.inbox[0].exchange.value, i)
  {
    var w, e := Settling(v), v.inbox[0].exchange.value;
    StepExact(v, OnEnd(Settle));
    StepStored(v, OnEnd(Settle));
    assert !HasRun(w, e) by { assert w.processes == v.processes; }
    s', t := RevivedGetsRun(w, e, i);
    StepOnward(v, OnEnd(Settle), s', true);
  }

  /** The actor has nothing to do, recovery is over and the locks are free. */
  predicate Ready(s: State, e: ExchangeId) {
    s.actor == Idle && !s.recovering && s.launch == None && s.assembly == None && e in s.exchanges
  }

  /** A submitted question of an exchange nobody runs gets a run that reads it. */
  lemma SubmittedGetsRun(s: State, m: Message, e: ExchangeId) returns (s': State, t: TaskId)
    requires Exact(s) && Stored(s) && Ready(s, e) && Spoken(m, e) && !HasRun(s, e) && |s.processes| < s.maxProcesses
    ensures Reaches(s, s', true) && Answers(s', t, e, |s.log|) && s'.exchanges == s.exchanges[e := InProgress]
  {
    var s1 := s.(actor := Routing({}, None));
    var s2 := Attach(s1, m);
    var s3 := s2.(launch := Some(Checked(e)), actor := Admitting(e, |s.log|, {}));
    var s4 := s3.(launch := Some(Admitted(Some(e))));
    assert !HasRun(s2, e) by { assert s2.processes == s.processes; }
    assert {} * LiveExchanges(s3) == {};
    StepExact(s, OnRoute(BeginRoute));
    StepStored(s, OnRoute(BeginRoute));
    SubmitKeeps(s1, m, s4);
    s', t := StartsRun(s4, e, |s.log|);
    assert Apply(s3, OnLaunch(Admit)) == s4;
    assert Apply(s2, OnLaunch(PlaceCheck)) == s3;
    StepOnward(s3, OnLaunch(Admit), s', true);
    StepOnward(s2, OnLaunch(PlaceCheck), s', true);
    StepOnward(s1, OnRoute(AttachMessage(m)), s', true);
    StepOnward(s, OnRoute(BeginRoute), s', true);
  }

  lemma SubmitKeeps(s: State, m: Message, s': State)
    requires Exact(s) && Stored(s) && RouteEnabled(s, AttachMessage(m))
    requires s' == Attach(s, m).(launch := s'.launch, actor := s'.actor)
    ensures Exact(s') && Stored(s')
  {
    StepExact(s, OnRoute(AttachMessage(m)));
    StepStored(s, OnRoute(AttachMessage(m)));
    QuietExact(Attach(s, m), s');
    QuietStored(Attach(s, m), s');
  }

  /** A message that joins an exchange being answered reaches its run at the next sync. */
  lemma JoinedReachesRun(s: State, t: TaskId, e: ExchangeId, i: nat) returns (s': State)
    requires Exact(s) && Stored(s) && InMemory(s, e, i) && t in s.processes && s.processes[t].exchange == Some(e)
    ensures Reaches(s, s', true) && t in s'.processes && InBranch(s', t, i)
    ensures s'.processes[t].cancelled == s.processes[t].cancelled
  {
    s' := Rebuilds(s, ForSync(t), t, e, i);
  }

  lemma WriteKeeps(s: State, s': State)
    requires Exact(s) && Stored(s) && s' == s.(exchanges := s'.exchanges, actor := s'.actor)
    ensures Exact(s') && Stored(s')
  {
    QuietExact(s, s');
    QuietStored(s, s');
  }

  /** What promoting a collection leaves behind. */
  function Promoted(s: State, e: ExchangeId): State {
    s.(exchanges := s.exchanges[e := Open], actor := Resuming(e))
  }

  lemma PromotionReaches(s: State, e: ExchangeId, s': State)
    requires Ready(s, e) && s.exchanges[e] == Collecting && Reaches(Promoted(s, e), s', true)
    ensures Reaches(s, s', true)
  {
    var s1 := s.(actor := Promoting(e, e));
    assert Apply(s1, OnRoute(PromoteWrite)) == Promoted(s, e);
    StepOnward(s1, OnRoute(PromoteWrite), s', true);
    StepOnward(s, OnRoute(PromoteCheck(e, e)), s', true);
  }

  /** A settled collection, promoted, gets a run that reads its material. */
  lemma PromotedGetsRun(s: State, e: ExchangeId, i: nat) returns (s': State, t: TaskId)
    requires Exact(s) && Stored(s) && Ready(s, e) && s.exchanges[e] == Collecting && InMemory(s, e, i)
    requires !HasRun(s, e) && |s.processes| < s.maxProcesses
    ensures Reaches(s, s', true) && Answers(s', t, e, i) && s'.exchanges == s.exchanges[e := InProgress]
  {
    var s2 := Promoted(s, e);
    assert !HasRun(s2, e) by { assert s2.processes == s.processes; }
    WriteKeeps(s, s2);
    s', t := RevivedGetsRun(s2, e, i);
    PromotionReaches(s, e, s');
    assert s2.exchanges[e := InProgress] == s.exchanges[e := InProgress];
  }
}
