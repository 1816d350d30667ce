/**
 What a termination says its run left unseen, against the log: exactly the user messages of its
 exchange that arrived after its last snapshot and were still in memory when it ended, forwarded
 material included.
 */
module UnseenReport {
  import opened Domain
  import opened DialogState
  import opened DialogWatermark
  import opened DialogOwnership
  import opened BranchHistory

  /**
   The run's branches showed the message, or it had left the in-memory narrative for the
   summary before the run began, or a trim took it away before the run saw it.
   */
  predicate Accounted(trail: Trail, i: nat) {
    i in trail.shown || i < trail.born || i in trail.missed
  }

  /** A user message of `e` that arrived past the run's last snapshot and was in memory when it ended. */
  predicate UnreadAt(trail: Trail, log: seq<Message>, ended: nat, e: ExchangeId, i: nat) {
    trail.seen <= i < ended <= |log| && i !in trail.missed && UserMessageOf(log[i], e)
  }

  // ----- what lies above a watermark

  lemma {:induction false} ArrivedHas(narrative: seq<Message>, from: nat, e: ExchangeId, k: nat)
    requires from <= k < |narrative| && UserMessageOf(narrative[k], e)
    ensures narrative[k] in Arrived(narrative, from, e)
    decreases |narrative| - from
  {
    if from < k { ArrivedHas(narrative, from + 1, e, k); }
  }

  lemma {:induction false} ArrivedOnly(narrative: seq<Message>, from: nat, e: ExchangeId, m: Message) returns (k: nat)
    requires from <= |narrative| && m in Arrived(narrative, from, e)
    ensures from <= k < |narrative| && narrative[k] == m && UserMessageOf(m, e)
    decreases |narrative| - from
  {
    if UserMessageOf(narrative[from], e) && narrative[from] == m {
      k := from;
    } else {
      k := ArrivedOnly(narrative, from + 1, e, m);
    }
  }

  /** The kind by position: nothing, or the user's own words if there are any, or else material only. */
  lemma UnseenByPosition(narrative: seq<Message>, p: Process)
    requires p.narrativeBuilt && p.exchange.Some? && p.watermark <= |narrative|
    ensures UnseenKind(narrative, p) == Nothing <==>
            forall k :: p.watermark <= k < |narrative| ==> !UserMessageOf(narrative[k], p.exchange.value)
    ensures UnseenKind(narrative, p) == OwnWords <==>
            exists k :: p.watermark <= k < |narrative| && Spoken(narrative[k], p.exchange.value)
  {
    var e := p.exchange.value;
    var arrived := Arrived(narrative, p.watermark, e);
    forall k | p.watermark <= k < |narrative| && UserMessageOf(narrative[k], e) ensures narrative[k] in arrived {
      ArrivedHas(narrative, p.watermark, e, k);
    }
    if arrived != [] {
      var k := ArrivedOnly(narrative, p.watermark, e, arrived[0]);
      assert UserMessageOf(narrative[k], e);
    }
    if m :| m in arrived && m.kind != Material {
      var k := ArrivedOnly(narrative, p.watermark, e, m);
      assert Spoken(narrative[k], e);
    }
  }

  // ----- the report

  /** The termination reports by position what was unread, and all else is accounted for. */
  ghost predicate Reports(log: seq<Message>, c: Terminated) {
    c.ended <= |log| &&
    (c.exchange.Some? ==>
      var e := c.exchange.value;
      && (c.unseen == Nothing <==> forall i: nat :: !UnreadAt(c.trail, log, c.ended, e, i))
      && (c.unseen == OwnWords <==> exists i: nat :: UnreadAt(c.trail, log, c.ended, e, i) && Spoken(log[i], e))
      && forall i: nat :: i < c.ended && UserMessageOf(log[i], e) ==>
           Accounted(c.trail, i) || UnreadAt(c.trail, log, c.ended, e, i))
  }

  /** Above the watermark in memory is past the last snapshot in the log and not missed. */
  lemma AboveIsUnread(s: State, p: Process, e: ExchangeId, i: nat)
    requires Mirrors(s) && ProcessExact(p, |s.log|, Base(s)) && p.narrativeBuilt
    ensures UnreadAt(p.trail, s.log, |s.log|, e, i) <==>
            p.watermark <= i - Base(s) < |s.narrative| && UserMessageOf(s.narrative[i - Base(s)], e)
  {
    if Base(s) <= i < |s.log| { assert s.narrative[i - Base(s)] == s.log[i]; }
  }

  lemma TerminatedReports(s: State, t: TaskId, outcome: Status)
    requires Exact(s) && t in s.processes && RunStored(s, t)
    ensures
      var p := s.processes[t];
      Reports(s.log, Terminated(t, p.exchange, outcome, UnseenKind(s.narrative, p), p.trail, |s.log|))
  {
    var p := s.processes[t];
    assert ProcessExact(p, |s.log|, Base(s));
    if p.exchange.Some? {
      var e := p.exchange.value;
      UnseenByPosition(s.narrative, p);
      forall i: nat ensures UnreadAt(p.trail, s.log, |s.log|, e, i) <==>
        p.watermark <= i - Base(s) < |s.narrative| && UserMessageOf(s.narrative[i - Base(s)], e)
      {
        AboveIsUnread(s, p, e, i);
      }
      UnreadByPosition(s, p, e);
    }
  }

  lemma UnreadByPosition(s: State, p: Process, e: ExchangeId)
    requires Mirrors(s) && p.watermark <= |s.narrative|
    requires forall i: nat :: UnreadAt(p.trail, s.log, |s.log|, e, i) <==>
      p.watermark <= i - Base(s) < |s.narrative| && UserMessageOf(s.narrative[i - Base(s)], e)
    ensures (forall i: nat :: !UnreadAt(p.trail, s.log, |s.log|, e, i)) <==>
            forall k :: p.watermark <= k < |s.narrative| ==> !UserMessageOf(s.narrative[k], e)
    ensures (exists i: nat :: UnreadAt(p.trail, s.log, |s.log|, e, i) && Spoken(s.log[i], e)) <==>
            exists k :: p.watermark <= k < |s.narrative| && Spoken(s.narrative[k], e)
  {
    assert forall k :: 0 <= k < |s.narrative| ==> s.narrative[k] == s.log[k + Base(s)];
    if k :| p.watermark <= k < |s.narrative| && UserMessageOf(s.narrative[k], e) {
      assert UnreadAt(p.trail, s.log, |s.log|, e, k + Base(s));
    }
    if k :| p.watermark <= k < |s.narrative| && Spoken(s.narrative[k], e) {
      assert UnreadAt(p.trail, s.log, |s.log|, e, k + Base(s)) && Spoken(s.log[k + Base(s)], e);
    }
  }

  // ----- over whole runs

  ghost predicate Reported(s: State) {
    Recorded(s) && forall c :: c in s.inbox ==> Reports(s.log, c)
  }

  /** A report stays true while the log grows. */
  lemma ReportsStays(log: seq<Message>, more: seq<Message>, c: Terminated)
    requires Reports(log, c) && log <= more
    ensures Reports(more, c)
  {
    assert forall i :: 0 <= i < |log| ==> more[i] == log[i];
    if c.exchange.Some? {
      assert forall i: nat :: UnreadAt(c.trail, more, c.ended, c.exchange.value, i) <==>
          UnreadAt(c.trail, log, c.ended, c.exchange.value, i);
    }
  }

  lemma NewReport(s: State, l: Label, c: Terminated)
    requires Recorded(s) && Enabled(s, l) && c in Apply(s, l).inbox && c !in s.inbox
    ensures Reports(s.log, c)
  {
    NewCommand(s, l, c);
    assert RunStored(s, c.task);
    TerminatedReports(s, c.task, c.outcome);
  }

  lemma StepReported(s: State, l: Label)
    requires Reported(s) && Enabled(s, l)
    ensures Reported(Apply(s, l))
  {
    StepRecorded(s, l);
    LogIsKept(s, l);
    forall c | c in Apply(s, l).inbox ensures Reports(Apply(s, l).log, c) {
      if c !in s.inbox { NewReport(s, l, c); }
      ReportsStays(s.log, Apply(s, l).log, c);
    }
  }

  lemma {:induction false} RunReported(s: State, labels: seq<Label>)
    requires Reported(s) && Valid(s, labels)
    ensures Reported(End(s, labels))
    decreases |labels|
  {
    if labels != [] {
      StepReported(s, labels[0]);
      RunReported(Apply(s, labels[0]), labels[1..]);
    }
  }

  /**
   In every run, a waiting termination says: nothing, exactly when no user message of its exchange
   was unread; own words, exactly when one of those was; material only, exactly when some was unread and
   all were material. And every other user message of the exchange up to its end is accounted for.
   */
  lemma UnseenIsExact(s: State, labels: seq<Label>, c: Terminated)
    requires Reported(s) && Valid(s, labels) && c in End(s, labels).inbox && c.exchange.Some?
    ensures
      var log, e := End(s, labels).log, c.exchange.value;
      && (c.unseen == Nothing <==> forall i: nat :: !UnreadAt(c.trail, log, c.ended, e, i))
      && (c.unseen == OwnWords <==> exists i: nat :: UnreadAt(c.trail, log, c.ended, e, i) && Spoken(log[i], e))
      && (c.unseen == MaterialOnly <==>
            && (exists i: nat :: UnreadAt(c.trail, log, c.ended, e, i))
            && forall i: nat :: UnreadAt(c.trail, log, c.ended, e, i) ==> log[i].kind == Material)
      && forall i: nat :: i < c.ended <= |log| && UserMessageOf(log[i], e) ==>
           Accounted(c.trail, i) || UnreadAt(c.trail, log, c.ended, e, i)
  {
    RunReported(s, labels);
    assert Reports(End(s, labels).log, c);
  }
}
