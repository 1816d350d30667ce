/**
 In which order the outbox sends (agent/runner.py, `_deliver_notice` and `_flush_deliveries`):
 nothing is sent before what stands ahead of it, so results wait their turn, and the question of
 an exchange, pushed to the front, goes out before everything that was still waiting.
 */
module OutboxOrder {
  import opened Domain
  import opened SubscriberQueue
  import opened Outbox

  ghost predicate Ahead(outbox: seq<Delivery>, a: Delivery, b: Delivery) {
    exists i, j :: 0 <= i < j < |outbox| && outbox[i] == a && outbox[j] == b
  }

  /** `a` has been sent, or waits ahead of `b`, which has not been sent either. */
  ghost predicate Goes(s: State, a: Delivery, b: Delivery) {
    a.id in s.sent || (b.id !in s.sent && Ahead(s.outbox, a, b))
  }

  lemma PushedAhead(outbox: seq<Delivery>, d: Delivery, a: Delivery, b: Delivery)
    requires Ahead(outbox, a, b)
    ensures Ahead(outbox + [d], a, b) && Ahead([d] + outbox, a, b)
  {
    var i, j :| 0 <= i < j < |outbox| && outbox[i] == a && outbox[j] == b;
    assert (outbox + [d])[i] == a && (outbox + [d])[j] == b;
    assert ([d] + outbox)[i + 1] == a && ([d] + outbox)[j + 1] == b;
  }

  lemma WithoutOneAhead(outbox: seq<Delivery>, k: nat, a: Delivery, b: Delivery)
    requires Ahead(outbox, a, b) && k < |outbox| && outbox[k] != a && outbox[k] != b
    ensures Ahead(outbox[..k] + outbox[k + 1..], a, b)
  {
    var i, j :| 0 <= i < j < |outbox| && outbox[i] == a && outbox[j] == b;
    var rest := outbox[..k] + outbox[k + 1..];
    var i', j' := if i < k then i else i - 1, if j < k then j else j - 1;
    assert 0 <= i' < j' < |rest| && rest[i'] == a && rest[j'] == b;
  }

  lemma FlushShape(s: State, to: SubId)
    requires Enabled(s, FlushHead(Some(to)))
    ensures
      var v := Apply(s, FlushHead(Some(to)));
      && (v.outbox == s.outbox || v.outbox == s.outbox[1..])
      && v.sent.Keys == s.sent.Keys + {s.outbox[0].id}
  {
  }

  /** An accepted head is `a` itself, or neither of the two. */
  lemma FlushGoes(s: State, v: State, a: Delivery, b: Delivery)
    requires OutboxSound(s) && s.outbox != [] && Goes(s, a, b)
    requires v.outbox == s.outbox || v.outbox == s.outbox[1..]
    requires v.sent.Keys == s.sent.Keys + {s.outbox[0].id}
    ensures Goes(v, a, b)
  {
    if a.id !in v.sent { HeadLeaves(s.outbox, a, b); }
  }

  lemma HeadLeaves(outbox: seq<Delivery>, a: Delivery, b: Delivery)
    requires Ahead(outbox, a, b) && outbox[0].id != a.id
    requires forall j, k :: 0 <= j < k < |outbox| ==> outbox[j].id != outbox[k].id
    ensures outbox[0].id != b.id && Ahead(outbox[1..], a, b)
  {
    var i, j :| 0 <= i < j < |outbox| && outbox[i] == a && outbox[j] == b;
    var rest := outbox[1..];
    assert rest[i - 1] == a && rest[j - 1] == b;
  }

  lemma ResumeGoes(s: State, a: Delivery, b: Delivery)
    requires Inv(s) && Enabled(s, FlushResumes) && Goes(s, a, b)
    ensures Goes(Apply(s, FlushResumes), a, b)
  {
    if a.id !in s.sent {
      var k :| 0 <= k < |s.outbox| && s.outbox[k] == s.flush.d;
      RemovedAt(s.outbox, s.flush.d, k);
      WithoutOneAhead(s.outbox, k, a, b);
    }
  }

  lemma StepGoes(s: State, l: Label, a: Delivery, b: Delivery)
    requires Inv(s) && Enabled(s, l) && Goes(s, a, b)
    ensures Goes(Apply(s, l), a, b)
  {
    if a.id !in s.sent {
      match l
      case PushBack(d) => PushedAhead(s.outbox, d, a, b);
      case PushFront(d) => PushedAhead(s.outbox, d, a, b);
      case FlushHead(to) =>
        if to.Some? {
          FlushShape(s, to.value);
          FlushGoes(s, Apply(s, l), a, b);
        }
      case FlushResumes => ResumeGoes(s, a, b);
      case _ =>
    }
  }

  lemma {:induction false} RunGoes(s: State, labels: seq<Label>, a: Delivery, b: Delivery)
    requires Inv(s) && Valid(s, labels) && Goes(s, a, b)
    ensures Goes(End(s, labels), a, b)
    decreases |labels|
  {
    if labels != [] {
      StepInv(s, labels[0]);
      StepGoes(s, labels[0], a, b);
      RunGoes(Apply(s, labels[0]), labels[1..], a, b);
    }
  }

  /** Over every run: what is pushed to the back is sent only after everything it found waiting. */
  lemma ResultWaitsItsTurn(s: State, d: Delivery, labels: seq<Label>, a: Delivery)
    requires Inv(s) && Enabled(s, PushBack(d)) && a in s.outbox && Valid(Apply(s, PushBack(d)), labels)
    ensures d.id in End(Apply(s, PushBack(d)), labels).sent ==> a.id in End(Apply(s, PushBack(d)), labels).sent
  {
    var v := Apply(s, PushBack(d));
    var i :| 0 <= i < |s.outbox| && s.outbox[i] == a;
    assert v.outbox[i] == a && v.outbox[|s.outbox|] == d;
    assert Ahead(v.outbox, a, d);
    StepInv(s, PushBack(d));
    RunGoes(v, labels, a, d);
  }

  /** And what is pushed to the front is sent before everything it found waiting and unsent. */
  lemma QuestionJumpsQueue(s: State, d: Delivery, labels: seq<Label>, a: Delivery)
    requires Inv(s) && Enabled(s, PushFront(d)) && Valid(Apply(s, PushFront(d)), labels)
    requires a in s.outbox && a.id !in s.sent
    ensures a.id in End(Apply(s, PushFront(d)), labels).sent ==> d.id in End(Apply(s, PushFront(d)), labels).sent
  {
    var v := Apply(s, PushFront(d));
    var i :| 0 <= i < |s.outbox| && s.outbox[i] == a;
    assert v.outbox[0] == d && v.outbox[i + 1] == a;
    assert Ahead(v.outbox, d, a);
    StepInv(s, PushFront(d));
    RunGoes(v, labels, d, a);
  }

  // ----- duplicates

  /** A notice still in the outbox has not been accepted yet. */
  ghost predicate NoticesUnsent(s: State) {
    forall k :: 0 <= k < |s.outbox| && s.outbox[k].task.None? ==> s.outbox[k].id !in s.sent
  }

  lemma StepNotices(s: State, l: Label)
    requires Inv(s) && NoticesUnsent(s) && Enabled(s, l)
    ensures NoticesUnsent(Apply(s, l))
  {
    if l == FlushResumes {
      var k :| 0 <= k < |s.outbox| && s.outbox[k] == s.flush.d;
      RemovedAt(s.outbox, s.flush.d, k);
    }
  }

  lemma {:induction false} RunNotices(s: State, labels: seq<Label>)
    requires Inv(s) && NoticesUnsent(s) && Valid(s, labels)
    ensures NoticesUnsent(End(s, labels))
    decreases |labels|
  {
    if labels != [] {
      StepInv(s, labels[0]);
      StepNotices(s, labels[0]);
      RunNotices(Apply(s, labels[0]), labels[1..]);
    }
  }

  /** In every run a notice is accepted once: only the result of a task is ever sent again. */
  lemma NoticeSentOnce(s: State, labels: seq<Label>, to: SubId)
    requires Initial(s) && Valid(s, labels) && Enabled(End(s, labels), FlushHead(Some(to)))
    ensures End(s, labels).outbox[0].id in End(s, labels).sent ==> End(s, labels).outbox[0].task.Some?
  {
    RunNotices(s, labels);
  }
}
