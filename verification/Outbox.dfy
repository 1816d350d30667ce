/**
 The delivery outbox (agent/runner.py, `_deliver_notice` and `_flush_deliveries`). A flush
 broadcasts the head delivery, suspends while the task is stamped delivered, and then removes
 that very delivery, wherever the pushes that happened meanwhile have moved it.
 */
module Outbox {
  import opened Domain
  import opened SubscriberQueue

  type SubId = nat

  /** Events of one finished task, as their "critical" flags; ids give object identity. */
  datatype Delivery = Delivery(id: nat, task: Option<TaskId>, events: seq<bool>)

  /** Every delivery ends with a terminal event, and terminals are critical. */
  predicate WellFormed(d: Delivery) {
    d.events != [] && d.events[|d.events| - 1]
  }

  datatype Flush = Quiet | Sending(d: Delivery) | Marked(d: Delivery)

  /** Where and under which number a delivery's terminal event was accepted. */
  datatype Receipt = Receipt(to: SubId, number: nat)

  /**
   `gone` are detached subscribers; `enqueued`, `sent` and `stamped` are history: all deliveries
   ever queued, the receipt of each broadcast one, and which delivery stamped a task.
   */
  datatype State = State(cap: nat, last: nat, subs: map<SubId, Sub>, gone: set<SubId>, outbox: seq<Delivery>,
                         flush: Flush, enqueued: set<nat>, sent: map<nat, Receipt>, stamped: map<TaskId, nat>)

  datatype Label =
    | Subscribe(q: SubId)
    | Unsubscribe(q: SubId)
    | Take(q: SubId)
    | Stream(critical: bool)
    | PushBack(d: Delivery)
    | PushFront(d: Delivery)
    | FlushHead(to: Option<SubId>)
    | Stamp
    | SkipStamp
    | FlushFails
    | FlushResumes

  // ----- broadcasting

  function OfferAll(subs: map<SubId, Sub>, cap: nat, event: Item): map<SubId, Sub>
    requires event.Event?
  {
    map q | q in subs :: Offered(subs[q], cap, event)
  }

  function BroadcastAll(subs: map<SubId, Sub>, cap: nat, last: nat, events: seq<bool>): map<SubId, Sub>
    decreases |events|
  {
    if events == [] then subs
    else BroadcastAll(OfferAll(subs, cap, Event(last + 1, events[0])), cap, last + 1, events[1..])
  }

  /** Subscribers that take the terminal event, after the events before it were broadcast. */
  function Takers(s: State, d: Delivery): set<SubId>
    requires WellFormed(d)
  {
    var before := BroadcastAll(s.subs, s.cap, s.last, d.events[..|d.events| - 1]);
    set q | q in before && Accepts(before[q].items, s.cap, Event(s.last + |d.events|, true))
  }

  // ----- transitions

  predicate Enabled(s: State, l: Label) {
    match l
    case Subscribe(q) => q !in s.subs && q !in s.gone
    case Unsubscribe(q) => q in s.subs
    case Take(q) => q in s.subs
    case Stream(_) => true
    case PushBack(d) => d.id !in s.enqueued && WellFormed(d)
    case PushFront(d) => d.id !in s.enqueued && WellFormed(d)
    case FlushHead(to) =>
      s.flush.Quiet? && s.outbox != [] && s.subs != map[] && WellFormed(s.outbox[0]) &&
      (if to.Some? then to.value in Takers(s, s.outbox[0]) else Takers(s, s.outbox[0]) == {})
    case Stamp => s.flush.Sending? && s.flush.d.task.Some?
    case SkipStamp => s.flush.Sending?
    case FlushFails => s.flush.Sending?
    case FlushResumes => s.flush.Marked?
  }

  /** Remove by identity: the first entry that is this delivery. */
  function Removed(outbox: seq<Delivery>, d: Delivery): seq<Delivery> {
    if outbox == [] then []
    else if outbox[0] == d then outbox[1..]
    else [outbox[0]] + Removed(outbox[1..], d)
  }

  /** The head delivery's events have gone out to every subscriber. */
  function Broadcasted(s: State): State
    requires s.outbox != []
  {
    s.(subs := BroadcastAll(s.subs, s.cap, s.last, s.outbox[0].events), last := s.last + |s.outbox[0].events|)
  }

  function Acknowledged(s: State, to: SubId): State
    requires s.outbox != []
  {
    var b := Broadcasted(s);
    b.(sent := b.sent[s.outbox[0].id := Receipt(to, b.last)])
  }

  /** A sent head without a task leaves at once; one with a task waits for its stamp. */
  function HeadDone(s: State): State
    requires s.outbox != []
  {
    if s.outbox[0].task.None? then s.(outbox := s.outbox[1..]) else s.(flush := Sending(s.outbox[0]))
  }

  function Flushing(s: State, to: Option<SubId>): State
    requires Enabled(s, FlushHead(to))
  {
    if to.None? then Broadcasted(s) else HeadDone(Acknowledged(s, to.value))
  }

  function Apply(s: State, l: Label): State
    requires Enabled(s, l)
  {
    match l
    case Subscribe(q) => s.(subs := s.subs[q := FRESH_SUB])
    case Unsubscribe(q) => s.(subs := s.subs - {q}, gone := s.gone + {q})
    case Take(q) => s.(subs := s.subs[q := Read(s.subs[q])])
    case Stream(critical) => s.(subs := BroadcastAll(s.subs, s.cap, s.last, [critical]), last := s.last + 1)
    case PushBack(d) => s.(outbox := s.outbox + [d], enqueued := s.enqueued + {d.id})
    case PushFront(d) => s.(outbox := [d] + s.outbox, enqueued := s.enqueued + {d.id})
    case FlushHead(to) => Flushing(s, to)
    case Stamp => s.(stamped := s.stamped[s.flush.d.task.value := s.flush.d.id], flush := Marked(s.flush.d))
    case SkipStamp => s.(flush := Marked(s.flush.d))
    case FlushFails => s.(flush := Quiet)
    case FlushResumes => s.(outbox := Removed(s.outbox, s.flush.d), flush := Quiet)
  }

  predicate Valid(s: State, labels: seq<Label>)
    decreases |labels|
  {
    labels == [] || (Enabled(s, labels[0]) && Valid(Apply(s, labels[0]), labels[1..]))
  }

  function End(s: State, labels: seq<Label>): State
    requires Valid(s, labels)
    decreases |labels|
  {
    if labels == [] then s else End(Apply(s, labels[0]), labels[1..])
  }

  predicate Initial(s: State) {
    s.last == 0 && s.subs == map[] && s.gone == {} && s.outbox == [] && s.flush == Quiet && s.enqueued == {} &&
    s.sent == map[] && s.stamped == map[]
  }

  // ----- the outbox as an object

  class PendingDeliveries {
    var pending: seq<Delivery>

    constructor ()
      ensures pending == []
    {
      pending := [];
    }

    method Append(d: Delivery)
      modifies this
      ensures pending == old(pending) + [d]
    {
      pending := pending + [d];
    }

    method AppendLeft(d: Delivery)
      modifies this
      ensures pending == [d] + old(pending)
    {
      pending := [d] + pending;
    }

    /** Pop the head if it is this delivery, else search for it; absent means nothing to do. */
    method Remove(d: Delivery)
      modifies this
      ensures pending == Removed(old(pending), d)
    {
      if pending != [] && pending[0] == d {
        pending := pending[1..];
        return;
      }
      var i := 0;
      while i < |pending| && pending[i] != d
        invariant 0 <= i <= |pending| && pending == old(pending)
        invariant Removed(pending, d) == pending[..i] + Removed(pending[i..], d)
      {
        assert pending[i..][1..] == pending[i + 1..];
        i := i + 1;
      }
      if i < |pending| {
        assert pending[i..][1..] == pending[i + 1..];
        pending := pending[..i] + pending[i + 1..];
      } else {
        assert pending[..i] == pending;
      }
    }
  }

  // ----- what broadcasting keeps

  ghost predicate AllSound(subs: map<SubId, Sub>, cap: nat, last: nat) {
    forall q :: q in subs ==> Sound(subs[q], cap, last)
  }

  lemma OfferAllSound(subs: map<SubId, Sub>, cap: nat, last: nat, critical: bool)
    requires AllSound(subs, cap, last)
    ensures AllSound(OfferAll(subs, cap, Event(last + 1, critical)), cap, last + 1)
  {
    var subs' := OfferAll(subs, cap, Event(last + 1, critical));
    forall q | q in subs' ensures Sound(subs'[q], cap, last + 1) {
      OfferedSound(subs[q], cap, last, Event(last + 1, critical));
    }
  }

  lemma {:induction false} BroadcastSound(subs: map<SubId, Sub>, cap: nat, last: nat, events: seq<bool>)
    requires AllSound(subs, cap, last)
    ensures AllSound(BroadcastAll(subs, cap, last, events), cap, last + |events|)
    decreases |events|
  {
    if events != [] {
      OfferAllSound(subs, cap, last, events[0]);
      BroadcastSound(OfferAll(subs, cap, Event(last + 1, events[0])), cap, last + 1, events[1..]);
    }
  }

  /** No queue forgets what it owes. */
  lemma {:induction false} BroadcastOwes(subs: map<SubId, Sub>, cap: nat, last: nat, events: seq<bool>)
    ensures BroadcastAll(subs, cap, last, events).Keys == subs.Keys
    ensures forall q :: q in subs ==> subs[q].owed <= BroadcastAll(subs, cap, last, events)[q].owed
    decreases |events|
  {
    if events != [] {
      var subs' := OfferAll(subs, cap, Event(last + 1, events[0]));
      assert subs'.Keys == subs.Keys;
      BroadcastOwes(subs', cap, last + 1, events[1..]);
    }
  }

  lemma {:induction false} BroadcastLast(subs: map<SubId, Sub>, cap: nat, last: nat, events: seq<bool>)
    requires events != []
    ensures
      var n := |events| - 1;
      BroadcastAll(subs, cap, last, events) ==
        OfferAll(BroadcastAll(subs, cap, last, events[..n]), cap, Event(last + |events|, events[n]))
    decreases |events|
  {
    var n := |events| - 1;
    if n > 0 {
      assert events[..n][1..] == events[1..][..n - 1];
      BroadcastLast(OfferAll(subs, cap, Event(last + 1, events[0])), cap, last + 1, events[1..]);
    } else {
      assert events[1..] == [] && events[..0] == [];
    }
  }

  /** A taker of the terminal event owes it from then on. */
  lemma TakerOwes(s: State, q: SubId)
    requires s.outbox != [] && WellFormed(s.outbox[0]) && q in Takers(s, s.outbox[0]) && AllSound(s.subs, s.cap, s.last)
    ensures
      var d := s.outbox[0];
      q in BroadcastAll(s.subs, s.cap, s.last, d.events) &&
      s.last + |d.events| in BroadcastAll(s.subs, s.cap, s.last, d.events)[q].owed
  {
    BroadcastLast(s.subs, s.cap, s.last, s.outbox[0].events);
  }

  // ----- the invariant

  /** The receipt's event is with its subscriber: read, still queued, or the subscriber left. */
  ghost predicate Safe(s: State, r: Receipt) {
    r.to in s.gone || (r.to in s.subs && r.number in s.subs[r.to].owed)
  }

  ghost predicate Queued(s: State, id: nat) {
    exists k :: 0 <= k < |s.outbox| && s.outbox[k].id == id
  }

  ghost predicate OutboxSound(s: State) {
    (forall k :: 0 <= k < |s.outbox| ==> s.outbox[k].id in s.enqueued && WellFormed(s.outbox[k])) &&
    (forall j, k :: 0 <= j < k < |s.outbox| ==> s.outbox[j].id != s.outbox[k].id) &&
    (!s.flush.Quiet? ==> s.flush.d in s.outbox && s.flush.d.id in s.sent)
  }

  ghost predicate Conserved(s: State) {
    (forall id :: id in s.enqueued ==> Queued(s, id) || id in s.sent) &&
    (forall id :: id in s.sent ==> id in s.enqueued && Safe(s, s.sent[id])) &&
    (forall t :: t in s.stamped ==> s.stamped[t] in s.sent)
  }

  ghost predicate Inv(s: State) {
    AllSound(s.subs, s.cap, s.last) && OutboxSound(s) && Conserved(s)
  }

  // ----- preservation

  /** Only the subscribers change, and every one keeps what it owes or leaves. */
  lemma SubsStep(s: State, s': State)
    requires Inv(s) && AllSound(s'.subs, s'.cap, s'.last) && s.gone <= s'.gone
    requires s'.outbox == s.outbox && s'.flush == s.flush && s'.enqueued == s.enqueued && s'.sent == s.sent &&
             s'.stamped == s.stamped
    requires forall q :: q in s.subs ==> q in s'.gone || (q in s'.subs && s.subs[q].owed <= s'.subs[q].owed)
    ensures Inv(s')
  {
    forall id | id in s'.enqueued ensures Queued(s', id) || id in s'.sent {
      if Queued(s, id) {
        var k :| 0 <= k < |s.outbox| && s.outbox[k].id == id;
        assert s'.outbox[k].id == id;
      }
    }
    assert forall id :: id in s'.sent ==> Safe(s, s.sent[id]);
  }

  /** Every queued delivery keeps a place when `d` joins at either end. */
  lemma PushPlaces(before: seq<Delivery>, d: Delivery, after: seq<Delivery>)
    requires after == before + [d] || after == [d] + before
    ensures d in after && forall x :: x in before ==> x in after
    ensures forall x :: x in after ==> x in before || x == d
    ensures (forall j, k :: 0 <= j < k < |before| ==> before[j].id != before[k].id) &&
            (forall x :: x in before ==> x.id != d.id) ==>
            forall j, k :: 0 <= j < k < |after| ==> after[j].id != after[k].id
  {
    if after == before + [d] {
      assert after[|before|] == d;
      assert forall k :: 0 <= k < |before| ==> after[k] == before[k];
    } else {
      assert after[0] == d;
      assert forall k :: 0 <= k < |before| ==> after[k + 1] == before[k];
    }
  }

  lemma PushStep(s: State, d: Delivery, outbox: seq<Delivery>)
    requires Inv(s) && d.id !in s.enqueued && WellFormed(d)
    requires outbox == s.outbox + [d] || outbox == [d] + s.outbox
    ensures Inv(s.(outbox := outbox, enqueued := s.enqueued + {d.id}))
  {
    var s' := s.(outbox := outbox, enqueued := s.enqueued + {d.id});
    PushPlaces(s.outbox, d, outbox);
    assert OutboxSound(s') by {
      forall k | 0 <= k < |outbox| ensures outbox[k].id in s'.enqueued && WellFormed(outbox[k]) {
        assert outbox[k] in outbox;
      }
    }
    forall id | id in s'.enqueued ensures Queued(s', id) || id in s'.sent {
      PushQueued(s, s', d, id);
    }
    assert forall id :: id in s.sent ==> Safe(s, s.sent[id]) ==> Safe(s', s.sent[id]);
  }

  lemma PushQueued(s: State, s': State, d: Delivery, id: nat)
    requires Conserved(s) && s'.sent == s.sent && (id in s.enqueued || id == d.id)
    requires d in s'.outbox && forall x :: x in s.outbox ==> x in s'.outbox
    ensures Queued(s', id) || id in s'.sent
  {
    var x := d;
    if id in s.enqueued && id != d.id && id !in s.sent {
      var k :| 0 <= k < |s.outbox| && s.outbox[k].id == id;
      x := s.outbox[k];
      assert x in s.outbox;
    }
    var j :| 0 <= j < |s'.outbox| && s'.outbox[j] == x;
    assert x.id == id ==> Queued(s', id);
  }

  lemma {:induction false} RemovedAt(outbox: seq<Delivery>, d: Delivery, k: nat)
    requires k < |outbox| && outbox[k] == d && forall j :: 0 <= j < k ==> outbox[j] != d
    ensures Removed(outbox, d) == outbox[..k] + outbox[k + 1..]
  {
    if k > 0 {
      RemovedAt(outbox[1..], d, k - 1);
      assert outbox[..k] == [outbox[0]] + outbox[1..][..k - 1];
      assert outbox[1..][k..] == outbox[k + 1..];
    }
  }

  /** Removing one accepted delivery from anywhere in the queue loses no other. */
  lemma RemoveStep(s: State, k: nat, flush: Flush)
    requires Inv(s) && k < |s.outbox| && s.outbox[k].id in s.sent && flush.Quiet?
    ensures Inv(s.(outbox := s.outbox[..k] + s.outbox[k + 1..], flush := flush))
  {
    var outbox := s.outbox[..k] + s.outbox[k + 1..];
    var s' := s.(outbox := outbox, flush := flush);
    forall j | 0 <= j < |outbox| ensures outbox[j] == s.outbox[if j < k then j else j + 1] { }
    forall id | id in s'.enqueued ensures Queued(s', id) || id in s'.sent {
      if Queued(s, id) && id != s.outbox[k].id {
        var j :| 0 <= j < |s.outbox| && s.outbox[j].id == id;
        assert outbox[if j < k then j else j - 1].id == id;
      }
    }
    assert forall id :: id in s.sent ==> Safe(s, s.sent[id]) ==> Safe(s', s.sent[id]);
  }

  /** The broadcast itself: every event reaches every queue, nothing else moves. */
  lemma BroadcastStep(s: State)
    requires Inv(s) && s.outbox != [] && WellFormed(s.outbox[0])
    ensures Inv(Broadcasted(s))
  {
    BroadcastSound(s.subs, s.cap, s.last, s.outbox[0].events);
    BroadcastOwes(s.subs, s.cap, s.last, s.outbox[0].events);
    SubsStep(s, Broadcasted(s));
  }

  lemma AcknowledgeStep(s: State, to: SubId)
    requires Inv(s) && s.outbox != [] && WellFormed(s.outbox[0]) && to in Takers(s, s.outbox[0])
    ensures Inv(Acknowledged(s, to))
  {
    BroadcastStep(s);
    TakerOwes(s, to);
    var b := Broadcasted(s);
    assert Safe(b, Receipt(to, b.last));
    SentStep(b, s.outbox[0].id, Receipt(to, b.last));
  }

  lemma HeadDoneStep(s: State)
    requires Inv(s) && s.flush.Quiet? && s.outbox != [] && s.outbox[0].id in s.sent
    ensures Inv(HeadDone(s))
  {
    RemoveStep(s, 0, Quiet);
    assert s.outbox[..0] + s.outbox[1..] == s.outbox[1..];
    FlagStep(s, Sending(s.outbox[0]));
  }

  lemma FlushStep(s: State, to: Option<SubId>)
    requires Inv(s) && Enabled(s, FlushHead(to))
    ensures Inv(Flushing(s, to))
  {
    if to.None? {
      BroadcastStep(s);
    } else {
      AcknowledgeStep(s, to.value);
      HeadDoneStep(Acknowledged(s, to.value));
    }
  }

  lemma SentStep(s: State, id: nat, r: Receipt)
    requires Inv(s) && id in s.enqueued && Safe(s, r)
    ensures Inv(s.(sent := s.sent[id := r]))
  {
    var s' := s.(sent := s.sent[id := r]);
    forall i | i in s'.enqueued ensures Queued(s', i) || i in s'.sent {
      if Queued(s, i) {
        var k :| 0 <= k < |s.outbox| && s.outbox[k].id == i;
        assert s'.outbox[k].id == i;
      }
    }
    forall i | i in s'.sent ensures i in s'.enqueued && Safe(s', s'.sent[i]) {
      if i != id { assert Safe(s, s.sent[i]); }
    }
  }

  /** The flush moves on with a delivery that is queued and already sent. */
  lemma FlagStep(s: State, flush: Flush)
    requires Inv(s) && (flush.Quiet? || (flush.d in s.outbox && flush.d.id in s.sent))
    ensures Inv(s.(flush := flush))
  {
    var s' := s.(flush := flush);
    forall i | i in s'.enqueued ensures Queued(s', i) || i in s'.sent {
      if Queued(s, i) {
        var k :| 0 <= k < |s.outbox| && s.outbox[k].id == i;
        assert s'.outbox[k].id == i;
      }
    }
    assert forall i :: i in s.sent ==> Safe(s, s.sent[i]) ==> Safe(s', s.sent[i]);
  }

  lemma StampStep(s: State, t: TaskId)
    requires Inv(s) && s.flush.Sending?
    ensures Inv(s.(stamped := s.stamped[t := s.flush.d.id]))
  {
    var s' := s.(stamped := s.stamped[t := s.flush.d.id]);
    forall i | i in s'.enqueued ensures Queued(s', i) || i in s'.sent {
      if Queued(s, i) {
        var k :| 0 <= k < |s.outbox| && s.outbox[k].id == i;
        assert s'.outbox[k].id == i;
      }
    }
    assert forall i :: i in s.sent ==> Safe(s, s.sent[i]) ==> Safe(s', s.sent[i]);
  }

  lemma ResumeStep(s: State)
    requires Inv(s) && Enabled(s, FlushResumes)
    ensures Inv(Apply(s, FlushResumes))
  {
    var d := s.flush.d;
    var k :| 0 <= k < |s.outbox| && s.outbox[k] == d;
    RemovedAt(s.outbox, d, k);
    RemoveStep(s, k, Quiet);
  }

  lemma StepInv(s: State, l: Label)
    requires Inv(s) && Enabled(s, l)
    ensures Inv(Apply(s, l))
  {
    match l
    case Subscribe(q) => SubsStep(s, Apply(s, l));
    case Unsubscribe(q) => SubsStep(s, Apply(s, l));
    case Take(q) =>
      ReadSound(s.subs[q], s.cap, s.last);
      SubsStep(s, Apply(s, l));
    case Stream(critical) =>
      BroadcastSound(s.subs, s.cap, s.last, [critical]);
      BroadcastOwes(s.subs, s.cap, s.last, [critical]);
      SubsStep(s, Apply(s, l));
    case PushBack(d) => PushStep(s, d, s.outbox + [d]);
    case PushFront(d) => PushStep(s, d, [d] + s.outbox);
    case FlushHead(to) => FlushStep(s, to);
    case Stamp =>
      StampStep(s, s.flush.d.task.value);
      FlagStep(s.(stamped := s.stamped[s.flush.d.task.value := s.flush.d.id]), Marked(s.flush.d));
    case SkipStamp => FlagStep(s, Marked(s.flush.d));
    case FlushFails => FlagStep(s, Quiet);
    case FlushResumes => ResumeStep(s);
  }

  lemma {:induction false} RunInv(s: State, labels: seq<Label>)
    requires Inv(s) && Valid(s, labels)
    ensures Inv(End(s, labels))
    decreases |labels|
  {
    if labels != [] {
      StepInv(s, labels[0]);
      RunInv(Apply(s, labels[0]), labels[1..]);
    }
  }

  /** The subscriber has the event: it was read, it is queued, or the subscriber has left. */
  ghost predicate Received(s: State, r: Receipt) {
    r.to in s.gone || (r.to in s.subs && Event(r.number, true) in History(s.subs[r.to]))
  }

  /**
   Nothing is lost between a finished task and its user. In every interleaving of pushes to
   either end, broadcasts, reads and suspended flushes, each delivery ever queued is still in
   the outbox or its terminal event was received by a subscriber; and a task is stamped
   delivered only after that.
   */
  lemma DeliveriesConserved(s: State, labels: seq<Label>)
    requires Initial(s) && Valid(s, labels)
    ensures
      var s' := End(s, labels);
      (forall id :: id in s'.enqueued ==> Queued(s', id) || (id in s'.sent && Received(s', s'.sent[id]))) &&
      (forall t :: t in s'.stamped ==> s'.stamped[t] in s'.sent && Received(s', s'.sent[s'.stamped[t]]))
  {
    RunInv(s, labels);
    var s' := End(s, labels);
    forall id | id in s'.sent ensures Received(s', s'.sent[id]) {
      assert Safe(s', s'.sent[id]);
      var r := s'.sent[id];
      if r.to !in s'.gone { assert Sound(s'.subs[r.to], s'.cap, s'.last); }
    }
  }

  /**
   A resuming flush removes the delivery it sent and no other, wherever it is by now, and
   leaves the rest in order.
   */
  lemma ResumeRemovesOnlySent(s: State, labels: seq<Label>) returns (k: nat)
    requires Initial(s) && Valid(s, labels) && End(s, labels).flush.Marked?
    ensures
      var s' := End(s, labels);
      k < |s'.outbox| && s'.outbox[k] == s'.flush.d && s'.flush.d.id in s'.sent &&
      Apply(s', FlushResumes).outbox == s'.outbox[..k] + s'.outbox[k + 1..]
  {
    RunInv(s, labels);
    var s' := End(s, labels);
    k :| 0 <= k < |s'.outbox| && s'.outbox[k] == s'.flush.d;
    RemovedAt(s'.outbox, s'.flush.d, k);
  }
}
