/**
 One subscriber's bounded event queue (agent/runner.py, `_broadcast` and below): a lagging
 reader loses stream chatter, never an event the outbox relies on.
 */
module SubscriberQueue {
  import opened Domain

  /** A broadcast event with its sequence number, or the end-of-stream marker. */
  datatype Item = Closed | Event(number: nat, critical: bool)

  predicate Droppable(item: Item) {
    item.Event? && !item.critical
  }

  /** The oldest entry that may be dropped. */
  function Victim(items: seq<Item>): (v: Option<nat>)
    ensures v.Some? ==> v.value < |items| && Droppable(items[v.value]) &&
                        forall k :: 0 <= k < v.value ==> !Droppable(items[k])
    ensures v.None? ==> forall k :: 0 <= k < |items| ==> !Droppable(items[k])
  {
    if items == [] then None
    else if Droppable(items[0]) then Some(0)
    else
      var rest := Victim(items[1..]);
      if rest.Some? then Some(rest.value + 1) else None
  }

  function Without(items: seq<Item>, i: nat): seq<Item>
    requires i < |items|
  {
    items[..i] + items[i + 1..]
  }

  /** Whether the queue takes the event. */
  predicate Accepts(items: seq<Item>, cap: nat, event: Item) {
    |items| < cap || (event.Event? && event.critical && Victim(items).Some?)
  }

  function Offer(items: seq<Item>, cap: nat, event: Item): seq<Item> {
    if |items| < cap then items + [event]
    else if Accepts(items, cap, event) then Without(items, Victim(items).value) + [event]
    else items
  }

  class Queue {
    var items: seq<Item>
    const maxsize: nat

    constructor (size: nat)
      ensures items == [] && maxsize == size
    {
      items, maxsize := [], size;
    }

    method PutNowait(item: Item) returns (ok: bool)
      modifies this
      ensures ok == (old(|items|) < maxsize)
      ensures items == if ok then old(items) + [item] else old(items)
    {
      ok := |items| < maxsize;
      if ok { items := items + [item]; }
    }

    method GetNowait() returns (item: Option<Item>)
      modifies this
      ensures if old(items) == [] then item == None && items == []
              else item == Some(old(items)[0]) && items == old(items)[1..]
    {
      if items == [] {
        item := None;
      } else {
        item := Some(items[0]);
        items := items[1..];
      }
    }

    method Drain() returns (drained: seq<Item>)
      modifies this
      ensures drained == old(items) && items == []
    {
      drained := [];
      var next := GetNowait();
      while next.Some?
        invariant old(items) == drained + (if next.Some? then [next.value] else []) + items
        invariant next.None? ==> items == []
        decreases |items| + (if next.Some? then 1 else 0)
      {
        drained := drained + [next.value];
        next := GetNowait();
      }
    }

    method Refill(drained: seq<Item>)
      requires items == [] && |drained| <= maxsize
      modifies this
      ensures items == drained
    {
      var i := 0;
      while i < |drained|
        invariant 0 <= i <= |drained| && items == drained[..i]
      {
        var _ := PutNowait(drained[i]);
        i := i + 1;
      }
    }

    /** Make room for a critical event by dropping the oldest droppable one, order preserved. */
    method EvictAndPut(event: Item) returns (ok: bool)
      requires |items| == maxsize
      modifies this
      ensures ok == Victim(old(items)).Some?
      ensures items == if ok then Without(old(items), Victim(old(items)).value) + [event] else old(items)
    {
      var drained := Drain();
      var victim := 0;
      while victim < |drained| && !Droppable(drained[victim])
        invariant 0 <= victim <= |drained|
        invariant forall k :: 0 <= k < victim ==> !Droppable(drained[k])
      {
        victim := victim + 1;
      }
      ok := victim < |drained|;
      assert Victim(drained) == if ok then Some(victim) else None;
      if ok {
        drained := drained[..victim] + drained[victim + 1..] + [event];
      }
      Refill(drained);
    }

    /** One subscriber's share of a broadcast; `dropped` counts exactly one lost event. */
    method Deliver(event: Item) returns (accepted: bool, dropped: nat)
      requires |items| <= maxsize && event.Event?
      modifies this
      ensures items == Offer(old(items), maxsize, event) && |items| <= maxsize
      ensures accepted == Accepts(old(items), maxsize, event)
      ensures dropped == (if old(|items|) < maxsize then 0 else 1)
    {
      accepted := PutNowait(event);
      dropped := 0;
      if !accepted {
        if event.critical { accepted := EvictAndPut(event); }
        dropped := 1;
      }
    }

    /** Stand-down: the marker always lands, at the price of the oldest entry when full. */
    method CloseStream()
      requires 0 < maxsize && |items| <= maxsize
      modifies this
      ensures items == (if old(|items|) < maxsize then old(items) else old(items)[1..]) + [Closed]
    {
      var placed := PutNowait(Closed);
      while !placed
        invariant placed ==> items == (if old(|items|) < maxsize then old(items) else old(items)[1..]) + [Closed]
        invariant !placed ==> items == old(items) && |items| == maxsize
        decreases !placed
      {
        var _ := GetNowait();
        placed := PutNowait(Closed);
      }
    }
  }

  // ----- guarantees over every run of broadcasts and reads

  /** A queue with its history: what was read, how often it was offered, what it owes. */
  datatype Sub = Sub(items: seq<Item>, read: seq<Item>, offered: nat, dropped: nat, owed: set<nat>)

  const FRESH_SUB := Sub([], [], 0, 0, {})

  function Offered(sub: Sub, cap: nat, event: Item): Sub
    requires event.Event?
  {
    sub.(items := Offer(sub.items, cap, event),
         offered := sub.offered + 1,
         dropped := sub.dropped + (if |sub.items| < cap then 0 else 1),
         owed := if event.critical && Accepts(sub.items, cap, event) then sub.owed + {event.number} else sub.owed)
  }

  function Read(sub: Sub): Sub {
    if sub.items == [] then sub else sub.(items := sub.items[1..], read := sub.read + [sub.items[0]])
  }

  function History(sub: Sub): seq<Item> {
    sub.read + sub.items
  }

  /** Sequence numbers strictly increase and none exceeds `last`. */
  ghost predicate Ascending(items: seq<Item>, last: nat) {
    (forall k :: 0 <= k < |items| ==> items[k].Event? && items[k].number <= last) &&
    forall j, k :: 0 <= j < k < |items| ==> items[j].number < items[k].number
  }

  ghost predicate Sound(sub: Sub, cap: nat, last: nat) {
    |sub.items| <= cap && Ascending(History(sub), last) &&
    sub.offered == |sub.read| + |sub.items| + sub.dropped &&
    forall n :: n in sub.owed ==> Event(n, true) in History(sub)
  }

  /** Evicting one entry and appending a newer event keeps the numbers ascending. */
  lemma SwapAscends(h: seq<Item>, at: nat, event: Item, last: nat)
    requires Ascending(h, last) && at < |h| && event.Event? && last < event.number
    ensures Ascending(h[..at] + h[at + 1..] + [event], event.number)
  {
    var h' := h[..at] + h[at + 1..] + [event];
    forall k | 0 <= k < |h'| - 1 ensures h'[k] == h[if k < at then k else k + 1] { }
  }

  lemma SwapKeeps(h: seq<Item>, at: nat, event: Item, item: Item)
    requires at < |h| && item in h && item != h[at]
    ensures item in h[..at] + h[at + 1..] + [event]
  {
    var k :| 0 <= k < |h| && h[k] == item;
    assert (h[..at] + h[at + 1..] + [event])[if k < at then k else k - 1] == item;
  }

  lemma OfferedSound(sub: Sub, cap: nat, last: nat, event: Item)
    requires Sound(sub, cap, last) && event.Event? && last < event.number
    ensures Sound(Offered(sub, cap, event), cap, event.number)
  {
    var sub' := Offered(sub, cap, event);
    var h := History(sub);
    if |sub.items| < cap {
      assert History(sub') == h + [event];
    } else if Accepts(sub.items, cap, event) {
      EvictSound(sub, cap, last, event);
    }
  }

  lemma EvictSound(sub: Sub, cap: nat, last: nat, event: Item)
    requires Sound(sub, cap, last) && event.Event? && event.critical && last < event.number
    requires |sub.items| == cap && Victim(sub.items).Some?
    ensures Sound(Offered(sub, cap, event), cap, event.number)
  {
    var sub' := Offered(sub, cap, event);
    var h := History(sub);
    var at := |sub.read| + Victim(sub.items).value;
    assert h[at] == sub.items[Victim(sub.items).value];
    assert History(sub') == h[..at] + h[at + 1..] + [event];
    SwapAscends(h, at, event, last);
    forall n | n in sub'.owed ensures Event(n, true) in History(sub') {
      if n in sub.owed { SwapKeeps(h, at, event, Event(n, true)); }
    }
  }

  lemma ReadSound(sub: Sub, cap: nat, last: nat)
    requires Sound(sub, cap, last)
    ensures Sound(Read(sub), cap, last)
  {
    assert History(Read(sub)) == History(sub);
  }

  datatype Op = Broadcast(critical: bool) | ReadOne

  /** A run of one queue; broadcasts are numbered consecutively after `last`. */
  function Run(sub: Sub, cap: nat, last: nat, ops: seq<Op>): Sub
    decreases |ops|
  {
    if ops == [] then sub
    else match ops[0]
      case Broadcast(critical) => Run(Offered(sub, cap, Event(last + 1, critical)), cap, last + 1, ops[1..])
      case ReadOne => Run(Read(sub), cap, last, ops[1..])
  }

  function Broadcasts(ops: seq<Op>): nat {
    if ops == [] then 0 else (if ops[0].Broadcast? then 1 else 0) + Broadcasts(ops[1..])
  }

  /**
   Over any run of broadcasts and reads: capacity is never exceeded, sequence numbers stay
   strictly increasing from first read to last queued, every accepted critical event is read
   or still queued, and broadcasts = read + queued + dropped.
   */
  lemma {:induction false} QueueGuarantees(sub: Sub, cap: nat, last: nat, ops: seq<Op>)
    requires Sound(sub, cap, last)
    ensures Sound(Run(sub, cap, last, ops), cap, last + Broadcasts(ops))
    ensures Run(sub, cap, last, ops).offered == sub.offered + Broadcasts(ops)
    ensures sub.owed <= Run(sub, cap, last, ops).owed
    decreases |ops|
  {
    if ops != [] {
      match ops[0]
      case Broadcast(critical) =>
        OfferedSound(sub, cap, last, Event(last + 1, critical));
        QueueGuarantees(Offered(sub, cap, Event(last + 1, critical)), cap, last + 1, ops[1..]);
      case ReadOne =>
        ReadSound(sub, cap, last);
        QueueGuarantees(Read(sub), cap, last, ops[1..]);
    }
  }

  /**
   Into a full queue chatter never gets: the queue stays as it was. A critical event costs the
   oldest entry that may be dropped and no other, and nothing if there is none.
   */
  lemma OfferToFull(items: seq<Item>, cap: nat, event: Item)
    requires |items| == cap && event.Event?
    ensures !event.critical || (forall k :: 0 <= k < cap ==> !Droppable(items[k])) ==> Offer(items, cap, event) == items
    ensures forall v :: event.critical && 0 <= v < cap && Droppable(items[v]) &&
                        (forall k :: 0 <= k < v ==> !Droppable(items[k])) ==>
              Offer(items, cap, event) == items[..v] + items[v + 1..] + [event]
  {
    forall v | 0 <= v < cap && Droppable(items[v]) && forall k :: 0 <= k < v ==> !Droppable(items[k])
      ensures Victim(items) == Some(v)
    {
      assert Victim(items).Some?;
      assert !(Victim(items).value < v) && !(v < Victim(items).value);
    }
  }

  /** While nobody reads and nothing critical comes, a full queue keeps what it holds and counts what it loses. */
  lemma {:induction false} ChatterLeavesFull(sub: Sub, cap: nat, last: nat, ops: seq<Op>)
    requires |sub.items| == cap && forall k :: 0 <= k < |ops| ==> ops[k] == Broadcast(false)
    ensures
      var after := Run(sub, cap, last, ops);
      && after.items == sub.items
      && after.read == sub.read
      && after.dropped == sub.dropped + |ops|
    decreases |ops|
  {
    if ops != [] {
      OfferToFull(sub.items, cap, Event(last + 1, false));
      ChatterLeavesFull(Offered(sub, cap, Event(last + 1, false)), cap, last + 1, ops[1..]);
    }
  }

  /** A critical event is refused exactly when the queue is full of entries that may not be dropped. */
  lemma RefusedIffAllCritical(items: seq<Item>, cap: nat, number: nat)
    requires |items| <= cap
    ensures !Accepts(items, cap, Event(number, true)) <==>
            |items| == cap && forall k :: 0 <= k < |items| ==> !Droppable(items[k])
  {
  }

  /** Stand-down may lose a critical event: exactly when the queue is full and one is at its head. */
  lemma CloseLosesCritical(items: seq<Item>, cap: nat, last: nat)
    requires 0 < cap && |items| <= cap && Ascending(items, last)
    ensures
      var closed := (if |items| < cap then items else items[1..]) + [Closed];
      (exists e :: e in items && e.Event? && e.critical && e !in closed) <==> |items| == cap && items[0].critical
  {
    var closed := (if |items| < cap then items else items[1..]) + [Closed];
    if |items| < cap {
      assert forall e :: e in items ==> e in closed;
    } else {
      assert items == [items[0]] + items[1..];
      assert items[0] !in closed;
      assert forall e :: e in items && e != items[0] ==> e in closed;
    }
  }
}
