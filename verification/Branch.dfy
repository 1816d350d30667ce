/**
 Rendering one run's branch from the dialog narrative (agent/branch.py).

 A rendered entry is the message together with the note template it is wrapped in.
 The wording of the templates is not modelled, only which one is applied.
 */
module Branch {
  import opened Domain

  datatype Mark = Plain | Task | Clarification | MaterialNote | MaterialTask | SharedMaterial

  datatype Entry = Entry(mark: Mark, message: Message)

  predicate IsTaskMark(mark: Mark) {
    mark == Task || mark == MaterialTask
  }

  predicate OwnAt(messages: seq<Message>, own: Option<ExchangeId>, i: nat)
    requires i < |messages|
  {
    own.Some? && UserMessageOf(messages[i], own.value)
  }

  predicate SpokenAt(messages: seq<Message>, own: Option<ExchangeId>, i: nat)
    requires i < |messages|
  {
    own.Some? && Spoken(messages[i], own.value)
  }

  /** The question of another live exchange: somebody else owes it. */
  predicate Foreign(m: Message, own: Option<ExchangeId>, live: set<ExchangeId>) {
    m.role == User && m.kind == Own && m.exchange.Some? && m.exchange != own && m.exchange.value in live
  }

  /** First own-words message of the own exchange at or after `from`. */
  function FirstSpoken(messages: seq<Message>, own: Option<ExchangeId>, from: nat): (r: Option<nat>)
    requires from <= |messages|
    ensures r.Some? ==> from <= r.value < |messages| && SpokenAt(messages, own, r.value)
    ensures forall i :: from <= i < (if r.Some? then r.value else |messages|) ==> !SpokenAt(messages, own, i)
    decreases |messages| - from
  {
    if from == |messages| then None
    else if SpokenAt(messages, own, from) then Some(from)
    else FirstSpoken(messages, own, from + 1)
  }

  /** Last message of the own exchange before `to`. */
  function LastOwn(messages: seq<Message>, own: Option<ExchangeId>, to: nat): (r: Option<nat>)
    requires to <= |messages|
    ensures r.Some? ==> r.value < to && OwnAt(messages, own, r.value)
    ensures forall i :: (if r.Some? then r.value + 1 else 0) <= i < to ==> !OwnAt(messages, own, i)
  {
    if to == 0 then None
    else if OwnAt(messages, own, to - 1) then Some(to - 1)
    else LastOwn(messages, own, to - 1)
  }

  function TaskIndex(messages: seq<Message>, own: Option<ExchangeId>): (r: Option<nat>)
    ensures r.Some? <==> exists i :: 0 <= i < |messages| && OwnAt(messages, own, i)
    ensures r.Some? ==> r.value < |messages| && OwnAt(messages, own, r.value)
  {
    var spoken := FirstSpoken(messages, own, 0);
    assert spoken.Some? ==> OwnAt(messages, own, spoken.value);
    if spoken.Some? then spoken else LastOwn(messages, own, |messages|)
  }

  /** The note a message of the own exchange is wrapped in. */
  function OwnMark(m: Message, index: nat, task: Option<nat>): Mark {
    if m.kind == Material then (if task == Some(index) then MaterialTask else MaterialNote)
    else (if task == Some(index) then Task else Clarification)
  }

  /** The note a kept message is wrapped in. */
  function MarkFor(m: Message, index: nat, own: Option<ExchangeId>, live: set<ExchangeId>, task: Option<nat>): Mark {
    if m.role != User || m.exchange.None? then Plain
    else if m.exchange == own then OwnMark(m, index, task)
    else if m.exchange.value in live && m.kind == Material then SharedMaterial
    else Plain
  }

  /** Positions of the first `n` messages that survive, in order. */
  function Kept(messages: seq<Message>, own: Option<ExchangeId>, live: set<ExchangeId>, n: nat): (r: seq<nat>)
    requires n <= |messages|
    ensures forall j :: 0 <= j < |r| ==> r[j] < n && !Foreign(messages[r[j]], own, live)
  {
    if n == 0 then []
    else if Foreign(messages[n - 1], own, live) then Kept(messages, own, live, n - 1)
    else Kept(messages, own, live, n - 1) + [n - 1]
  }

  /** The branch as a function of the narrative: the kept messages, each with its mark. */
  function Render(messages: seq<Message>, own: Option<ExchangeId>, live: set<ExchangeId>): (r: seq<Entry>)
    ensures |r| == |Kept(messages, own, live, |messages|)|
  {
    var kept := Kept(messages, own, live, |messages|);
    var task := TaskIndex(messages, own);
    seq(|kept|, j requires 0 <= j < |kept| =>
      Entry(MarkFor(messages[kept[j]], kept[j], own, live, task), messages[kept[j]]))
  }

  /** The source's loop: decide message by message what to append. */
  method RenderBranch(messages: seq<Message>, own: Option<ExchangeId>, live: set<ExchangeId>)
    returns (rendered: seq<Entry>)
    ensures rendered == Render(messages, own, live)
  {
    var task := TaskIndex(messages, own);
    rendered := [];
    var index := 0;
    while index < |messages|
      invariant 0 <= index <= |messages|
      invariant |rendered| == |Kept(messages, own, live, index)|
      invariant forall j :: 0 <= j < |rendered| ==>
        var k := Kept(messages, own, live, index)[j];
        rendered[j] == Entry(MarkFor(messages[k], k, own, live, task), messages[k])
    {
      var m := messages[index];
      if m.role != User || m.exchange.None? {
        rendered := rendered + [Entry(Plain, m)];
      } else if m.exchange == own {
        rendered := rendered + [Entry(OwnMark(m, index, task), m)];
      } else if m.exchange.value in live {
        if m.kind == Material {
          rendered := rendered + [Entry(SharedMaterial, m)];
        }
      } else {
        rendered := rendered + [Entry(Plain, m)];
      }
      index := index + 1;
    }
  }

  lemma {:induction false} KeptIsExact(messages: seq<Message>, own: Option<ExchangeId>, live: set<ExchangeId>, n: nat)
    requires n <= |messages|
    ensures forall i :: 0 <= i < n ==> (i in Kept(messages, own, live, n) <==> !Foreign(messages[i], own, live))
    ensures forall j, k :: 0 <= j < k < |Kept(messages, own, live, n)| ==>
      Kept(messages, own, live, n)[j] < Kept(messages, own, live, n)[k]
  {
    if n > 0 {
      KeptIsExact(messages, own, live, n - 1);
    }
  }

  /**
   The branch is the narrative minus exactly the questions of other live exchanges,
   in the narrative's order.
   */
  lemma RenderRemovesExactlyForeign(messages: seq<Message>, own: Option<ExchangeId>, live: set<ExchangeId>)
    returns (position: seq<nat>)
    ensures |position| == |Render(messages, own, live)|
    ensures forall j :: 0 <= j < |position| ==>
      position[j] < |messages| && Render(messages, own, live)[j].message == messages[position[j]]
    ensures forall j, k :: 0 <= j < k < |position| ==> position[j] < position[k]
    ensures forall i :: 0 <= i < |messages| ==> (i in position <==> !Foreign(messages[i], own, live))
  {
    position := Kept(messages, own, live, |messages|);
    KeptIsExact(messages, own, live, |messages|);
  }

  /** How many entries of a branch carry a task mark. */
  function TaskMarks(entries: seq<Entry>): nat {
    if entries == [] then 0
    else TaskMarks(entries[..|entries| - 1]) + (if IsTaskMark(entries[|entries| - 1].mark) then 1 else 0)
  }

  lemma {:induction false} TaskMarksOnlyAt(entries: seq<Entry>, at: nat)
    requires at < |entries| && IsTaskMark(entries[at].mark)
    requires forall j :: 0 <= j < |entries| && j != at ==> !IsTaskMark(entries[j].mark)
    ensures TaskMarks(entries) == 1
  {
    var init := entries[..|entries| - 1];
    if at == |entries| - 1 { TaskMarksNone(init); } else { TaskMarksOnlyAt(init, at); }
  }

  lemma {:induction false} TaskMarksNone(entries: seq<Entry>)
    requires forall j :: 0 <= j < |entries| ==> !IsTaskMark(entries[j].mark)
    ensures TaskMarks(entries) == 0
  {
    if entries != [] { TaskMarksNone(entries[..|entries| - 1]); }
  }

  /** The message the reaction is owed to: the first in own words, or else the last material. */
  ghost predicate IsTaskAt(messages: seq<Message>, own: Option<ExchangeId>, i: nat)
    requires i < |messages|
  {
    if exists k :: 0 <= k < |messages| && SpokenAt(messages, own, k)
    then SpokenAt(messages, own, i) && forall k :: 0 <= k < i ==> !SpokenAt(messages, own, k)
    else OwnAt(messages, own, i) && forall k :: i < k < |messages| ==> !OwnAt(messages, own, k)
  }

  /** The task mark stands there and nowhere else. */
  lemma TaskMarkPlace(messages: seq<Message>, own: Option<ExchangeId>, live: set<ExchangeId>, j: nat)
    requires j < |Render(messages, own, live)|
    ensures
      var i := Kept(messages, own, live, |messages|)[j];
      IsTaskMark(Render(messages, own, live)[j].mark) <==> IsTaskAt(messages, own, i)
  {
    KeptIsExact(messages, own, live, |messages|);
  }

  /** Exactly one entry carries the task mark when the own exchange has any user message, else none. */
  lemma ExactlyOneTask(messages: seq<Message>, own: Option<ExchangeId>, live: set<ExchangeId>)
    ensures TaskMarks(Render(messages, own, live)) ==
      (if exists i :: 0 <= i < |messages| && OwnAt(messages, own, i) then 1 else 0)
  {
    var kept := Kept(messages, own, live, |messages|);
    var rendered := Render(messages, own, live);
    var task := TaskIndex(messages, own);
    KeptIsExact(messages, own, live, |messages|);
    if task.Some? {
      assert task.value in kept;
      var at :| 0 <= at < |kept| && kept[at] == task.value;
      TaskMarksOnlyAt(rendered, at);
    } else {
      TaskMarksNone(rendered);
    }
  }

  /**
   Every message outside the own exchange is shown with its text unchanged, except
   that material of other live exchanges is marked as shared background.
   */
  lemma OutsideOwnUnchanged(messages: seq<Message>, own: Option<ExchangeId>, live: set<ExchangeId>, j: nat)
    requires j < |Render(messages, own, live)|
    requires !(own.Some? && UserMessageOf(Render(messages, own, live)[j].message, own.value))
    ensures
      var entry := Render(messages, own, live)[j];
      entry.mark == (if entry.message.role == User && entry.message.exchange.Some?
                        && entry.message.exchange.value in live
                     then SharedMaterial else Plain)
  {
    KeptIsExact(messages, own, live, |messages|);
    assert Kept(messages, own, live, |messages|)[j] in Kept(messages, own, live, |messages|);
  }

  /** A user message of the own exchange is never dropped, and its note says its kind and whether it is the task. */
  lemma OwnIsShown(messages: seq<Message>, own: Option<ExchangeId>, live: set<ExchangeId>, i: nat)
    returns (j: nat)
    requires i < |messages| && OwnAt(messages, own, i)
    ensures j < |Render(messages, own, live)| && Kept(messages, own, live, |messages|)[j] == i
    ensures Render(messages, own, live)[j].message == messages[i]
    ensures
      Render(messages, own, live)[j].mark ==
        if messages[i].kind == Own then (if IsTaskAt(messages, own, i) then Task else Clarification)
        else (if IsTaskAt(messages, own, i) then MaterialTask else MaterialNote)
  {
    KeptIsExact(messages, own, live, |messages|);
    assert i in Kept(messages, own, live, |messages|);
    j :| 0 <= j < |Kept(messages, own, live, |messages|)| && Kept(messages, own, live, |messages|)[j] == i;
  }
}
