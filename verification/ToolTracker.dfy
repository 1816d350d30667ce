/**
 The eager tool runs of one iteration (agent/loop.py, `_ToolRunTracker`): calls start as
 they arrive, results land in any order, replies are built in call order.
 */
module ToolTracker {
  import opened Domain

  type CallId = nat

  /** A tool call; `body` stands for its name and arguments. */
  datatype Call = Call(id: CallId, body: nat)

  /** How an execution ends: its output, or the error that a raise or a time limit produced. */
  datatype Outcome = Completed(output: string) | Errored(error: string)

  datatype Result = Result(call: Call, content: string, error: Option<string>)

  /** One background execution. A task map entry points at the latest run of its call id. */
  datatype Run = Run(call: Call, running: bool)

  datatype Turn = Turn(content: string, calls: seq<Call>)
  /** A message the run appends to its history. */
  datatype Entry = AssistantTurn(turn: Turn) | ToolReply(callId: CallId, content: string)

  datatype FailReason = MaxIterations | EmptyStream | IdleTimeout

  datatype Event =
    | IterationStarted(index: nat)
    | TextDelta(text: string)
    | ReasoningDelta
    | RetryScheduled
    | ToolCallRequested(call: Call)
    | ToolCallCompleted(call: Call, output: string)
    | ToolCallFailed(call: Call, error: string)
    | AssistantMessage(message: Turn, interrupted: bool)
    | Finished(message: Turn)
    | Cancelled
    | Failed(reason: FailReason)

  const CANCELLED_OUTPUT := "cancelled"
  const ERROR_PREFIX := "error: "

  function ResultOf(c: Call, o: Outcome): Result {
    match o
    case Completed(output) => Result(c, output, None)
    case Errored(error) => Result(c, ERROR_PREFIX + error, Some(error))
  }

  datatype Tracker = Tracker(runs: seq<Run>, tasks: map<CallId, nat>, results: map<CallId, Result>,
                             queue: seq<Result>, order: seq<Call>, seen: bool)

  function Empty(): Tracker {
    Tracker([], map[], map[], [], [], false)
  }

  function Spawned(t: Tracker, c: Call): Tracker {
    Tracker(t.runs + [Run(c, true)], t.tasks[c.id := |t.runs|], t.results, t.queue, t.order + [c], true)
  }

  function SpawnedAll(t: Tracker, calls: seq<Call>): Tracker
    decreases |calls|
  {
    if calls == [] then t else SpawnedAll(Spawned(t, calls[0]), calls[1..])
  }

  function Broken(t: Tracker, c: Call, error: string): Tracker {
    Tracker(t.runs, t.tasks, t.results, t.queue + [ResultOf(c, Errored(error))], t.order + [c], true)
  }

  /** Run `i` ends; without an outcome (it was cancelled) nothing lands. */
  function Landed(t: Tracker, i: nat, o: Option<Outcome>): Tracker
    requires i < |t.runs|
  {
    t.(runs := t.runs[i := t.runs[i].(running := false)],
       queue := t.queue + (if o.Some? then [ResultOf(t.runs[i].call, o.value)] else []))
  }

  /** Results by call id; a later result replaces an earlier one. */
  function Collected(results: map<CallId, Result>, queue: seq<Result>): map<CallId, Result>
    decreases |queue|
  {
    if queue == [] then results else Collected(results[queue[0].call.id := queue[0]], queue[1..])
  }

  function Drained(t: Tracker): Tracker {
    t.(results := Collected(t.results, t.queue), queue := [])
  }

  function CompletionOf(r: Result): Event {
    if r.error.Some? then ToolCallFailed(r.call, r.error.value) else ToolCallCompleted(r.call, r.content)
  }

  function Completions(queue: seq<Result>): (events: seq<Event>)
    ensures |events| == |queue|
    ensures forall i :: 0 <= i < |queue| ==> events[i] == CompletionOf(queue[i])
  {
    if queue == [] then [] else [CompletionOf(queue[0])] + Completions(queue[1..])
  }

  /** Run `i` is the one its call id's task entry points at. */
  predicate IsTask(t: Tracker, i: nat) {
    i < |t.runs| && t.runs[i].call.id in t.tasks && t.tasks[t.runs[i].call.id] == i
  }

  /** The runs once every task is cancelled. */
  function Stopped(t: Tracker): seq<Run> {
    seq(|t.runs|, i requires 0 <= i < |t.runs| => if IsTask(t, i) then t.runs[i].(running := false) else t.runs[i])
  }

  /** A run already past its time limit swallows the cancel and still lands its error. */
  datatype Late = Late(run: nat, error: string)

  predicate LateRunning(t: Tracker, late: seq<Late>)
    decreases |late|
  {
    late == [] ||
    (late[0].run < |t.runs| && t.runs[late[0].run].running &&
     LateRunning(Landed(t, late[0].run, Some(Errored(late[0].error))), late[1..]))
  }

  function LandedLate(t: Tracker, late: seq<Late>): Tracker
    requires LateRunning(t, late)
    decreases |late|
  {
    if late == [] then t else LandedLate(Landed(t, late[0].run, Some(Errored(late[0].error))), late[1..])
  }

  /** Cancel what runs, keep what landed. */
  function Aborted(t: Tracker): Tracker {
    Drained(t.(runs := Stopped(t)))
  }

  /** No task is pending. */
  predicate AllDone(t: Tracker) {
    forall i :: 0 <= i < |t.runs| && IsTask(t, i) ==> !t.runs[i].running
  }

  function ReplyTo(results: map<CallId, Result>, c: Call): Entry {
    ToolReply(c.id, if c.id in results then results[c.id].content else CANCELLED_OUTPUT)
  }

  function Replies(t: Tracker, calls: seq<Call>): (r: seq<Entry>)
    ensures |r| == |calls|
    ensures forall i :: 0 <= i < |calls| ==> r[i] == ReplyTo(t.results, calls[i])
  {
    seq(|calls|, i requires 0 <= i < |calls| => ReplyTo(t.results, calls[i]))
  }

  lemma {:induction false} CollectedSplit(results: map<CallId, Result>, a: seq<Result>, b: seq<Result>)
    ensures Collected(results, a + b) == Collected(Collected(results, a), b)
    decreases |a|
  {
    if a == [] {
      assert a + b == b;
    } else {
      assert (a + b)[1..] == a[1..] + b;
      CollectedSplit(results[a[0].call.id := a[0]], a[1..], b);
    }
  }

  /** Draining keeps the last result of every id, and nothing but what was there. */
  lemma {:induction false} CollectedExact(results: map<CallId, Result>, queue: seq<Result>, id: CallId)
    ensures id in Collected(results, queue) <==> id in results || exists i :: 0 <= i < |queue| && queue[i].call.id == id
    ensures id in Collected(results, queue) ==>
              || (id in results && Collected(results, queue)[id] == results[id] &&
                  forall i :: 0 <= i < |queue| ==> queue[i].call.id != id)
              || (exists i :: 0 <= i < |queue| && queue[i].call.id == id && Collected(results, queue)[id] == queue[i] &&
                    forall j :: i < j < |queue| ==> queue[j].call.id != id)
    decreases |queue|
  {
    if queue != [] {
      var n := |queue| - 1;
      assert queue == queue[..n] + [queue[n]];
      CollectedSplit(results, queue[..n], [queue[n]]);
      CollectedExact(results, queue[..n], id);
      var before := Collected(results, queue[..n]);
      assert Collected(results, queue) == before[queue[n].call.id := queue[n]] by {
        assert [queue[n]][1..] == [];
        assert Collected(before[queue[n].call.id := queue[n]], []) == before[queue[n].call.id := queue[n]];
      }
      assert forall i :: 0 <= i < n ==> queue[..n][i] == queue[i];
      if queue[n].call.id == id { assert Collected(results, queue)[id] == queue[n]; }
    }
  }

  class ToolRunTracker {
    var runs: seq<Run>
    var tasks: map<CallId, nat>
    var results: map<CallId, Result>
    var queue: seq<Result>
    var order: seq<Call>
    var seen: bool

    function Model(): Tracker
      reads this
    {
      Tracker(runs, tasks, results, queue, order, seen)
    }

    constructor ()
      ensures Model() == Empty()
    {
      runs, tasks, results, queue, order, seen := [], map[], map[], [], [], false;
    }

    method Spawn(call: Call)
      modifies this
      ensures Model() == Spawned(old(Model()), call)
    {
      seen := true;
      order := order + [call];
      tasks := tasks[call.id := |runs|];
      runs := runs + [Run(call, true)];
    }

    method MarkBroken(call: Call, error: string)
      modifies this
      ensures Model() == Broken(old(Model()), call, error)
    {
      seen := true;
      order := order + [call];
      queue := queue + [Result(call, ERROR_PREFIX + error, Some(error))];
    }

    /** `_run_one` comes to its end: the result of run `i` lands. */
    method Land(i: nat, o: Option<Outcome>)
      requires i < |runs|
      modifies this
      ensures Model() == Landed(old(Model()), i, o)
    {
      if o.Some? {
        queue := queue + [ResultOf(runs[i].call, o.value)];
      }
      runs := runs[i := runs[i].(running := false)];
    }

    method Drain() returns (events: seq<Event>)
      modifies this
      ensures Model() == Drained(old(Model()))
      ensures events == Completions(old(queue))
    {
      events := [];
      while queue != []
        invariant |events| + |queue| == |old(queue)|
        invariant queue == old(queue)[|events|..]
        invariant forall i :: 0 <= i < |events| ==> events[i] == CompletionOf(old(queue)[i])
        invariant Drained(Model()) == Drained(old(Model()))
        decreases |queue|
      {
        var result := queue[0];
        queue := queue[1..];
        results := results[result.call.id := result];
        if result.error.Some? {
          events := events + [ToolCallFailed(result.call, result.error.value)];
        } else {
          events := events + [ToolCallCompleted(result.call, result.content)];
        }
      }
    }

    /** Cancel every task and wait for them all; `late` are the errors that land meanwhile. */
    method Abort(late: seq<Late>)
      requires LateRunning(Model(), late)
      modifies this
      ensures Model() == Aborted(LandedLate(old(Model()), late))
    {
      var n := 0;
      while n < |late|
        invariant 0 <= n <= |late| && LateRunning(Model(), late[n..])
        invariant LandedLate(Model(), late[n..]) == LandedLate(old(Model()), late)
      {
        assert late[n..][1..] == late[n + 1..];
        Land(late[n].run, Some(Errored(late[n].error)));
        n := n + 1;
      }
      StopTasks();
      var dropped := Drain();
    }

    method StopTasks()
      modifies this`runs
      ensures Model() == old(Model()).(runs := Stopped(old(Model())))
    {
      var i := 0;
      var was := runs;
      while i < |was|
        invariant 0 <= i <= |was| == |runs|
        invariant forall k :: 0 <= k < i ==> runs[k] == Stopped(old(Model()))[k]
        invariant forall k :: i <= k < |was| ==> runs[k] == was[k]
        invariant Model() == old(Model()).(runs := runs)
      {
        if was[i].call.id in tasks && tasks[was[i].call.id] == i {
          runs := runs[i := was[i].(running := false)];
        }
        i := i + 1;
      }
      assert runs == Stopped(old(Model()));
    }

    /** One reply per call, in call order; a missing result reads as cancelled. */
    method ToolMessages(calls: seq<Call>) returns (messages: seq<Entry>)
      ensures messages == Replies(Model(), calls)
    {
      messages := [];
      var i := 0;
      while i < |calls|
        invariant 0 <= i <= |calls|
        invariant messages == Replies(Model(), calls)[..i]
      {
        var content := CANCELLED_OUTPUT;
        if calls[i].id in results {
          content := results[calls[i].id].content;
        }
        messages := messages + [ToolReply(calls[i].id, content)];
        i := i + 1;
      }
    }
  }
}
