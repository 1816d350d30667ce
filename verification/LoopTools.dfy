/**
 What a run says about its tools, and when they are stopped (agent/loop.py): every completion
 event and every tool reply tells an outcome that landed, as it landed, and an iteration that
 is over leaves no tool running, except where the turn ended without asking for its tools.
 */
module LoopTools {
  import opened Domain
  import opened ToolTracker
  import opened AgentLoop

  /** A call came to this end. */
  datatype Fact = Fact(call: Call, outcome: Outcome)

  /** What becomes known in one step. */
  function FactsIn(s: Loop, l: Label): set<Fact>
    requires Enabled(s, l)
  {
    match l
    case Land(i, Some(o)) => {Fact(s.tracker.runs[i].call, o)}
    case Stream(BrokenCall(c, error)) => if s.cancelled then {} else {Fact(c, Errored(error))}
    case _ => {}
  }

  function Facts(s: Loop, steps: seq<Label>): set<Fact>
    requires Valid(s, steps)
    decreases |steps|
  {
    if steps == [] then {} else FactsIn(s, steps[0]) + Facts(Apply(s, steps[0]), steps[1..])
  }

  /** How the model is told of an outcome. */
  function Wording(o: Outcome): string {
    match o
    case Completed(output) => output
    case Errored(error) => "error: " + error
  }

  predicate EventTrue(e: Event, facts: set<Fact>) {
    match e
    case ToolCallCompleted(c, output) => Fact(c, Completed(output)) in facts
    case ToolCallFailed(c, error) => Fact(c, Errored(error)) in facts
    case _ => true
  }

  predicate EntryTrue(e: Entry, facts: set<Fact>) {
    match e
    case AssistantTurn(_) => true
    case ToolReply(id, content) =>
      content == "cancelled" || exists f :: f in facts && f.call.id == id && content == Wording(f.outcome)
  }

  predicate ResultTrue(r: Result, facts: set<Fact>) {
    exists f :: f in facts && f.call == r.call && r == ResultOf(f.call, f.outcome)
  }

  predicate QueueTrue(queue: seq<Result>, facts: set<Fact>) {
    forall i :: 0 <= i < |queue| ==> ResultTrue(queue[i], facts)
  }

  predicate ResultsTrue(results: map<CallId, Result>, facts: set<Fact>) {
    forall id :: id in results ==> results[id].call.id == id && ResultTrue(results[id], facts)
  }

  predicate TrackerTrue(t: Tracker, facts: set<Fact>) {
    QueueTrue(t.queue, facts) && ResultsTrue(t.results, facts)
  }

  predicate EventsTrue(events: seq<Event>, facts: set<Fact>) {
    forall i :: 0 <= i < |events| ==> EventTrue(events[i], facts)
  }

  predicate HistoryTrue(history: seq<Entry>, facts: set<Fact>) {
    forall i :: 0 <= i < |history| ==> EntryTrue(history[i], facts)
  }

  predicate LoopTrue(s: Loop, facts: set<Fact>) {
    TrackerTrue(s.tracker, facts) && EventsTrue(s.events, facts) && HistoryTrue(s.history, facts)
  }

  lemma {:induction false} CollectedTrue(results: map<CallId, Result>, queue: seq<Result>, facts: set<Fact>)
    requires ResultsTrue(results, facts) && QueueTrue(queue, facts)
    ensures ResultsTrue(Collected(results, queue), facts)
    decreases |queue|
  {
    if queue != [] {
      assert ResultTrue(queue[0], facts);
      CollectedTrue(results[queue[0].call.id := queue[0]], queue[1..], facts);
    }
  }

  lemma DrainedTrue(t: Tracker, facts: set<Fact>)
    requires TrackerTrue(t, facts)
    ensures TrackerTrue(Drained(t), facts)
  {
    CollectedTrue(t.results, t.queue, facts);
  }

  lemma AbortedTrue(t: Tracker, facts: set<Fact>)
    requires TrackerTrue(t, facts)
    ensures TrackerTrue(Aborted(t), facts)
  {
    DrainedTrue(t.(runs := Stopped(t)), facts);
  }

  lemma CompletionsTrue(queue: seq<Result>, facts: set<Fact>)
    requires QueueTrue(queue, facts)
    ensures EventsTrue(Completions(queue), facts)
  {
    forall i | 0 <= i < |queue| ensures EventTrue(Completions(queue)[i], facts) {
      assert ResultTrue(queue[i], facts);
    }
  }

  lemma RepliesTrue(t: Tracker, calls: seq<Call>, facts: set<Fact>)
    requires ResultsTrue(t.results, facts)
    ensures HistoryTrue(Replies(t, calls), facts)
  {
    forall i | 0 <= i < |calls| ensures EntryTrue(Replies(t, calls)[i], facts) {
      if calls[i].id in t.results {
        var f :| f in facts && f.call == t.results[calls[i].id].call &&
                 t.results[calls[i].id] == ResultOf(f.call, f.outcome);
        assert f.call.id == calls[i].id && t.results[calls[i].id].content == Wording(f.outcome);
      }
    }
  }

  lemma LandedTrue(t: Tracker, i: nat, o: Option<Outcome>, facts: set<Fact>)
    requires TrackerTrue(t, facts) && i < |t.runs| && (o.Some? ==> Fact(t.runs[i].call, o.value) in facts)
    ensures TrackerTrue(Landed(t, i, o), facts)
  {
    if o.Some? { assert ResultTrue(ResultOf(t.runs[i].call, o.value), facts); }
  }

  lemma {:induction false} SpawnedAllTrue(t: Tracker, calls: seq<Call>, facts: set<Fact>)
    requires TrackerTrue(t, facts)
    ensures TrackerTrue(SpawnedAll(t, calls), facts)
    decreases |calls|
  {
    if calls != [] { SpawnedAllTrue(Spawned(t, calls[0]), calls[1..], facts); }
  }

  lemma HandledTrue(s: Loop, e: StreamEvent, facts: set<Fact>)
    requires LoopTrue(s, facts) && (e.BrokenCall? ==> Fact(e.call, Errored(e.error)) in facts)
    ensures LoopTrue(Handled(s, e), facts)
  {
    var t := Tracked(s.tracker, e);
    if e.BrokenCall? { assert ResultTrue(ResultOf(e.call, Errored(e.error)), facts); }
    assert TrackerTrue(t, facts);
    DrainedTrue(t, facts);
    CompletionsTrue(t.queue, facts);
  }

  lemma InterruptedTrue(s: Loop, facts: set<Fact>)
    requires LoopTrue(s, facts)
    ensures LoopTrue(Interrupted(s), facts)
  {
    AbortedTrue(s.tracker, facts);
    RepliesTrue(Aborted(s.tracker), Aborted(s.tracker).order, facts);
  }

  lemma FinalizedTrue(s: Loop, facts: set<Fact>)
    requires LoopTrue(s, facts)
    ensures LoopTrue(Finalized(s), facts)
  {
    if s.final.Some? { SpawnedAllTrue(s.tracker, s.final.value.calls, facts); }
  }

  lemma WaitTrue(s: Loop, facts: set<Fact>)
    requires LoopTrue(s, facts) && s.phase.Waiting?
    ensures LoopTrue(ToolsFinished(s), facts) && LoopTrue(Answered(s, Aborted(s.tracker)), facts)
  {
    var calls := s.phase.message.calls;
    CompletionsTrue(s.tracker.queue, facts);
    DrainedTrue(s.tracker, facts);
    AbortedTrue(s.tracker, facts);
    AbortedTrue(Drained(s.tracker), facts);
    RepliesTrue(Drained(s.tracker), calls, facts);
    RepliesTrue(Aborted(s.tracker), calls, facts);
    RepliesTrue(Aborted(Drained(s.tracker)), calls, facts);
  }

  lemma StepTrue(s: Loop, l: Label, facts: set<Fact>)
    requires LoopTrue(s, facts) && Enabled(s, l) && FactsIn(s, l) <= facts
    ensures LoopTrue(Apply(s, l), facts)
  {
    match l
    case Land(i, o) => LandedTrue(s.tracker, i, o, facts);
    case Stream(e) => if s.cancelled { InterruptedTrue(s, facts); } else { HandledTrue(s, e, facts); }
    case StreamEnd => FinalizedTrue(s, facts);
    case StreamTimeout => AbortedTrue(s.tracker, facts);
    case StreamCancelled => InterruptedTrue(s, facts);
    case StreamRaise => AbortedTrue(s.tracker, facts);
    case DrainResults => CompletionsTrue(s.tracker.queue, facts); DrainedTrue(s.tracker, facts);
    case ToolsDone => WaitTrue(s, facts);
    case ToolsCancelled => WaitTrue(s, facts);
    case _ =>
  }

  lemma {:induction false} RunTrue(s: Loop, steps: seq<Label>, facts: set<Fact>)
    requires LoopTrue(s, facts) && Valid(s, steps) && Facts(s, steps) <= facts
    ensures LoopTrue(End(s, steps), facts)
    decreases |steps|
  {
    if steps != [] {
      StepTrue(s, steps[0], facts);
      RunTrue(Apply(s, steps[0]), steps[1..], facts);
    }
  }

  /**
   In every run a completion event tells the output, and a failure event the error, that landed
   for its call; a tool reply is worded as an outcome that landed for its call id, or says that
   the call was cancelled.
   */
  lemma ToolsToldAsLanded(max: nat, steps: seq<Label>)
    requires Valid(Initial(max), steps)
    ensures
      var s := End(Initial(max), steps);
      EventsTrue(s.events, Facts(Initial(max), steps)) && HistoryTrue(s.history, Facts(Initial(max), steps))
  {
    RunTrue(Initial(max), steps, Facts(Initial(max), steps));
  }

  // -------------------------------------------------------------------------------------
  // Stopping the tools.
  // -------------------------------------------------------------------------------------

  /** The run ended without asking for the tools of its last turn. */
  predicate EndsUnasked(e: Event) {
    e.Finished? || e == Failed(EmptyStream)
  }

  /** Between iterations and after the end no tool runs, but after a turn that did not ask for its tools. */
  predicate Stilled(s: Loop) {
    (s.phase.Boundary? || s.phase.Raised? ||
     (s.phase.Done? && s.events != [] && !EndsUnasked(s.events[|s.events| - 1]))) ==> AllDone(s.tracker)
  }

  lemma AbortedStops(t: Tracker)
    ensures AllDone(Aborted(t))
  {
  }

  lemma StepStills(s: Loop, l: Label)
    requires Stilled(s) && Enabled(s, l)
    ensures Stilled(Apply(s, l))
  {
    match l
    case Stream(e) => AbortedStops(s.tracker);
    case StreamTimeout => AbortedStops(s.tracker);
    case StreamCancelled => AbortedStops(s.tracker);
    case StreamRaise => AbortedStops(s.tracker);
    case ToolsDone => AbortedStops(Drained(s.tracker));
    case ToolsCancelled => AbortedStops(s.tracker);
    case Land(i, o) => LandStills(s.tracker, i, o);
    case _ =>
  }

  lemma LandStills(t: Tracker, i: nat, o: Option<Outcome>)
    requires i < |t.runs|
    ensures AllDone(t) ==> AllDone(Landed(t, i, o))
  {
    var v := Landed(t, i, o);
    assert forall k :: 0 <= k < |t.runs| && IsTask(v, k) ==> IsTask(t, k);
  }

  lemma {:induction false} RunStills(s: Loop, steps: seq<Label>)
    requires Stilled(s) && Valid(s, steps)
    ensures Stilled(End(s, steps))
    decreases |steps|
  {
    if steps != [] {
      StepStills(s, steps[0]);
      RunStills(Apply(s, steps[0]), steps[1..]);
    }
  }

  /** In every run: tools still run after an iteration only if the run ended without asking for them. */
  lemma ToolsAreStopped(max: nat, steps: seq<Label>)
    requires Valid(Initial(max), steps)
    ensures Stilled(End(Initial(max), steps))
  {
    RunStills(Initial(max), steps);
  }

  /** And then they may: a call announced while streaming, then a final message without calls. */
  lemma ToolOutlivesTurn(c: Call) returns (steps: seq<Label>)
    ensures Valid(Initial(1), steps)
    ensures
      var s := End(Initial(1), steps);
      s.phase.Done? && s.events != [] && s.events[|s.events| - 1] == Finished(Turn("", [])) && !AllDone(s.tracker)
  {
    steps := [Begin, Stream(Ready(c)), Stream(Final(Turn("", []))), StreamEnd];
    var s1 := Apply(Initial(1), Begin);
    var s2 := Apply(s1, Stream(Ready(c)));
    var s3 := Apply(s2, Stream(Final(Turn("", []))));
    var s4 := Apply(s3, StreamEnd);
    var tail := [Stream(Final(Turn("", []))), StreamEnd];
    assert s1.phase.Streaming? && s2.phase.Streaming? && s3.phase.Streaming?;
    assert [StreamEnd][1..] == [] && tail[1..] == [StreamEnd];
    assert Valid(s3, [StreamEnd]) && End(s3, [StreamEnd]) == s4;
    assert Valid(s2, tail) && End(s2, tail) == s4;
    assert ([Stream(Ready(c))] + tail)[1..] == tail;
    assert Valid(s1, [Stream(Ready(c))] + tail) && End(s1, [Stream(Ready(c))] + tail) == s4;
    assert steps[1..] == [Stream(Ready(c))] + tail;
    assert IsTask(s4.tracker, 0) && s4.tracker.runs[0].running;
  }
}
