/**
 The loop's own code (agent/loop.py, `_run` and the methods it drives) on mutable state,
 one method per stretch between two suspensions, each proved to be one step of AgentLoop.
 */
module LoopRunner {
  import opened Domain
  import opened ToolTracker
  import AgentLoop

  class LoopRun {
    const max: nat
    var index: nat
    var phase: AgentLoop.Phase
    var cancelled: bool
    var tracker: ToolRunTracker
    var parts: seq<string>
    var final: Option<Turn>
    var history: seq<Entry>
    var events: seq<Event>

    function Model(): AgentLoop.Loop
      reads this, tracker
    {
      AgentLoop.Loop(max, index, phase, cancelled, tracker.Model(), parts, final, history, events)
    }

    constructor (maxIterations: nat)
      ensures Model() == AgentLoop.Initial(maxIterations) && fresh(tracker)
    {
      max, index, phase, cancelled := maxIterations, 0, AgentLoop.Boundary, false;
      parts, final, history, events := [], None, [], [];
      tracker := new ToolRunTracker();
    }

    method Begin()
      requires phase.Boundary?
      modifies this
      ensures Model() == AgentLoop.Apply(old(Model()), AgentLoop.Begin)
      ensures tracker == old(tracker) || fresh(tracker)
    {
      if index == max {
        events := events + [Failed(MaxIterations)];
        phase := AgentLoop.Done;
        return;
      }
      events := events + [IterationStarted(index)];
      if cancelled {
        events := events + [Cancelled];
        phase := AgentLoop.Done;
        return;
      }
      tracker := new ToolRunTracker();
      parts, final, phase := [], None, AgentLoop.Streaming;
    }

    /** `_interrupt_iteration`: the partial turn is kept, with a reply for each of its calls. */
    method Interrupt(late: seq<Late>)
      requires phase.Streaming? && cancelled && LateRunning(tracker.Model(), late)
      modifies this, tracker
      ensures Model() == AgentLoop.Apply(AgentLoop.WithLate(old(Model()), late), AgentLoop.StreamCancelled)
      ensures tracker == old(tracker)
    {
      tracker.Abort(late);
      var turn := Turn(AgentLoop.Joined(parts), tracker.order);
      var replies := tracker.ToolMessages(turn.calls);
      history := history + [AssistantTurn(turn)] + replies;
      events := events + [AssistantMessage(turn, true)];
      events := events + [Cancelled];
      phase := AgentLoop.Done;
    }

    /** One event of the provider's stream; the cancel flag is looked at first. */
    method OnStreamEvent(e: AgentLoop.StreamEvent, late: seq<Late>)
      requires phase.Streaming? && LateRunning(tracker.Model(), late) && (late != [] ==> cancelled)
      modifies this, tracker
      ensures Model() == AgentLoop.Apply(AgentLoop.WithLate(old(Model()), late), AgentLoop.Stream(e))
      ensures tracker == old(tracker)
    {
      if cancelled {
        Interrupt(late);
      } else {
        HandleStreamEvent(e);
      }
    }

    /** `_handle_stream_event`: note the event, then collect whatever has landed meanwhile. */
    method HandleStreamEvent(e: AgentLoop.StreamEvent)
      modifies this`parts, this`events, this`final, tracker
      ensures Model() == AgentLoop.Handled(old(Model()), e)
    {
      match e {
        case Text(text) =>
          parts := parts + [text];
          events := events + [TextDelta(text)];
        case Reasoning => events := events + [ReasoningDelta];
        case Ready(call) =>
          tracker.Spawn(call);
          events := events + [ToolCallRequested(call)];
        case BrokenCall(call, error) => tracker.MarkBroken(call, error);
        case Final(message) => final := Some(message);
        case Retry => events := events + [RetryScheduled];
      }
      assert tracker.Model() == AgentLoop.Tracked(old(tracker.Model()), e);
      assert events == old(events) + AgentLoop.Announced(e);
      var landed := tracker.Drain();
      events := events + landed;
    }

    /** The stream ended or stalled: `_finalize_assistant`, then what `_run` does with its outcome. */
    method Finalize(timedOut: bool, late: seq<Late>)
      requires phase.Streaming? && LateRunning(tracker.Model(), late) && (late != [] ==> timedOut)
      modifies this, tracker
      ensures Model() == AgentLoop.Apply(AgentLoop.WithLate(old(Model()), late),
                                         if timedOut then AgentLoop.StreamTimeout else AgentLoop.StreamEnd)
      ensures tracker == old(tracker)
    {
      if timedOut {
        tracker.Abort(late);
        events := events + [Failed(IdleTimeout)];
        phase := AgentLoop.Done;
        return;
      }
      if final.None? {
        events := events + [Failed(EmptyStream)];
        phase := AgentLoop.Done;
        return;
      }
      var turn := final.value;
      history := history + [AssistantTurn(turn)];
      events := events + [AssistantMessage(turn, false)];
      if turn.calls == [] {
        events := events + [Finished(turn)];
        phase := AgentLoop.Done;
        return;
      }
      phase := AgentLoop.Waiting(turn);
      if !tracker.seen {
        SpawnCalls(turn.calls);
      }
    }

    /** A stream without call events starts every call of the final message here. */
    method SpawnCalls(calls: seq<Call>)
      modifies this`events, tracker
      ensures tracker.Model() == SpawnedAll(old(tracker.Model()), calls)
      ensures events == old(events) + AgentLoop.Requests(calls)
    {
      var i := 0;
      while i < |calls|
        invariant 0 <= i <= |calls|
        invariant SpawnedAll(tracker.Model(), calls[i..]) == SpawnedAll(old(tracker.Model()), calls)
        invariant events == old(events) + AgentLoop.Requests(calls)[..i]
      {
        assert calls[i..][0] == calls[i] && calls[i..][1..] == calls[i + 1..];
        tracker.Spawn(calls[i]);
        events := events + [ToolCallRequested(calls[i])];
        i := i + 1;
      }
    }

    /** The wait for the tools is over; replies follow the order of the calls. */
    method FinishTools(cancelWon: bool, late: seq<Late>)
      requires phase.Waiting? && LateRunning(tracker.Model(), late) && (late != [] ==> cancelWon)
      requires if cancelWon then cancelled else AllDone(tracker.Model())
      modifies this, tracker
      ensures Model() == AgentLoop.Apply(AgentLoop.WithLate(old(Model()), late),
                                         if cancelWon then AgentLoop.ToolsCancelled else AgentLoop.ToolsDone)
      ensures tracker == old(tracker)
    {
      if !cancelWon {
        var landed := tracker.Drain();
        events := events + landed;
      }
      if cancelled {
        tracker.Abort(late);
      }
      Answer();
    }

    /** One reply per call joins the history, in call order. */
    method Answer()
      requires phase.Waiting?
      modifies this`history, this`phase, this`index
      ensures Model() == AgentLoop.Answered(old(Model()), tracker.Model())
    {
      var replies := tracker.ToolMessages(phase.message.calls);
      history := history + replies;
      phase, index := AgentLoop.Boundary, index + 1;
    }
  }
}
