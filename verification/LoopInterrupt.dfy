/**
 What an interrupted run leaves behind: the words it had streamed in that iteration and the calls
 the stream had delivered, in order, each call with its reply.
 */
module LoopInterrupt {
  import opened ToolTracker
  import opened AgentLoop

  /** The text streamed since the last iteration started, as the events show it. */
  function TextSince(events: seq<Event>): string {
    if events == [] || events[|events| - 1].IterationStarted? then ""
    else
      TextSince(events[..|events| - 1]) +
      if events[|events| - 1].TextDelta? then events[|events| - 1].text else ""
  }

  /** The call a stream event delivers, parseable or not. */
  function CallIn(l: Label): seq<Call> {
    match l
    case Stream(Ready(c)) => [c]
    case Stream(BrokenCall(c, _)) => [c]
    case _ => []
  }

  /** The calls the stream delivered since the last iteration started. */
  function CallsSince(steps: seq<Label>): seq<Call> {
    if steps == [] || steps[|steps| - 1] == Begin then []
    else CallsSince(steps[..|steps| - 1]) + CallIn(steps[|steps| - 1])
  }

  lemma {:induction false} JoinedSnoc(parts: seq<string>, text: string)
    ensures Joined(parts + [text]) == Joined(parts) + text
  {
    if parts == [] {
      assert [text][1..] == [] && parts + [text] == [text];
    } else {
      assert (parts + [text])[1..] == parts[1..] + [text];
      JoinedSnoc(parts[1..], text);
    }
  }

  lemma TextSnoc(events: seq<Event>, e: Event)
    requires !e.IterationStarted?
    ensures TextSince(events + [e]) == TextSince(events) + if e.TextDelta? then e.text else ""
  {
    assert (events + [e])[..|events|] == events;
  }

  /** Completions say nothing. */
  lemma {:induction false} TextQuiet(events: seq<Event>, more: seq<Event>)
    requires forall i :: 0 <= i < |more| ==> !more[i].IterationStarted? && !more[i].TextDelta?
    ensures TextSince(events + more) == TextSince(events)
  {
    if more == [] {
      assert events + more == events;
    } else {
      var n := |more| - 1;
      assert events + more == (events + more[..n]) + [more[n]];
      TextSnoc(events + more[..n], more[n]);
      TextQuiet(events, more[..n]);
    }
  }

  /** The last step of a run, taken from the state before it. */
  lemma {:induction false} LastStep(s: Loop, steps: seq<Label>)
    requires Valid(s, steps) && steps != []
    ensures
      var n := |steps| - 1;
      && Valid(s, steps[..n]) && Enabled(End(s, steps[..n]), steps[n])
      && End(s, steps) == Apply(End(s, steps[..n]), steps[n])
    decreases |steps|
  {
    var n := |steps| - 1;
    if n > 0 {
      LastStep(Apply(s, steps[0]), steps[1..]);
      assert steps[1..][..n - 1] == steps[..n][1..];
    } else {
      assert steps[1..] == [] && steps[..n] == [];
    }
  }

  /** While the stream runs, the turn so far is what was streamed and delivered. */
  ghost predicate TurnSoFar(s: Loop, steps: seq<Label>) {
    s.phase.Streaming? ==> Joined(s.parts) == TextSince(s.events) && s.tracker.order == CallsSince(steps)
  }

  lemma HandledText(s: Loop, e: StreamEvent)
    requires Joined(s.parts) == TextSince(s.events)
    ensures Joined(Handled(s, e).parts) == TextSince(Handled(s, e).events)
  {
    var announced := s.events + Announced(e);
    if e.Text? {
      JoinedSnoc(s.parts, e.text);
      TextSnoc(s.events, TextDelta(e.text));
    } else {
      TextQuiet(s.events, Announced(e));
    }
    TextQuiet(announced, Completions(Tracked(s.tracker, e).queue));
    assert Handled(s, e).events == announced + Completions(Tracked(s.tracker, e).queue);
  }

  lemma HandledCalls(s: Loop, e: StreamEvent, steps: seq<Label>)
    requires s.tracker.order == CallsSince(steps)
    ensures Handled(s, e).tracker.order == CallsSince(steps + [Stream(e)])
  {
    assert (steps + [Stream(e)])[..|steps|] == steps;
    assert Handled(s, e).tracker.order == Tracked(s.tracker, e).order == s.tracker.order + CallIn(Stream(e));
  }

  lemma HandledTurn(s: Loop, e: StreamEvent, steps: seq<Label>)
    requires s.phase.Streaming? && TurnSoFar(s, steps)
    ensures TurnSoFar(Handled(s, e), steps + [Stream(e)])
  {
    HandledText(s, e);
    HandledCalls(s, e, steps);
  }

  lemma BeginTurn(s: Loop, steps: seq<Label>)
    requires s.phase.Boundary?
    ensures TurnSoFar(BeginIteration(s), steps + [Begin])
  {
    var events := s.events + [IterationStarted(s.index)];
    assert events[|events| - 1].IterationStarted?;
  }

  lemma StepTurn(s: Loop, l: Label, steps: seq<Label>)
    requires TurnSoFar(s, steps) && Enabled(s, l)
    ensures TurnSoFar(Apply(s, l), steps + [l])
  {
    assert (steps + [l])[..|steps|] == steps;
    match l
    case Begin => BeginTurn(s, steps);
    case Stream(e) => if !s.cancelled { HandledTurn(s, e, steps); }
    case _ =>
  }

  lemma {:induction false} RunTurn(max: nat, steps: seq<Label>)
    requires Valid(Initial(max), steps)
    ensures TurnSoFar(End(Initial(max), steps), steps)
    decreases |steps|
  {
    if steps != [] {
      var n := |steps| - 1;
      LastStep(Initial(max), steps);
      RunTurn(max, steps[..n]);
      StepTurn(End(Initial(max), steps[..n]), steps[n], steps[..n]);
      assert steps == steps[..n] + [steps[n]];
    }
  }

  /** The step that ends a run because the user cancelled it while the stream ran. */
  predicate Interrupts(s: Loop, l: Label)
    requires Enabled(s, l)
  {
    l.StreamCancelled? || (l.Stream? && s.cancelled)
  }

  /**
   In every run, an interrupt appends exactly one turn, with the text of the TextDelta events of its
   iteration in order and the calls the stream delivered in it in order, followed by one reply per
   call, and reports that turn as interrupted.
   */
  lemma InterruptKeepsTurn(max: nat, steps: seq<Label>, l: Label)
    requires Valid(Initial(max), steps) && Enabled(End(Initial(max), steps), l)
    requires Interrupts(End(Initial(max), steps), l)
    ensures
      var s := End(Initial(max), steps);
      var v := Apply(s, l);
      var turn := Turn(TextSince(s.events), CallsSince(steps));
      && |v.history| == |s.history| + 1 + |turn.calls| && v.history[..|s.history|] == s.history
      && v.history[|s.history|] == AssistantTurn(turn) && RepliesTo(v.history[|s.history| + 1..], turn.calls)
      && v.events == s.events + [AssistantMessage(turn, true)] + [Cancelled]
  {
    RunTurn(max, steps);
  }
}
