/**
 One agent run (agent/loop.py, `AgentLoop._run`) as a state machine over the code between
 two suspensions: the provider's stream events, tool runs landing and the user's cancel
 arrive in any order. `history` holds the entries this run appended; the narrative before
 them is the dialog actor's.
 */
module AgentLoop {
  import opened Domain
  import opened ToolTracker

  datatype StreamEvent =
    | Text(text: string)
    | Reasoning
    | Ready(call: Call)
    | BrokenCall(call: Call, error: string)
    | Final(message: Turn)
    | Retry

  datatype Phase =
    | Boundary
    | Streaming
    | Waiting(message: Turn)
    | Done
    | Raised

  datatype Loop = Loop(max: nat, index: nat, phase: Phase, cancelled: bool, tracker: Tracker,
                       parts: seq<string>, final: Option<Turn>, history: seq<Entry>, events: seq<Event>)

  datatype Label =
    | Begin
    | Cancel
    | Land(run: nat, outcome: Option<Outcome>)
    | Stream(event: StreamEvent)
    | StreamEnd
    | StreamTimeout
    | StreamCancelled
    | StreamRaise
    | DrainResults
    | ToolsDone
    | ToolsCancelled

  function Initial(max: nat): Loop {
    Loop(max, 0, Boundary, false, Empty(), [], None, [], [])
  }

  predicate Enabled(s: Loop, a: Label) {
    match a
    case Begin => s.phase.Boundary?
    case Cancel => true
    case Land(i, _) => i < |s.tracker.runs| && s.tracker.runs[i].running
    case Stream(_) => s.phase.Streaming?
    case StreamEnd => s.phase.Streaming?
    case StreamTimeout => s.phase.Streaming?
    case StreamCancelled => s.phase.Streaming? && s.cancelled
    case StreamRaise => s.phase.Streaming?
    case DrainResults => s.phase.Waiting? && !AllDone(s.tracker)
    case ToolsDone => s.phase.Waiting? && AllDone(s.tracker)
    case ToolsCancelled => s.phase.Waiting? && s.cancelled
  }

  function Joined(parts: seq<string>): string {
    if parts == [] then "" else parts[0] + Joined(parts[1..])
  }

  /** The run ends with its terminal event. */
  function Ended(s: Loop, e: Event): Loop {
    s.(phase := Done, events := s.events + [e])
  }

  /** The top of the iteration loop. */
  function BeginIteration(s: Loop): Loop {
    if s.index == s.max then Ended(s, Failed(MaxIterations))
    else
      var started := s.events + [IterationStarted(s.index)];
      if s.cancelled then Ended(s.(events := started), Cancelled)
      else s.(phase := Streaming, tracker := Empty(), parts := [], final := None, events := started)
  }

  /** `_interrupt_iteration`, then the Cancelled terminal. */
  function Interrupted(s: Loop): Loop {
    var t := Aborted(s.tracker);
    var turn := Turn(Joined(s.parts), t.order);
    Ended(s.(tracker := t,
             history := s.history + [AssistantTurn(turn)] + Replies(t, turn.calls),
             events := s.events + [AssistantMessage(turn, true)]), Cancelled)
  }

  /** What a stream event does to the tracker before it is drained. */
  function Tracked(t: Tracker, e: StreamEvent): Tracker {
    match e
    case Ready(c) => Spawned(t, c)
    case BrokenCall(c, error) => Broken(t, c, error)
    case _ => t
  }

  function Announced(e: StreamEvent): seq<Event> {
    match e
    case Text(text) => [TextDelta(text)]
    case Reasoning => [ReasoningDelta]
    case Ready(c) => [ToolCallRequested(c)]
    case Retry => [RetryScheduled]
    case _ => []
  }

  /** `_handle_stream_event`. */
  function Handled(s: Loop, e: StreamEvent): Loop {
    var t := Tracked(s.tracker, e);
    s.(tracker := Drained(t),
       parts := if e.Text? then s.parts + [e.text] else s.parts,
       final := if e.Final? then Some(e.message) else s.final,
       events := s.events + Announced(e) + Completions(t.queue))
  }

  function Requests(calls: seq<Call>): (r: seq<Event>)
    ensures |r| == |calls| && forall i :: 0 <= i < |r| ==> r[i] == ToolCallRequested(calls[i])
  {
    seq(|calls|, i requires 0 <= i < |calls| => ToolCallRequested(calls[i]))
  }

  /** The end of the stream: the final message closes the turn or opens the wait for its tools. */
  function Finalized(s: Loop): Loop {
    if s.final.None? then Ended(s, Failed(EmptyStream))
    else
      var turn := s.final.value;
      var v := s.(history := s.history + [AssistantTurn(turn)],
                  events := s.events + [AssistantMessage(turn, false)]);
      if turn.calls == [] then Ended(v, Finished(turn))
      else if s.tracker.seen then v.(phase := Waiting(turn))
      else v.(phase := Waiting(turn), tracker := SpawnedAll(s.tracker, turn.calls),
              events := v.events + Requests(turn.calls))
  }

  function Answered(s: Loop, t: Tracker): Loop
    requires s.phase.Waiting?
  {
    s.(phase := Boundary, index := s.index + 1, tracker := t,
       history := s.history + Replies(t, s.phase.message.calls))
  }

  /** The wait is over: all tasks ended, or the cancel won. */
  function ToolsFinished(s: Loop): Loop
    requires s.phase.Waiting?
  {
    var t := Drained(s.tracker);
    Answered(s.(events := s.events + Completions(s.tracker.queue)), if s.cancelled then Aborted(t) else t)
  }

  function Apply(s: Loop, a: Label): Loop
    requires Enabled(s, a)
  {
    match a
    case Begin => BeginIteration(s)
    case Cancel => s.(cancelled := true)
    case Land(i, o) => s.(tracker := Landed(s.tracker, i, o))
    case Stream(e) => if s.cancelled then Interrupted(s) else Handled(s, e)
    case StreamEnd => Finalized(s)
    case StreamTimeout => Ended(s.(tracker := Aborted(s.tracker)), Failed(IdleTimeout))
    case StreamCancelled => Interrupted(s)
    case StreamRaise => s.(phase := Raised, tracker := Aborted(s.tracker))
    case DrainResults => s.(tracker := Drained(s.tracker), events := s.events + Completions(s.tracker.queue))
    case ToolsDone => ToolsFinished(s)
    case ToolsCancelled => Answered(s, Aborted(s.tracker))
  }

  predicate Valid(s: Loop, steps: seq<Label>)
    decreases |steps|
  {
    steps == [] || (Enabled(s, steps[0]) && Valid(Apply(s, steps[0]), steps[1..]))
  }

  function End(s: Loop, steps: seq<Label>): Loop
    requires Valid(s, steps)
    decreases |steps|
  {
    if steps == [] then s else End(Apply(s, steps[0]), steps[1..])
  }

  // -------------------------------------------------------------------------------------
  // Errors that land while tools are being aborted.
  // -------------------------------------------------------------------------------------

  function WithLate(s: Loop, late: seq<Late>): Loop
    requires LateRunning(s.tracker, late)
  {
    s.(tracker := LandedLate(s.tracker, late))
  }

  function Landings(late: seq<Late>): seq<Label> {
    if late == [] then [] else [Land(late[0].run, Some(Errored(late[0].error)))] + Landings(late[1..])
  }

  /** They are landings just before the abort: the machine has them already. */
  lemma {:induction false} LateIsLanding(s: Loop, late: seq<Late>)
    requires LateRunning(s.tracker, late)
    ensures Valid(s, Landings(late)) && End(s, Landings(late)) == WithLate(s, late)
    decreases |late|
  {
    if late != [] {
      var l := Land(late[0].run, Some(Errored(late[0].error)));
      LateIsLanding(Apply(s, l), late[1..]);
      assert Landings(late)[1..] == Landings(late[1..]);
    }
  }

  // -------------------------------------------------------------------------------------
  // The transcript.
  // -------------------------------------------------------------------------------------

  /** `replies` are exactly one reply per call, in call order. */
  predicate RepliesTo(replies: seq<Entry>, calls: seq<Call>) {
    |replies| == |calls| &&
    forall i :: 0 <= i < |calls| ==> replies[i].ToolReply? && replies[i].callId == calls[i].id
  }

  /** A sequence of turns, each directly followed by the replies to its calls. */
  predicate Transcript(h: seq<Entry>)
    decreases |h|
  {
    h == [] ||
    (h[0].AssistantTurn? && |h| > |h[0].turn.calls| &&
     RepliesTo(h[1..1 + |h[0].turn.calls|], h[0].turn.calls) && Transcript(h[1 + |h[0].turn.calls|..]))
  }

  lemma {:induction false} TranscriptAppend(h: seq<Entry>, turn: Turn, replies: seq<Entry>)
    requires Transcript(h) && RepliesTo(replies, turn.calls)
    ensures Transcript(h + [AssistantTurn(turn)] + replies)
    decreases |h|
  {
    var all := h + [AssistantTurn(turn)] + replies;
    if h == [] {
      assert all[1..1 + |turn.calls|] == replies;
      assert all[1 + |turn.calls|..] == [];
    } else {
      var k := 1 + |h[0].turn.calls|;
      assert all[1..k] == h[1..k];
      assert all[k..] == h[k..] + [AssistantTurn(turn)] + replies;
      TranscriptAppend(h[k..], turn, replies);
    }
  }

  /** What Transcript means position by position: turn `p` is followed by its replies. */
  lemma {:induction false} TurnIsAnswered(h: seq<Entry>, p: nat)
    requires Transcript(h) && p < |h| && h[p].AssistantTurn?
    ensures p + |h[p].turn.calls| < |h|
    ensures RepliesTo(h[p + 1..p + 1 + |h[p].turn.calls|], h[p].turn.calls)
    ensures p + 1 + |h[p].turn.calls| < |h| ==> h[p + 1 + |h[p].turn.calls|].AssistantTurn?
    decreases |h|
  {
    var k := 1 + |h[0].turn.calls|;
    if p > 0 {
      RepliesAreNotTurns(h, p);
      TurnIsAnswered(h[k..], p - k);
      Shifted(h, k, p + 1, p + 1 + |h[p].turn.calls|);
    }
  }

  lemma RepliesAreNotTurns(h: seq<Entry>, p: nat)
    requires Transcript(h) && 0 < p < |h| && h[p].AssistantTurn?
    ensures p >= 1 + |h[0].turn.calls|
  {
    var k := 1 + |h[0].turn.calls|;
    forall i | 1 <= i < k ensures h[i].ToolReply? { assert h[1..k][i - 1] == h[i]; }
  }

  lemma Shifted(h: seq<Entry>, k: nat, a: nat, b: nat)
    ensures k <= a <= b <= |h| ==> h[k..][a - k..b - k] == h[a..b]
  {
  }

  predicate Terminal(e: Event) {
    e.Finished? || e.Cancelled? || e.Failed?
  }

  /** At most one terminal event: the last one, and only of a finished run. */
  ghost predicate OneTerminal(s: Loop) {
    && (s.phase.Done? ==> s.events != [] && Terminal(s.events[|s.events| - 1]))
    && forall i :: 0 <= i < |s.events| && Terminal(s.events[i]) ==> s.phase.Done? && i == |s.events| - 1
  }

  /** The history is a transcript, but for the turn whose tools are awaited. */
  ghost predicate Paired(s: Loop) {
    if s.phase.Waiting? then
      |s.history| > 0 && s.history[|s.history| - 1] == AssistantTurn(s.phase.message) &&
      Transcript(s.history[..|s.history| - 1])
    else Transcript(s.history)
  }

  /** What the terminal event reports is so. */
  ghost predicate Truthful(s: Loop) {
    && s.index <= s.max
    && (s.phase.Streaming? || s.phase.Waiting? ==> s.index < s.max)
    && (s.phase.Done? && s.events != [] ==>
          match s.events[|s.events| - 1]
          case Finished(turn) =>
            turn.calls == [] && s.history != [] && s.history[|s.history| - 1] == AssistantTurn(turn)
          case Cancelled => s.cancelled
          case Failed(reason) => reason == MaxIterations <==> s.index == s.max
          case _ => true)
  }

  ghost predicate Inv(s: Loop) {
    OneTerminal(s) && Paired(s) && Truthful(s)
  }

  /** A run that is still going may emit any events that are not terminal, then one that is. */
  lemma TerminalGrows(s: Loop, v: Loop, quiet: seq<Event>)
    requires OneTerminal(s) && !s.phase.Done?
    requires forall i :: 0 <= i < |quiet| ==> !Terminal(quiet[i])
    requires
      || (!v.phase.Done? && v.events == s.events + quiet)
      || (v.phase.Done? && exists e :: Terminal(e) && v.events == s.events + quiet + [e])
    ensures OneTerminal(v)
  {
  }

  lemma StepTerminal(s: Loop, a: Label)
    requires OneTerminal(s) && Enabled(s, a)
    ensures OneTerminal(Apply(s, a))
  {
    match a
    case Begin => BeginTerminal(s);
    case Stream(e) => if s.cancelled { InterruptedTerminal(s); } else { HandledTerminal(s, e); }
    case StreamEnd => FinalizedTerminal(s);
    case StreamCancelled => InterruptedTerminal(s);
    case DrainResults => TerminalGrows(s, Apply(s, a), Completions(s.tracker.queue));
    case ToolsDone => TerminalGrows(s, Apply(s, a), Completions(s.tracker.queue));
    case _ =>
  }

  lemma BeginTerminal(s: Loop)
    requires OneTerminal(s) && !s.phase.Done?
    ensures s.phase.Boundary? ==> OneTerminal(BeginIteration(s))
  {
    if s.index != s.max && s.phase.Boundary? {
      TerminalGrows(s, BeginIteration(s), [IterationStarted(s.index)]);
    }
  }

  lemma HandledTerminal(s: Loop, e: StreamEvent)
    requires OneTerminal(s) && !s.phase.Done?
    ensures OneTerminal(Handled(s, e))
  {
    var quiet := Announced(e) + Completions(Tracked(s.tracker, e).queue);
    assert Handled(s, e).events == s.events + quiet;
    TerminalGrows(s, Handled(s, e), quiet);
  }

  lemma InterruptedTerminal(s: Loop)
    requires OneTerminal(s) && !s.phase.Done?
    ensures OneTerminal(Interrupted(s))
  {
    var turn := Turn(Joined(s.parts), Aborted(s.tracker).order);
    TerminalGrows(s, Interrupted(s), [AssistantMessage(turn, true)]);
  }

  lemma FinalizedTerminal(s: Loop)
    requires OneTerminal(s) && !s.phase.Done?
    ensures OneTerminal(Finalized(s))
  {
    if s.final.Some? {
      var turn := s.final.value;
      var spoken := [AssistantMessage(turn, false)];
      if turn.calls != [] && !s.tracker.seen {
        assert Finalized(s).events == s.events + (spoken + Requests(turn.calls));
        TerminalGrows(s, Finalized(s), spoken + Requests(turn.calls));
      } else {
        TerminalGrows(s, Finalized(s), spoken);
      }
    }
  }

  lemma StepTruthful(s: Loop, a: Label)
    requires Truthful(s) && Enabled(s, a)
    ensures Truthful(Apply(s, a))
  {
    match a
    case Begin => BeginTruthful(s);
    case Stream(e) => if s.cancelled { InterruptedTruthful(s); }
    case StreamCancelled => InterruptedTruthful(s);
    case StreamEnd => FinalizedTruthful(s);
    case _ =>
  }

  lemma BeginTruthful(s: Loop)
    requires Truthful(s) && s.phase.Boundary?
    ensures Truthful(BeginIteration(s))
  {
  }

  lemma InterruptedTruthful(s: Loop)
    requires s.index < s.max && s.cancelled
    ensures Truthful(Interrupted(s))
  {
  }

  lemma FinalizedTruthful(s: Loop)
    requires s.index < s.max && s.phase.Streaming?
    ensures Truthful(Finalized(s))
  {
  }

  lemma InterruptedPaired(s: Loop)
    requires Transcript(s.history)
    ensures Paired(Interrupted(s))
  {
    var t := Aborted(s.tracker);
    TranscriptAppend(s.history, Turn(Joined(s.parts), t.order), Replies(t, t.order));
  }

  lemma FinalizedPaired(s: Loop)
    requires Transcript(s.history)
    ensures s.phase.Streaming? ==> Paired(Finalized(s))
  {
    if s.final.Some? {
      var turn := s.final.value;
      var v := Finalized(s);
      assert v.history == s.history + [AssistantTurn(turn)] + [];
      assert v.history[..|s.history|] == s.history;
      if turn.calls == [] { TranscriptAppend(s.history, turn, []); }
    }
  }

  lemma AnsweredPaired(s: Loop, t: Tracker)
    requires s.phase.Waiting? && Paired(s)
    ensures Paired(Answered(s, t))
  {
    var turn, n := s.phase.message, |s.history| - 1;
    assert s.history == s.history[..n] + [AssistantTurn(turn)];
    TranscriptAppend(s.history[..n], turn, Replies(t, turn.calls));
  }

  lemma StepPaired(s: Loop, a: Label)
    requires Paired(s) && Enabled(s, a)
    ensures Paired(Apply(s, a))
  {
    match a
    case Stream(e) => if s.cancelled { InterruptedPaired(s); }
    case StreamCancelled => InterruptedPaired(s);
    case StreamEnd => FinalizedPaired(s);
    case ToolsDone =>
      var t := Drained(s.tracker);
      AnsweredPaired(s.(events := s.events + Completions(s.tracker.queue)), if s.cancelled then Aborted(t) else t);
    case ToolsCancelled => AnsweredPaired(s, Aborted(s.tracker));
    case _ =>
  }

  lemma {:induction false} RunInv(s: Loop, steps: seq<Label>)
    requires Inv(s) && Valid(s, steps)
    ensures Inv(End(s, steps))
    decreases |steps|
  {
    if steps != [] {
      StepTerminal(s, steps[0]);
      StepPaired(s, steps[0]);
      StepTruthful(s, steps[0]);
      RunInv(Apply(s, steps[0]), steps[1..]);
    }
  }

  /** A finished run's events and history never change again. */
  lemma {:induction false} DoneIsFinal(s: Loop, steps: seq<Label>)
    requires s.phase.Done? && Valid(s, steps)
    ensures End(s, steps).phase.Done? && End(s, steps).events == s.events && End(s, steps).history == s.history
    decreases |steps|
  {
    if steps != [] { DoneIsFinal(Apply(s, steps[0]), steps[1..]); }
  }

  /**
   In every interleaving, the events of a finished run hold exactly one terminal event, in
   last place, and it reports what happened; any other run has none. A wait that cannot end
   yet is for a task that is still running.
   */
  lemma OneTerminalEvent(max: nat, steps: seq<Label>)
    requires Valid(Initial(max), steps)
    ensures
      var s := End(Initial(max), steps);
      && OneTerminal(s)
      && Truthful(s)
      && (s.phase.Done? <==> exists i :: 0 <= i < |s.events| && Terminal(s.events[i]))
      && (s.phase.Waiting? && !AllDone(s.tracker) ==>
            exists i: nat, o: Option<Outcome> :: Enabled(s, Land(i, o)) && IsTask(s.tracker, i))
  {
    RunInv(Initial(max), steps);
    var s := End(Initial(max), steps);
    if s.phase.Done? { assert Terminal(s.events[|s.events| - 1]); }
    if s.phase.Waiting? && !AllDone(s.tracker) {
      var i: nat :| i < |s.tracker.runs| && IsTask(s.tracker, i) && s.tracker.runs[i].running;
      assert Enabled(s, Land(i, None));
    }
  }

  /**
   At every iteration boundary and at the end, each turn the run appended with k calls is
   directly followed by exactly k replies in call order, then by the next turn.
   */
  lemma EveryTurnIsAnswered(max: nat, steps: seq<Label>, p: nat)
    requires Valid(Initial(max), steps)
    requires !End(Initial(max), steps).phase.Waiting?
    requires p < |End(Initial(max), steps).history| && End(Initial(max), steps).history[p].AssistantTurn?
    ensures
      var h := End(Initial(max), steps).history;
      var calls := h[p].turn.calls;
      && p + |calls| < |h|
      && RepliesTo(h[p + 1..p + 1 + |calls|], calls)
      && (p + 1 + |calls| < |h| ==> h[p + 1 + |calls|].AssistantTurn?)
  {
    RunInv(Initial(max), steps);
    TurnIsAnswered(End(Initial(max), steps).history, p);
  }

  /** The entries of a run grow only at the end. */
  lemma {:induction false} HistoryGrows(s: Loop, steps: seq<Label>)
    requires Valid(s, steps)
    ensures s.history <= End(s, steps).history
    decreases |steps|
  {
    if steps != [] {
      var v := Apply(s, steps[0]);
      assert s.history <= v.history;
      HistoryGrows(v, steps[1..]);
      assert forall i :: 0 <= i < |s.history| ==> End(v, steps[1..]).history[i] == v.history[i] == s.history[i];
    }
  }
}
