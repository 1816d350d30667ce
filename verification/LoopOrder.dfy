/**
 The transcript does not depend on the order in which tools finish: without a cancel and
 with distinct call ids, every interleaving of the concurrent loop leaves the history of a
 sequential one that executes each call the moment it is read.
 */
module LoopOrder {
  import opened Domain
  import opened ToolTracker
  import opened AgentLoop

  /** What a tool answers, by call; None for an execution that is itself cancelled. */
  type Exec = Call -> Option<Outcome>

  datatype Input = Say(event: StreamEvent) | Close | Stall | Crash

  datatype PlainPhase = Open | Closed(terminal: Event) | Crashed

  /** What the calls of one iteration are owed: the ids seen and the content each id gets. */
  datatype Owed = Owed(ids: set<CallId>, contents: map<CallId, string>)

  /** The sequential loop. `clash` records that an id occurred twice in one iteration. */
  datatype Plain = Plain(max: nat, index: nat, phase: PlainPhase, owed: Owed, final: Option<Turn>,
                         seen: bool, clash: bool, history: seq<Entry>)

  function PlainInitial(max: nat): Plain {
    Plain(max, 0, if max == 0 then Closed(Failed(MaxIterations)) else Open, Owed({}, map[]), None, false, false, [])
  }

  function ContentOf(c: Call, o: Option<Outcome>): Option<string> {
    if o.None? then None else Some(ResultOf(c, o.value).content)
  }

  function Owing(w: Owed, c: Call, o: Option<Outcome>): Owed {
    Owed(w.ids + {c.id}, if o.Some? then w.contents[c.id := ResultOf(c, o.value).content] else w.contents)
  }

  function OwingAll(exec: Exec, w: Owed, calls: seq<Call>): Owed
    decreases |calls|
  {
    if calls == [] then w else OwingAll(exec, Owing(w, calls[0], exec(calls[0])), calls[1..])
  }

  predicate Distinct(calls: seq<Call>) {
    forall i, j :: 0 <= i < j < |calls| ==> calls[i].id != calls[j].id
  }

  function PlainReplies(w: Owed, calls: seq<Call>): (r: seq<Entry>)
    ensures |r| == |calls|
    ensures forall i :: 0 <= i < |calls| ==> r[i] == PlainReply(w, calls[i])
  {
    seq(|calls|, i requires 0 <= i < |calls| => PlainReply(w, calls[i]))
  }

  function PlainReply(w: Owed, c: Call): Entry {
    ToolReply(c.id, if c.id in w.contents then w.contents[c.id] else CANCELLED_OUTPUT)
  }

  function PlainSay(exec: Exec, q: Plain, e: StreamEvent): Plain {
    match e
    case Ready(c) => q.(owed := Owing(q.owed, c, exec(c)), seen := true, clash := q.clash || c.id in q.owed.ids)
    case BrokenCall(c, error) =>
      q.(owed := Owing(q.owed, c, Some(Errored(error))), seen := true, clash := q.clash || c.id in q.owed.ids)
    case Final(turn) => q.(final := Some(turn))
    case _ => q
  }

  /** The owed contents when the stream closes: a stream without call events executes the final ones. */
  function PlainOwed(exec: Exec, q: Plain, turn: Turn): Owed {
    if q.seen then q.owed else OwingAll(exec, Owed({}, map[]), turn.calls)
  }

  /** The next iteration, or the limit. */
  function NextTurn(max: nat, index: nat, clash: bool, history: seq<Entry>): Plain {
    Plain(max, index, if index == max then Closed(Failed(MaxIterations)) else Open, Owed({}, map[]), None, false,
          clash, history)
  }

  function PlainClose(exec: Exec, q: Plain): Plain {
    if q.final.None? then q.(phase := Closed(Failed(EmptyStream)))
    else
      var turn := q.final.value;
      var spoken := q.history + [AssistantTurn(turn)];
      if turn.calls == [] then q.(phase := Closed(Finished(turn)), history := spoken)
      else NextTurn(q.max, q.index + 1, q.clash || (!q.seen && !Distinct(turn.calls)),
                    spoken + PlainReplies(PlainOwed(exec, q, turn), turn.calls))
  }

  function PlainStep(exec: Exec, q: Plain, x: Input): Plain {
    if !q.phase.Open? then q
    else
      match x
      case Say(e) => PlainSay(exec, q, e)
      case Close => PlainClose(exec, q)
      case Stall => q.(phase := Closed(Failed(IdleTimeout)))
      case Crash => q.(phase := Crashed)
  }

  function PlainRun(exec: Exec, q: Plain, xs: seq<Input>): Plain
    decreases |xs|
  {
    if xs == [] then q else PlainRun(exec, PlainStep(exec, q, xs[0]), xs[1..])
  }

  /** What the provider's stream did; everything else is scheduling. */
  function InputOf(a: Label): seq<Input> {
    match a
    case Stream(e) => [Say(e)]
    case StreamEnd => [Close]
    case StreamTimeout => [Stall]
    case StreamRaise => [Crash]
    case _ => []
  }

  function Inputs(steps: seq<Label>): seq<Input> {
    if steps == [] then [] else InputOf(steps[0]) + Inputs(steps[1..])
  }

  /** No cancel, and every tool answers as `exec` says. */
  predicate Obeys(exec: Exec, s: Loop, steps: seq<Label>)
    requires Valid(s, steps)
    decreases |steps|
  {
    steps == [] || (Allowed(exec, s, steps[0]) && Obeys(exec, Apply(s, steps[0]), steps[1..]))
  }

  predicate Allowed(exec: Exec, s: Loop, a: Label)
    requires Enabled(s, a)
  {
    match a
    case Cancel => false
    case Land(i, o) => o == exec(s.tracker.runs[i].call)
    case _ => true
  }

  // -------------------------------------------------------------------------------------
  // The tracker against what is owed.
  // -------------------------------------------------------------------------------------

  predicate Queued(queue: seq<Result>, id: CallId) {
    exists i :: 0 <= i < |queue| && queue[i].call.id == id
  }

  predicate Running(t: Tracker, id: CallId) {
    id in t.tasks && t.tasks[id] < |t.runs| && t.runs[t.tasks[id]].running && t.runs[t.tasks[id]].call.id == id
  }

  /** What landed is what is owed. */
  ghost predicate LandedRight(t: Tracker, w: Owed) {
    && (forall id :: id in t.results ==> id in w.contents && w.contents[id] == t.results[id].content)
    && (forall i :: 0 <= i < |t.queue| ==>
          t.queue[i].call.id in w.contents && w.contents[t.queue[i].call.id] == t.queue[i].content)
  }

  /** What is still owed is running. */
  ghost predicate OwedRuns(t: Tracker, w: Owed) {
    forall id :: id in w.contents ==> id in t.results || Queued(t.queue, id) || Running(t, id)
  }

  /** Each run is its id's only one, and what it will answer is what is owed. */
  ghost predicate RunsRight(exec: Exec, t: Tracker, w: Owed) {
    forall i :: 0 <= i < |t.runs| ==>
      && IsTask(t, i)
      && t.runs[i].call.id in w.ids
      && (t.runs[i].running ==>
            var content := ContentOf(t.runs[i].call, exec(t.runs[i].call));
            if content.Some? then t.runs[i].call.id in w.contents && w.contents[t.runs[i].call.id] == content.value
            else t.runs[i].call.id !in w.contents)
  }

  ghost predicate Agrees(exec: Exec, t: Tracker, w: Owed) {
    && LandedRight(t, w)
    && OwedRuns(t, w)
    && RunsRight(exec, t, w)
    && w.contents.Keys <= w.ids
    && t.tasks.Keys <= w.ids
  }

  lemma SpawnedAgrees(exec: Exec, t: Tracker, w: Owed, c: Call)
    requires Agrees(exec, t, w) && c.id !in w.ids
    ensures Agrees(exec, Spawned(t, c), Owing(w, c, exec(c)))
  {
    var v, x := Spawned(t, c), Owing(w, c, exec(c));
    assert forall id :: id in w.contents ==> id != c.id;
    forall id | id in x.contents ensures id in v.results || Queued(v.queue, id) || Running(v, id) {
      if id != c.id { assert id in t.results || Queued(t.queue, id) || Running(t, id); }
    }
    forall i | 0 <= i < |t.runs| ensures IsTask(v, i) { assert IsTask(t, i); }
  }

  lemma BrokenAgrees(exec: Exec, t: Tracker, w: Owed, c: Call, error: string)
    requires Agrees(exec, t, w) && c.id !in w.ids
    ensures Agrees(exec, Broken(t, c, error), Owing(w, c, Some(Errored(error))))
  {
    var v, x := Broken(t, c, error), Owing(w, c, Some(Errored(error)));
    assert v.queue[|t.queue|].call.id == c.id;
    forall id | id in x.contents ensures id in v.results || Queued(v.queue, id) || Running(v, id) {
      if id != c.id {
        assert id in t.results || Queued(t.queue, id) || Running(t, id);
        if Queued(t.queue, id) {
          var i :| 0 <= i < |t.queue| && t.queue[i].call.id == id;
          assert v.queue[i].call.id == id;
        }
      }
    }
    forall i | 0 <= i < |v.runs| ensures IsTask(v, i) { assert IsTask(t, i); }
  }

  lemma LandedAgrees(exec: Exec, t: Tracker, w: Owed, i: nat)
    requires Agrees(exec, t, w) && i < |t.runs| && t.runs[i].running
    ensures Agrees(exec, Landed(t, i, exec(t.runs[i].call)), w)
  {
    var c := t.runs[i].call;
    var v := Landed(t, i, exec(c));
    assert IsTask(t, i);
    assert exec(c).Some? ==> v.queue[|t.queue|].call.id == c.id;
    forall id | id in w.contents ensures id in v.results || Queued(v.queue, id) || Running(v, id) {
      if Queued(t.queue, id) {
        var k :| 0 <= k < |t.queue| && t.queue[k].call.id == id;
        assert v.queue[k].call.id == id;
      }
    }
    forall k | 0 <= k < |v.runs| ensures IsTask(v, k) { assert IsTask(t, k); }
  }


  lemma DrainedAgrees(exec: Exec, t: Tracker, w: Owed)
    requires Agrees(exec, t, w)
    ensures Agrees(exec, Drained(t), w)
  {
    var v := Drained(t);
    forall id ensures id in v.results <==> id in t.results || Queued(t.queue, id) {
      CollectedExact(t.results, t.queue, id);
    }
    forall id | id in v.results ensures id in w.contents && w.contents[id] == v.results[id].content {
      CollectedExact(t.results, t.queue, id);
    }
    forall id | id in w.contents ensures id in v.results || Running(v, id) {
      assert id in t.results || Queued(t.queue, id) || Running(t, id);
    }
    forall k | 0 <= k < |v.runs| ensures IsTask(v, k) { assert IsTask(t, k); }
  }

  lemma {:induction false} SpawnedAllAgrees(exec: Exec, t: Tracker, w: Owed, calls: seq<Call>)
    requires Agrees(exec, t, w) && Distinct(calls)
    requires forall i :: 0 <= i < |calls| ==> calls[i].id !in w.ids
    ensures Agrees(exec, SpawnedAll(t, calls), OwingAll(exec, w, calls))
    decreases |calls|
  {
    if calls != [] {
      SpawnedAgrees(exec, t, w, calls[0]);
      var x := Owing(w, calls[0], exec(calls[0]));
      forall i | 0 <= i < |calls[1..]| ensures calls[1..][i].id !in x.ids {
        assert calls[1..][i] == calls[i + 1];
      }
      SpawnedAllAgrees(exec, Spawned(t, calls[0]), x, calls[1..]);
    }
  }

  /** When every task has ended, the replies are the owed ones. */
  lemma DoneReplies(exec: Exec, t: Tracker, w: Owed, calls: seq<Call>)
    requires Agrees(exec, t, w) && AllDone(t)
    ensures Replies(Drained(t), calls) == PlainReplies(w, calls)
  {
    DrainedAgrees(exec, t, w);
    var v := Drained(t);
    forall id | id in w.contents ensures id in v.results {
      assert Running(v, id) ==> IsTask(t, t.tasks[id]);
    }
    assert forall i :: 0 <= i < |calls| ==> Replies(v, calls)[i] == PlainReplies(w, calls)[i];
  }

  // -------------------------------------------------------------------------------------
  // The refinement.
  // -------------------------------------------------------------------------------------

  /** The sequential loop is already past the tools that `s` waits for. */
  ghost predicate AheadBy(exec: Exec, s: Loop, q: Plain, w: Owed)
    requires s.phase.Waiting?
  {
    && Agrees(exec, s.tracker, w)
    && q == NextTurn(s.max, s.index + 1, q.clash, s.history + PlainReplies(w, s.phase.message.calls))
  }

  ghost predicate Simulates(exec: Exec, s: Loop, q: Plain) {
    && !s.cancelled
    && match s.phase
       case Boundary =>
         q == NextTurn(s.max, s.index, q.clash, s.history)
       case Streaming =>
         && q == Plain(s.max, s.index, Open, q.owed, s.final, s.tracker.seen, q.clash, s.history)
         && Agrees(exec, s.tracker, q.owed)
         && (!q.seen ==> s.tracker.runs == [] && q.owed == Owed({}, map[]))
       case Waiting(_) => exists w :: AheadBy(exec, s, q, w)
       case Done => s.events != [] && q.phase == Closed(s.events[|s.events| - 1]) && q.history == s.history
       case Raised => q.phase == Crashed && q.history == s.history
  }

  lemma HandledSimulates(exec: Exec, s: Loop, q: Plain, e: StreamEvent)
    requires Simulates(exec, s, q) && s.phase.Streaming? && !PlainSay(exec, q, e).clash
    ensures Simulates(exec, Handled(s, e), PlainSay(exec, q, e))
  {
    match e
    case Ready(c) =>
      SpawnedAgrees(exec, s.tracker, q.owed, c);
      DrainedAgrees(exec, Spawned(s.tracker, c), Owing(q.owed, c, exec(c)));
    case BrokenCall(c, error) =>
      BrokenAgrees(exec, s.tracker, q.owed, c, error);
      DrainedAgrees(exec, Broken(s.tracker, c, error), Owing(q.owed, c, Some(Errored(error))));
    case _ => DrainedAgrees(exec, s.tracker, q.owed);
  }

  lemma FinalizedSimulates(exec: Exec, s: Loop, q: Plain)
    requires Simulates(exec, s, q) && s.phase.Streaming? && !PlainClose(exec, q).clash
    ensures Simulates(exec, Finalized(s), PlainClose(exec, q))
  {
    if s.final.Some? && s.final.value.calls != [] {
      var turn := s.final.value;
      var w := PlainOwed(exec, q, turn);
      if !q.seen {
        SpawnedAllAgrees(exec, s.tracker, q.owed, turn.calls);
      }
      assert AheadBy(exec, Finalized(s), PlainClose(exec, q), w);
    }
  }

  lemma WaitSimulates(exec: Exec, s: Loop, q: Plain, a: Label)
    requires Simulates(exec, s, q) && Enabled(s, a) && s.phase.Waiting? && (a.DrainResults? || a.ToolsDone?)
    ensures Simulates(exec, Apply(s, a), q)
  {
    var w :| AheadBy(exec, s, q, w);
    if a.DrainResults? {
      DrainedAgrees(exec, s.tracker, w);
      assert AheadBy(exec, Apply(s, a), q, w);
    } else {
      DoneReplies(exec, s.tracker, w, s.phase.message.calls);
    }
  }

  lemma LandSimulates(exec: Exec, s: Loop, q: Plain, i: nat)
    requires Simulates(exec, s, q) && i < |s.tracker.runs| && s.tracker.runs[i].running
    ensures Simulates(exec, s.(tracker := Landed(s.tracker, i, exec(s.tracker.runs[i].call))), q)
  {
    if s.phase.Streaming? {
      LandedAgrees(exec, s.tracker, q.owed, i);
    } else if s.phase.Waiting? {
      var w :| AheadBy(exec, s, q, w);
      LandedAgrees(exec, s.tracker, w, i);
      assert AheadBy(exec, s.(tracker := Landed(s.tracker, i, exec(s.tracker.runs[i].call))), q, w);
    }
  }

  lemma EmptyAgrees(exec: Exec)
    ensures Agrees(exec, Empty(), Owed({}, map[]))
  {
  }

  lemma StepSimulates(exec: Exec, s: Loop, q: Plain, a: Label)
    requires Simulates(exec, s, q) && Enabled(s, a) && Allowed(exec, s, a)
    requires !PlainRun(exec, q, InputOf(a)).clash
    ensures Simulates(exec, Apply(s, a), PlainRun(exec, q, InputOf(a)))
  {
    RunOne(exec, q, InputOf(a));
    match a
    case Begin => EmptyAgrees(exec);
    case Land(i, o) => LandSimulates(exec, s, q, i);
    case Stream(e) => HandledSimulates(exec, s, q, e);
    case StreamEnd => FinalizedSimulates(exec, s, q);
    case DrainResults => WaitSimulates(exec, s, q, a);
    case ToolsDone => WaitSimulates(exec, s, q, a);
    case _ =>
  }

  lemma RunOne(exec: Exec, q: Plain, xs: seq<Input>)
    requires |xs| <= 1
    ensures PlainRun(exec, q, xs) == if xs == [] then q else PlainStep(exec, q, xs[0])
  {
    if xs != [] { assert xs[1..] == []; }
  }

  lemma {:induction false} RunSplit(exec: Exec, q: Plain, xs: seq<Input>, ys: seq<Input>)
    ensures PlainRun(exec, q, xs + ys) == PlainRun(exec, PlainRun(exec, q, xs), ys)
    decreases |xs|
  {
    if xs == [] {
      assert xs + ys == ys;
    } else {
      assert (xs + ys)[1..] == xs[1..] + ys;
      RunSplit(exec, PlainStep(exec, q, xs[0]), xs[1..], ys);
    }
  }

  lemma {:induction false} ClashStays(exec: Exec, q: Plain, xs: seq<Input>)
    ensures q.clash ==> PlainRun(exec, q, xs).clash
    decreases |xs|
  {
    if xs != [] { ClashStays(exec, PlainStep(exec, q, xs[0]), xs[1..]); }
  }

  lemma {:induction false} RunSimulates(exec: Exec, s: Loop, q: Plain, steps: seq<Label>)
    requires Simulates(exec, s, q) && Valid(s, steps) && Obeys(exec, s, steps)
    requires !PlainRun(exec, q, Inputs(steps)).clash
    ensures Simulates(exec, End(s, steps), PlainRun(exec, q, Inputs(steps)))
    decreases |steps|
  {
    if steps != [] {
      var x := InputOf(steps[0]);
      var r := PlainRun(exec, q, x);
      RunSplit(exec, q, x, Inputs(steps[1..]));
      ClashStays(exec, r, Inputs(steps[1..]));
      StepSimulates(exec, s, q, steps[0]);
      RunSimulates(exec, Apply(s, steps[0]), r, steps[1..]);
    }
  }

  /**
   Every interleaving leaves the sequential history, and a finished run the sequential
   terminal event.
   */
  lemma ConcurrentIsSequential(exec: Exec, max: nat, steps: seq<Label>)
    requires Valid(Initial(max), steps) && Obeys(exec, Initial(max), steps)
    requires !PlainRun(exec, PlainInitial(max), Inputs(steps)).clash
    requires !End(Initial(max), steps).phase.Waiting?
    ensures
      var s, q := End(Initial(max), steps), PlainRun(exec, PlainInitial(max), Inputs(steps));
      && s.history == q.history
      && (s.phase.Done? ==> s.events != [] && q.phase == Closed(s.events[|s.events| - 1]))
  {
    RunSimulates(exec, Initial(max), PlainInitial(max), steps);
  }

  /** Two runs fed the same stream by the same tools agree, whatever finished first. */
  lemma HistoryIgnoresToolOrder(exec: Exec, max: nat, a: seq<Label>, b: seq<Label>)
    requires Valid(Initial(max), a) && Obeys(exec, Initial(max), a) && !End(Initial(max), a).phase.Waiting?
    requires Valid(Initial(max), b) && Obeys(exec, Initial(max), b) && !End(Initial(max), b).phase.Waiting?
    requires Inputs(a) == Inputs(b) && !PlainRun(exec, PlainInitial(max), Inputs(a)).clash
    ensures End(Initial(max), a).history == End(Initial(max), b).history
  {
    ConcurrentIsSequential(exec, max, a);
    ConcurrentIsSequential(exec, max, b);
  }

  // -------------------------------------------------------------------------------------
  // Distinct ids are needed.
  // -------------------------------------------------------------------------------------

  lemma Prepend(exec: Exec, s: Loop, a: Label, rest: seq<Label>)
    requires Enabled(s, a) && Allowed(exec, s, a)
    requires Valid(Apply(s, a), rest) && Obeys(exec, Apply(s, a), rest)
    ensures Valid(s, [a] + rest) && Obeys(exec, s, [a] + rest) && End(s, [a] + rest) == End(Apply(s, a), rest)
    ensures Inputs([a] + rest) == InputOf(a) + Inputs(rest)
  {
    assert ([a] + rest)[1..] == rest;
  }

  /** The last two landings and the end of the wait, in the given order. */
  lemma TwoLandings(exec: Exec, s: Loop, i: nat, j: nat)
    requires s.phase.Waiting? && !s.cancelled && |s.tracker.runs| == 2 && {i, j} == {0, 1}
    requires s.tracker.queue == [] && s.tracker.runs[0].running && s.tracker.runs[1].running
    requires exec(s.tracker.runs[i].call).Some? && exec(s.tracker.runs[j].call).Some?
    requires s.tracker.runs[0].call.id == s.tracker.runs[1].call.id
    ensures
      var ci, cj := s.tracker.runs[i].call, s.tracker.runs[j].call;
      var steps := [Land(i, exec(ci))] + ([Land(j, exec(cj))] + ([ToolsDone] + []));
      && Valid(s, steps) && Obeys(exec, s, steps) && Inputs(steps) == []
      && End(s, steps).phase.Boundary?
      && End(s, steps).history ==
           s.history + Replies(WithResult(s.tracker, ResultOf(cj, exec(cj).value)), s.phase.message.calls)
  {
    var ci, cj := s.tracker.runs[i].call, s.tracker.runs[j].call;
    var s1 := Apply(s, Land(i, exec(ci)));
    var s2 := Apply(s1, Land(j, exec(cj)));
    assert s2.tracker.queue == [ResultOf(ci, exec(ci).value), ResultOf(cj, exec(cj).value)];
    assert AllDone(s2.tracker);
    assert Drained(s2.tracker).results == WithResult(s.tracker, ResultOf(cj, exec(cj).value)).results by {
      TwoCollected(s.tracker.results, ResultOf(ci, exec(ci).value), ResultOf(cj, exec(cj).value));
    }
    var s3 := Apply(s2, ToolsDone);
    assert s3.history == s.history + Replies(Drained(s2.tracker), s.phase.message.calls);
    Prepend(exec, s2, ToolsDone, []);
    Prepend(exec, s1, Land(j, exec(cj)), [ToolsDone] + []);
    Prepend(exec, s, Land(i, exec(ci)), [Land(j, exec(cj))] + ([ToolsDone] + []));
  }

  /** The tracker once this result is its call's last. */
  function WithResult(t: Tracker, r: Result): Tracker {
    t.(results := t.results[r.call.id := r])
  }

  /** Of two results for one id the later one stays. */
  lemma TwoCollected(results: map<CallId, Result>, a: Result, b: Result)
    requires a.call.id == b.call.id
    ensures Collected(results, [a, b]) == results[b.call.id := b]
  {
    var one := results[a.call.id := a];
    assert [a, b][1..] == [b] && [b][1..] == [];
    assert Collected(one, [b]) == Collected(one[b.call.id := b], []);
    assert one[b.call.id := b] == results[b.call.id := b];
  }

  /**
   A wait for two runs of one id shows their order exactly when their contents differ and the
   turn has a call with that id.
   */
  lemma OrderShowsIff(exec: Exec, s: Loop)
    requires s.phase.Waiting? && !s.cancelled && |s.tracker.runs| == 2 && s.tracker.queue == []
    requires s.tracker.runs[0].running && s.tracker.runs[1].running
    requires s.tracker.runs[0].call.id == s.tracker.runs[1].call.id
    requires exec(s.tracker.runs[0].call).Some? && exec(s.tracker.runs[1].call).Some?
    ensures
      var c, d := s.tracker.runs[0].call, s.tracker.runs[1].call;
      var first := [Land(0, exec(c))] + ([Land(1, exec(d))] + ([ToolsDone] + []));
      var second := [Land(1, exec(d))] + ([Land(0, exec(c))] + ([ToolsDone] + []));
      && Valid(s, first) && Valid(s, second)
      && (End(s, first).history != End(s, second).history <==>
            ContentOf(c, exec(c)) != ContentOf(d, exec(d)) &&
            exists i :: 0 <= i < |s.phase.message.calls| && s.phase.message.calls[i].id == c.id)
  {
    TwoLandings(exec, s, 0, 1);
    TwoLandings(exec, s, 1, 0);
    var c, d := s.tracker.runs[0].call, s.tracker.runs[1].call;
    RepliesDiffer(s.tracker, ResultOf(c, exec(c).value), ResultOf(d, exec(d).value), s.phase.message.calls, s.history);
  }

  lemma RepliesDiffer(t: Tracker, a: Result, b: Result, calls: seq<Call>, history: seq<Entry>)
    requires a.call.id == b.call.id
    ensures history + Replies(WithResult(t, a), calls) != history + Replies(WithResult(t, b), calls) <==>
            a.content != b.content && exists i :: 0 <= i < |calls| && calls[i].id == a.call.id
  {
    var x, y := Replies(WithResult(t, a), calls), Replies(WithResult(t, b), calls);
    assert x == (history + x)[|history|..] && y == (history + y)[|history|..];
    if a.content != b.content && exists i :: 0 <= i < |calls| && calls[i].id == a.call.id {
      var i :| 0 <= i < |calls| && calls[i].id == a.call.id;
      assert x[i] != y[i];
    } else {
      assert forall i :: 0 <= i < |calls| ==> x[i] == y[i];
    }
  }

  // ----- in general: two runs of one id still to land

  predicate OnlyRunning(t: Tracker, i: nat, j: nat) {
    forall k :: 0 <= k < |t.runs| && t.runs[k].running ==> k == i || k == j
  }

  /** The two runs of one id still to land, with what they will answer. */
  predicate BothToLand(exec: Exec, t: Tracker, i: nat, j: nat) {
    && i < |t.runs| && j < |t.runs| && i != j && t.runs[i].running && t.runs[j].running
    && t.runs[i].call.id == t.runs[j].call.id
    && exec(t.runs[i].call).Some? && exec(t.runs[j].call).Some?
  }

  function StillRunning(runs: seq<Run>): nat {
    if runs == [] then 0
    else StillRunning(runs[..|runs| - 1]) + if runs[|runs| - 1].running then 1 else 0
  }

  lemma {:induction false} OneLessRunning(runs: seq<Run>, k: nat)
    requires k < |runs| && runs[k].running
    ensures StillRunning(runs[k := runs[k].(running := false)]) < StillRunning(runs)
  {
    var n := |runs| - 1;
    var after := runs[k := runs[k].(running := false)];
    if k == n {
      assert after[..n] == runs[..n];
    } else {
      assert after[..n] == runs[..n][k := runs[k].(running := false)];
      OneLessRunning(runs[..n], k);
    }
  }

  /** Every other run lands first. */
  lemma {:induction false} OthersLand(exec: Exec, s: Loop, i: nat, j: nat) returns (steps: seq<Label>)
    requires s.phase.Waiting? && !s.cancelled && BothToLand(exec, s.tracker, i, j)
    ensures Valid(s, steps) && Obeys(exec, s, steps) && Inputs(steps) == []
    ensures
      var v := End(s, steps);
      && v.phase == s.phase && !v.cancelled && v.history == s.history
      && BothToLand(exec, v.tracker, i, j) && OnlyRunning(v.tracker, i, j)
      && v.tracker.runs[i].call == s.tracker.runs[i].call && v.tracker.runs[j].call == s.tracker.runs[j].call
    decreases StillRunning(s.tracker.runs)
  {
    if k: nat :| k < |s.tracker.runs| && s.tracker.runs[k].running && k != i && k != j {
      var l := Land(k, exec(s.tracker.runs[k].call));
      OneLessRunning(s.tracker.runs, k);
      var rest := OthersLand(exec, Apply(s, l), i, j);
      Prepend(exec, s, l, rest);
      steps := [l] + rest;
    } else {
      steps := [];
    }
  }

  lemma LastIsCollected(results: map<CallId, Result>, queue: seq<Result>, r: Result)
    ensures r.call.id in Collected(results, queue + [r]) && Collected(results, queue + [r])[r.call.id] == r
  {
    CollectedSplit(results, queue, [r]);
    assert [r][1..] == [];
    assert Collected(Collected(results, queue)[r.call.id := r], []) == Collected(results, queue)[r.call.id := r];
  }

  lemma BothLanded(exec: Exec, t: Tracker, i: nat, j: nat)
    requires BothToLand(exec, t, i, j) && OnlyRunning(t, i, j)
    ensures
      var c, d := t.runs[i].call, t.runs[j].call;
      var v := Landed(Landed(t, i, exec(c)), j, exec(d));
      && AllDone(v)
      && d.id in Drained(v).results && Drained(v).results[d.id] == ResultOf(d, exec(d).value)
  {
    var c, d := t.runs[i].call, t.runs[j].call;
    var v := Landed(Landed(t, i, exec(c)), j, exec(d));
    var before := t.queue + [ResultOf(c, exec(c).value)];
    assert v.queue == before + [ResultOf(d, exec(d).value)];
    LastIsCollected(v.results, before, ResultOf(d, exec(d).value));
  }

  /** Then `i` and `j`, and the wait is over: the reply to every call of their id is what `j` answered. */
  lemma LastTwoLand(exec: Exec, s: Loop, i: nat, j: nat, m: nat) returns (steps: seq<Label>)
    requires s.phase.Waiting? && !s.cancelled && BothToLand(exec, s.tracker, i, j) && OnlyRunning(s.tracker, i, j)
    requires m < |s.phase.message.calls| && s.phase.message.calls[m].id == s.tracker.runs[j].call.id
    ensures Valid(s, steps) && Obeys(exec, s, steps) && Inputs(steps) == []
    ensures
      var d := s.tracker.runs[j].call;
      && End(s, steps).phase.Boundary? && |s.history| + m < |End(s, steps).history|
      && End(s, steps).history[|s.history| + m] == ToolReply(d.id, ResultOf(d, exec(d).value).content)
  {
    var c, d := s.tracker.runs[i].call, s.tracker.runs[j].call;
    var s1 := Apply(s, Land(i, exec(c)));
    var s2 := Apply(s1, Land(j, exec(d)));
    BothLanded(exec, s.tracker, i, j);
    assert Apply(s2, ToolsDone).history == s.history + Replies(Drained(s2.tracker), s.phase.message.calls);
    Prepend(exec, s2, ToolsDone, []);
    Prepend(exec, s1, Land(j, exec(d)), [ToolsDone] + []);
    Prepend(exec, s, Land(i, exec(c)), [Land(j, exec(d))] + ([ToolsDone] + []));
    steps := [Land(i, exec(c))] + ([Land(j, exec(d))] + ([ToolsDone] + []));
  }

  lemma {:induction false} Continue(exec: Exec, s: Loop, a: seq<Label>, b: seq<Label>)
    requires Valid(s, a) && Obeys(exec, s, a) && Valid(End(s, a), b) && Obeys(exec, End(s, a), b)
    ensures Valid(s, a + b) && Obeys(exec, s, a + b) && End(s, a + b) == End(End(s, a), b)
    decreases |a|
  {
    if a == [] {
      assert a + b == b;
    } else {
      assert (a + b)[1..] == a[1..] + b;
      Continue(exec, Apply(s, a[0]), a[1..], b);
    }
  }

  /** What the tools of `s` leave when run `j` lands last: the reply to call `m` is its content. */
  lemma LandsLast(exec: Exec, s: Loop, i: nat, j: nat, m: nat) returns (steps: seq<Label>)
    requires s.phase.Waiting? && !s.cancelled && BothToLand(exec, s.tracker, i, j)
    requires m < |s.phase.message.calls| && s.phase.message.calls[m].id == s.tracker.runs[j].call.id
    ensures Valid(s, steps) && Obeys(exec, s, steps) && Inputs(steps) == [] && End(s, steps).phase.Boundary?
    ensures |s.history| + m < |End(s, steps).history|
    ensures
      var d := s.tracker.runs[j].call;
      End(s, steps).history[|s.history| + m] == ToolReply(d.id, ResultOf(d, exec(d).value).content)
  {
    var first := OthersLand(exec, s, i, j);
    var v := End(s, first);
    var rest := LastTwoLand(exec, v, i, j, m);
    steps := first + rest;
    InputsSplit(first, rest);
    Continue(exec, s, first, rest);
    assert End(s, steps) == End(v, rest);
  }

  /**
   Whenever two runs of one id with different contents are still to land and the turn has a call
   with that id, the order shows: the same tools lead to two different histories.
   */
  lemma RepeatedIdShowsOrder(exec: Exec, s: Loop, i: nat, j: nat, m: nat)
    returns (a: seq<Label>, b: seq<Label>)
    requires s.phase.Waiting? && !s.cancelled && BothToLand(exec, s.tracker, i, j)
    requires m < |s.phase.message.calls| && s.phase.message.calls[m].id == s.tracker.runs[i].call.id
    requires
      var c, d := s.tracker.runs[i].call, s.tracker.runs[j].call;
      ContentOf(c, exec(c)) != ContentOf(d, exec(d))
    ensures Valid(s, a) && Obeys(exec, s, a) && Inputs(a) == [] && End(s, a).phase.Boundary?
    ensures Valid(s, b) && Obeys(exec, s, b) && Inputs(b) == [] && End(s, b).phase.Boundary?
    ensures End(s, a).history != End(s, b).history
  {
    a := LandsLast(exec, s, i, j, m);
    b := LandsLast(exec, s, j, i, m);
    assert End(s, a).history[|s.history| + m] != End(s, b).history[|s.history| + m];
  }

  function ByBody(c: Call): Option<Outcome> {
    Some(Completed(if c.body == 0 then "a" else "b"))
  }

  /** Both calls carry id 0; the run waits for both. */
  function TwiceTheSameId(): Loop {
    var c, d := Call(0, 0), Call(0, 1);
    var turn := Turn("", [c, d]);
    Loop(1, 0, Waiting(turn), false, Tracker([Run(c, true), Run(d, true)], map[0 := 1], map[], [], [c, d], true),
         [], Some(turn), [AssistantTurn(turn)],
         [IterationStarted(0), ToolCallRequested(c), ToolCallRequested(d), AssistantMessage(turn, false)])
  }

  function DuplicateCalls(): seq<Label> {
    var c, d := Call(0, 0), Call(0, 1);
    [Begin] + ([Stream(Ready(c))] + ([Stream(Ready(d))] + ([Stream(Final(Turn("", [c, d])))] + [StreamEnd])))
  }

  /** Where the stream of the two calls stands before it ends. */
  function BothSpawned(): Loop {
    var c, d := Call(0, 0), Call(0, 1);
    Loop(1, 0, Streaming, false, Tracker([Run(c, true), Run(d, true)], map[0 := 1], map[], [], [c, d], true), [], None,
         [], [IterationStarted(0), ToolCallRequested(c), ToolCallRequested(d)])
  }

  lemma SpawnsBoth(rest: seq<Label>)
    requires Valid(BothSpawned(), rest) && Obeys(ByBody, BothSpawned(), rest)
    ensures
      var steps := [Begin] + ([Stream(Ready(Call(0, 0)))] + ([Stream(Ready(Call(0, 1)))] + rest));
      && Valid(Initial(1), steps) && Obeys(ByBody, Initial(1), steps)
      && End(Initial(1), steps) == End(BothSpawned(), rest)
  {
    var c, d := Call(0, 0), Call(0, 1);
    var s1 := Apply(Initial(1), Begin);
    var s2 := Apply(s1, Stream(Ready(c)));
    var t2 := [Stream(Ready(d))] + rest;
    var t1 := [Stream(Ready(c))] + t2;
    assert Apply(s2, Stream(Ready(d))) == BothSpawned();
    Prepend(ByBody, s2, Stream(Ready(d)), rest);
    Prepend(ByBody, s1, Stream(Ready(c)), t2);
    Prepend(ByBody, Initial(1), Begin, t1);
  }

  lemma DuplicateCallsRun(rest: seq<Label>)
    requires Valid(TwiceTheSameId(), rest) && Obeys(ByBody, TwiceTheSameId(), rest)
    ensures
      var steps := DuplicateCalls() + rest;
      && Valid(Initial(1), steps) && Obeys(ByBody, Initial(1), steps)
      && End(Initial(1), steps) == End(TwiceTheSameId(), rest)
      && Inputs(steps) == Inputs(DuplicateCalls()) + Inputs(rest)
  {
    FinishesBoth(rest);
    SpawnsBoth([FinalOfBoth()] + ([StreamEnd] + rest));
    DuplicateSplit(rest);
    InputsSplit(DuplicateCalls(), rest);
  }

  function FinalOfBoth(): Label {
    Stream(Final(Turn("", [Call(0, 0), Call(0, 1)])))
  }

  lemma FinishesBoth(rest: seq<Label>)
    requires Valid(TwiceTheSameId(), rest) && Obeys(ByBody, TwiceTheSameId(), rest)
    ensures
      var steps := [FinalOfBoth()] + ([StreamEnd] + rest);
      && Valid(BothSpawned(), steps) && Obeys(ByBody, BothSpawned(), steps)
      && End(BothSpawned(), steps) == End(TwiceTheSameId(), rest)
  {
    var s := Apply(BothSpawned(), FinalOfBoth());
    assert Apply(s, StreamEnd) == TwiceTheSameId();
    Prepend(ByBody, s, StreamEnd, rest);
    Prepend(ByBody, BothSpawned(), FinalOfBoth(), [StreamEnd] + rest);
  }

  lemma DuplicateSplit(rest: seq<Label>)
    ensures DuplicateCalls() + rest ==
            [Begin] + ([Stream(Ready(Call(0, 0)))] + ([Stream(Ready(Call(0, 1)))] +
                                                       ([FinalOfBoth()] + ([StreamEnd] + rest))))
  {
  }

  lemma {:induction false} InputsSplit(a: seq<Label>, b: seq<Label>)
    ensures Inputs(a + b) == Inputs(a) + Inputs(b)
  {
    if a == [] {
      assert a + b == b;
    } else {
      assert (a + b)[1..] == a[1..] + b;
      InputsSplit(a[1..], b);
    }
  }

  function LandBoth(i: nat, j: nat): seq<Label> {
    [Land(i, ByBody(Call(0, i)))] + ([Land(j, ByBody(Call(0, j)))] + ([ToolsDone] + []))
  }

  /** The later of the two results is the reply to both calls. */
  lemma OrderShows(i: nat, j: nat)
    requires {i, j} == {0, 1}
    ensures
      var steps := DuplicateCalls() + LandBoth(i, j);
      && Valid(Initial(1), steps) && Obeys(ByBody, Initial(1), steps) && End(Initial(1), steps).phase.Boundary?
      && Inputs(steps) == Inputs(DuplicateCalls())
      && |End(Initial(1), steps).history| == 3
      && End(Initial(1), steps).history[1] == ToolReply(0, ByBody(Call(0, j)).value.output)
  {
    var s := TwiceTheSameId();
    assert s.tracker.runs[i].call == Call(0, i) && s.tracker.runs[j].call == Call(0, j);
    TwoLandings(ByBody, s, i, j);
    DuplicateCallsRun(LandBoth(i, j));
    assert s.phase.message.calls[0].id == 0;
  }

  /**
   With a repeated call id the order does show: the same stream and the same tools leave
   two different histories.
   */
  lemma DuplicateIdsShowOrder()
    ensures exists a: seq<Label>, b: seq<Label> ::
              && Valid(Initial(1), a) && Obeys(ByBody, Initial(1), a) && End(Initial(1), a).phase.Boundary?
              && Valid(Initial(1), b) && Obeys(ByBody, Initial(1), b) && End(Initial(1), b).phase.Boundary?
              && Inputs(a) == Inputs(b)
              && End(Initial(1), a).history != End(Initial(1), b).history
  {
    OrderShows(0, 1);
    OrderShows(1, 0);
    var a, b := DuplicateCalls() + LandBoth(0, 1), DuplicateCalls() + LandBoth(1, 0);
    assert ByBody(Call(0, 0)).value.output[0] != ByBody(Call(0, 1)).value.output[0];
    assert End(Initial(1), a).history[1] != End(Initial(1), b).history[1];
  }
}
