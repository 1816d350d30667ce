/**
 The actor's in-place operations. Each method does what the source's method does to the
 fields, loop by loop, and is proved to be the machine's step of the same name.
 */
module DialogRunner {
  import opened Domain
  import opened Branch
  import opened DialogState
  import opened UnseenReport

  class ConversationRunner {
    var log: seq<Message>
    var narrative: seq<Message>
    var processes: map<TaskId, Process>
    var tasks: map<TaskId, TaskRow>
    var exchanges: map<ExchangeId, Status>
    var inbox: seq<Terminated>
    var actor: Actor
    var launch: Option<Launch>
    var assembly: Option<Assembly>
    var refused: set<nat>
    var dropped: set<nat>
    var recovering: bool
    var orphans: set<TaskId>
    var noted: Option<nat>
    const maxProcesses: nat

    constructor (history: seq<Message>, storedTasks: map<TaskId, TaskRow>, storedExchanges: map<ExchangeId, Status>,
                 orphaned: set<TaskId>, limit: nat)
      requires orphaned <= storedTasks.Keys
      ensures Initial(Value()) && narrative == history && tasks == storedTasks && exchanges == storedExchanges
      ensures maxProcesses == limit
    {
      log, narrative := history, history;
      processes, tasks, exchanges := map[], storedTasks, storedExchanges;
      inbox, actor, launch, assembly := [], Idle, None, None;
      refused, dropped, recovering, orphans, noted := {}, {}, true, orphaned, None;
      maxProcesses := limit;
    }

    ghost function Value(): State
      reads this
    {
      State(log, narrative, processes, tasks, exchanges, inbox, actor, launch, assembly, refused, dropped, recovering,
            orphans, noted, maxProcesses)
    }

    /** The user's message enters the narrative once its exchange is known. */
    method AttachMessage(m: Message)
      requires RouteEnabled(Value(), RouteStep.AttachMessage(m))
      modifies this
      ensures Value() == ApplyRoute(old(Value()), RouteStep.AttachMessage(m))
    {
      var index := |log|;
      log := log + [m];
      narrative := narrative + [m];
      actor := if m.exchange.Some? then Placing(m.exchange.value, index, actor.cancelled) else Idle;
    }

    /** The run this actor has going for the exchange, if any. */
    method LiveProcessFor(e: ExchangeId) returns (run: Option<TaskId>)
      ensures run.Some? ==> run.value in processes && processes[run.value].exchange == Some(e)
      ensures run.None? <==> !HasRun(Value(), e)
    {
      run := None;
      var rest := processes.Keys;
      while rest != {}
        invariant rest <= processes.Keys
        invariant forall t :: t in processes.Keys - rest ==> processes[t].exchange != Some(e)
        decreases rest
      {
        var t :| t in rest;
        if processes[t].exchange == Some(e) {
          return Some(t);
        }
        rest := rest - {t};
      }
    }

    /** The just-cancelled exchanges whose runs still occupy a slot. */
    method CancelledTasks(cancelled: set<ExchangeId>) returns (discount: set<ExchangeId>)
      ensures discount == cancelled * LiveExchanges(Value())
    {
      var occupied: set<ExchangeId> := {};
      var rest := processes.Keys;
      while rest != {}
        invariant rest <= processes.Keys
        invariant forall t :: t in processes.Keys - rest && processes[t].exchange.Some? ==>
          processes[t].exchange.value in occupied
        invariant occupied <= LiveExchanges(Value())
        decreases rest
      {
        var t :| t in rest;
        if processes[t].exchange.Some? {
          occupied := occupied + {processes[t].exchange.value};
        }
        rest := rest - {t};
      }
      assert occupied == LiveExchanges(Value());
      discount := cancelled * occupied;
    }

    /** Owner assignment, first look: a running answer pulls the message in by itself. */
    method PlaceCheck()
      requires LaunchEnabled(Value(), LaunchStep.PlaceCheck)
      modifies this
      ensures Value() == ApplyLaunch(old(Value()), LaunchStep.PlaceCheck)
    {
      var run := LiveProcessFor(actor.exchange);
      if run.Some? {
        actor := Idle;
      } else {
        launch := Some(Checked(actor.exchange));
        actor := Admitting(actor.exchange, actor.index, actor.cancelled);
      }
    }

    /** Owner assignment, limit test: discount what this very command cancelled. */
    method Admit()
      requires LaunchEnabled(Value(), LaunchStep.Admit)
      modifies this
      ensures Value() == ApplyLaunch(old(Value()), LaunchStep.Admit)
    {
      var discount := CancelledTasks(actor.cancelled);
      if |processes| - |discount| + 1 > maxProcesses {
        refused := refused + {actor.index};
        actor := Idle;
        launch := None;
      } else {
        launch := Some(Admitted(Some(actor.exchange)));
      }
    }

    /** Drop compacted messages from memory, keeping watermarks consistent. */
    method TrimNarrative(drop: nat)
      requires drop <= |narrative| <= |log|
      modifies this
      ensures Value() == old(Value()).(narrative := old(narrative)[drop..], processes := Shifted(old(Value()), drop))
    {
      var base := |log| - |narrative|;
      var shifted: map<TaskId, Process> := map[];
      var rest := processes.Keys;
      while rest != {}
        invariant rest <= processes.Keys && shifted.Keys == processes.Keys - rest
        invariant forall t :: t in shifted ==> shifted[t] == Shift(processes[t], drop, base)
        invariant Value() == old(Value())
        decreases rest
      {
        var t :| t in rest;
        shifted := shifted[t := Shift(processes[t], drop, base)];
        rest := rest - {t};
      }
      narrative := narrative[drop..];
      processes := shifted;
    }

    /**
     The first stretch of `_start_answer`: another process may own the dialog by now, and the
     plan's budget may refuse the run, with a note at most once a day.
     */
    method MayStart(stillOwns: bool, withinBudget: bool, day: nat, notify: bool) returns (goOn: bool)
      requires LaunchEnabled(Value(), LaunchStep.RefuseBudget(day, notify)) && !LaunchAssembles(Value())
      modifies this
      ensures goOn == (stillOwns && withinBudget)
      ensures Value() ==
        if goOn then old(Value())
        else ApplyLaunch(old(Value()),
                         if stillOwns then LaunchStep.RefuseBudget(day, notify) else LaunchStep.AbortLaunch)
    {
      if !stillOwns {
        GiveUp(false);
        return false;
      }
      if !withinBudget {
        var tell := notify && noted != Some(day);
        if tell {
          noted := Some(day);
        }
        GiveUp(tell);
        return false;
      }
      return true;
    }

    /** The start is over; the message that was being placed is given up, with or without a word. */
    method GiveUp(told: bool)
      requires launch.Some?
      modifies this`launch, this`actor, this`refused, this`dropped
      ensures Value() == (if told then Refuse(old(Value())) else Forget(old(Value()))).(launch := None)
    {
      launch := None;
      if actor.Placing? || actor.Admitting? {
        if told {
          refused := refused + {actor.index};
        } else {
          dropped := dropped + {actor.index};
        }
        actor := Idle;
      } else {
        actor := AfterLaunch(actor);
      }
    }

    /**
     The end of an assemble: trim to the snapshot, then hand the run its new narrative part.
     The watermark comes from the snapshot, never from the live list.
     */
    method FinishAssembly(system: Entry)
      requires ViewEnabled(Value(), ViewStep.FinishAssembly(system))
      modifies this
      ensures Value() == ApplyView(old(Value()), ViewStep.FinishAssembly(system))
    {
      match assembly.value.purpose {
        case ForTrim =>
          var _, _ := TrimToSnapshot();
        case ForSync(t) => FinishSyncing(system, t);
        case ForLaunch => FinishLaunching(system);
      }
    }

    method TrimToSnapshot() returns (tail: seq<Message>, base: nat)
      requires Assembled(Value())
      modifies this
      ensures Value() == FinishTrim(old(Value()))
      ensures tail == SnapshotTail(old(Value())) && base == Base(old(Value())) + Drop(old(Value()))
    {
      var a := assembly.value;
      var drop := a.snapshotLen - a.tailCount;
      base := |log| - |narrative| + drop;
      tail := narrative[drop..a.snapshotLen];
      TrimNarrative(drop);
      assembly := None;
    }

    method FinishSyncing(system: Entry, t: TaskId)
      requires Assembled(Value()) && t in processes && processes[t].syncedLen <= |processes[t].branch|
      modifies this
      ensures Value() == FinishSync(old(Value()), system, t)
    {
      var a := assembly.value;
      var tail, base := TrimToSnapshot();
      ResyncBranch(system, t, a, tail, base);
    }

    method FinishLaunching(system: Entry)
      requires Assembled(Value()) && MayCreate(Value())
      modifies this
      ensures Value() == FinishLaunch(old(Value()), system)
    {
      var a := assembly.value;
      var tail, base := TrimToSnapshot();
      OpenBranch(system, a, tail, base);
    }

    /** `_sync_branch`: the narrative part is rendered anew, the run's private suffix is kept. */
    method ResyncBranch(system: Entry, t: TaskId, a: Assembly, tail: seq<Message>, base: nat)
      requires t in processes && processes[t].syncedLen <= |processes[t].branch|
      modifies this`processes
      ensures processes == old(processes)[t := Resynced(old(processes)[t], system, a, tail, base)]
    {
      var p := processes[t];
      var part := RenderBranch(a.topics + tail, p.exchange, a.others);
      var private := p.branch[p.syncedLen..];
      part := [system] + part;
      var trail := p.trail.(from := base, seen := base + a.tailCount, topics := a.topics, others := a.others,
                            shown := p.trail.shown + Range(base, base + a.tailCount), part := part);
      processes := processes[t := p.(branch := part + private, syncedLen := |part|, watermark := a.tailCount,
                                     trail := trail)];
    }

    /** The last stretch of `_start_answer`: the launched run gets its first branch. */
    method OpenBranch(system: Entry, a: Assembly, tail: seq<Message>, base: nat)
      requires launch.Some? && launch.value.Committed? && launch.value.task in tasks
      modifies this`processes, this`launch, this`actor
      ensures processes == old(processes)[old(launch.value.task) :=
                NewAnswer(system, tasks[old(launch.value.task)].exchange, a, tail, base)]
      ensures launch.None? && actor == AfterLaunch(old(actor))
    {
      var t := launch.value.task;
      var part := RenderBranch(a.topics + tail, tasks[t].exchange, a.others);
      part := [system] + part;
      var trail := Trail(base, base, base + a.tailCount, a.topics, a.others, Range(base, base + a.tailCount), {},
                         part, []);
      processes := processes[t := Process(tasks[t].exchange, true, false, part, |part|, a.tailCount, trail)];
      launch := None;
      actor := AfterLaunch(actor);
    }

    /** What arrived for this run's exchange after its last sync. */
    method UnseenKindOf(t: TaskId) returns (kind: Unseen)
      requires t in processes && processes[t].watermark <= |narrative|
      ensures kind == UnseenKind(narrative, processes[t])
      ensures
        var p := processes[t];
        p.narrativeBuilt && p.exchange.Some? ==>
          && (kind == OwnWords <==>
                exists k :: p.watermark <= k < |narrative| && Spoken(narrative[k], p.exchange.value))
          && (kind == Nothing <==>
                forall k :: p.watermark <= k < |narrative| ==> !UserMessageOf(narrative[k], p.exchange.value))
    {
      var p := processes[t];
      if p.narrativeBuilt && p.exchange.Some? { UnseenByPosition(narrative, p); }
      if !p.narrativeBuilt || p.exchange.None? {
        return Nothing;
      }
      var arrived: seq<Message> := [];
      var k := |narrative|;
      while k > p.watermark
        invariant p.watermark <= k <= |narrative|
        invariant arrived == Arrived(narrative, k, p.exchange.value)
      {
        k := k - 1;
        if UserMessageOf(narrative[k], p.exchange.value) {
          arrived := [narrative[k]] + arrived;
        }
      }
      if arrived == [] {
        kind := Nothing;
      } else if forall m :: m in arrived ==> m.kind == Material {
        kind := MaterialOnly;
      } else {
        kind := OwnWords;
      }
    }

    /** Release the slot and leave the outcome in the actor's inbox. */
    method Terminate(t: TaskId, outcome: Status)
      requires EndEnabled(Value(), EndStep.Terminate(t, outcome)) && processes[t].watermark <= |narrative|
      modifies this
      ensures Value() == ApplyEnd(old(Value()), EndStep.Terminate(t, outcome))
    {
      var kind := UnseenKindOf(t);
      var p := processes[t];
      processes := processes - {t};
      inbox := inbox + [Terminated(t, p.exchange, outcome, kind, p.trail, |log|)];
    }

    /** The newest task of the exchange: ORDER BY created_at DESC, id DESC LIMIT 1. */
    method NewestTaskOf(e: ExchangeId) returns (newest: Option<TaskId>)
      ensures newest.Some? ==> IsNewest(tasks, e, newest.value)
      ensures newest.None? ==> forall t :: t in tasks ==> tasks[t].exchange != Some(e)
    {
      newest := None;
      var rest := tasks.Keys;
      while rest != {}
        invariant rest <= tasks.Keys
        invariant newest.Some? ==> newest.value in tasks.Keys - rest && tasks[newest.value].exchange == Some(e)
        invariant forall t :: t in tasks.Keys - rest && tasks[t].exchange == Some(e) ==>
          newest.Some? && (t == newest.value || Older(tasks[t], t, tasks[newest.value], newest.value))
        decreases rest
      {
        var t :| t in rest;
        if tasks[t].exchange == Some(e) &&
           (newest.None? || Older(tasks[newest.value], newest.value, tasks[t], t)) {
          newest := Some(t);
        }
        rest := rest - {t};
      }
    }

    /** The guarded UPDATE: write only while `t` owns a live exchange. */
    method SettleOwned(e: ExchangeId, t: TaskId, status: Status, keepIfAwaiting: bool) returns (applied: bool)
      modifies this
      ensures applied == MaySettle(old(exchanges), old(tasks), e, t, keepIfAwaiting)
      ensures Value() == old(Value()).(exchanges :=
        DialogState.SettleOwned(old(exchanges), old(tasks), e, t, status, keepIfAwaiting))
    {
      var newest := NewestTaskOf(e);
      applied := e in exchanges && newest == Some(t) && Live(exchanges[e]) &&
                 !(keepIfAwaiting && exchanges[e] == AwaitingUser);
      if applied {
        exchanges := exchanges[e := status];
      }
    }

    /** Settle the exchange of the termination at the head of the inbox. */
    method Settle()
      requires EndEnabled(Value(), EndStep.Settle)
      modifies this
      ensures Value() == ApplyEnd(old(Value()), EndStep.Settle)
    {
      var c := inbox[0];
      inbox := inbox[1..];
      if c.exchange.None? {
        return;
      }
      var cancelled := c.outcome == Cancelled;
      if !cancelled && c.unseen == OwnWords {
        var applied := SettleOwned(c.exchange.value, c.task, Open, false);
        if applied { actor := Resuming(c.exchange.value); }
      } else if !cancelled && c.unseen == MaterialOnly {
        var _ := SettleOwned(c.exchange.value, c.task, Collecting, false);
      } else {
        var _ := SettleOwned(c.exchange.value, c.task, c.outcome, !cancelled);
      }
    }
  }
}
