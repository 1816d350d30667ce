/**
 The dialog actor (agent/runner.py) as a state machine. One label is one stretch of
 code between two awaits, or one SQL statement or transaction (dialogs/store.py).

 Besides what the actor stores, a state carries history that no transition reads:
 `log` (every message that ever entered the narrative), each run's `Trail`, when it
 ended, `refused` (log positions of messages whose refusal the user was told of) and
 `dropped` (those given up in silence).
 */
module DialogState {
  import opened Domain
  import opened Branch

  datatype Status = Collecting | Open | InProgress | AwaitingUser | Answered | Cancelled | Failed

  /** Statuses a message may still be routed into. */
  predicate Live(status: Status) {
    status == Collecting || status == Open || status == InProgress || status == AwaitingUser
  }

  predicate Outcome(status: Status) {
    status == Answered || status == Cancelled || status == Failed
  }

  datatype TaskRow = TaskRow(exchange: Option<ExchangeId>, created: nat)

  /** What a finished run missed. */
  datatype Unseen = Nothing | MaterialOnly | OwnWords

  /**
   History of one run's view of the narrative, in log positions: `born` is where its
   first branch began, the current branch shows `[from, seen)` behind `topics`;
   `shown` are all positions any of its branches showed, `missed` those a trim removed
   before it had seen them; `part` is the current branch's narrative part and `private`
   everything the run appended itself.
   */
  datatype Trail = Trail(born: nat, from: nat, seen: nat, topics: seq<Message>, others: set<ExchangeId>,
                         shown: set<nat>, missed: set<nat>, part: seq<Entry>, private: seq<Entry>)

  datatype Process = Process(exchange: Option<ExchangeId>, narrativeBuilt: bool, cancelled: bool,
                             branch: seq<Entry>, syncedLen: nat, watermark: nat, trail: Trail)

  /** The termination command a run leaves in the actor's inbox; `ended` is the log's length then. */
  datatype Terminated = Terminated(task: TaskId, exchange: Option<ExchangeId>, outcome: Status, unseen: Unseen,
                                   trail: Trail, ended: nat)

  /** Where the actor is inside the command it is handling. */
  datatype Actor =
    | Idle
    | Routing(cancelled: set<ExchangeId>, flagged: Option<ExchangeId>)
    | Placing(exchange: ExchangeId, index: nat, cancelled: set<ExchangeId>)
    | Admitting(exchange: ExchangeId, index: nat, cancelled: set<ExchangeId>)
    | Promoting(collection: ExchangeId, target: ExchangeId)
    | Moved(target: ExchangeId)
    | Resuming(exchange: ExchangeId)
    | Launching

  /** What the holder of the spawn lock has established so far. */
  datatype Launch =
    | Checked(exchange: ExchangeId)
    | Admitted(target: Option<ExchangeId>)
    | Committed(task: TaskId)

  datatype Purpose = ForLaunch | ForSync(task: TaskId) | ForTrim

  /** What the holder of the assemble lock took from the narrative. */
  datatype Assembly = Assembly(purpose: Purpose, snapshotLen: nat, tailCount: nat,
                               topics: seq<Message>, others: set<ExchangeId>)

  /**
   `recovering` lasts while the manager restarts what a previous owner left behind, `orphans`
   are the tasks it has still to restart; `noted` is the day of the last budget notice.
   */
  datatype State = State(
    log: seq<Message>,
    narrative: seq<Message>,
    processes: map<TaskId, Process>,
    tasks: map<TaskId, TaskRow>,
    exchanges: map<ExchangeId, Status>,
    inbox: seq<Terminated>,
    actor: Actor,
    launch: Option<Launch>,
    assembly: Option<Assembly>,
    refused: set<nat>,
    dropped: set<nat>,
    recovering: bool,
    orphans: set<TaskId>,
    noted: Option<nat>,
    maxProcesses: nat)

  /** Writes to the exchange table made outside the actor: by runs, by a stop, by recovery. */
  datatype StoreStep =
    | CreateExchange(e: ExchangeId, status: Status)
    | AskUser(t: TaskId)
    | SetStatus(e: ExchangeId, status: Status)

  /**
   The actor routing a submitted message, promoting a settled collection (as a question of its
   own, or moved into a live exchange), or turning to an exchange to revive.
   */
  datatype RouteStep =
    | EndRecovery
    | BeginRoute
    | FlagCancel(e: ExchangeId, run: Option<TaskId>)
    | WriteCancel
    | AttachMessage(m: Message)
    | DropSubmit
    | PromoteCheck(collection: ExchangeId, target: ExchangeId)
    | PromoteMove
    | PromoteWrite
    | Sweep(e: ExchangeId)
    | DropResume

  /** The start paths, serialized by the spawn lock. */
  datatype LaunchStep =
    | PlaceCheck
    | Admit
    | ResumeCheck(e: ExchangeId, byActor: bool)
    | SpawnCheck
    | RestartCheck(t: TaskId)
    | Commit(t: TaskId, at: nat)
    | CreateBackground(branch: seq<Entry>)
    | RefuseBudget(day: nat, notify: bool)
    | AbortLaunch

  /** The narrative and the runs' views of it. */
  datatype ViewStep =
    | AppendOther(m: Message)
    | AppendPrivate(t: TaskId, entry: Entry)
    | Snapshot(purpose: Purpose, tailCount: nat, topics: seq<Message>, others: set<ExchangeId>)
    | FinishAssembly(system: Entry)
    | AbortAssembly

  /** A run being cancelled or ending, and the actor settling what it owed. */
  datatype EndStep =
    | CancelRun(t: TaskId)
    | Terminate(t: TaskId, outcome: Status)
    | Settle
    | DropCommand

  datatype Label = OnStore(store: StoreStep) | OnRoute(route: RouteStep) | OnLaunch(launch: LaunchStep)
                 | OnView(view: ViewStep) | OnEnd(end: EndStep)

  // ----- the narrative and its watermarks

  /** How many messages have been trimmed from the front of the narrative. */
  function Base(s: State): nat
    requires |s.narrative| <= |s.log|
  {
    |s.log| - |s.narrative|
  }

  predicate Between(lo: int, i: int, hi: int) {
    lo <= i < hi
  }

  function Range(lo: int, hi: int): set<nat> {
    set i: nat | lo <= i < hi && Between(lo, i, hi)
  }

  function Max(a: int, b: int): int {
    if a < b then b else a
  }

  function Shift(p: Process, drop: nat, base: nat): Process {
    p.(watermark := Max(0, p.watermark - drop),
       trail := p.trail.(missed := p.trail.missed + Range(Max(p.trail.seen, base), base + drop)))
  }

  /** Every run's watermark moves when the first `drop` messages are dropped. */
  function Shifted(s: State, drop: nat): map<TaskId, Process>
    requires |s.narrative| <= |s.log|
  {
    map t | t in s.processes :: Shift(s.processes[t], drop, Base(s))
  }

  /** The narrative part of a branch: summary block and verbatim tail, marked. */
  function NarrativePart(system: Entry, topics: seq<Message>, tail: seq<Message>, own: Option<ExchangeId>,
                         others: set<ExchangeId>): seq<Entry>
  {
    [system] + Render(topics + tail, own, others)
  }

  /** Re-point a run at the snapshot: new narrative part, same private suffix. */
  function Resynced(p: Process, system: Entry, a: Assembly, tail: seq<Message>, newBase: nat): Process
    requires p.syncedLen <= |p.branch|
  {
    var part := NarrativePart(system, a.topics, tail, p.exchange, a.others);
    p.(branch := part + p.branch[p.syncedLen..],
       syncedLen := |part|,
       watermark := a.tailCount,
       trail := p.trail.(from := newBase, seen := newBase + a.tailCount, topics := a.topics, others := a.others,
                         shown := p.trail.shown + Range(newBase, newBase + a.tailCount), part := part))
  }

  function NewAnswer(system: Entry, exchange: Option<ExchangeId>, a: Assembly, tail: seq<Message>,
                     newBase: nat): Process
  {
    var part := NarrativePart(system, a.topics, tail, exchange, a.others);
    Process(exchange, true, false, part, |part|, a.tailCount,
            Trail(newBase, newBase, newBase + a.tailCount, a.topics, a.others,
                  Range(newBase, newBase + a.tailCount), {}, part, []))
  }

  /** A self-contained run: it never syncs, so all of its branch is its own. */
  function NewBackground(branch: seq<Entry>): Process {
    Process(None, false, false, branch, 0, 0, Trail(0, 0, 0, [], {}, {}, {}, [], branch))
  }

  function Arrived(narrative: seq<Message>, from: nat, e: ExchangeId): seq<Message>
    requires from <= |narrative|
    decreases |narrative| - from
  {
    if from == |narrative| then []
    else (if UserMessageOf(narrative[from], e) then [narrative[from]] else []) + Arrived(narrative, from + 1, e)
  }

  /** What reached this run's exchange past its watermark. */
  function UnseenKind(narrative: seq<Message>, p: Process): Unseen
  {
    if !p.narrativeBuilt || p.exchange.None? || |narrative| < p.watermark then Nothing
    else
      var arrived := Arrived(narrative, p.watermark, p.exchange.value);
      if arrived == [] then Nothing
      else if forall m :: m in arrived ==> m.kind == Material then MaterialOnly
      else OwnWords
  }

  // ----- ownership of an exchange

  /** Strictly below in ORDER BY created_at, id. */
  predicate Older(a: TaskRow, aId: TaskId, b: TaskRow, bId: TaskId) {
    a.created < b.created || (a.created == b.created && aId < bId)
  }

  predicate IsNewest(tasks: map<TaskId, TaskRow>, e: ExchangeId, t: TaskId) {
    t in tasks && tasks[t].exchange == Some(e) &&
    forall u :: u in tasks && u != t && tasks[u].exchange == Some(e) ==> Older(tasks[u], u, tasks[t], t)
  }

  /** The guard of the settling UPDATE. */
  predicate MaySettle(exchanges: map<ExchangeId, Status>, tasks: map<TaskId, TaskRow>, e: ExchangeId, t: TaskId,
                      keepIfAwaiting: bool)
  {
    e in exchanges && IsNewest(tasks, e, t) && Live(exchanges[e]) &&
    !(keepIfAwaiting && exchanges[e] == AwaitingUser)
  }

  function SettleOwned(exchanges: map<ExchangeId, Status>, tasks: map<TaskId, TaskRow>, e: ExchangeId, t: TaskId,
                       status: Status, keepIfAwaiting: bool): map<ExchangeId, Status>
  {
    if MaySettle(exchanges, tasks, e, t, keepIfAwaiting) then exchanges[e := status] else exchanges
  }

  /** The user said something the finished run never saw. */
  predicate Reopens(c: Terminated) {
    c.outcome != Cancelled && c.unseen == OwnWords
  }

  /** The state a finished run asks for, decided from its command alone. */
  function SettleTarget(c: Terminated): Status {
    if Reopens(c) then Open
    else if c.outcome != Cancelled && c.unseen == MaterialOnly then Collecting
    else c.outcome
  }

  predicate SettleKeepsAwaiting(c: Terminated) {
    c.outcome != Cancelled && c.unseen == Nothing
  }

  predicate SettleApplies(s: State, c: Terminated) {
    c.exchange.Some? && MaySettle(s.exchanges, s.tasks, c.exchange.value, c.task, SettleKeepsAwaiting(c))
  }

  // ----- live runs and the process limit

  predicate HasRun(s: State, e: ExchangeId) {
    exists t :: t in s.processes && s.processes[t].exchange == Some(e)
  }

  function LiveExchanges(s: State): set<ExchangeId> {
    set t | t in s.processes && s.processes[t].exchange.Some? :: s.processes[t].exchange.value
  }

  predicate ExceedsLimit(s: State, cancelled: set<ExchangeId>) {
    |s.processes| - |cancelled * LiveExchanges(s)| + 1 > s.maxProcesses
  }

  /** The run's cancel flag is set; it unwinds on its own schedule. */
  function Flagged(processes: map<TaskId, Process>, t: TaskId): map<TaskId, Process>
    requires t in processes
  {
    processes[t := processes[t].(cancelled := true)]
  }

  // ----- transitions

  predicate StoreEnabled(s: State, l: StoreStep) {
    match l
    case CreateExchange(e, status) => e !in s.exchanges && (status == Open || status == Collecting)
    case AskUser(t) => t in s.processes && s.processes[t].exchange.Some?
    case SetStatus(e, status) =>
      e in s.exchanges && (status == Cancelled || (s.recovering && (status == Open || status == InProgress)))
  }

  predicate RouteEnabled(s: State, l: RouteStep) {
    match l
    case EndRecovery => s.recovering && (LaunchTarget(s).Some? ==> s.actor.Admitting? || s.actor.Launching?)
    case BeginRoute => s.actor.Idle? && !s.recovering
    case FlagCancel(e, run) =>
      s.actor.Routing? && s.actor.flagged.None? &&
      (if run.Some? then run.value in s.processes && s.processes[run.value].exchange == Some(e) else !HasRun(s, e))
    case WriteCancel => s.actor.Routing? && s.actor.flagged.Some?
    case AttachMessage(m) =>
      s.actor.Routing? && s.actor.flagged.None? && m.role == User && m.kind == Own &&
      (m.exchange.Some? ==> m.exchange.value in s.exchanges)
    case DropSubmit => s.actor.Routing? || s.actor.Placing?
    case PromoteCheck(c, t) =>
      s.actor.Idle? && c in s.exchanges && s.exchanges[c] == Collecting &&
      (t == c || (t in s.exchanges && Live(s.exchanges[t]) && s.exchanges[t] != Collecting))
    case PromoteMove => s.actor.Promoting? && s.actor.collection != s.actor.target
    case PromoteWrite => s.actor.Moved? || (s.actor.Promoting? && s.actor.collection == s.actor.target)
    case Sweep(e) => s.actor.Idle?
    case DropResume => s.actor.Resuming?
  }

  /** The exchange a start in progress is for. */
  function LaunchTarget(s: State): Option<ExchangeId> {
    if s.launch.None? then None
    else match s.launch.value
      case Checked(e) => Some(e)
      case Admitted(target) => target
      case Committed(t) => if t in s.tasks then s.tasks[t].exchange else None
  }

  /** The holder of the assemble lock is a start. */
  predicate LaunchAssembles(s: State) {
    s.assembly.Some? && s.assembly.value.purpose.ForLaunch?
  }

  /** The lock holder has a stored task and may create its process. */
  predicate MayCreate(s: State) {
    s.launch.Some? && s.launch.value.Committed? && s.launch.value.task in s.tasks
  }

  predicate LaunchEnabled(s: State, l: LaunchStep) {
    match l
    case PlaceCheck => s.actor.Placing? && s.launch.None?
    case Admit => s.actor.Admitting? && s.launch == Some(Checked(s.actor.exchange))
    case ResumeCheck(e, byActor) => s.launch.None? && (if byActor then s.actor == Resuming(e) else s.recovering)
    case SpawnCheck => s.launch.None?
    case RestartCheck(t) => s.launch.None? && s.recovering && t in s.orphans && t in s.tasks
    case Commit(t, at) => s.launch.Some? && s.launch.value.Admitted? && t !in s.tasks
    case CreateBackground(branch) =>
      MayCreate(s) && s.tasks[s.launch.value.task].exchange.None? && !LaunchAssembles(s) &&
      s.launch.value.task !in s.processes
    case RefuseBudget(day, notify) =>
      s.launch.Some? && s.launch.value.Admitted? && s.launch.value.target.Some? && (s.actor.Admitting? ==> notify)
    case AbortLaunch => s.launch.Some? && !LaunchAssembles(s)
  }

  predicate ViewEnabled(s: State, l: ViewStep) {
    match l
    case AppendOther(m) => m.role != User || m.kind == Material
    case AppendPrivate(t, entry) => t in s.processes
    case Snapshot(purpose, tailCount, topics, others) =>
      s.assembly.None? && tailCount <= |s.narrative| && |s.narrative| <= |s.log| &&
      (forall k :: 0 <= k < |topics| ==> topics[k].role == System) &&
      (match purpose
       case ForLaunch => MayCreate(s)
       case ForSync(t) => t in s.processes && s.processes[t].narrativeBuilt
       case ForTrim => true)
    case FinishAssembly(system) =>
      Assembled(s) &&
      (match s.assembly.value.purpose
       case ForLaunch => MayCreate(s)
       case ForSync(t) => t in s.processes && s.processes[t].syncedLen <= |s.processes[t].branch|
       case ForTrim => true)
    case AbortAssembly => s.assembly.Some?
  }

  predicate EndEnabled(s: State, l: EndStep) {
    match l
    case CancelRun(t) => t in s.processes
    case Terminate(t, outcome) =>
      t in s.processes && Outcome(outcome) && !(s.assembly.Some? && s.assembly.value.purpose == ForSync(t))
    case Settle => s.actor.Idle? && s.inbox != []
    case DropCommand => s.actor.Idle? && s.inbox != []
  }

  predicate Enabled(s: State, l: Label) {
    match l
    case OnStore(store) => StoreEnabled(s, store)
    case OnRoute(route) => RouteEnabled(s, route)
    case OnLaunch(launch) => LaunchEnabled(s, launch)
    case OnView(view) => ViewEnabled(s, view)
    case OnEnd(end) => EndEnabled(s, end)
  }

  /** Free the actor if it was waiting for the launch that just ended. */
  function AfterLaunch(actor: Actor): Actor {
    if actor.Launching? then Idle else actor
  }

  /** Give up the message being placed; the user is told. */
  function Refuse(s: State): State {
    if s.actor.Placing? || s.actor.Admitting?
    then s.(refused := s.refused + {s.actor.index}, actor := Idle)
    else s.(actor := AfterLaunch(s.actor))
  }

  /** Give up the message being placed in silence. */
  function Forget(s: State): State {
    if s.actor.Placing? || s.actor.Admitting?
    then s.(dropped := s.dropped + {s.actor.index}, actor := Idle)
    else s.(actor := AfterLaunch(s.actor))
  }

  /** The plan's budget refuses the start; the note goes out once a day. */
  function BudgetRefused(s: State, day: nat, notify: bool): State {
    if notify && s.noted != Some(day) then Refuse(s).(launch := None, noted := Some(day))
    else Forget(s).(launch := None)
  }

  function Attach(s: State, m: Message): State
    requires s.actor.Routing?
  {
    s.(log := s.log + [m], narrative := s.narrative + [m],
       actor := if m.exchange.Some? then Placing(m.exchange.value, |s.log|, s.actor.cancelled) else Idle)
  }

  function CommitTask(s: State, t: TaskId, at: nat): State
    requires s.launch.Some? && s.launch.value.Admitted?
  {
    var target := s.launch.value.target;
    s.(tasks := s.tasks[t := TaskRow(target, at)],
       exchanges := if target.Some? && target.value in s.exchanges
                    then s.exchanges[target.value := InProgress] else s.exchanges,
       launch := Some(Committed(t)),
       actor := if s.actor.Admitting? then Launching else s.actor)
  }

  /** How many compacted messages the snapshot lets the actor forget. */
  function Drop(s: State): nat
    requires s.assembly.Some? && s.assembly.value.tailCount <= s.assembly.value.snapshotLen
  {
    s.assembly.value.snapshotLen - s.assembly.value.tailCount
  }

  predicate Assembled(s: State) {
    s.assembly.Some? && |s.narrative| <= |s.log| &&
    s.assembly.value.tailCount <= s.assembly.value.snapshotLen <= |s.narrative|
  }

  function SnapshotTail(s: State): seq<Message>
    requires Assembled(s)
  {
    s.narrative[Drop(s)..s.assembly.value.snapshotLen]
  }

  function FinishTrim(s: State): State
    requires Assembled(s)
  {
    s.(narrative := s.narrative[Drop(s)..], processes := Shifted(s, Drop(s)), assembly := None)
  }

  function FinishSync(s: State, system: Entry, t: TaskId): State
    requires Assembled(s) && t in s.processes && s.processes[t].syncedLen <= |s.processes[t].branch|
  {
    var shifted := Shifted(s, Drop(s));
    var p := Resynced(shifted[t], system, s.assembly.value, SnapshotTail(s), Base(s) + Drop(s));
    s.(narrative := s.narrative[Drop(s)..], processes := shifted[t := p], assembly := None)
  }

  function FinishLaunch(s: State, system: Entry): State
    requires Assembled(s) && MayCreate(s)
  {
    var t := s.launch.value.task;
    var p := NewAnswer(system, s.tasks[t].exchange, s.assembly.value, SnapshotTail(s), Base(s) + Drop(s));
    s.(narrative := s.narrative[Drop(s)..], processes := Shifted(s, Drop(s))[t := p], assembly := None,
       launch := None, actor := AfterLaunch(s.actor))
  }

  function Finish(s: State, system: Entry): State
    requires ViewEnabled(s, FinishAssembly(system))
  {
    match s.assembly.value.purpose
    case ForTrim => FinishTrim(s)
    case ForSync(t) => FinishSync(s, system, t)
    case ForLaunch => FinishLaunch(s, system)
  }

  function Terminating(s: State, t: TaskId, outcome: Status): State
    requires t in s.processes
  {
    var p := s.processes[t];
    s.(processes := s.processes - {t},
       inbox := s.inbox + [Terminated(t, p.exchange, outcome, UnseenKind(s.narrative, p), p.trail, |s.log|)])
  }

  function Settling(s: State): State
    requires s.inbox != []
  {
    var c := s.inbox[0];
    var rest := s.(inbox := s.inbox[1..]);
    if SettleApplies(s, c)
    then rest.(exchanges := s.exchanges[c.exchange.value := SettleTarget(c)],
               actor := if Reopens(c) then Resuming(c.exchange.value) else s.actor)
    else rest
  }

  /** set_status: the row changes if there is one. */
  function Rewritten(exchanges: map<ExchangeId, Status>, e: ExchangeId, status: Status): map<ExchangeId, Status> {
    if e in exchanges then exchanges[e := status] else exchanges
  }

  function ApplyStore(s: State, l: StoreStep): State
    requires StoreEnabled(s, l)
  {
    match l
    case CreateExchange(e, status) => s.(exchanges := s.exchanges[e := status])
    case AskUser(t) =>
      var e := s.processes[t].exchange.value;
      if e in s.exchanges then s.(exchanges := s.exchanges[e := AwaitingUser]) else s
    case SetStatus(e, status) => s.(exchanges := s.exchanges[e := status])
  }

  function ApplyRoute(s: State, l: RouteStep): State
    requires RouteEnabled(s, l)
  {
    match l
    case EndRecovery => s.(recovering := false)
    case BeginRoute => s.(actor := Routing({}, None))
    case FlagCancel(e, run) =>
      s.(processes := if run.Some? then Flagged(s.processes, run.value) else s.processes,
         actor := Routing(s.actor.cancelled, Some(e)))
    case WriteCancel =>
      var e := s.actor.flagged.value;
      if e in s.exchanges
      then s.(exchanges := s.exchanges[e := Cancelled], actor := Routing(s.actor.cancelled + {e}, None))
      else s.(actor := Routing(s.actor.cancelled, None))
    case AttachMessage(m) => Attach(s, m)
    case DropSubmit => if s.actor.Routing? then s.(actor := Idle) else Forget(s)
    case PromoteCheck(c, t) => s.(actor := Promoting(c, t))
    case PromoteMove =>
      s.(exchanges := Rewritten(s.exchanges, s.actor.collection, Cancelled), actor := Moved(s.actor.target))
    case PromoteWrite =>
      if s.actor.Moved? && HasRun(s, s.actor.target) then s.(actor := Idle)
      else s.(exchanges := Rewritten(s.exchanges, s.actor.target, Open), actor := Resuming(s.actor.target))
    case Sweep(e) => s.(actor := Resuming(e))
    case DropResume => s.(actor := Idle)
  }

  function ApplyLaunch(s: State, l: LaunchStep): State
    requires LaunchEnabled(s, l)
  {
    match l
    case PlaceCheck =>
      if HasRun(s, s.actor.exchange) then s.(actor := Idle)
      else s.(launch := Some(Checked(s.actor.exchange)),
              actor := Admitting(s.actor.exchange, s.actor.index, s.actor.cancelled))
    case Admit =>
      if ExceedsLimit(s, s.actor.cancelled) then Refuse(s).(launch := None)
      else s.(launch := Some(Admitted(Some(s.actor.exchange))))
    case ResumeCheck(e, byActor) =>
      if e in s.exchanges && s.exchanges[e] == Open && !HasRun(s, e) && !ExceedsLimit(s, {})
      then s.(launch := Some(Admitted(Some(e))), actor := if byActor then Launching else s.actor)
      else s.(actor := if byActor then Idle else s.actor)
    case SpawnCheck =>
      if |s.processes| >= s.maxProcesses then s else s.(launch := Some(Admitted(None)))
    case RestartCheck(t) =>
      s.(orphans := s.orphans - {t},
         launch := if |s.processes| >= s.maxProcesses then None else Some(Committed(t)))
    case Commit(t, at) => CommitTask(s, t, at)
    case CreateBackground(branch) =>
      s.(processes := s.processes[s.launch.value.task := NewBackground(branch)], launch := None,
         actor := AfterLaunch(s.actor))
    case RefuseBudget(day, notify) => BudgetRefused(s, day, notify)
    case AbortLaunch => Forget(s).(launch := None)
  }

  function ApplyView(s: State, l: ViewStep): State
    requires ViewEnabled(s, l)
  {
    match l
    case AppendOther(m) => s.(log := s.log + [m], narrative := s.narrative + [m])
    case AppendPrivate(t, entry) =>
      var p := s.processes[t];
      s.(processes := s.processes[t := p.(branch := p.branch + [entry],
                                          trail := p.trail.(private := p.trail.private + [entry]))])
    case Snapshot(purpose, tailCount, topics, others) =>
      s.(assembly := Some(Assembly(purpose, |s.narrative|, tailCount, topics, others)))
    case FinishAssembly(system) => Finish(s, system)
    case AbortAssembly => s.(assembly := None)
  }

  function ApplyEnd(s: State, l: EndStep): State
    requires EndEnabled(s, l)
  {
    match l
    case CancelRun(t) => s.(processes := Flagged(s.processes, t))
    case Terminate(t, outcome) => Terminating(s, t, outcome)
    case Settle => Settling(s)
    case DropCommand => s.(inbox := s.inbox[1..])
  }

  function Apply(s: State, l: Label): State
    requires Enabled(s, l)
  {
    match l
    case OnStore(store) => ApplyStore(s, store)
    case OnRoute(route) => ApplyRoute(s, route)
    case OnLaunch(launch) => ApplyLaunch(s, launch)
    case OnView(view) => ApplyView(s, view)
    case OnEnd(end) => ApplyEnd(s, end)
  }

  // ----- runs of the machine

  /** An actor that has just loaded its dialog: any history, tasks, orphans and exchanges, no runs. */
  predicate Initial(s: State) {
    s.log == s.narrative && s.processes == map[] && s.inbox == [] && s.actor == Idle && s.launch == None &&
    s.assembly == None && s.refused == {} && s.dropped == {} && s.recovering && s.orphans <= s.tasks.Keys
  }

  predicate Valid(s: State, labels: seq<Label>)
    decreases |labels|
  {
    labels == [] || (Enabled(s, labels[0]) && Valid(Apply(s, labels[0]), labels[1..]))
  }

  function End(s: State, labels: seq<Label>): State
    requires Valid(s, labels)
    decreases |labels|
  {
    if labels == [] then s else End(Apply(s, labels[0]), labels[1..])
  }
}
