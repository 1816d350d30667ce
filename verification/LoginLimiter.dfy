/**
 The per-client failure budget (server auth.py, `AttemptLimiter`): an ordered table of
 (count, last failure), checked against the plain log of each client's failures.
 */
module LoginLimiter {
  import opened Domain

  type Client = nat

  datatype Entry = Entry(client: Client, count: nat, last: real)
  datatype Limits = Limits(maxFailures: int, cooldown: real, maxClients: nat)

  /** The ordered dictionary, oldest entry first. */
  type Table = seq<Entry>

  function Lookup(t: Table, c: Client): Option<Entry> {
    if t == [] then None else if t[0].client == c then Some(t[0]) else Lookup(t[1..], c)
  }

  function Without(t: Table, c: Client): Table {
    if t == [] then [] else if t[0].client == c then Without(t[1..], c) else [t[0]] + Without(t[1..], c)
  }

  predicate Verdict(l: Limits, t: Table, c: Client, now: real) {
    var e := Lookup(t, c);
    e.Some? && now - e.value.last < l.cooldown && e.value.count >= l.maxFailures
  }

  /** A check drops the client's entry once its cooldown is over. */
  function Checked(l: Limits, t: Table, c: Client, now: real): Table {
    var e := Lookup(t, c);
    if e.Some? && now - e.value.last >= l.cooldown then Without(t, c) else t
  }

  function NewCount(l: Limits, t: Table, c: Client, now: real): nat {
    var e := Lookup(t, c);
    if e.Some? && now - e.value.last < l.cooldown then e.value.count + 1 else 1
  }

  /** The table with the failure counted and its client moved to the end, before eviction. */
  function Counted(l: Limits, t: Table, c: Client, now: real): Table {
    Without(t, c) + [Entry(c, NewCount(l, t, c, now), now)]
  }

  function Trimmed(l: Limits, t: Table): Table {
    if |t| > l.maxClients then t[|t| - l.maxClients..] else t
  }

  class AttemptLimiter {
    const limits: Limits
    var entries: Table

    constructor (l: Limits)
      ensures limits == l && entries == []
    {
      limits, entries := l, [];
    }

    method Blocked(client: Client, now: real) returns (blocked: bool)
      modifies this
      ensures blocked <==> Verdict(limits, old(entries), client, now)
      ensures entries == Checked(limits, old(entries), client, now)
    {
      var entry := Lookup(entries, client);
      if entry.None? {
        return false;
      }
      if now - entry.value.last >= limits.cooldown {
        entries := Without(entries, client);
        return false;
      }
      return entry.value.count >= limits.maxFailures;
    }

    method RecordFailure(client: Client, now: real)
      modifies this
      ensures entries == Trimmed(limits, Counted(limits, old(entries), client, now))
    {
      var entry := Lookup(entries, client);
      var count, last := 0, now;
      if entry.Some? {
        count, last := entry.value.count, entry.value.last;
      }
      if now - last >= limits.cooldown {
        count := 0;
      }
      entries := Without(entries, client) + [Entry(client, count + 1, now)];
      ghost var counted := entries;
      while |entries| > limits.maxClients
        invariant |entries| <= |counted| && entries == counted[|counted| - |entries|..]
        invariant |entries| < |counted| ==> |entries| >= limits.maxClients
        decreases |entries|
      {
        entries := entries[1..];
      }
    }

    method RecordSuccess(client: Client)
      modifies this
      ensures entries == Without(old(entries), client)
    {
      entries := Without(entries, client);
    }
  }

  // -------------------------------------------------------------------------------------
  // Every run of checks, failures and successes by any number of clients.
  // -------------------------------------------------------------------------------------

  /**
   `log` holds each client's failures since it was last forgotten (by a success or an
   eviction); `open`, how many attempts of each client a check let through and nothing ended.
   */
  datatype State = State(table: Table, clock: real, log: map<Client, seq<real>>, open: map<Client, nat>)

  datatype Step =
    | Check(client: Client, now: real)
    | Fail(client: Client, now: real)
    | Succeed(client: Client)

  function Initial(): State {
    State([], 0.0, map[], map[])
  }

  /** The clock is monotonic. */
  predicate Enabled(s: State, a: Step) {
    a.Succeed? || a.now >= s.clock
  }

  function LogOf(s: State, c: Client): seq<real> {
    if c in s.log then s.log[c] else []
  }

  function OpenOf(s: State, c: Client): nat {
    if c in s.open then s.open[c] else 0
  }

  /** One of the client's attempts has ended. */
  function Closed(s: State, c: Client): map<Client, nat> {
    s.open[c := if OpenOf(s, c) > 0 then OpenOf(s, c) - 1 else 0]
  }

  /** The clients in `before` that eviction dropped. */
  predicate Evicted(before: Table, after: Table, c: Client) {
    Lookup(before, c).Some? && Lookup(after, c).None?
  }

  function Logged(s: State, counted: Table, kept: Table, c: Client, now: real): map<Client, seq<real>> {
    map x | x in s.log.Keys + {c} ::
      if Evicted(counted, kept, x) then [] else if x == c then LogOf(s, c) + [now] else LogOf(s, x)
  }

  function Apply(l: Limits, s: State, a: Step): State {
    match a
    case Check(c, now) =>
      State(Checked(l, s.table, c, now), now, s.log,
            if Verdict(l, s.table, c, now) then s.open else s.open[c := OpenOf(s, c) + 1])
    case Fail(c, now) =>
      var counted := Counted(l, s.table, c, now);
      var kept := Trimmed(l, counted);
      State(kept, now, Logged(s, counted, kept, c, now), Closed(s, c))
    case Succeed(c) => State(Without(s.table, c), s.clock, s.log[c := []], Closed(s, c))
  }

  predicate Valid(l: Limits, s: State, steps: seq<Step>)
    decreases |steps|
  {
    steps == [] || (Enabled(s, steps[0]) && Valid(l, Apply(l, s, steps[0]), steps[1..]))
  }

  function End(l: Limits, s: State, steps: seq<Step>): State
    decreases |steps|
  {
    if steps == [] then s else End(l, Apply(l, s, steps[0]), steps[1..])
  }

  // -------------------------------------------------------------------------------------
  // The specification over the log.
  // -------------------------------------------------------------------------------------

  /** How many failures at the end of the log follow each other within the cooldown. */
  function Streak(l: Limits, log: seq<real>): nat
    decreases |log|
  {
    var n := |log|;
    if n <= 1 then n
    else if log[n - 1] - log[n - 2] < l.cooldown then Streak(l, log[..n - 1]) + 1
    else 1
  }

  /** The client is refused: its streak used the budget and its cooldown is not over. */
  predicate Refused(l: Limits, log: seq<real>, now: real) {
    log != [] && now - log[|log| - 1] < l.cooldown && Streak(l, log) >= l.maxFailures
  }

  ghost predicate Sorted(log: seq<real>) {
    forall i, j :: 0 <= i < j < |log| ==> log[i] <= log[j]
  }

  ghost predicate Distinct(t: Table) {
    forall i, j :: 0 <= i < j < |t| ==> t[i].client != t[j].client
  }

  /** One entry per client, the longest quiet first. */
  ghost predicate Ordered(t: Table, clock: real) {
    && Distinct(t)
    && (forall i, j :: 0 <= i < j < |t| ==> t[i].last <= t[j].last)
    && (forall i :: 0 <= i < |t| ==> t[i].last <= clock)
  }

  /** What the table knows of a client is what its log says. */
  ghost predicate Tells(l: Limits, e: Option<Entry>, log: seq<real>, clock: real) {
    && Sorted(log)
    && (log != [] ==> log[|log| - 1] <= clock)
    && match e
       case Some(entry) => log != [] && entry.last == log[|log| - 1] && entry.count == Streak(l, log)
       case None => log != [] ==> clock - log[|log| - 1] >= l.cooldown
  }

  ghost predicate Inv(l: Limits, s: State) {
    |s.table| <= l.maxClients && Ordered(s.table, s.clock) &&
    forall c :: Tells(l, Lookup(s.table, c), LogOf(s, c), s.clock)
  }

  // Ordered-dictionary facts.

  lemma {:induction false} LookupAt(t: Table, i: nat)
    requires i < |t| && Distinct(t)
    ensures Lookup(t, t[i].client) == Some(t[i])
  {
    if i > 0 { LookupAt(t[1..], i - 1); }
  }

  lemma {:induction false} LookupSome(t: Table, c: Client)
    ensures Lookup(t, c).Some? <==> exists i :: 0 <= i < |t| && t[i].client == c
    ensures Lookup(t, c).Some? ==> Lookup(t, c).value in t && Lookup(t, c).value.client == c
  {
    if t != [] {
      LookupSome(t[1..], c);
      assert forall i :: 1 <= i < |t| ==> t[i] == t[1..][i - 1];
    }
  }

  lemma {:induction false} WithoutLookup(t: Table, c: Client, x: Client)
    ensures Lookup(Without(t, c), x) == if x == c then None else Lookup(t, x)
  {
    if t != [] {
      WithoutLookup(t[1..], c, x);
      assert t[0].client != c ==> Without(t, c)[1..] == Without(t[1..], c);
    }
  }

  /** A check forgets its client exactly when the cooldown is over, and nobody else. */
  lemma CheckedForgets(l: Limits, t: Table, c: Client, now: real, x: Client)
    ensures Lookup(Checked(l, t, c, now), x) ==
            if x == c && Lookup(t, c).Some? && now - Lookup(t, c).value.last >= l.cooldown then None else Lookup(t, x)
  {
    WithoutLookup(t, c, x);
  }

  lemma {:induction false} LookupConcat(a: Table, b: Table, x: Client)
    ensures Lookup(a + b, x) == if Lookup(a, x).Some? then Lookup(a, x) else Lookup(b, x)
  {
    if a == [] {
      assert a + b == b;
    } else {
      assert (a + b)[1..] == a[1..] + b;
      LookupConcat(a[1..], b, x);
    }
  }

  lemma {:induction false} WithoutIn(t: Table, c: Client)
    ensures forall e :: e in Without(t, c) ==> e in t && e.client != c
    ensures |Without(t, c)| <= |t|
  {
    if t != [] { WithoutIn(t[1..], c); }
  }

  lemma {:induction false} WithoutOrdered(t: Table, c: Client, clock: real)
    requires Ordered(t, clock)
    ensures Ordered(Without(t, c), clock)
  {
    if t != [] {
      assert Ordered(t[1..], clock);
      WithoutOrdered(t[1..], c, clock);
      WithoutIn(t[1..], c);
      if t[0].client != c { PrependOrdered(t, Without(t[1..], c), clock); }
    }
  }

  /** The head of an ordered table may stand before any ordered part of its rest. */
  lemma PrependOrdered(t: Table, w: Table, clock: real)
    requires t != [] && Ordered(t, clock) && Ordered(w, clock) && forall e :: e in w ==> e in t[1..]
    ensures Ordered([t[0]] + w, clock)
  {
    forall j | 0 <= j < |w| ensures w[j].client != t[0].client && t[0].last <= w[j].last {
      assert w[j] in t[1..];
      var k :| 0 <= k < |t[1..]| && t[1..][k] == w[j];
      assert t[k + 1] == w[j];
    }
  }

  /** Where the table is cut, and what a client of the kept part looks like in it. */
  lemma SuffixLookup(t: Table, k: nat, x: Client) returns (i: nat)
    requires k <= |t| && Distinct(t) && Lookup(t[k..], x).Some?
    ensures k <= i < |t| && t[i].client == x
    ensures Lookup(t[k..], x) == Lookup(t, x) == Some(t[i])
  {
    var kept := t[k..];
    LookupSome(kept, x);
    var j :| 0 <= j < |kept| && kept[j].client == x;
    i := k + j;
    assert kept[j] == t[i];
    LookupAt(kept, j);
    LookupAt(t, i);
  }

  lemma SuffixHas(t: Table, k: nat, i: nat)
    requires k <= i < |t|
    ensures Lookup(t[k..], t[i].client).Some?
  {
    assert t[k..][i - k] == t[i];
    LookupSome(t[k..], t[i].client);
  }

  function Cut(l: Limits, t: Table): (k: nat)
    ensures k <= |t| && Trimmed(l, t) == t[k..]
  {
    if |t| > l.maxClients then |t| - l.maxClients else 0
  }

  /** Eviction keeps the entries it keeps as they are. */
  lemma TrimmedLookup(l: Limits, t: Table, x: Client, clock: real)
    requires Ordered(t, clock)
    ensures Lookup(Trimmed(l, t), x).Some? ==> Lookup(Trimmed(l, t), x) == Lookup(t, x)
    ensures Ordered(Trimmed(l, t), clock) && |Trimmed(l, t)| <= l.maxClients
  {
    if Lookup(Trimmed(l, t), x).Some? { var i := SuffixLookup(t, Cut(l, t), x); }
  }

  /** Eviction takes the clients that failed longest ago. */
  lemma EvictionTakesOldest(l: Limits, t: Table, clock: real, gone: Client, stays: Client)
    requires Ordered(t, clock)
    requires Evicted(t, Trimmed(l, t), gone) && Lookup(Trimmed(l, t), stays).Some?
    ensures Lookup(t, stays).Some? && Lookup(t, gone).value.last <= Lookup(t, stays).value.last
    ensures |Trimmed(l, t)| == l.maxClients
  {
    var k := Cut(l, t);
    var j := SuffixLookup(t, k, stays);
    LookupSome(t, gone);
    var i :| 0 <= i < |t| && t[i].client == gone;
    LookupAt(t, i);
    if i >= k { SuffixHas(t, k, i); }
  }

  // -------------------------------------------------------------------------------------
  // The invariant.
  // -------------------------------------------------------------------------------------

  lemma CheckInv(l: Limits, s: State, c: Client, now: real)
    requires Inv(l, s) && now >= s.clock
    ensures Inv(l, Apply(l, s, Check(c, now)))
  {
    var v := Apply(l, s, Check(c, now));
    WithoutOrdered(s.table, c, s.clock);
    WithoutIn(s.table, c);
    forall x ensures Tells(l, Lookup(v.table, x), LogOf(v, x), v.clock) {
      WithoutLookup(s.table, c, x);
      assert Tells(l, Lookup(s.table, x), LogOf(s, x), s.clock);
    }
  }

  lemma SucceedInv(l: Limits, s: State, c: Client)
    requires Inv(l, s)
    ensures Inv(l, Apply(l, s, Succeed(c)))
  {
    var v := Apply(l, s, Succeed(c));
    WithoutOrdered(s.table, c, s.clock);
    WithoutIn(s.table, c);
    forall x ensures Tells(l, Lookup(v.table, x), LogOf(v, x), v.clock) {
      WithoutLookup(s.table, c, x);
      assert Tells(l, Lookup(s.table, x), LogOf(s, x), s.clock);
    }
  }

  lemma StreakGrows(l: Limits, log: seq<real>, now: real)
    ensures Streak(l, log + [now]) ==
            if log != [] && now - log[|log| - 1] < l.cooldown then Streak(l, log) + 1 else 1
  {
    assert (log + [now])[..|log|] == log;
  }

  /** One more failure counts the streak on. */
  lemma CountTells(l: Limits, e: Option<Entry>, log: seq<real>, clock: real, c: Client, now: real)
    requires Tells(l, e, log, clock) && now >= clock
    ensures Tells(l, Some(Entry(c, if e.Some? && now - e.value.last < l.cooldown then e.value.count + 1 else 1, now)),
                  log + [now], now)
  {
    StreakGrows(l, log, now);
  }

  lemma CountedOrdered(l: Limits, t: Table, c: Client, clock: real, now: real)
    requires Ordered(t, clock) && now >= clock
    ensures Ordered(Counted(l, t, c, now), now)
  {
    WithoutOrdered(t, c, clock);
    WithoutIn(t, c);
    var w := Without(t, c);
    assert forall i :: 0 <= i < |w| ==> w[i] in w;
  }

  lemma FailInv(l: Limits, s: State, c: Client, now: real)
    requires Inv(l, s) && now >= s.clock
    ensures Inv(l, Apply(l, s, Fail(c, now)))
  {
    var v := Apply(l, s, Fail(c, now));
    CountedOrdered(l, s.table, c, s.clock, now);
    TrimmedLookup(l, Counted(l, s.table, c, now), c, now);
    forall x ensures Tells(l, Lookup(v.table, x), LogOf(v, x), now) {
      FailTells(l, s, c, now, x);
    }
  }

  /** The failing client's new entry is found before eviction; the others are as they were. */
  lemma CountedLookup(l: Limits, t: Table, c: Client, now: real, x: Client)
    ensures Lookup(Counted(l, t, c, now), x) ==
            if x == c then Some(Entry(c, NewCount(l, t, c, now), now)) else Lookup(t, x)
  {
    var entry := Entry(c, NewCount(l, t, c, now), now);
    WithoutLookup(t, c, x);
    LookupConcat(Without(t, c), [entry], x);
    assert Lookup([entry], x) == if x == c then Some(entry) else None by { assert [entry][1..] == []; }
  }

  lemma FailTells(l: Limits, s: State, c: Client, now: real, x: Client)
    requires Inv(l, s) && now >= s.clock && Ordered(Counted(l, s.table, c, now), now)
    ensures var v := Apply(l, s, Fail(c, now)); Tells(l, Lookup(v.table, x), LogOf(v, x), now)
  {
    CountedLookup(l, s.table, c, now, x);
    TrimmedLookup(l, Counted(l, s.table, c, now), x, now);
    assert Tells(l, Lookup(s.table, x), LogOf(s, x), s.clock);
    if x == c { CountTells(l, Lookup(s.table, c), LogOf(s, c), s.clock, c, now); }
  }

  lemma {:induction false} RunInv(l: Limits, s: State, steps: seq<Step>)
    requires Inv(l, s) && Valid(l, s, steps)
    ensures Inv(l, End(l, s, steps))
    decreases |steps|
  {
    if steps != [] {
      StepInv(l, s, steps[0]);
      RunInv(l, Apply(l, s, steps[0]), steps[1..]);
    }
  }

  lemma StepInv(l: Limits, s: State, a: Step)
    requires Inv(l, s) && Enabled(s, a)
    ensures Inv(l, Apply(l, s, a))
  {
    match a
    case Check(c, now) => CheckInv(l, s, c, now);
    case Fail(c, now) => FailInv(l, s, c, now);
    case Succeed(c) => SucceedInv(l, s, c);
  }

  /**
   After every run, by any number of clients, the verdict on a client is the specification
   over its failures since it was last forgotten, and the table is within its bound.
   */
  lemma VerdictIsSpecified(l: Limits, steps: seq<Step>, c: Client, now: real)
    requires Valid(l, Initial(), steps) && now >= End(l, Initial(), steps).clock
    ensures
      var s := End(l, Initial(), steps);
      && (Verdict(l, s.table, c, now) <==> Refused(l, LogOf(s, c), now))
      && |s.table| <= l.maxClients
  {
    RunInv(l, Initial(), steps);
    var s := End(l, Initial(), steps);
    assert Tells(l, Lookup(s.table, c), LogOf(s, c), s.clock);
  }

  // -------------------------------------------------------------------------------------
  // The budget.
  // -------------------------------------------------------------------------------------

  /** Client `c` ends only attempts that a check let through, and never has more than `k` of them open. */
  predicate InFlight(l: Limits, s: State, steps: seq<Step>, c: Client, k: nat)
    decreases |steps|
  {
    OpenOf(s, c) <= k &&
    (steps == [] ||
     ((steps[0].client == c && !steps[0].Check? ==> OpenOf(s, c) > 0) &&
      InFlight(l, Apply(l, s, steps[0]), steps[1..], c, k)))
  }

  /** An untried client's first failure is always recorded, so the budget is at least one. */
  function Budget(l: Limits): int {
    if l.maxFailures >= 1 then l.maxFailures else 1
  }

  /** The streak that still counts at `clock`. */
  function Running(l: Limits, log: seq<real>, clock: real): nat {
    if log != [] && clock - log[|log| - 1] < l.cooldown then Streak(l, log) else 0
  }

  /** What is spent and what the open attempts may still spend. */
  ghost predicate Spends(l: Limits, s: State, c: Client, k: nat) {
    && (forall n :: 0 <= n <= |LogOf(s, c)| ==> Streak(l, LogOf(s, c)[..n]) <= Budget(l) + k - 1)
    && Running(l, LogOf(s, c), s.clock) + OpenOf(s, c) <= Budget(l) + k - 1
  }

  lemma StepSpends(l: Limits, s: State, a: Step, c: Client, k: nat)
    requires Inv(l, s) && Enabled(s, a) && Spends(l, s, c, k) && 1 <= k
    requires a.client == c && !a.Check? ==> OpenOf(s, c) > 0
    requires OpenOf(s, c) <= k && OpenOf(Apply(l, s, a), c) <= k
    ensures Spends(l, Apply(l, s, a), c, k)
  {
    match a
    case Check(x, now) => CheckSpends(l, s, x, now, c, k);
    case Succeed(x) =>
    case Fail(x, now) =>
      var v := Apply(l, s, a);
      var log := LogOf(s, c);
      assert LogOf(v, c) == [] || LogOf(v, c) == if x == c then log + [now] else log;
      if x == c { FailSpends(l, log, s.clock, now, OpenOf(s, c), k); }
  }

  /** A check lets through only a client that the log does not refuse. */
  lemma CheckSpends(l: Limits, s: State, x: Client, now: real, c: Client, k: nat)
    requires Inv(l, s) && now >= s.clock && Spends(l, s, c, k) && 1 <= k
    requires OpenOf(Apply(l, s, Check(x, now)), c) <= k
    ensures Spends(l, Apply(l, s, Check(x, now)), c, k)
  {
    assert Tells(l, Lookup(s.table, c), LogOf(s, c), s.clock);
    assert LogOf(Apply(l, s, Check(x, now)), c) == LogOf(s, c);
  }

  lemma FailSpends(l: Limits, log: seq<real>, clock: real, now: real, open: nat, k: nat)
    requires forall n :: 0 <= n <= |log| ==> Streak(l, log[..n]) <= Budget(l) + k - 1
    requires Running(l, log, clock) + open <= Budget(l) + k - 1 && 1 <= open <= k && now >= clock
    ensures forall n :: 0 <= n <= |log| + 1 ==> Streak(l, (log + [now])[..n]) <= Budget(l) + k - 1
    ensures Running(l, log + [now], now) + open - 1 <= Budget(l) + k - 1
  {
    StreakGrows(l, log, now);
    forall n | 0 <= n <= |log| + 1 ensures Streak(l, (log + [now])[..n]) <= Budget(l) + k - 1 {
      if n <= |log| {
        assert (log + [now])[..n] == log[..n];
      } else {
        assert (log + [now])[..n] == log + [now];
      }
    }
  }

  lemma {:induction false} RunSpends(l: Limits, s: State, steps: seq<Step>, c: Client, k: nat)
    requires Inv(l, s) && Valid(l, s, steps) && Spends(l, s, c, k) && InFlight(l, s, steps, c, k) && 1 <= k
    ensures Spends(l, End(l, s, steps), c, k)
    decreases |steps|
  {
    if steps != [] {
      assert OpenOf(Apply(l, s, steps[0]), c) <= k;
      StepSpends(l, s, steps[0], c, k);
      StepInv(l, s, steps[0]);
      RunSpends(l, Apply(l, s, steps[0]), steps[1..], c, k);
    }
  }

  /** Failures inside one cooldown belong to one streak. */
  lemma {:induction false} WindowInStreak(l: Limits, log: seq<real>, i: nat, j: nat)
    requires Sorted(log) && i <= j < |log| && log[j] - log[i] < l.cooldown
    ensures Streak(l, log[..j + 1]) >= j - i + 1
    decreases j - i
  {
    if i < j {
      assert log[..j + 1][..j] == log[..j];
      WindowInStreak(l, log, i, j - 1);
    }
  }

  /**
   A client with at most `k` attempts in flight never has more failures than the budget and
   k - 1 in any half-open window of one cooldown, whatever the other clients do; with attempts
   that do not overlap, never more than the budget.
   */
  lemma LoginBudget(l: Limits, steps: seq<Step>, c: Client, k: nat, i: nat, j: nat)
    requires Valid(l, Initial(), steps) && InFlight(l, Initial(), steps, c, k) && 1 <= k
    requires i <= j < |LogOf(End(l, Initial(), steps), c)|
    requires LogOf(End(l, Initial(), steps), c)[j] - LogOf(End(l, Initial(), steps), c)[i] < l.cooldown
    ensures j - i + 1 <= Budget(l) + k - 1
  {
    var s := End(l, Initial(), steps);
    RunInv(l, Initial(), steps);
    RunSpends(l, Initial(), steps, c, k);
    assert Tells(l, Lookup(s.table, c), LogOf(s, c), s.clock);
    WindowInStreak(l, LogOf(s, c), i, j);
  }

  // ----- and that many do occur

  function Zeros(n: nat): (r: seq<real>)
    ensures |r| == n && forall i :: 0 <= i < n ==> r[i] == 0.0
  {
    seq(n, _ => 0.0)
  }

  /** Client 0 has failed `n` times at time 0 and has `open` attempts in flight. */
  ghost predicate FailedTimes(s: State, n: nat, open: nat) {
    && s.table == (if n == 0 then [] else [Entry(0, n, 0.0)])
    && s.clock == 0.0 && LogOf(s, 0) == Zeros(n) && OpenOf(s, 0) == open
  }

  predicate Roomy(l: Limits) {
    l.cooldown > 0.0 && l.maxClients >= 1
  }

  lemma OneMoreOpen(l: Limits, s: State, n: nat, open: nat)
    requires Roomy(l) && FailedTimes(s, n, open) && n < Budget(l)
    ensures FailedTimes(Apply(l, s, Check(0, 0.0)), n, open + 1)
  {
  }

  lemma OneMoreFailed(l: Limits, s: State, n: nat, open: nat)
    requires Roomy(l) && FailedTimes(s, n, open) && open > 0
    ensures FailedTimes(Apply(l, s, Fail(0, 0.0)), n + 1, open - 1)
  {
    var counted := Counted(l, s.table, 0, 0.0);
    assert Without(s.table, 0) == [] by { if n > 0 { assert s.table[1..] == []; } }
    assert counted == [Entry(0, n + 1, 0.0)];
    assert Trimmed(l, counted) == counted;
    assert !Evicted(counted, counted, 0);
    assert LogOf(Apply(l, s, Fail(0, 0.0)), 0) == Zeros(n) + [0.0] == Zeros(n + 1);
  }

  /** From `n` failures: `wait` more one at a time, then `opens` checks, then the open attempts all fail. */
  lemma {:induction false} Spending(l: Limits, s: State, n: nat, open: nat, wait: nat, opens: nat, k: nat)
    returns (steps: seq<Step>)
    requires Roomy(l) && FailedTimes(s, n, open) && open + opens <= k && 1 <= k && (wait > 0 ==> open == 0)
    requires n + wait < Budget(l) || (wait == 0 && opens == 0)
    ensures Valid(l, s, steps) && InFlight(l, s, steps, 0, k)
    ensures LogOf(End(l, s, steps), 0) == Zeros(n + wait + open + opens)
    decreases wait, opens, open
  {
    if wait > 0 {
      var s1 := Apply(l, s, Check(0, 0.0));
      OneMoreOpen(l, s, n, open);
      OneMoreFailed(l, s1, n, open + 1);
      var rest := Spending(l, Apply(l, s1, Fail(0, 0.0)), n + 1, open, wait - 1, opens, k);
      PrependStep(l, s1, Fail(0, 0.0), rest, k);
      steps := [Check(0, 0.0)] + ([Fail(0, 0.0)] + rest);
      PrependStep(l, s, Check(0, 0.0), [Fail(0, 0.0)] + rest, k);
    } else if opens > 0 {
      OneMoreOpen(l, s, n, open);
      var rest := Spending(l, Apply(l, s, Check(0, 0.0)), n, open + 1, 0, opens - 1, k);
      steps := [Check(0, 0.0)] + rest;
      PrependStep(l, s, Check(0, 0.0), rest, k);
    } else if open > 0 {
      OneMoreFailed(l, s, n, open);
      var rest := Spending(l, Apply(l, s, Fail(0, 0.0)), n + 1, open - 1, 0, 0, k);
      steps := [Fail(0, 0.0)] + rest;
      PrependStep(l, s, Fail(0, 0.0), rest, k);
    } else {
      steps := [];
    }
  }

  lemma PrependStep(l: Limits, s: State, a: Step, rest: seq<Step>, k: nat)
    requires Enabled(s, a) && Valid(l, Apply(l, s, a), rest) && InFlight(l, Apply(l, s, a), rest, 0, k)
    requires OpenOf(s, 0) <= k && (a.client == 0 && !a.Check? ==> OpenOf(s, 0) > 0)
    ensures Valid(l, s, [a] + rest) && InFlight(l, s, [a] + rest, 0, k)
    ensures End(l, s, [a] + rest) == End(l, Apply(l, s, a), rest)
  {
    assert ([a] + rest)[1..] == rest;
  }

  /** The bound is attained: with `k` attempts in flight, that many failures do fall together. */
  lemma BudgetIsSpent(l: Limits, k: nat) returns (steps: seq<Step>)
    requires Roomy(l) && 1 <= k
    ensures Valid(l, Initial(), steps) && InFlight(l, Initial(), steps, 0, k)
    ensures LogOf(End(l, Initial(), steps), 0) == Zeros(Budget(l) + k - 1)
  {
    steps := Spending(l, Initial(), 0, 0, Budget(l) - 1, k, k);
  }
}
