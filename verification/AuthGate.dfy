/**
 The login gate (server auth.py, `AuthGate.authenticate` and `CredentialCache`): two unequal
 credentials, a cache for each, and the failure budget. An attempt runs in two stretches,
 before and after the password is hashed in a worker thread; attempts overlap freely.
 */
module AuthGate {
  import opened Domain
  import L = LoginLimiter

  /** The Authorization header as sent; the cache key is its digest, taken to be collision-free. */
  type Header = nat

  datatype Credential = Credential(user: string, password: string)

  /** The configured credentials. Decoding and password verification are the environment's. */
  datatype Config = Config(username: string, passwordHash: string, serviceUsername: string, serviceHash: string,
                           isBasic: Header -> bool, decode: Header -> Option<Credential>,
                           verify: (string, string) -> bool,
                           limits: L.Limits, ttl: real, maxEntries: nat)

  datatype Cached = Cached(header: Header, expires: real)

  /** An ordered dictionary from header to expiry, oldest entry first. */
  type Cache = seq<Cached>

  function Find(t: Cache, h: Header): Option<Cached> {
    if t == [] then None else if t[0].header == h then Some(t[0]) else Find(t[1..], h)
  }

  function Removed(t: Cache, h: Header): Cache {
    if t == [] then [] else if t[0].header == h then Removed(t[1..], h) else [t[0]] + Removed(t[1..], h)
  }

  /** Assignment keeps the place of a key that is already there. */
  function Stored(t: Cache, c: Cached): Cache {
    if t == [] then [c] else if t[0].header == c.header then [c] + t[1..] else [t[0]] + Stored(t[1..], c)
  }

  predicate Holds(t: Cache, h: Header, now: real) {
    Find(t, h).Some? && Find(t, h).value.expires > now
  }

  /** The cache after a look-up: an expired entry is dropped. */
  function Looked(t: Cache, h: Header, now: real): Cache {
    if Find(t, h).Some? && Find(t, h).value.expires <= now then Removed(t, h) else t
  }

  function Remembered(cfg: Config, t: Cache, h: Header, now: real): Cache {
    var all := Stored(t, Cached(h, now + cfg.ttl));
    if |all| > cfg.maxEntries then all[|all| - cfg.maxEntries..] else all
  }

  class CredentialCache {
    const cfg: Config
    var entries: Cache

    constructor (config: Config)
      ensures cfg == config && entries == []
    {
      cfg, entries := config, [];
    }

    method IsValid(h: Header, now: real) returns (ok: bool)
      modifies this
      ensures ok <==> Holds(old(entries), h, now)
      ensures entries == Looked(old(entries), h, now)
    {
      var entry := Find(entries, h);
      if entry.None? {
        return false;
      }
      if entry.value.expires <= now {
        entries := Removed(entries, h);
        return false;
      }
      return true;
    }

    method Remember(h: Header, now: real)
      modifies this
      ensures entries == Remembered(cfg, old(entries), h, now)
    {
      entries := Stored(entries, Cached(h, now + cfg.ttl));
      ghost var all := entries;
      while |entries| > cfg.maxEntries
        invariant |entries| <= |all| && entries == all[|all| - |entries|..]
        invariant |entries| < |all| ==> |entries| >= cfg.maxEntries
        decreases |entries|
      {
        entries := entries[1..];
      }
    }
  }

  // -------------------------------------------------------------------------------------
  // One attempt.
  // -------------------------------------------------------------------------------------

  datatype Request = Request(header: Header, client: L.Client, serviceAllowed: bool)

  /** An attempt whose password is being hashed. */
  datatype Pending = Pending(request: Request, asService: bool, userOk: bool, password: string, expected: string)

  datatype Decision =
    | Misconfigured
    | Unauthorized
    | TooMany
    | Accepted
    | Hash(attempt: Pending)

  datatype Tables = Tables(failures: L.Table, cache: Cache, serviceCache: Cache)

  predicate Configured(cfg: Config) {
    cfg.username != "" && cfg.passwordHash != ""
  }

  predicate ServiceConfigured(cfg: Config) {
    cfg.serviceUsername != "" && cfg.serviceHash != ""
  }

  predicate MayServe(cfg: Config, r: Request) {
    r.serviceAllowed && ServiceConfigured(cfg)
  }

  /** Which hash an attempt is checked against. */
  function Attempt(cfg: Config, r: Request, c: Credential): Pending {
    var asService := MayServe(cfg, r) && c.user == cfg.serviceUsername;
    Pending(r, asService, asService || c.user == cfg.username, c.password,
            if asService then cfg.serviceHash else cfg.passwordHash)
  }

  function Decide(cfg: Config, t: Tables, r: Request, now: real): Decision {
    if !Configured(cfg) then Misconfigured
    else if !cfg.isBasic(r.header) then Unauthorized
    else if Holds(t.cache, r.header, now) then Accepted
    else if MayServe(cfg, r) && Holds(t.serviceCache, r.header, now) then Accepted
    else if L.Verdict(cfg.limits, t.failures, r.client, now) then TooMany
    else if cfg.decode(r.header).None? then Unauthorized
    else Hash(Attempt(cfg, r, cfg.decode(r.header).value))
  }

  /** The limiter operations of the first stretch. */
  function ArrivalSteps(cfg: Config, t: Tables, r: Request, now: real): seq<L.Step> {
    if !Configured(cfg) || !cfg.isBasic(r.header) || Decide(cfg, t, r, now).Accepted? then []
    else if Decide(cfg, t, r, now).Unauthorized? then [L.Check(r.client, now), L.Fail(r.client, now)]
    else [L.Check(r.client, now)]
  }

  /** What the first stretch leaves. */
  function Arrived(cfg: Config, t: Tables, r: Request, now: real): Tables {
    if !Configured(cfg) || !cfg.isBasic(r.header) then t
    else
      var cache := Looked(t.cache, r.header, now);
      if Holds(t.cache, r.header, now) then t
      else
        var service := if MayServe(cfg, r) then Looked(t.serviceCache, r.header, now) else t.serviceCache;
        if MayServe(cfg, r) && Holds(t.serviceCache, r.header, now) then Tables(t.failures, cache, service)
        else
          var checked := L.Checked(cfg.limits, t.failures, r.client, now);
          if !L.Verdict(cfg.limits, t.failures, r.client, now) && cfg.decode(r.header).None?
          then Tables(L.Trimmed(cfg.limits, L.Counted(cfg.limits, checked, r.client, now)), cache, service)
          else Tables(checked, cache, service)
  }

  predicate Verified(cfg: Config, p: Pending) {
    p.userOk && cfg.verify(p.password, p.expected)
  }

  /** The second stretch: a failure is counted; a success clears the client and is remembered. */
  function Completed(cfg: Config, t: Tables, p: Pending, now: real): Tables {
    if !Verified(cfg, p) then
      t.(failures := L.Trimmed(cfg.limits, L.Counted(cfg.limits, t.failures, p.request.client, now)))
    else
      var failures := L.Without(t.failures, p.request.client);
      if p.asService then Tables(failures, t.cache, Remembered(cfg, t.serviceCache, p.request.header, now))
      else Tables(failures, Remembered(cfg, t.cache, p.request.header, now), t.serviceCache)
  }

  class Gate {
    const cfg: Config
    const limiter: L.AttemptLimiter
    const cache: CredentialCache
    const serviceCache: CredentialCache

    ghost predicate Valid() {
      cache != serviceCache && cache.cfg == cfg && serviceCache.cfg == cfg && limiter.limits == cfg.limits
    }

    function Model(): Tables
      reads limiter, cache, serviceCache
    {
      Tables(limiter.entries, cache.entries, serviceCache.entries)
    }

    constructor (config: Config)
      ensures Valid() && cfg == config && Model() == Tables([], [], [])
      ensures fresh(limiter) && fresh(cache) && fresh(serviceCache)
    {
      cfg := config;
      limiter := new L.AttemptLimiter(config.limits);
      cache := new CredentialCache(config);
      serviceCache := new CredentialCache(config);
    }

    /** `authenticate` up to the hash. */
    method Authenticate(r: Request, now: real) returns (d: Decision)
      requires Valid()
      modifies limiter, cache, serviceCache
      ensures d == Decide(cfg, old(Model()), r, now)
      ensures Model() == Arrived(cfg, old(Model()), r, now)
    {
      if cfg.username == "" || cfg.passwordHash == "" {
        return Misconfigured;
      }
      if !cfg.isBasic(r.header) {
        return Unauthorized;
      }
      var known := cache.IsValid(r.header, now);
      if known {
        return Accepted;
      }
      if MayServe(cfg, r) {
        known := serviceCache.IsValid(r.header, now);
        if known {
          return Accepted;
        }
      }
      var blocked := limiter.Blocked(r.client, now);
      if blocked {
        return TooMany;
      }
      var candidate := cfg.decode(r.header);
      if candidate.None? {
        limiter.RecordFailure(r.client, now);
        return Unauthorized;
      }
      return Hash(Attempt(cfg, r, candidate.value));
    }

    /** `authenticate` from the hash on. */
    method Complete(p: Pending, now: real) returns (d: Decision)
      requires Valid()
      modifies limiter, cache, serviceCache
      ensures d == if Verified(cfg, p) then Accepted else Unauthorized
      ensures Model() == Completed(cfg, old(Model()), p, now)
    {
      var passwordOk := cfg.verify(p.password, p.expected);
      if !(p.userOk && passwordOk) {
        limiter.RecordFailure(p.request.client, now);
        return Unauthorized;
      }
      limiter.RecordSuccess(p.request.client);
      if p.asService {
        serviceCache.Remember(p.request.header, now);
      } else {
        cache.Remember(p.request.header, now);
      }
      return Accepted;
    }
  }

  // -------------------------------------------------------------------------------------
  // Every run of overlapping attempts.
  // -------------------------------------------------------------------------------------

  datatype Proof = Proof(header: Header, asService: bool, at: real)
  datatype Entry = Entry(request: Request, at: real)

  /** `proofs` are the passwords that verified, `entries` the requests that were let in. */
  datatype State = State(tables: Tables, clock: real, pending: seq<Pending>, proofs: seq<Proof>, entries: seq<Entry>)

  datatype Step =
    | Arrive(request: Request, now: real)
    | Complete(attempt: nat, now: real)

  function Initial(): State {
    State(Tables([], [], []), 0.0, [], [], [])
  }

  predicate Enabled(s: State, a: Step) {
    a.now >= s.clock && (a.Complete? ==> a.attempt < |s.pending|)
  }

  function Apply(cfg: Config, s: State, a: Step): State
    requires Enabled(s, a)
  {
    match a
    case Arrive(r, now) =>
      var d := Decide(cfg, s.tables, r, now);
      State(Arrived(cfg, s.tables, r, now), now,
            if d.Hash? then s.pending + [d.attempt] else s.pending,
            s.proofs,
            if d.Accepted? then s.entries + [Entry(r, now)] else s.entries)
    case Complete(k, now) =>
      var p := s.pending[k];
      State(Completed(cfg, s.tables, p, now), now, s.pending[..k] + s.pending[k + 1..],
            if Verified(cfg, p) then s.proofs + [Proof(p.request.header, p.asService, now)] else s.proofs,
            if Verified(cfg, p) then s.entries + [Entry(p.request, now)] else s.entries)
  }

  predicate ValidRun(cfg: Config, s: State, steps: seq<Step>)
    decreases |steps|
  {
    steps == [] || (Enabled(s, steps[0]) && ValidRun(cfg, Apply(cfg, s, steps[0]), steps[1..]))
  }

  function End(cfg: Config, s: State, steps: seq<Step>): State
    requires ValidRun(cfg, s, steps)
    decreases |steps|
  {
    if steps == [] then s else End(cfg, Apply(cfg, s, steps[0]), steps[1..])
  }

  // -------------------------------------------------------------------------------------
  // Nobody gets in without the password, and the service credential stays in its place.
  // -------------------------------------------------------------------------------------

  /** The header carries the operator's, or the service's, name and password. */
  predicate OperatorHeader(cfg: Config, h: Header) {
    var c := cfg.decode(h);
    c.Some? && c.value.user == cfg.username && cfg.verify(c.value.password, cfg.passwordHash)
  }

  predicate ServiceHeader(cfg: Config, h: Header) {
    var c := cfg.decode(h);
    ServiceConfigured(cfg) && c.Some? && c.value.user == cfg.serviceUsername &&
    cfg.verify(c.value.password, cfg.serviceHash)
  }

  predicate Genuine(cfg: Config, p: Proof) {
    if p.asService then ServiceHeader(cfg, p.header) else OperatorHeader(cfg, p.header)
  }

  predicate FromRequest(cfg: Config, p: Pending) {
    cfg.decode(p.request.header).Some? && p == Attempt(cfg, p.request, cfg.decode(p.request.header).value)
  }

  /** A proof that lets `r` in at `at`: of the right kind, and no older than the cache allows. */
  ghost predicate Admits(cfg: Config, p: Proof, r: Request, at: real) {
    && p.header == r.header
    && (p.asService ==> r.serviceAllowed)
    && p.at <= at
    && (at == p.at || at < p.at + cfg.ttl)
  }

  /** The cache entry was made by proof number `k`. */
  ghost predicate Backed(cfg: Config, s: State, c: Cached, asService: bool) {
    exists k :: 0 <= k < |s.proofs| && s.proofs[k].header == c.header && s.proofs[k].asService == asService &&
                s.proofs[k].at <= s.clock && c.expires == s.proofs[k].at + cfg.ttl
  }

  ghost predicate Admitted(cfg: Config, s: State, e: Entry) {
    exists k :: 0 <= k < |s.proofs| && Admits(cfg, s.proofs[k], e.request, e.at)
  }

  ghost predicate Inv(cfg: Config, s: State) {
    && (forall k :: 0 <= k < |s.proofs| ==> Genuine(cfg, s.proofs[k]))
    && (forall k :: 0 <= k < |s.pending| ==> FromRequest(cfg, s.pending[k]))
    && (forall c :: c in s.tables.cache ==> Backed(cfg, s, c, false))
    && (forall c :: c in s.tables.serviceCache ==> Backed(cfg, s, c, true))
    && (forall k :: 0 <= k < |s.entries| ==> Admitted(cfg, s, s.entries[k]))
  }

  lemma {:induction false} FindIn(t: Cache, h: Header)
    ensures Find(t, h).Some? ==> Find(t, h).value in t && Find(t, h).value.header == h
  {
    if t != [] { FindIn(t[1..], h); }
  }

  lemma {:induction false} RemovedIn(t: Cache, h: Header)
    ensures forall c :: c in Removed(t, h) ==> c in t
  {
    if t != [] { RemovedIn(t[1..], h); }
  }

  lemma {:induction false} StoredIn(t: Cache, x: Cached)
    ensures forall c :: c in Stored(t, x) ==> c in t || c == x
  {
    if t != [] { StoredIn(t[1..], x); }
  }

  lemma LookedIn(t: Cache, h: Header, now: real)
    ensures forall c :: c in Looked(t, h, now) ==> c in t
  {
    RemovedIn(t, h);
  }

  lemma RememberedIn(cfg: Config, t: Cache, h: Header, now: real)
    ensures forall c :: c in Remembered(cfg, t, h, now) ==> c in t || c == Cached(h, now + cfg.ttl)
  {
    StoredIn(t, Cached(h, now + cfg.ttl));
  }

  /** What is backed or admitted stays so while the clock and the proofs grow. */
  lemma Persists(cfg: Config, s: State, v: State)
    requires s.proofs <= v.proofs && s.clock <= v.clock
    ensures forall c, asService :: Backed(cfg, s, c, asService) ==> Backed(cfg, v, c, asService)
    ensures forall e :: Admitted(cfg, s, e) ==> Admitted(cfg, v, e)
  {
    assert forall k :: 0 <= k < |s.proofs| ==> v.proofs[k] == s.proofs[k];
    forall c, asService | Backed(cfg, s, c, asService) ensures Backed(cfg, v, c, asService) {
      var k :| 0 <= k < |s.proofs| && s.proofs[k].header == c.header && s.proofs[k].asService == asService &&
               s.proofs[k].at <= s.clock && c.expires == s.proofs[k].at + cfg.ttl;
      assert v.proofs[k] == s.proofs[k];
    }
    forall e | Admitted(cfg, s, e) ensures Admitted(cfg, v, e) {
      var k :| 0 <= k < |s.proofs| && Admits(cfg, s.proofs[k], e.request, e.at);
      assert v.proofs[k] == s.proofs[k];
    }
  }

  /** An unexpired cache entry admits, if its kind may. */
  lemma CacheAdmits(cfg: Config, s: State, t: Cache, asService: bool, r: Request, now: real)
    requires now >= s.clock && Holds(t, r.header, now) && (asService ==> r.serviceAllowed)
    requires forall c :: c in t ==> Backed(cfg, s, c, asService)
    ensures Admitted(cfg, s, Entry(r, now))
  {
    FindIn(t, r.header);
    var c := Find(t, r.header).value;
    assert Backed(cfg, s, c, asService);
    var k :| 0 <= k < |s.proofs| && s.proofs[k].header == c.header && s.proofs[k].asService == asService &&
             s.proofs[k].at <= s.clock && c.expires == s.proofs[k].at + cfg.ttl;
    assert Admits(cfg, s.proofs[k], r, now);
  }

  lemma ArriveInv(cfg: Config, s: State, r: Request, now: real)
    requires Inv(cfg, s) && now >= s.clock
    ensures Inv(cfg, Apply(cfg, s, Arrive(r, now)))
  {
    var v := Apply(cfg, s, Arrive(r, now));
    Persists(cfg, s, v);
    LookedIn(s.tables.cache, r.header, now);
    LookedIn(s.tables.serviceCache, r.header, now);
    if Decide(cfg, s.tables, r, now).Accepted? {
      if Holds(s.tables.cache, r.header, now) {
        CacheAdmits(cfg, s, s.tables.cache, false, r, now);
      } else {
        CacheAdmits(cfg, s, s.tables.serviceCache, true, r, now);
      }
      assert Admitted(cfg, v, Entry(r, now));
    }
  }

  lemma ProofIsGenuine(cfg: Config, p: Pending, now: real)
    requires FromRequest(cfg, p) && Verified(cfg, p)
    ensures Genuine(cfg, Proof(p.request.header, p.asService, now)) && (p.asService ==> p.request.serviceAllowed)
  {
  }

  lemma CompleteInv(cfg: Config, s: State, k: nat, now: real)
    requires Inv(cfg, s) && now >= s.clock && k < |s.pending|
    ensures Inv(cfg, Apply(cfg, s, Complete(k, now)))
  {
    var v := Apply(cfg, s, Complete(k, now));
    var p := s.pending[k];
    Persists(cfg, s, v);
    RememberedIn(cfg, s.tables.cache, p.request.header, now);
    RememberedIn(cfg, s.tables.serviceCache, p.request.header, now);
    if Verified(cfg, p) {
      ProofIsGenuine(cfg, p, now);
      var n := |s.proofs|;
      assert v.proofs[n] == Proof(p.request.header, p.asService, now);
      assert Admits(cfg, v.proofs[n], p.request, now);
      assert Backed(cfg, v, Cached(p.request.header, now + cfg.ttl), p.asService);
      assert Admitted(cfg, v, Entry(p.request, now));
    }
  }

  lemma {:induction false} RunInv(cfg: Config, s: State, steps: seq<Step>)
    requires Inv(cfg, s) && ValidRun(cfg, s, steps)
    ensures Inv(cfg, End(cfg, s, steps))
    decreases |steps|
  {
    if steps != [] {
      if steps[0].Arrive? { ArriveInv(cfg, s, steps[0].request, steps[0].now); }
      else { CompleteInv(cfg, s, steps[0].attempt, steps[0].now); }
      RunInv(cfg, Apply(cfg, s, steps[0]), steps[1..]);
    }
  }

  /**
   In every run of overlapping attempts, a request is let in only with the operator's
   credential, or with the service's where that is allowed and configured; and its password
   was verified then or less than the cache's lifetime before.
   */
  lemma OnlyGenuineEnter(cfg: Config, steps: seq<Step>, i: nat)
    requires ValidRun(cfg, Initial(), steps) && i < |End(cfg, Initial(), steps).entries|
    ensures
      var s := End(cfg, Initial(), steps);
      var e := s.entries[i];
      && (OperatorHeader(cfg, e.request.header) || (e.request.serviceAllowed && ServiceHeader(cfg, e.request.header)))
      && exists k :: 0 <= k < |s.proofs| && Genuine(cfg, s.proofs[k]) && Admits(cfg, s.proofs[k], e.request, e.at)
  {
    RunInv(cfg, Initial(), steps);
    var s := End(cfg, Initial(), steps);
    assert Admitted(cfg, s, s.entries[i]);
    var k :| 0 <= k < |s.proofs| && Admits(cfg, s.proofs[k], s.entries[i].request, s.entries[i].at);
    assert Genuine(cfg, s.proofs[k]);
  }

  /**
   The operator's own credential, checked afresh, opens every path exactly when it is not taken
   for the service's: where the service may enter and shares the operator's name, the service
   password decides.
   */
  lemma OperatorIsVerifiedIff(cfg: Config, r: Request)
    requires OperatorHeader(cfg, r.header)
    ensures
      var c := cfg.decode(r.header).value;
      Verified(cfg, Attempt(cfg, r, c)) <==>
        !MayServe(cfg, r) || cfg.serviceUsername != cfg.username || cfg.verify(c.password, cfg.serviceHash)
  {
  }

  // -------------------------------------------------------------------------------------
  // The gate drives the limiter.
  // -------------------------------------------------------------------------------------

  function LimiterSteps(cfg: Config, s: State, a: Step): seq<L.Step>
    requires Enabled(s, a)
  {
    match a
    case Arrive(r, now) => ArrivalSteps(cfg, s.tables, r, now)
    case Complete(k, now) =>
      var p := s.pending[k];
      [if Verified(cfg, p) then L.Succeed(p.request.client) else L.Fail(p.request.client, now)]
  }

  function Projected(cfg: Config, s: State, steps: seq<Step>): seq<L.Step>
    requires ValidRun(cfg, s, steps)
    decreases |steps|
  {
    if steps == [] then [] else LimiterSteps(cfg, s, steps[0]) + Projected(cfg, Apply(cfg, s, steps[0]), steps[1..])
  }

  lemma {:induction false} LimiterSplit(l: L.Limits, x: L.State, a: seq<L.Step>, b: seq<L.Step>)
    requires L.Valid(l, x, a) && L.Valid(l, L.End(l, x, a), b)
    ensures L.Valid(l, x, a + b) && L.End(l, x, a + b) == L.End(l, L.End(l, x, a), b)
    decreases |a|
  {
    if a == [] {
      assert a + b == b;
    } else {
      assert (a + b)[1..] == a[1..] + b;
      LimiterSplit(l, L.Apply(l, x, a[0]), a[1..], b);
    }
  }

  lemma LimiterOne(l: L.Limits, x: L.State, a: L.Step)
    requires L.Enabled(x, a)
    ensures L.Valid(l, x, [a]) && L.End(l, x, [a]) == L.Apply(l, x, a)
  {
    assert [a][1..] == [];
  }

  lemma StepProjects(cfg: Config, s: State, a: Step, x: L.State)
    requires Enabled(s, a) && x.table == s.tables.failures && x.clock <= s.clock
    ensures
      var steps := LimiterSteps(cfg, s, a);
      && L.Valid(cfg.limits, x, steps)
      && L.End(cfg.limits, x, steps).table == Apply(cfg, s, a).tables.failures
      && L.End(cfg.limits, x, steps).clock <= a.now
  {
    var steps := LimiterSteps(cfg, s, a);
    if |steps| == 1 {
      LimiterOne(cfg.limits, x, steps[0]);
    } else if |steps| == 2 {
      LimiterOne(cfg.limits, x, steps[0]);
      var y := L.Apply(cfg.limits, x, steps[0]);
      LimiterOne(cfg.limits, y, steps[1]);
      LimiterSplit(cfg.limits, x, [steps[0]], [steps[1]]);
      assert steps == [steps[0]] + [steps[1]];
    }
  }

  lemma {:induction false} RunProjects(cfg: Config, s: State, steps: seq<Step>, x: L.State)
    requires ValidRun(cfg, s, steps) && x.table == s.tables.failures && x.clock <= s.clock
    ensures
      var p := Projected(cfg, s, steps);
      && L.Valid(cfg.limits, x, p)
      && L.End(cfg.limits, x, p).table == End(cfg, s, steps).tables.failures
      && L.End(cfg.limits, x, p).clock <= End(cfg, s, steps).clock
    decreases |steps|
  {
    if steps != [] {
      StepProjects(cfg, s, steps[0], x);
      var first := LimiterSteps(cfg, s, steps[0]);
      var v := Apply(cfg, s, steps[0]);
      var y := L.End(cfg.limits, x, first);
      RunProjects(cfg, v, steps[1..], y);
      LimiterSplit(cfg.limits, x, first, Projected(cfg, v, steps[1..]));
    }
  }

  /**
   After every run of the gate, a request that no cache lets in is refused as one too many,
   without hashing, exactly when the failures its client logged say so.
   */
  lemma TooManyIffRefused(cfg: Config, steps: seq<Step>, r: Request, now: real)
    requires ValidRun(cfg, Initial(), steps) && now >= End(cfg, Initial(), steps).clock
    requires Configured(cfg) && cfg.isBasic(r.header)
    ensures
      var s := End(cfg, Initial(), steps);
      var log := L.LogOf(L.End(cfg.limits, L.Initial(), Projected(cfg, Initial(), steps)), r.client);
      var d := Decide(cfg, s.tables, r, now);
      && (d.TooMany? <==> !d.Accepted? && L.Refused(cfg.limits, log, now))
      && (d.Hash? ==> !L.Refused(cfg.limits, log, now))
  {
    RunProjects(cfg, Initial(), steps, L.Initial());
    L.VerdictIsSpecified(cfg.limits, Projected(cfg, Initial(), steps), r.client, now);
  }

  // -------------------------------------------------------------------------------------
  // The failure budget at the gate.
  // -------------------------------------------------------------------------------------

  /** How many of the pending attempts are the client's. */
  function PendingOf(pending: seq<Pending>, c: L.Client): nat {
    if pending == [] then 0
    else PendingOf(pending[..|pending| - 1], c) + if pending[|pending| - 1].request.client == c then 1 else 0
  }

  lemma {:induction false} PendingConcat(a: seq<Pending>, b: seq<Pending>, c: L.Client)
    ensures PendingOf(a + b, c) == PendingOf(a, c) + PendingOf(b, c)
  {
    if b == [] {
      assert a + b == a;
    } else {
      assert (a + b)[..|a + b| - 1] == a + b[..|b| - 1];
      PendingConcat(a, b[..|b| - 1], c);
    }
  }

  lemma PendingOne(p: Pending, c: L.Client)
    ensures PendingOf([p], c) == if p.request.client == c then 1 else 0
  {
    assert [p][..0] == [];
  }

  lemma PendingWithout(pending: seq<Pending>, k: nat, c: L.Client)
    requires k < |pending|
    ensures PendingOf(pending, c) ==
            PendingOf(pending[..k] + pending[k + 1..], c) + if pending[k].request.client == c then 1 else 0
  {
    assert pending == pending[..k] + [pending[k]] + pending[k + 1..];
    PendingConcat(pending[..k] + [pending[k]], pending[k + 1..], c);
    PendingConcat(pending[..k], [pending[k]], c);
    PendingConcat(pending[..k], pending[k + 1..], c);
    PendingOne(pending[k], c);
  }

  /** At no time are more than `k` attempts of the client in progress, one just arriving included. */
  predicate AtMost(cfg: Config, s: State, steps: seq<Step>, c: L.Client, k: nat)
    requires ValidRun(cfg, s, steps)
    decreases |steps|
  {
    PendingOf(s.pending, c) <= k &&
    (steps == [] ||
     ((steps[0].Arrive? && steps[0].request.client == c ==> PendingOf(s.pending, c) < k) &&
      AtMost(cfg, Apply(cfg, s, steps[0]), steps[1..], c, k)))
  }

  /** The limiter's open attempts are the gate's pending ones. */
  ghost predicate Tallies(s: State, x: L.State, c: L.Client) {
    x.table == s.tables.failures && x.clock <= s.clock && L.OpenOf(x, c) == PendingOf(s.pending, c)
  }

  lemma FlightOne(l: L.Limits, x: L.State, a: L.Step, c: L.Client, k: nat)
    requires L.OpenOf(x, c) <= k && L.OpenOf(L.Apply(l, x, a), c) <= k
    requires a.client == c && !a.Check? ==> L.OpenOf(x, c) > 0
    ensures L.InFlight(l, x, [a], c, k)
  {
    assert [a][1..] == [];
  }

  lemma {:induction false} FlightJoin(l: L.Limits, x: L.State, a: seq<L.Step>, b: seq<L.Step>, c: L.Client, k: nat)
    requires L.InFlight(l, x, a, c, k) && L.InFlight(l, L.End(l, x, a), b, c, k)
    ensures L.InFlight(l, x, a + b, c, k)
    decreases |a|
  {
    if a == [] {
      assert a + b == b;
    } else {
      assert (a + b)[1..] == a[1..] + b;
      FlightJoin(l, L.Apply(l, x, a[0]), a[1..], b, c, k);
    }
  }

  /** A check alone, or a check and the failure of an attempt that cannot be decoded. */
  lemma ArriveFlies(l: L.Limits, x: L.State, steps: seq<L.Step>, client: L.Client, now: real, c: L.Client, k: nat)
    requires x.clock <= now && L.OpenOf(x, c) <= k && (client == c ==> L.OpenOf(x, c) < k)
    requires
      || steps == []
      || steps == [L.Check(client, now)]
      || (steps == [L.Check(client, now), L.Fail(client, now)] && !L.Verdict(l, x.table, client, now))
    ensures L.InFlight(l, x, steps, c, k)
    ensures L.OpenOf(L.End(l, x, steps), c) ==
            L.OpenOf(x, c) +
              if client == c && steps == [L.Check(client, now)] && !L.Verdict(l, x.table, client, now) then 1 else 0
  {
    if |steps| >= 1 {
      var y := L.Apply(l, x, steps[0]);
      LimiterOne(l, x, steps[0]);
      FlightOne(l, x, steps[0], c, k);
      if |steps| == 2 {
        LimiterOne(l, y, steps[1]);
        FlightOne(l, y, steps[1], c, k);
        FlightJoin(l, x, [steps[0]], [steps[1]], c, k);
        LimiterSplit(l, x, [steps[0]], [steps[1]]);
        assert steps == [steps[0]] + [steps[1]];
      }
    }
  }

  lemma ArriveTallies(cfg: Config, s: State, r: Request, now: real, x: L.State, c: L.Client, k: nat)
    requires now >= s.clock && Tallies(s, x, c) && PendingOf(s.pending, c) <= k
    requires r.client == c ==> PendingOf(s.pending, c) < k
    ensures
      var steps := LimiterSteps(cfg, s, Arrive(r, now));
      && L.InFlight(cfg.limits, x, steps, c, k)
      && Tallies(Apply(cfg, s, Arrive(r, now)), L.End(cfg.limits, x, steps), c)
  {
    StepProjects(cfg, s, Arrive(r, now), x);
    ArriveFlies(cfg.limits, x, ArrivalSteps(cfg, s.tables, r, now), r.client, now, c, k);
    var d := Decide(cfg, s.tables, r, now);
    if d.Hash? {
      PendingConcat(s.pending, [d.attempt], c);
      PendingOne(d.attempt, c);
    }
  }

  lemma CompleteTallies(cfg: Config, s: State, n: nat, now: real, x: L.State, c: L.Client, k: nat)
    requires now >= s.clock && n < |s.pending| && Tallies(s, x, c) && PendingOf(s.pending, c) <= k
    ensures
      var steps := LimiterSteps(cfg, s, Complete(n, now));
      && L.InFlight(cfg.limits, x, steps, c, k)
      && Tallies(Apply(cfg, s, Complete(n, now)), L.End(cfg.limits, x, steps), c)
  {
    var a := Complete(n, now);
    var steps := LimiterSteps(cfg, s, a);
    StepProjects(cfg, s, a, x);
    PendingWithout(s.pending, n, c);
    LimiterOne(cfg.limits, x, steps[0]);
    FlightOne(cfg.limits, x, steps[0], c, k);
    assert steps == [steps[0]];
  }

  lemma {:induction false} RunTallies(cfg: Config, s: State, steps: seq<Step>, x: L.State, c: L.Client, k: nat)
    requires ValidRun(cfg, s, steps) && AtMost(cfg, s, steps, c, k) && Tallies(s, x, c)
    ensures L.InFlight(cfg.limits, x, Projected(cfg, s, steps), c, k)
    decreases |steps|
  {
    if steps != [] {
      var first, v := LimiterSteps(cfg, s, steps[0]), Apply(cfg, s, steps[0]);
      if steps[0].Arrive? {
        ArriveTallies(cfg, s, steps[0].request, steps[0].now, x, c, k);
      } else {
        CompleteTallies(cfg, s, steps[0].attempt, steps[0].now, x, c, k);
      }
      RunTallies(cfg, v, steps[1..], L.End(cfg.limits, x, first), c, k);
      FlightJoin(cfg.limits, x, first, Projected(cfg, v, steps[1..]), c, k);
    }
  }

  /**
   The budget at the gate: in every run with at most `k` attempts of a client in progress, any
   half-open window of one cooldown holds at most the budget and k - 1 of its logged failures.
   */
  lemma GateBudget(cfg: Config, steps: seq<Step>, c: L.Client, k: nat, i: nat, j: nat)
    requires ValidRun(cfg, Initial(), steps) && AtMost(cfg, Initial(), steps, c, k) && 1 <= k
    requires
      var log := L.LogOf(L.End(cfg.limits, L.Initial(), Projected(cfg, Initial(), steps)), c);
      i <= j < |log| && log[j] - log[i] < cfg.limits.cooldown
    ensures j - i + 1 <= L.Budget(cfg.limits) + k - 1
  {
    RunProjects(cfg, Initial(), steps, L.Initial());
    RunTallies(cfg, Initial(), steps, L.Initial(), c, k);
    L.LoginBudget(cfg.limits, Projected(cfg, Initial(), steps), c, k, i, j);
  }
}
