/**
 How long a verified credential spares its client the hash (server auth.py,
 `CredentialCache`): for the whole lifetime, as long as fewer than `maxEntries` other
 attempts succeed meanwhile; whatever else arrives or fails does not shorten it.
 */
module CredentialHold {
  import opened Domain
  import opened AuthGate

  /** How many entries stand behind the header's. */
  function Behind(t: Cache, h: Header): nat
    requires Find(t, h).Some?
  {
    if t[0].header == h then |t| - 1 else Behind(t[1..], h)
  }

  /** The header is in the cache until `expires` at least, with no more than `n` entries behind it. */
  predicate Kept(t: Cache, h: Header, expires: real, n: nat) {
    Find(t, h).Some? && Find(t, h).value.expires >= expires && Behind(t, h) <= n
  }

  lemma {:induction false} StoredFresh(t: Cache, c: Cached)
    requires Find(t, c.header).None?
    ensures Find(Stored(t, c), c.header) == Some(c) && Behind(Stored(t, c), c.header) == 0
  {
    if t != [] { StoredFresh(t[1..], c); }
  }

  lemma {:induction false} StoredAgain(t: Cache, c: Cached)
    requires Find(t, c.header).Some?
    ensures Find(Stored(t, c), c.header) == Some(c) && Behind(Stored(t, c), c.header) == Behind(t, c.header)
    ensures |Stored(t, c)| == |t|
  {
    if t[0].header != c.header { StoredAgain(t[1..], c); }
  }

  lemma {:induction false} StoredOther(t: Cache, c: Cached, h: Header)
    requires Find(t, h).Some? && c.header != h
    ensures Find(Stored(t, c), h) == Find(t, h)
    ensures Behind(t, h) <= Behind(Stored(t, c), h) <= Behind(t, h) + 1
    decreases t
  {
    if t[0].header == h {
      StoredLength(t[1..], c);
    } else if t[0].header != c.header {
      StoredOther(t[1..], c, h);
    }
  }

  lemma {:induction false} StoredLength(t: Cache, c: Cached)
    ensures |t| <= |Stored(t, c)| <= |t| + 1
  {
    if t != [] { StoredLength(t[1..], c); }
  }

  lemma {:induction false} RemovedOther(t: Cache, g: Header, h: Header)
    requires Find(t, h).Some? && g != h
    ensures Find(Removed(t, g), h) == Find(t, h) && Behind(Removed(t, g), h) <= Behind(t, h)
    decreases t
  {
    if t[0].header == h {
      RemovedLength(t[1..], g);
    } else {
      RemovedOther(t[1..], g, h);
    }
  }

  lemma {:induction false} RemovedLength(t: Cache, h: Header)
    ensures |Removed(t, h)| <= |t|
  {
    if t != [] { RemovedLength(t[1..], h); }
  }

  /** Dropping from the front spares what has few entries behind it. */
  lemma {:induction false} DroppedFront(t: Cache, h: Header, d: nat)
    requires Find(t, h).Some? && d + Behind(t, h) < |t|
    ensures Find(t[d..], h) == Find(t, h) && Behind(t[d..], h) == Behind(t, h)
    decreases d
  {
    if d > 0 {
      assert t[0].header != h;
      DroppedFront(t[1..], h, d - 1);
      assert t[1..][d - 1..] == t[d..];
    } else {
      assert t[0..] == t;
    }
  }

  lemma {:induction false} BehindFits(t: Cache, h: Header)
    requires Find(t, h).Some?
    ensures Behind(t, h) < |t|
  {
    if t[0].header != h { BehindFits(t[1..], h); }
  }

  /** A header new to the cache is the last to be dropped. */
  lemma RememberedIsHeld(cfg: Config, t: Cache, h: Header, now: real)
    requires Find(t, h).None? && cfg.maxEntries >= 1
    ensures Kept(Remembered(cfg, t, h, now), h, now + cfg.ttl, 0)
  {
    var all := Stored(t, Cached(h, now + cfg.ttl));
    StoredFresh(t, Cached(h, now + cfg.ttl));
    BehindFits(all, h);
    if |all| > cfg.maxEntries { DroppedFront(all, h, |all| - cfg.maxEntries); }
  }

  /** One more success costs the header one place at the most. */
  lemma RememberedKeeps(cfg: Config, t: Cache, g: Header, now: real, h: Header, expires: real, n: nat)
    requires Kept(t, h, expires, n) && n + 1 < cfg.maxEntries && expires <= now + cfg.ttl
    ensures Kept(Remembered(cfg, t, g, now), h, expires, n + 1)
  {
    var c := Cached(g, now + cfg.ttl);
    var all := Stored(t, c);
    if g == h { StoredAgain(t, c); } else { StoredOther(t, c, h); }
    BehindFits(all, h);
    if |all| > cfg.maxEntries { DroppedFront(all, h, |all| - cfg.maxEntries); }
  }

  lemma LookedKeeps(t: Cache, g: Header, now: real, h: Header, expires: real, n: nat)
    requires Kept(t, h, expires, n) && now < expires
    ensures Kept(Looked(t, g, now), h, expires, n)
  {
    if g != h { RemovedOther(t, g, h); }
  }

  function CacheOf(t: Tables, asService: bool): Cache {
    if asService then t.serviceCache else t.cache
  }

  function Completions(steps: seq<Step>): nat {
    if steps == [] then 0 else (if steps[0].Complete? then 1 else 0) + Completions(steps[1..])
  }

  lemma {:induction false} RunKeeps(cfg: Config, s: State, steps: seq<Step>, asService: bool, h: Header, expires: real,
                                    n: nat)
    requires ValidRun(cfg, s, steps) && Kept(CacheOf(s.tables, asService), h, expires, n)
    requires n + Completions(steps) < cfg.maxEntries && expires <= s.clock + cfg.ttl
    requires End(cfg, s, steps).clock < expires
    ensures Kept(CacheOf(End(cfg, s, steps).tables, asService), h, expires, n + Completions(steps))
    decreases |steps|
  {
    if steps != [] {
      var v := Apply(cfg, s, steps[0]);
      ClockGrows(cfg, v, steps[1..]);
      if steps[0].Arrive? {
        LookedKeeps(CacheOf(s.tables, asService), steps[0].request.header, steps[0].now, h, expires, n);
        RunKeeps(cfg, v, steps[1..], asService, h, expires, n);
      } else {
        var p := s.pending[steps[0].attempt];
        RememberedKeeps(cfg, CacheOf(s.tables, asService), p.request.header, steps[0].now, h, expires, n);
        RunKeeps(cfg, v, steps[1..], asService, h, expires, n + 1);
      }
    }
  }

  lemma {:induction false} ClockGrows(cfg: Config, s: State, steps: seq<Step>)
    requires ValidRun(cfg, s, steps)
    ensures s.clock <= End(cfg, s, steps).clock
    decreases |steps|
  {
    if steps != [] { ClockGrows(cfg, Apply(cfg, s, steps[0]), steps[1..]); }
  }

  /**
   A success whose header was not in its cache lets the same header in without a hash, and
   past the failure limit, until the lifetime ends, in every run with fewer than `maxEntries`
   further completions; the service's header where the service may enter.
   */
  lemma SuccessSparesHash(cfg: Config, s: State, k: nat, at: real, steps: seq<Step>, r: Request, now: real)
    requires Configured(cfg) && Enabled(s, Complete(k, at)) && Verified(cfg, s.pending[k])
    requires
      var p := s.pending[k];
      && Find(CacheOf(s.tables, p.asService), p.request.header).None?
      && r.header == p.request.header && cfg.isBasic(r.header) && (p.asService ==> MayServe(cfg, r))
    requires ValidRun(cfg, Apply(cfg, s, Complete(k, at)), steps) && Completions(steps) < cfg.maxEntries
    requires End(cfg, Apply(cfg, s, Complete(k, at)), steps).clock <= now < at + cfg.ttl
    ensures Decide(cfg, End(cfg, Apply(cfg, s, Complete(k, at)), steps).tables, r, now) == Accepted
  {
    var p := s.pending[k];
    var v := Apply(cfg, s, Complete(k, at));
    RememberedIsHeld(cfg, CacheOf(s.tables, p.asService), r.header, at);
    RunKeeps(cfg, v, steps, p.asService, r.header, at + cfg.ttl, 0);
  }

  lemma {:induction false} RemovedIsGone(t: Cache, h: Header)
    ensures Find(Removed(t, h), h).None?
  {
    if t != [] { RemovedIsGone(t[1..], h); }
  }

  /** A look-up leaves no expired entry of its header, and never drops a valid one. */
  lemma LookedIsCurrent(t: Cache, h: Header, now: real)
    ensures Find(Looked(t, h, now), h).Some? <==> Holds(t, h, now)
    ensures Holds(t, h, now) ==> Looked(t, h, now) == t
  {
    RemovedIsGone(t, h);
  }
}
