/**
 Dialog claims (dialogs/store.py, the claim repository): which process speaks for a dialog.
 A claim is an (owner, generation) pair; releasing it deletes the row, so generations
 restart. An epoch counts those deletions: fencing holds inside one epoch, and exactly there.
 */
module Claims {
  import opened Domain

  type DialogId = nat
  type Owner = nat

  const FIRST_GENERATION: nat := 1

  datatype Claim = Claim(dialog: DialogId, owner: Owner, generation: nat)
  datatype Row = Row(owner: Owner, generation: nat, heartbeat: int)
  type Rows = map<DialogId, Row>

  /** The stored row is this exact claim. */
  predicate Matches(rows: Rows, c: Claim) {
    c.dialog in rows && rows[c.dialog].owner == c.owner && rows[c.dialog].generation == c.generation
  }

  /** The per-run check: it compares the generation only and passes on a missing row. */
  predicate Passes(rows: Rows, c: Claim) {
    c.dialog !in rows || rows[c.dialog].generation == c.generation
  }

  function NextGeneration(rows: Rows, d: DialogId): nat {
    if d in rows then rows[d].generation + 1 else FIRST_GENERATION
  }

  function Without(rows: Rows, d: DialogId): Rows {
    map x | x in rows && x != d :: rows[x]
  }

  /** Index `i` is the last of the listed claims on its dialog, the one that counts. */
  predicate IsLast(claims: seq<Claim>, i: nat) {
    i < |claims| && forall j :: i < j < |claims| ==> claims[j].dialog != claims[i].dialog
  }

  /** The dialog is among those a beat with `claims` keeps. */
  predicate KeptBy(rows: Rows, claims: seq<Claim>, d: DialogId) {
    exists i :: 0 <= i < |claims| && IsLast(claims, i) && claims[i].dialog == d && Matches(rows, claims[i])
  }

  function Beaten(rows: Rows, claims: seq<Claim>, now: int): Rows {
    map d | d in rows :: if KeptBy(rows, claims, d) then rows[d].(heartbeat := now) else rows[d]
  }

  class ClaimTable {
    var rows: Rows

    constructor ()
      ensures rows == map[]
    {
      rows := map[];
    }

    /** Insert the first claim or bump the existing one; the last claimer owns the row. */
    method TakeClaim(d: DialogId, owner: Owner, now: int) returns (c: Claim)
      modifies this
      ensures c == Claim(d, owner, NextGeneration(old(rows), d))
      ensures rows == old(rows)[d := Row(owner, c.generation, now)]
      ensures Matches(rows, c)
      ensures forall other: Claim :: Matches(old(rows), other) && other.dialog == d ==>
                other.generation < c.generation && !Matches(rows, other)
    {
      var generation := FIRST_GENERATION;
      if d in rows {
        generation := rows[d].generation + 1;
      }
      rows := rows[d := Row(owner, generation, now)];
      c := Claim(d, owner, generation);
    }

    /** Refresh the listed claims; only exact pairs are kept, and only their rows are touched. */
    method Heartbeat(claims: seq<Claim>, now: int) returns (kept: set<DialogId>)
      modifies this
      ensures kept == set d | d in old(rows) && KeptBy(old(rows), claims, d)
      ensures rows == Beaten(old(rows), claims, now)
    {
      var held: map<DialogId, Claim> := map[];
      var i := 0;
      while i < |claims|
        invariant 0 <= i <= |claims| && rows == old(rows)
        invariant forall d :: d in held ==>
                    held[d].dialog == d && exists k: nat :: IsLast(claims[..i], k) && claims[k] == held[d]
        invariant forall k: nat :: IsLast(claims[..i], k) ==>
                    claims[k].dialog in held && held[claims[k].dialog] == claims[k]
      {
        LastGrows(claims, i);
        held := held[claims[i].dialog := claims[i]];
        i := i + 1;
      }
      assert claims[..i] == claims;
      kept := set d | d in rows && d in held &&
                      held[d].owner == rows[d].owner && held[d].generation == rows[d].generation;
      forall d | d in rows ensures d in kept <==> KeptBy(rows, claims, d) {
        if d in kept {
          var k: nat :| IsLast(claims, k) && claims[k] == held[d];
          assert Matches(rows, claims[k]);
        }
        if KeptBy(rows, claims, d) {
          var k: nat :| IsLast(claims, k) && claims[k].dialog == d && Matches(rows, claims[k]);
          assert held[claims[k].dialog] == claims[k];
        }
      }
      assert kept == set d | d in rows && KeptBy(rows, claims, d);
      assert kept == {} ==> Beaten(rows, claims, now) == rows;
      if kept != {} {
        rows := map d | d in rows :: if d in kept then rows[d].(heartbeat := now) else rows[d];
      }
    }

    /** Delete the row if it is still this exact claim. */
    method Release(c: Claim)
      modifies this
      ensures rows == if Matches(old(rows), c) then Without(old(rows), c.dialog) else old(rows)
    {
      if c.dialog in rows && rows[c.dialog].owner == c.owner && rows[c.dialog].generation == c.generation {
        rows := map x | x in rows && x != c.dialog :: rows[x];
      }
    }

    /** The listed dialogs that a different owner holds with a fresh heartbeat. */
    method HeldElsewhere(dialogs: set<DialogId>, owner: Owner, staleBefore: int) returns (r: set<DialogId>)
      ensures forall d :: d in r <==>
                d in dialogs && exists c: Claim :: c.dialog == d && c.owner != owner &&
                                                   Matches(rows, c) && rows[d].heartbeat >= staleBefore
    {
      r := set d | d in dialogs && d in rows && rows[d].owner != owner && rows[d].heartbeat >= staleBefore;
      forall d | d in r ensures exists c: Claim :: c.dialog == d && c.owner != owner &&
                                                   Matches(rows, c) && rows[d].heartbeat >= staleBefore {
        assert Matches(rows, Claim(d, rows[d].owner, rows[d].generation));
      }
    }

    method CurrentGeneration(d: DialogId) returns (g: Option<nat>)
      ensures forall c: Claim :: c.dialog == d ==>
                (Passes(rows, c) <==> g.None? || g.value == c.generation)
    {
      g := if d in rows then Some(rows[d].generation) else None;
    }

    /** `_still_owns_dialog`: a failed read counts as ownership. */
    method StillOwnsDialog(c: Claim, readFails: bool) returns (owns: bool)
      ensures owns <==> readFails || Passes(rows, c)
    {
      if readFails {
        return true;
      }
      var g := CurrentGeneration(c.dialog);
      owns := g.None? || g.value == c.generation;
    }
  }

  /** One more claim in the list displaces the earlier ones of its dialog. */
  lemma LastGrows(claims: seq<Claim>, i: nat)
    requires i < |claims|
    ensures IsLast(claims[..i + 1], i)
    ensures forall k: nat :: k != i ==>
              (IsLast(claims[..i + 1], k) <==> IsLast(claims[..i], k) && claims[k].dialog != claims[i].dialog)
  {
    var a, b := claims[..i], claims[..i + 1];
    assert forall j :: 0 <= j < i ==> a[j] == b[j];
    forall k: nat | k != i
      ensures IsLast(b, k) <==> IsLast(a, k) && claims[k].dialog != claims[i].dialog
    {
      if IsLast(b, k) {
        assert b[i].dialog != b[k].dialog;
        assert forall j :: k < j < |a| ==> b[j].dialog != b[k].dialog;
      }
    }
  }

  // -------------------------------------------------------------------------------------
  // Every run of the claim operations by any number of processes.
  // -------------------------------------------------------------------------------------

  datatype Issue = Issue(claim: Claim, epoch: nat)

  /** The table, how often each dialog's row was deleted, and every claim ever handed out. */
  datatype World = World(rows: Rows, deletions: map<DialogId, nat>, issued: seq<Issue>)

  datatype Step =
    | Take(dialog: DialogId, owner: Owner, now: int)
    | Beat(claims: seq<Claim>, now: int)
    | Drop(claim: Claim)
    | DeleteDialog(dialog: DialogId)

  function Epoch(w: World, d: DialogId): nat {
    if d in w.deletions then w.deletions[d] else 0
  }

  function Deleted(w: World, d: DialogId): World {
    World(Without(w.rows, d), w.deletions[d := Epoch(w, d) + 1], w.issued)
  }

  function Apply(w: World, a: Step): World {
    match a
    case Take(d, owner, now) =>
      var g := NextGeneration(w.rows, d);
      World(w.rows[d := Row(owner, g, now)], w.deletions, w.issued + [Issue(Claim(d, owner, g), Epoch(w, d))])
    case Beat(claims, now) => w.(rows := Beaten(w.rows, claims, now))
    case Drop(c) => if Matches(w.rows, c) then Deleted(w, c.dialog) else w
    case DeleteDialog(d) => if d in w.rows then Deleted(w, d) else w
  }

  function Initial(): World {
    World(map[], map[], [])
  }

  function End(w: World, steps: seq<Step>): World
    decreases |steps|
  {
    if steps == [] then w else End(Apply(w, steps[0]), steps[1..])
  }

  /** Issue `i` belongs to its dialog's present epoch. */
  predicate Current(w: World, i: nat) {
    i < |w.issued| && w.issued[i].epoch == Epoch(w, w.issued[i].claim.dialog)
  }

  /** No later issue of the same dialog and epoch. */
  predicate Newest(w: World, i: nat) {
    i < |w.issued| &&
    forall j :: i < j < |w.issued| && w.issued[j].claim.dialog == w.issued[i].claim.dialog ==>
      w.issued[j].epoch != w.issued[i].epoch
  }

  predicate SameEpoch(a: Issue, b: Issue) {
    a.claim.dialog == b.claim.dialog && a.epoch == b.epoch
  }

  /** Issue `i` is the claim the row of `d` stores, the newest of the present epoch. */
  predicate Holds(w: World, i: nat, d: DialogId) {
    Current(w, i) && Newest(w, i) && w.issued[i].claim.dialog == d && Matches(w.rows, w.issued[i].claim)
  }

  /** No issue is from a future epoch, and one of the present epoch has a row. */
  ghost predicate EpochsBounded(w: World) {
    && (forall i :: 0 <= i < |w.issued| ==> w.issued[i].epoch <= Epoch(w, w.issued[i].claim.dialog))
    && (forall i :: 0 <= i < |w.issued| && Current(w, i) ==> w.issued[i].claim.dialog in w.rows)
  }

  /** Generations strictly increase within an epoch. */
  ghost predicate Increasing(w: World) {
    forall i, j :: 0 <= i < j < |w.issued| && SameEpoch(w.issued[i], w.issued[j]) ==>
      w.issued[i].claim.generation < w.issued[j].claim.generation
  }

  /** Every row is held by the newest issue of its epoch. */
  ghost predicate RowsHeld(w: World) {
    forall d :: d in w.rows ==> exists i: nat :: Holds(w, i, d)
  }

  ghost predicate Fenced(w: World) {
    EpochsBounded(w) && Increasing(w) && RowsHeld(w)
  }

  /** The holder's generation bounds those of its epoch, strictly except for itself. */
  lemma HolderLeads(w: World, h: nat, d: DialogId, i: nat)
    requires Fenced(w) && Holds(w, h, d) && Current(w, i) && w.issued[i].claim.dialog == d
    ensures i != h ==> w.issued[i].claim.generation < w.rows[d].generation
  {
    assert SameEpoch(w.issued[i], w.issued[h]);
    assert i <= h;
  }

  lemma TakeIncreasing(w: World, d: DialogId, owner: Owner, now: int)
    requires Fenced(w)
    ensures Increasing(Apply(w, Take(d, owner, now)))
  {
    var v := Apply(w, Take(d, owner, now));
    var n := |w.issued|;
    forall i, j | 0 <= i < j < |v.issued| && SameEpoch(v.issued[i], v.issued[j])
      ensures v.issued[i].claim.generation < v.issued[j].claim.generation
    {
      if j == n {
        assert Current(w, i);
        var h: nat :| Holds(w, h, d);
        HolderLeads(w, h, d, i);
      } else {
        assert SameEpoch(w.issued[i], w.issued[j]);
      }
    }
  }

  lemma TakeHeld(w: World, d: DialogId, owner: Owner, now: int)
    requires RowsHeld(w)
    ensures RowsHeld(Apply(w, Take(d, owner, now)))
  {
    var v := Apply(w, Take(d, owner, now));
    forall x | x in v.rows ensures exists i: nat :: Holds(v, i, x) {
      if x == d {
        assert Holds(v, |w.issued|, d);
      } else {
        var i: nat :| Holds(w, i, x);
        assert forall j :: i < j < |w.issued| ==> v.issued[j] == w.issued[j];
        assert Holds(v, i, x);
      }
    }
  }

  lemma TakeFenced(w: World, d: DialogId, owner: Owner, now: int)
    requires Fenced(w)
    ensures Fenced(Apply(w, Take(d, owner, now)))
  {
    var v := Apply(w, Take(d, owner, now));
    assert forall i :: 0 <= i < |w.issued| ==> v.issued[i] == w.issued[i] && (Current(v, i) <==> Current(w, i));
    TakeIncreasing(w, d, owner, now);
    TakeHeld(w, d, owner, now);
  }

  lemma DeletedFenced(w: World, d: DialogId)
    requires Fenced(w)
    ensures Fenced(Deleted(w, d))
  {
    var v := Deleted(w, d);
    assert forall x :: Epoch(v, x) == if x == d then Epoch(w, x) + 1 else Epoch(w, x);
    assert forall i :: 0 <= i < |w.issued| && Current(v, i) ==> w.issued[i].claim.dialog != d && Current(w, i);
    forall x | x in v.rows ensures exists i: nat :: Holds(v, i, x) {
      var i: nat :| Holds(w, i, x);
      assert Holds(v, i, x);
    }
  }

  lemma BeatFenced(w: World, claims: seq<Claim>, now: int)
    requires Fenced(w)
    ensures Fenced(Apply(w, Beat(claims, now)))
  {
    var v := Apply(w, Beat(claims, now));
    assert forall i: nat :: Current(v, i) <==> Current(w, i);
    forall x | x in v.rows ensures exists i: nat :: Holds(v, i, x) {
      var i: nat :| Holds(w, i, x);
      assert Holds(v, i, x);
    }
  }

  lemma StepFenced(w: World, a: Step)
    requires Fenced(w)
    ensures Fenced(Apply(w, a))
  {
    match a
    case Take(d, owner, now) => TakeFenced(w, d, owner, now);
    case Beat(claims, now) => BeatFenced(w, claims, now);
    case Drop(c) => if Matches(w.rows, c) { DeletedFenced(w, c.dialog); }
    case DeleteDialog(d) => if d in w.rows { DeletedFenced(w, d); }
  }

  lemma {:induction false} RunFenced(w: World, steps: seq<Step>)
    requires Fenced(w)
    ensures Fenced(End(w, steps))
    decreases |steps|
  {
    if steps != [] {
      StepFenced(w, steps[0]);
      RunFenced(Apply(w, steps[0]), steps[1..]);
    }
  }

  /** Along a run claims are only added and epochs only grow. */
  lemma {:induction false} RunGrows(w: World, steps: seq<Step>)
    ensures w.issued <= End(w, steps).issued
    ensures forall d :: Epoch(w, d) <= Epoch(End(w, steps), d)
    decreases |steps|
  {
    if steps != [] {
      var v := Apply(w, steps[0]);
      assert w.issued <= v.issued;
      assert forall d :: Epoch(w, d) <= Epoch(v, d);
      RunGrows(v, steps[1..]);
      assert w.issued <= End(v, steps[1..]).issued;
    }
  }

  lemma InitialFenced()
    ensures Fenced(Initial())
  {
  }

  /**
   A claim preempted at any moment of any run stays preempted while the row is not deleted:
   no later beat keeps it, no release with it deletes anything, and the per-run check refuses it.
   */
  lemma PreemptedForever(before: seq<Step>, after: seq<Step>, i: nat)
    requires Current(End(Initial(), before), i) && !Newest(End(Initial(), before), i)
    ensures
      var w := End(End(Initial(), before), after);
      var c := End(Initial(), before).issued[i].claim;
      Epoch(w, c.dialog) == Epoch(End(Initial(), before), c.dialog) ==>
        && !Passes(w.rows, c)
        && !Matches(w.rows, c)
        && Apply(w, Drop(c)) == w
        && forall claims: seq<Claim> :: KeptBy(w.rows, claims, c.dialog) ==>
             exists k: nat :: IsLast(claims, k) && claims[k].dialog == c.dialog && claims[k] != c
  {
    InitialFenced();
    RunFenced(Initial(), before);
    var v := End(Initial(), before);
    RunFenced(v, after);
    RunGrows(v, after);
    var w := End(v, after);
    var c := v.issued[i].claim;
    assert w.issued[i] == v.issued[i];
    if Epoch(w, c.dialog) == Epoch(v, c.dialog) {
      var j :| i < j < |v.issued| && v.issued[j].claim.dialog == c.dialog && v.issued[j].epoch == v.issued[i].epoch;
      assert w.issued[j] == v.issued[j];
      var h: nat :| Holds(w, h, c.dialog);
      assert !Newest(w, i);
      HolderLeads(w, h, c.dialog, i);
    }
  }

  // -------------------------------------------------------------------------------------
  // Heartbeats.
  // -------------------------------------------------------------------------------------

  /** The beat speaks for this claim: it is the last listed on its dialog. */
  predicate SpeaksFor(claims: seq<Claim>, c: Claim) {
    exists i :: 0 <= i < |claims| && IsLast(claims, i) && claims[i] == c
  }

  /** The step leaves the row of the claim to its holder. */
  predicate LeavesRow(a: Step, c: Claim) {
    match a
    case Take(d, _, _) => d != c.dialog
    case Beat(_, _) => true
    case Drop(other) => other != c
    case DeleteDialog(d) => d != c.dialog
  }

  /** When the holder was last heard of: the last beat that spoke for it, or else `before`. */
  function HeardAt(steps: seq<Step>, c: Claim, before: int): int {
    if steps == [] then before
    else
      var a := steps[|steps| - 1];
      if a.Beat? && SpeaksFor(a.claims, c) then a.now else HeardAt(steps[..|steps| - 1], c, before)
  }

  lemma {:induction false} HeardFirst(a: Step, steps: seq<Step>, c: Claim, before: int)
    ensures HeardAt([a] + steps, c, before) ==
            HeardAt(steps, c, if a.Beat? && SpeaksFor(a.claims, c) then a.now else before)
  {
    if steps == [] {
      assert [a] + steps == [a] && [a][..0] == [];
    } else {
      var n := |steps| - 1;
      assert ([a] + steps)[..|steps|] == [a] + steps[..n];
      HeardFirst(a, steps[..n], c, before);
    }
  }

  lemma BeatHeard(rows: Rows, claims: seq<Claim>, c: Claim)
    requires Matches(rows, c)
    ensures KeptBy(rows, claims, c.dialog) <==> SpeaksFor(claims, c)
  {
    if KeptBy(rows, claims, c.dialog) {
      var i :| 0 <= i < |claims| && IsLast(claims, i) && claims[i].dialog == c.dialog && Matches(rows, claims[i]);
      assert claims[i] == c;
    }
  }

  /**
   While a claim is neither superseded nor deleted, its row carries the time of the last beat that
   spoke for it, whatever the other processes do: a holder that falls silent goes stale, and no
   other's beat keeps it fresh.
   */
  lemma {:induction false} HeartbeatIsLastBeat(w: World, steps: seq<Step>, c: Claim)
    requires Matches(w.rows, c) && forall k :: 0 <= k < |steps| ==> LeavesRow(steps[k], c)
    ensures Matches(End(w, steps).rows, c)
    ensures End(w, steps).rows[c.dialog].heartbeat == HeardAt(steps, c, w.rows[c.dialog].heartbeat)
    decreases |steps|
  {
    if steps != [] {
      var a := steps[0];
      if a.Beat? { BeatHeard(w.rows, a.claims, c); }
      HeardFirst(a, steps[1..], c, w.rows[c.dialog].heartbeat);
      assert [a] + steps[1..] == steps;
      HeartbeatIsLastBeat(Apply(w, a), steps[1..], c);
    }
  }

  /**
   In every reachable state exactly one claim of the present epoch passes the per-run check
   where the row exists: the newest, which is also the one that beats keep.
   */
  lemma OneCurrentClaimPasses(steps: seq<Step>, d: DialogId)
    ensures
      var w := End(Initial(), steps);
      d in w.rows ==>
        exists i: nat :: Holds(w, i, d) && Newest(w, i) && Passes(w.rows, w.issued[i].claim) &&
          forall j: nat :: Current(w, j) && w.issued[j].claim.dialog == d && Passes(w.rows, w.issued[j].claim) ==>
            j == i
  {
    InitialFenced();
    RunFenced(Initial(), steps);
    var w := End(Initial(), steps);
    if d in w.rows {
      var i: nat :| Holds(w, i, d);
      forall j: nat | Current(w, j) && w.issued[j].claim.dialog == d && Passes(w.rows, w.issued[j].claim)
        ensures j == i
      {
        HolderLeads(w, i, d, j);
      }
    }
  }

  /**
   Two different claims on a dialog both pass the per-run check exactly when the row is
   gone, or both carry its generation; the latter takes a deletion in between.
   */
  lemma BothPassIff(steps: seq<Step>, i: nat, j: nat)
    requires i < j < |End(Initial(), steps).issued|
    requires End(Initial(), steps).issued[i].claim.dialog == End(Initial(), steps).issued[j].claim.dialog
    ensures
      var w := End(Initial(), steps);
      var a, b := w.issued[i], w.issued[j];
      && (a.epoch == b.epoch ==>
            (Passes(w.rows, a.claim) && Passes(w.rows, b.claim) <==> a.claim.dialog !in w.rows))
      && (a.epoch == b.epoch == Epoch(w, a.claim.dialog) ==> !(Passes(w.rows, a.claim) && Passes(w.rows, b.claim)))
  {
    InitialFenced();
    RunFenced(Initial(), steps);
    var w := End(Initial(), steps);
    if w.issued[i].epoch == w.issued[j].epoch {
      assert w.issued[i].claim.generation < w.issued[j].claim.generation;
      assert w.issued[i].epoch == Epoch(w, w.issued[i].claim.dialog) ==> Current(w, i);
    }
  }

  // -------------------------------------------------------------------------------------
  // When a claim matches again.
  // -------------------------------------------------------------------------------------

  predicate IsOf(x: Issue, d: DialogId, epoch: nat) {
    x.claim.dialog == d && x.epoch == epoch
  }

  /** How many claims on `d` were issued in that epoch. */
  function CountOf(issued: seq<Issue>, d: DialogId, epoch: nat): nat {
    if issued == [] then 0
    else CountOf(issued[..|issued| - 1], d, epoch) + if IsOf(issued[|issued| - 1], d, epoch) then 1 else 0
  }

  /** Who was issued the last of them. */
  function LastOf(issued: seq<Issue>, d: DialogId, epoch: nat): Option<Owner> {
    if issued == [] then None
    else if IsOf(issued[|issued| - 1], d, epoch) then Some(issued[|issued| - 1].claim.owner)
    else LastOf(issued[..|issued| - 1], d, epoch)
  }

  lemma OneMoreIssue(issued: seq<Issue>, x: Issue, d: DialogId, epoch: nat)
    ensures CountOf(issued + [x], d, epoch) == CountOf(issued, d, epoch) + if IsOf(x, d, epoch) then 1 else 0
    ensures LastOf(issued + [x], d, epoch) ==
            if IsOf(x, d, epoch) then Some(x.claim.owner) else LastOf(issued, d, epoch)
  {
    assert (issued + [x])[..|issued|] == issued;
  }

  lemma {:induction false} NoneIssued(issued: seq<Issue>, d: DialogId, epoch: nat)
    requires forall i :: 0 <= i < |issued| ==> !IsOf(issued[i], d, epoch)
    ensures CountOf(issued, d, epoch) == 0
  {
    if issued != [] { NoneIssued(issued[..|issued| - 1], d, epoch); }
  }

  /** The row's generation counts the claims since the last deletion; its owner took the last. */
  ghost predicate CountedFor(w: World, d: DialogId) {
    if d in w.rows then
      w.rows[d].generation == CountOf(w.issued, d, Epoch(w, d)) &&
      LastOf(w.issued, d, Epoch(w, d)) == Some(w.rows[d].owner)
    else CountOf(w.issued, d, Epoch(w, d)) == 0
  }

  ghost predicate Counted(w: World) {
    forall d :: CountedFor(w, d)
  }

  lemma StepCounted(w: World, a: Step)
    requires Fenced(w) && Counted(w)
    ensures Counted(Apply(w, a))
  {
    var v := Apply(w, a);
    forall d ensures CountedFor(v, d) {
      assert CountedFor(w, d);
      match a
      case Take(x, owner, now) => OneMoreIssue(w.issued, v.issued[|w.issued|], d, Epoch(w, d));
      case Beat(claims, now) =>
      case Drop(c) => if Matches(w.rows, c) { DeletedCounted(w, c.dialog, d); }
      case DeleteDialog(x) => if x in w.rows { DeletedCounted(w, x, d); }
    }
  }

  lemma DeletedCounted(w: World, x: DialogId, d: DialogId)
    requires Fenced(w) && CountedFor(w, d)
    ensures CountedFor(Deleted(w, x), d)
  {
    if x == d { NoneIssued(w.issued, d, Epoch(w, d) + 1); }
  }

  lemma {:induction false} RunCounted(w: World, steps: seq<Step>)
    requires Fenced(w) && Counted(w)
    ensures Counted(End(w, steps))
    decreases |steps|
  {
    if steps != [] {
      StepFenced(w, steps[0]);
      StepCounted(w, steps[0]);
      RunCounted(Apply(w, steps[0]), steps[1..]);
    }
  }

  /**
   In every reachable state a claim (owner, g), whenever it was handed out, matches the row exactly
   when g claims on its dialog were issued since the last deletion and the last was its owner's.
   */
  lemma MatchesAgainIff(steps: seq<Step>, c: Claim)
    ensures
      var w := End(Initial(), steps);
      var epoch := Epoch(w, c.dialog);
      Matches(w.rows, c) <==>
        CountOf(w.issued, c.dialog, epoch) == c.generation && LastOf(w.issued, c.dialog, epoch) == Some(c.owner)
  {
    InitialFenced();
    RunCounted(Initial(), steps);
    var w := End(Initial(), steps);
    assert CountedFor(w, c.dialog);
    LastIffCounted(w.issued, c.dialog, Epoch(w, c.dialog));
  }

  lemma {:induction false} LastIffCounted(issued: seq<Issue>, d: DialogId, epoch: nat)
    ensures LastOf(issued, d, epoch).Some? <==> CountOf(issued, d, epoch) > 0
  {
    if issued != [] { LastIffCounted(issued[..|issued| - 1], d, epoch); }
  }

  /**
   Across a deletion the fence is gone: process 1 is preempted by process 2, which releases;
   process 1's next claim gets generation 1 again, so a beat with its preempted claim is kept.
   */
  lemma DeletionRevivesClaims()
    ensures
      var steps := [Take(0, 1, 0), Take(0, 2, 1), Drop(Claim(0, 2, 2)), Take(0, 1, 2)];
      var w := End(Initial(), steps);
      && |w.issued| == 3
      && w.issued[0].claim == w.issued[2].claim == Claim(0, 1, 1)
      && w.issued[0].epoch != w.issued[2].epoch
      && !Matches(End(Initial(), steps[..2]).rows, w.issued[0].claim)
      && Matches(w.rows, w.issued[0].claim)
  {
    var steps := [Take(0, 1, 0), Take(0, 2, 1), Drop(Claim(0, 2, 2)), Take(0, 1, 2)];
    var s1 := World(map[0 := Row(1, 1, 0)], map[], [Issue(Claim(0, 1, 1), 0)]);
    var s2 := World(map[0 := Row(2, 2, 1)], map[], [Issue(Claim(0, 1, 1), 0), Issue(Claim(0, 2, 2), 0)]);
    var s3 := World(map[], map[0 := 1], s2.issued);
    var s4 := World(map[0 := Row(1, 1, 2)], map[0 := 1], s2.issued + [Issue(Claim(0, 1, 1), 1)]);
    assert Apply(Initial(), steps[0]) == s1;
    assert Apply(s1, steps[1]) == s2;
    assert Apply(s2, steps[2]) == s3 by { assert Without(s2.rows, 0) == map[]; }
    assert Apply(s3, steps[3]) == s4;
    EndFour(Initial(), steps, s1, s2, s3, s4);
  }

  lemma EndFour(w: World, steps: seq<Step>, s1: World, s2: World, s3: World, s4: World)
    requires |steps| == 4
    requires Apply(w, steps[0]) == s1 && Apply(s1, steps[1]) == s2
    requires Apply(s2, steps[2]) == s3 && Apply(s3, steps[3]) == s4
    ensures End(w, steps[..2]) == s2 && End(w, steps) == s4
  {
    var t := steps[..2];
    assert t[0] == steps[0] && t[1..] == [steps[1]] && t[1..][1..] == [];
    assert End(s1, t[1..]) == End(s2, []);
    assert steps[1..][0] == steps[1] && steps[1..][1..] == steps[2..];
    assert steps[2..][0] == steps[2] && steps[2..][1..] == steps[3..];
    assert steps[3..][0] == steps[3] && steps[3..][1..] == [];
    assert End(s3, steps[3..]) == End(s4, []);
    assert End(s2, steps[2..]) == End(s3, steps[3..]);
    assert End(s1, steps[1..]) == End(s2, steps[2..]);
  }
}
