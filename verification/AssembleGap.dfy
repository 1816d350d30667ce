/**
 Whether an assembled branch leaves a gap: a message that is neither under the topics block
 nor in the verbatim tail. The tail is cut from the actor's memory by a count taken from the
 archive, so it depends on the two agreeing past the counted boundary.
 */
module AssembleGap {
  import opened Domain
  import opened Segment
  import opened Compaction

  /** Message `i` of the archive is either under the topics block or in the verbatim tail. */
  predicate Readable(archive: seq<Archived>, topics: seq<Summary>, tail: seq<Archived>, i: nat)
    requires i < |archive|
  {
    Covers(topics, archive[i].number) || archive[i] in tail
  }

  ghost predicate NoGap(archive: seq<Archived>, topics: seq<Summary>, tail: seq<Archived>) {
    forall i :: 0 <= i < |archive| ==> Readable(archive, topics, tail, i)
  }

  lemma CoversUpTo(topics: seq<Summary>, number: int)
    requires CoverExact(topics) && 1 <= number
    ensures Covers(topics, number) <==> number <= MaxTo(topics)
  {
  }

  /** Past the topics block everything has to be in the tail, and that is enough. */
  lemma NoGapIff(archive: seq<Archived>, topics: seq<Summary>, tail: seq<Archived>)
    requires Numbered(archive) && CoverExact(topics)
    ensures NoGap(archive, topics, tail) <==> forall i :: MaxTo(topics) <= i < |archive| ==> archive[i] in tail
  {
    forall i | 0 <= i < |archive|
      ensures Readable(archive, topics, tail, i) <==> i < MaxTo(topics) || archive[i] in tail
    {
      CoversUpTo(topics, archive[i].number);
    }
    if NoGap(archive, topics, tail) {
      forall i | MaxTo(topics) <= i < |archive| ensures archive[i] in tail {
        assert Readable(archive, topics, tail, i);
      }
    }
  }

  // ----- memory against the archive

  /** The last messages of memory, as many as the archive has past `b`, are exactly those, in any order. */
  ghost predicate Agrees(archive: seq<Archived>, memory: seq<Archived>, b: int) {
    0 <= b <= |archive| && multiset(TailOf(memory, |archive| - b)) == multiset(archive[b..])
  }

  /** Memory is the archive from some point at or before `b` on, in its order. */
  ghost predicate Mirrors(archive: seq<Archived>, memory: seq<Archived>, b: int) {
    |archive| - |memory| <= b <= |archive| && |memory| <= |archive| && memory == archive[|archive| - |memory|..]
  }

  /** Distinct messages that all occur in a sequence no longer than theirs are that sequence. */
  lemma {:induction false} Pigeonhole(xs: seq<Archived>, ys: seq<Archived>)
    requires |ys| <= |xs| && forall i, j :: 0 <= i < j < |xs| ==> xs[i] != xs[j]
    requires forall i :: 0 <= i < |xs| ==> xs[i] in ys
    ensures multiset(xs) == multiset(ys)
    decreases |xs|
  {
    if xs != [] {
      var j :| 0 <= j < |ys| && ys[j] == xs[0];
      var rest := ys[..j] + ys[j + 1..];
      forall i | 0 <= i < |xs| - 1 ensures xs[1..][i] in rest {
        assert xs[1..][i] == xs[i + 1] && xs[i + 1] in ys;
        var k :| 0 <= k < |ys| && ys[k] == xs[i + 1];
        assert k != j;
        assert rest[if k < j then k else k - 1] == ys[k];
      }
      Pigeonhole(xs[1..], rest);
      assert ys == ys[..j] + [ys[j]] + ys[j + 1..];
      assert xs == [xs[0]] + xs[1..];
    }
  }

  /** Agreement is exactly that nothing past `b` is missing from that tail of memory. */
  lemma AgreesIff(archive: seq<Archived>, memory: seq<Archived>, b: int)
    requires Numbered(archive) && 0 <= b <= |archive|
    ensures Agrees(archive, memory, b) <==>
            forall i :: b <= i < |archive| ==> archive[i] in TailOf(memory, |archive| - b)
  {
    var hot, tail := archive[b..], TailOf(memory, |archive| - b);
    assert forall i :: b <= i < |archive| ==> hot[i - b] == archive[i];
    if Agrees(archive, memory, b) {
      forall i | b <= i < |archive| ensures archive[i] in tail {
        assert hot[i - b] in multiset(hot);
        assert archive[i] in multiset(tail);
      }
    } else if forall i :: b <= i < |archive| ==> archive[i] in tail {
      forall i | 0 <= i < |hot| ensures hot[i] in tail { assert hot[i] == archive[b + i]; }
      forall i, j | 0 <= i < j < |hot| ensures hot[i] != hot[j] {
        assert hot[i].number == b + i + 1 && hot[j].number == b + j + 1;
      }
      Pigeonhole(hot, tail);
    }
  }

  /** The tail cut by an agreeing memory leaves no gap under topics that reach `b` or further. */
  lemma CutByCount(archive: seq<Archived>, memory: seq<Archived>, topics: seq<Summary>, b: int)
    requires Numbered(archive) && CoverExact(topics) && 0 <= b <= |archive| && b <= MaxTo(topics)
    ensures Agrees(archive, memory, b) ==> NoGap(archive, topics, TailOf(memory, |archive| - b))
    ensures MaxTo(topics) == b && NoGap(archive, topics, TailOf(memory, |archive| - b)) ==> Agrees(archive, memory, b)
  {
    AgreesIff(archive, memory, b);
    NoGapIff(archive, topics, TailOf(memory, |archive| - b));
  }

  // ----- from a count to its snapshot

  /** Nothing is stored or remembered, and the assemble goes on. */
  predicate Quiet(labels: seq<Label>) {
    forall k :: 0 <= k < |labels| ==>
      !Stores(labels[k]) && !labels[k].Remember? && !labels[k].Trim? && !labels[k].Leave? && !labels[k].CountTail?
  }

  predicate Counted(r: Reader, c: Count) {
    (r.Reading? && r.count == Some(c)) || (r.Ready? && r.counted == c) || (r.Assembled? && r.counted == c)
  }

  lemma {:induction false} QuietRun(s: State, labels: seq<Label>, c: Count)
    requires Valid(s, labels) && Quiet(labels) && Counted(s.reader, c)
    ensures
      var s' := End(s, labels);
      s'.archive == s.archive && s'.memory == s.memory && Counted(s'.reader, c)
    decreases |labels|
  {
    if labels != [] {
      assert !Stores(labels[0]) && !labels[0].Remember?;
      QuietRun(Apply(s, labels[0]), labels[1..], c);
    }
  }

  /** The state and the run in which a count is taken and its snapshot reached undisturbed. */
  ghost predicate CountThenSnapshot(s: State, labels: seq<Label>) {
    && ReadInv(s) && Enabled(s, CountTail)
    && Valid(Apply(s, CountTail), labels) && Quiet(labels)
    && Enabled(End(Apply(s, CountTail), labels), Snapshot)
  }

  /** What the snapshot sees in such a run. */
  lemma SnapshotSees(s: State, labels: seq<Label>)
    requires CountThenSnapshot(s, labels)
    ensures
      var s' := End(Apply(s, CountTail), labels);
      && s'.archive == s.archive && s'.memory == s.memory
      && Numbered(s.archive) && CoverExact(s'.reader.topics) && 0 <= Boundary(s) <= |s.archive|
      && s'.reader.counted == Count(|s.archive| - Boundary(s), Boundary(s), |s.archive|)
      && Snapshotted(s').tail == TailOf(s.memory, |s.archive| - Boundary(s))
      && Boundary(s) <= MaxTo(s'.reader.topics)
  {
    StepReadInv(s, CountTail);
    RunReadInv(Apply(s, CountTail), labels);
    QuietRun(Apply(s, CountTail), labels, Count(|s.archive| - Boundary(s), Boundary(s), |s.archive|));
  }

  /**
   If memory agrees with the archive past the boundary when the tail is counted, and nothing is
   stored or remembered before the snapshot, the branch leaves no gap, whatever compactions
   commit in between.
   */
  lemma AssembleLeavesNoGap(s: State, labels: seq<Label>)
    requires CountThenSnapshot(s, labels) && Agrees(s.archive, s.memory, Boundary(s))
    ensures
      var s' := End(Apply(s, CountTail), labels);
      NoGap(s'.archive, s'.reader.topics, Snapshotted(s').tail)
  {
    SnapshotSees(s, labels);
    var s' := End(Apply(s, CountTail), labels);
    CutByCount(s.archive, s.memory, s'.reader.topics, Boundary(s));
  }

  /**
   And where the topics block ends at the counted boundary - no compaction committed meanwhile -
   the agreement is needed: there is no gap if and only if memory agrees with the archive there.
   */
  lemma GapFreeIffAgrees(s: State, labels: seq<Label>)
    requires CountThenSnapshot(s, labels)
    requires MaxTo(End(Apply(s, CountTail), labels).reader.topics) == Boundary(s)
    ensures
      var s' := End(Apply(s, CountTail), labels);
      NoGap(s'.archive, s'.reader.topics, Snapshotted(s').tail) <==> Agrees(s.archive, s.memory, Boundary(s))
  {
    SnapshotSees(s, labels);
    var s' := End(Apply(s, CountTail), labels);
    CutByCount(s.archive, s.memory, s'.reader.topics, Boundary(s));
  }

  /**
   While memory mirrors the archive, messages may even be stored and remembered between the
   count and the snapshot: there is no gap exactly when they are no more than the topics block
   reaches beyond the counted boundary.
   */
  lemma MirrorGapFreeIff(s: State, labels: seq<Label>)
    requires ReadInv(s) && Valid(s, labels) && Enabled(End(s, labels), Snapshot)
    requires
      var s' := End(s, labels);
      Mirrors(s'.archive, s'.memory, s'.reader.counted.boundary)
    ensures
      var s' := End(s, labels);
      var c := s'.reader.counted;
      NoGap(s'.archive, s'.reader.topics, Snapshotted(s').tail) <==>
        |s'.archive| - c.len <= MaxTo(s'.reader.topics) - c.boundary
  {
    RunReadInv(s, labels);
    var s' := End(s, labels);
    CutByMirror(s'.archive, s'.memory, s'.reader.topics, s'.reader.counted);
  }

  lemma CutByMirror(archive: seq<Archived>, memory: seq<Archived>, topics: seq<Summary>, c: Count)
    requires Numbered(archive) && CoverExact(topics) && Mirrors(archive, memory, c.boundary)
    requires 0 <= c.boundary <= c.len <= |archive| && c.count == c.len - c.boundary
    ensures NoGap(archive, topics, TailOf(memory, c.count)) <==> |archive| - c.len <= MaxTo(topics) - c.boundary
  {
    var start := |archive| - c.count;
    assert TailOf(memory, c.count) == archive[start..];
    NoGapIff(archive, topics, archive[start..]);
    if start > MaxTo(topics) {
      NotBefore(archive, start, MaxTo(topics));
    } else {
      forall i | MaxTo(topics) <= i < |archive| ensures archive[i] in archive[start..] {
        assert archive[start..][i - start] == archive[i];
      }
    }
  }

  lemma NotBefore(archive: seq<Archived>, start: nat, i: nat)
    requires Numbered(archive) && i < start <= |archive|
    ensures archive[i] !in archive[start..]
  {
    forall k | 0 <= k < |archive[start..]| ensures archive[start..][k] != archive[i] {
      assert archive[start..][k] == archive[start + k];
    }
  }

  // ----- runs in which memory keeps up with the archive

  /** The counter has answered and the snapshot has not been taken yet. */
  predicate CountOutstanding(r: Reader) {
    r.Ready? || (r.Reading? && r.count.Some?)
  }

  function Outstanding(r: Reader): Count
    requires CountOutstanding(r)
  {
    if r.Ready? then r.counted else r.count.value
  }

  /**
   Messages join memory in the order they were stored, a tail is counted only when all have
   joined, and none is stored or joins between a count and its snapshot.
   */
  ghost predicate Steady(s: State, l: Label) {
    match l
    case Persist(_, _) => !CountOutstanding(s.reader)
    case PersistPair(_) => !CountOutstanding(s.reader)
    case Remember(at) => !CountOutstanding(s.reader) && forall k :: k in s.late ==> at <= k
    case CountTail => s.late == {}
    case _ => true
  }

  ghost predicate SteadyRun(s: State, labels: seq<Label>)
    requires Valid(s, labels)
    decreases |labels|
  {
    labels == [] || (Steady(s, labels[0]) && SteadyRun(Apply(s, labels[0]), labels[1..]))
  }

  /** Memory is the archive up to `r`, from the boundary or before; the rest has still to join. */
  ghost predicate InStep(s: State, r: nat) {
    && |s.memory| <= r <= |s.archive| && s.memory == s.archive[r - |s.memory|..r]
    && r - |s.memory| <= Boundary(s)
    && (forall k :: k in s.late <==> r <= k < |s.archive|)
    && ReaderInStep(s, r)
  }

  ghost predicate ReaderInStep(s: State, r: nat) {
    && (CountOutstanding(s.reader) ==>
          r == |s.archive| == Outstanding(s.reader).len && r - |s.memory| <= Outstanding(s.reader).boundary)
    && (s.reader.Assembled? ==>
          |s.reader.tail| <= s.reader.len <= |s.memory| &&
          r - |s.memory| + s.reader.len - |s.reader.tail| <= Boundary(s))
  }

  lemma RememberInStep(s: State, at: nat, r: nat)
    requires InStep(s, r) && Enabled(s, Remember(at)) && Steady(s, Remember(at))
    ensures at == r && InStep(Apply(s, Remember(at)), r + 1)
  {
    assert r in s.late;
    var s' := Apply(s, Remember(at));
    assert s'.memory == s.archive[r - |s.memory|..r + 1];
  }

  lemma PersistInStep(s: State, role: Role, content: Content, r: nat)
    requires InStep(s, r) && Steady(s, Persist(role, content))
    ensures InStep(Apply(s, Persist(role, content)), r)
  {
    var s' := Apply(s, Persist(role, content));
    assert s'.archive[r - |s.memory|..r] == s.archive[r - |s.memory|..r];
  }

  lemma PairInStep(s: State, content: Content, r: nat)
    requires InStep(s, r) && Steady(s, PersistPair(content))
    ensures InStep(PairStored(s, content), r)
  {
    var s' := PairStored(s, content);
    assert s'.archive[r - |s.memory|..r] == s.archive[r - |s.memory|..r];
  }

  lemma SnapshotInStep(s: State, r: nat)
    requires ReadInv(s) && InStep(s, r) && Enabled(s, Snapshot)
    ensures InStep(Apply(s, Snapshot), r)
  {
    var c := s.reader.counted;
    assert |TailOf(s.memory, c.count)| == c.count;
  }

  lemma TrimInStep(s: State, r: nat)
    requires InStep(s, r) && Enabled(s, Trim)
    ensures InStep(Apply(s, Trim), r)
  {
    var s' := Apply(s, Trim);
    assert s'.memory == s.archive[r - |s'.memory|..r];
  }

  /** The compactor only moves the boundary, and forward. */
  lemma CompactorInStep(s: State, l: Label, r: nat)
    requires Inv(s) && InStep(s, r) && Enabled(s, l) && !OfReader(l) && !Stores(l) && !l.Remember?
    ensures InStep(Apply(s, l), r)
  {
    StepInv(s, l);
    CompactorStep(s, l);
    BoundaryForward(s, Apply(s, l), r);
  }

  lemma BoundaryForward(s: State, s': State, r: nat)
    requires InStep(s, r) && s'.archive == s.archive && s'.memory == s.memory && s'.late == s.late
    requires s'.reader == s.reader && Boundary(s) <= Boundary(s')
    ensures InStep(s', r)
  {
  }

  /** The reads before the snapshot touch nothing but the reader. */
  lemma ReadInStep(s: State, l: Label, r: nat)
    requires InStep(s, r) && Enabled(s, l) && Steady(s, l) && OfReader(l) && !l.Snapshot? && !l.Trim?
    ensures InStep(Apply(s, l), r)
  {
    ReaderFrame(s, l);
    assert r in s.late <==> r < |s.archive|;
  }

  lemma StepInStep(s: State, l: Label, r: nat) returns (r': nat)
    requires ReadInv(s) && InStep(s, r) && Enabled(s, l) && Steady(s, l)
    ensures InStep(Apply(s, l), r')
  {
    r' := r;
    match l
    case Persist(role, content) => PersistInStep(s, role, content, r);
    case PersistPair(content) => PairInStep(s, content, r);
    case Remember(at) =>
      RememberInStep(s, at, r);
      r' := r + 1;
    case Snapshot => SnapshotInStep(s, r);
    case Trim => TrimInStep(s, r);
    case _ => OtherInStep(s, l, r);
  }

  lemma OtherInStep(s: State, l: Label, r: nat)
    requires ReadInv(s) && InStep(s, r) && Enabled(s, l) && Steady(s, l)
    requires !Stores(l) && !l.Remember? && !l.Snapshot? && !l.Trim?
    ensures InStep(Apply(s, l), r)
  {
    if OfReader(l) { ReadInStep(s, l, r); } else { CompactorInStep(s, l, r); }
  }

  lemma {:induction false} RunInStep(s: State, labels: seq<Label>, r: nat) returns (r': nat)
    requires ReadInv(s) && InStep(s, r) && Valid(s, labels) && SteadyRun(s, labels)
    ensures InStep(End(s, labels), r')
    decreases |labels|
  {
    r' := r;
    if labels != [] {
      StepReadInv(s, labels[0]);
      r' := StepInStep(s, labels[0], r);
      r' := RunInStep(Apply(s, labels[0]), labels[1..], r');
    }
  }

  lemma SnapshotOfMirror(s: State, r: nat)
    requires ReadInv(s) && InStep(s, r) && Enabled(s, Snapshot)
    ensures NoGap(s.archive, s.reader.topics, Snapshotted(s).tail)
    ensures Enabled(Apply(s, Snapshot), Trim)
  {
    CutByMirror(s.archive, s.memory, s.reader.topics, s.reader.counted);
    SnapshotInStep(s, r);
  }

  /** In such runs every assemble is without a gap, and its trim can follow. */
  lemma SteadyRunLeavesNoGap(s: State, labels: seq<Label>, r: nat)
    requires ReadInv(s) && InStep(s, r) && Valid(s, labels) && SteadyRun(s, labels)
    requires Enabled(End(s, labels), Snapshot)
    ensures NoGap(End(s, labels).archive, End(s, labels).reader.topics, Snapshotted(End(s, labels)).tail)
    ensures Enabled(Apply(End(s, labels), Snapshot), Trim)
  {
    var r' := RunInStep(s, labels, r);
    RunReadInv(s, labels);
    SnapshotOfMirror(End(s, labels), r');
  }

  /** At every point of such a run, memory holds every message that joined it and is not summarized. */
  lemma MemoryKeepsHot(s: State, labels: seq<Label>, r: nat, i: nat)
    requires ReadInv(s) && InStep(s, r) && Valid(s, labels) && SteadyRun(s, labels)
    requires
      var s' := End(s, labels);
      Boundary(s') <= i < |s'.archive| && i !in s'.late
    ensures End(s, labels).archive[i] in End(s, labels).memory
  {
    var r' := RunInStep(s, labels, r);
    var s' := End(s, labels);
    var from := r' - |s'.memory|;
    assert i < r';
    assert s'.memory[i - from] == s'.archive[i];
  }

  /** A dialog just loaded, with its hot slice in memory, satisfies everything above. */
  lemma LoadedDialog(s: State)
    requires Inv(s) && s.task == Idle && s.reader == Away && s.late == {}
    requires Boundary(s) <= |s.archive| && s.memory == s.archive[Boundary(s)..]
    ensures ReadInv(s) && InStep(s, |s.archive|)
  {
  }
}
