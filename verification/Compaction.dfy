/**
 Rolling compaction beside a live reader (context/compactor.py, context/store.py). A boundary
 splits the archive into a summarized part and a hot tail; it moves while messages are
 stored and while a run assembles its branch in several reads. A message is stored first and
 joins the actor's memory later, not necessarily in the order of the archive.
 */
module Compaction {
  import opened Domain
  import opened Segment

  /** The covered inclusive range of message numbers. */
  datatype Summary = Summary(from: int, to: int)

  const SEGMENT_FETCH_LIMIT := 500

  /** The highest covered number; 0 when nothing was compacted. */
  function MaxTo(summaries: seq<Summary>): (r: int)
    ensures r >= 0
    ensures forall k :: 0 <= k < |summaries| ==> summaries[k].to <= r
    ensures r == 0 || exists k :: 0 <= k < |summaries| && summaries[k].to == r
  {
    if summaries == [] then 0
    else
      var rest := MaxTo(summaries[1..]);
      if summaries[0].to > rest then summaries[0].to else rest
  }

  function MinFrom(first: int, summaries: seq<Summary>): (r: int)
    ensures r <= first && forall k :: 0 <= k < |summaries| ==> r <= summaries[k].from
    ensures r == first || exists k :: 0 <= k < |summaries| && summaries[k].from == r
  {
    if summaries == [] then first
    else
      var rest := MinFrom(first, summaries[1..]);
      if summaries[0].from < rest then summaries[0].from else rest
  }

  /** One compaction run between its awaits. */
  datatype Task =
    | Idle
    | Started
    | AtBoundary(boundary: int)
    | WithTail(boundary: int, tail: seq<Archived>)
    | Chosen(segment: seq<Archived>)
    | Merging(summary: Summary)

  /** What the tail counter reported; `len` is history: the archive's length at that moment. */
  datatype Count = Count(count: nat, boundary: int, len: nat)

  /**
   One assemble between its awaits: the two first reads come back in either order; `len` is the
   length of the actor's memory at the snapshot.
   */
  datatype Reader =
    | Away
    | Reading(summaries: Option<seq<Summary>>, count: Option<Count>)
    | Ready(topics: seq<Summary>, counted: Count)
    | Assembled(topics: seq<Summary>, counted: Count, len: nat, tail: seq<Archived>)

  /**
   `late` are the archive positions stored but not yet in the actor's memory; `pairs` is history:
   the positions of the partial answers stored together with their note.
   */
  datatype State = State(archive: seq<Archived>, memory: seq<Archived>, late: set<nat>, pairs: set<nat>,
                         summaries: seq<Summary>, task: Task, reader: Reader, target: int)

  datatype Label =
    | Persist(role: Role, content: Content)
    | PersistPair(content: Content)
    | Remember(at: nat)
    | StartCompact
    | ReadBoundary
    | ReadTail
    | Choose(cut: nat)
    | Summarize
    | Replace
    | AbortCompact
    | BeginAssemble
    | ListSummaries
    | CountTail
    | Compare
    | Snapshot
    | Trim
    | Leave

  function Boundary(s: State): int {
    MaxTo(s.summaries)
  }

  /** The last `count` messages, or all of them when the mirror is shorter. */
  function TailOf(history: seq<Archived>, count: nat): seq<Archived> {
    var n := if count < |history| then count else |history|;
    history[|history| - n..]
  }

  function Window(archive: seq<Archived>, from: nat, limit: nat): seq<Archived>
    requires from <= |archive|
  {
    archive[from..if from + limit < |archive| then from + limit else |archive|]
  }

  ghost predicate Enabled(s: State, l: Label) {
    match l
    case Persist(_, _) => true
    case PersistPair(_) => true
    case Remember(at) => at in s.late && at < |s.archive|
    case StartCompact => s.task.Idle?
    case ReadBoundary => s.task.Started?
    case ReadTail => s.task.AtBoundary? && 0 <= s.task.boundary <= |s.archive|
    case Choose(cut) => s.task.WithTail? && IsSegmentCut(s.task.tail, s.target, cut) && cut <= |s.task.tail|
    case Summarize => s.task.Chosen? && s.task.segment != []
    case Replace => s.task.Merging?
    case AbortCompact => !s.task.Idle?
    case BeginAssemble => s.reader.Away?
    case ListSummaries => s.reader.Reading? && s.reader.summaries.None?
    case CountTail => s.reader.Reading? && s.reader.count.None? && Boundary(s) <= |s.archive|
    case Compare => s.reader.Reading? && s.reader.summaries.Some? && s.reader.count.Some?
    case Snapshot => s.reader.Ready?
    case Trim => s.reader.Assembled? && 0 <= s.reader.len - |s.reader.tail| <= |s.memory|
    case Leave => !s.reader.Away?
  }

  /** The counter disagreed with the summaries: a compaction committed between, read again. */
  function Compared(s: State): Reader
    requires s.reader.Reading? && s.reader.summaries.Some? && s.reader.count.Some?
  {
    var counted := s.reader.count.value;
    if counted.boundary != MaxTo(s.reader.summaries.value) then Ready(s.summaries, counted)
    else Ready(s.reader.summaries.value, counted)
  }

  /** The snapshot slices the tail off the memory as it is then. */
  function Snapshotted(s: State): Reader
    requires s.reader.Ready?
  {
    Assembled(s.reader.topics, s.reader.counted, |s.memory|, TailOf(s.memory, s.reader.counted.count))
  }

  /** A salvaged partial answer and the note that says so, in one transaction. */
  function PairStored(s: State, content: Content): State {
    var n := |s.archive|;
    s.(archive := s.archive + [Archived(n + 1, Assistant, content), Archived(n + 2, System, InterruptedNote)],
       late := s.late + {n, n + 1}, pairs := s.pairs + {n})
  }

  ghost function Apply(s: State, l: Label): State
    requires Enabled(s, l)
  {
    match l
    case Persist(role, content) =>
      s.(archive := s.archive + [Archived(|s.archive| + 1, role, content)], late := s.late + {|s.archive|})
    case PersistPair(content) => PairStored(s, content)
    case Remember(at) => s.(memory := s.memory + [s.archive[at]], late := s.late - {at})
    case StartCompact => s.(task := Started)
    case ReadBoundary => s.(task := AtBoundary(Boundary(s)))
    case ReadTail =>
      s.(task := WithTail(s.task.boundary, Window(s.archive, s.task.boundary, SEGMENT_FETCH_LIMIT)))
    case Choose(cut) => s.(task := if cut == 0 then Idle else Chosen(s.task.tail[..cut]))
    case Summarize =>
      var segment := s.task.segment;
      s.(task := Merging(Summary(MinFrom(segment[0].number, s.summaries), segment[|segment| - 1].number)))
    case Replace => s.(summaries := [s.task.summary], task := Idle)
    case AbortCompact => s.(task := Idle)
    case BeginAssemble => s.(reader := Reading(None, None))
    case ListSummaries => s.(reader := Reading(Some(s.summaries), s.reader.count))
    case CountTail =>
      s.(reader := Reading(s.reader.summaries, Some(Count(|s.archive| - Boundary(s), Boundary(s), |s.archive|))))
    case Compare => s.(reader := Compared(s))
    case Snapshot => s.(reader := Snapshotted(s))
    case Trim => s.(memory := s.memory[s.reader.len - |s.reader.tail|..], reader := Away)
    case Leave => s.(reader := Away)
  }

  ghost predicate Valid(s: State, labels: seq<Label>)
    decreases |labels|
  {
    labels == [] || (Enabled(s, labels[0]) && Valid(Apply(s, labels[0]), labels[1..]))
  }

  ghost function End(s: State, labels: seq<Label>): State
    requires Valid(s, labels)
    decreases |labels|
  {
    if labels == [] then s else End(Apply(s, labels[0]), labels[1..])
  }

  // ----- the invariant

  predicate Numbered(archive: seq<Archived>) {
    forall i :: 0 <= i < |archive| ==> archive[i].number == i + 1
  }

  predicate Covers(summaries: seq<Summary>, number: int) {
    exists k :: 0 <= k < |summaries| && summaries[k].from <= number <= summaries[k].to
  }

  /** The summaries cover exactly the messages up to the boundary. */
  ghost predicate CoverExact(summaries: seq<Summary>) {
    (forall k :: 0 <= k < |summaries| ==> 1 <= summaries[k].from) &&
    (forall i :: 1 <= i <= MaxTo(summaries) ==> Covers(summaries, i))
  }

  /** The boundary lies strictly inside the archive, between two messages that may be parted. */
  ghost predicate BoundaryClean(archive: seq<Archived>, b: int) {
    b == 0 || (0 < b < |archive| && !IsSplitPair(archive[b - 1], archive[b]))
  }

  ghost predicate TaskSound(s: State) {
    match s.task
    case Idle => true
    case Started => true
    case AtBoundary(b) => b == Boundary(s)
    case WithTail(b, tail) => b == Boundary(s) && b + |tail| <= |s.archive| && tail == s.archive[b..b + |tail|]
    case Chosen(segment) =>
      var b := Boundary(s);
      segment != [] && b + |segment| < |s.archive| && segment == s.archive[b..b + |segment|] &&
      BoundaryClean(s.archive, b + |segment|)
    case Merging(summary) =>
      summary.from == 1 && Boundary(s) < summary.to && BoundaryClean(s.archive, summary.to)
  }

  ghost predicate Inv(s: State) {
    Numbered(s.archive) && CoverExact(s.summaries) && BoundaryClean(s.archive, Boundary(s)) && TaskSound(s)
  }

  lemma GrownClean(archive: seq<Archived>, more: seq<Archived>, b: int)
    requires BoundaryClean(archive, b)
    ensures BoundaryClean(archive + more, b)
  {
  }

  lemma GrownSlice(archive: seq<Archived>, more: seq<Archived>, a: nat, b: nat)
    requires a <= b <= |archive|
    ensures (archive + more)[a..b] == archive[a..b]
  {
  }

  lemma GrownTask(s: State, s': State, more: seq<Archived>)
    requires TaskSound(s) && s'.archive == s.archive + more && s'.summaries == s.summaries && s'.task == s.task
    ensures TaskSound(s')
  {
    var b := Boundary(s);
    match s.task
    case WithTail(_, tail) => GrownSlice(s.archive, more, b, b + |tail|);
    case Chosen(segment) =>
      GrownSlice(s.archive, more, b, b + |segment|);
      GrownClean(s.archive, more, b + |segment|);
    case Merging(summary) => GrownClean(s.archive, more, summary.to);
    case _ =>
  }

  /** Stored messages go to the end; what the compactor holds stays where it was. */
  lemma GrownInv(s: State, s': State, more: seq<Archived>)
    requires Inv(s) && s'.archive == s.archive + more && Numbered(s'.archive)
    requires s'.summaries == s.summaries && s'.task == s.task
    ensures Inv(s')
  {
    GrownClean(s.archive, more, Boundary(s));
    GrownTask(s, s', more);
  }

  lemma PersistInv(s: State, role: Role, content: Content)
    requires Inv(s)
    ensures Inv(Apply(s, Persist(role, content)))
  {
    GrownInv(s, Apply(s, Persist(role, content)), [Archived(|s.archive| + 1, role, content)]);
  }

  lemma PairInv(s: State, content: Content)
    requires Inv(s)
    ensures Inv(PairStored(s, content))
  {
    var n := |s.archive|;
    var pair := [Archived(n + 1, Assistant, content), Archived(n + 2, System, InterruptedNote)];
    GrownInv(s, PairStored(s, content), pair);
  }

  lemma ChooseInv(s: State, cut: nat)
    requires Inv(s) && Enabled(s, Choose(cut))
    ensures Inv(Apply(s, Choose(cut)))
  {
    if cut > 0 { ChosenIsClean(s.archive, Boundary(s), s.task.tail, s.target, cut); }
  }

  /** A chosen segment ends between two messages that may be parted. */
  lemma ChosenIsClean(archive: seq<Archived>, b: nat, tail: seq<Archived>, target: int, cut: nat)
    requires b + |tail| <= |archive| && tail == archive[b..b + |tail|]
    requires 0 < cut <= |tail| && IsSegmentCut(tail, target, cut)
    ensures b + cut < |archive| && tail[..cut] == archive[b..b + cut] && BoundaryClean(archive, b + cut)
  {
    SegmentGuarantees(tail, target, cut);
    PrefixOfWindow(archive, b, |tail|, cut);
  }

  lemma PrefixOfWindow(archive: seq<Archived>, b: nat, n: nat, cut: nat)
    requires b + n <= |archive| && 0 < cut < n
    ensures
      var tail := archive[b..b + n];
      tail[..cut] == archive[b..b + cut] && tail[cut - 1] == archive[b + cut - 1] && tail[cut] == archive[b + cut]
  {
  }

  /** Merging always reaches back to the first message. */
  lemma FromIsOne(s: State)
    requires Inv(s) && s.task.Chosen?
    ensures MinFrom(s.task.segment[0].number, s.summaries) == 1
  {
    var b := Boundary(s);
    assert s.task.segment[0] == s.archive[b];
    if b > 0 {
      assert Covers(s.summaries, 1);
      var k :| 0 <= k < |s.summaries| && s.summaries[k].from <= 1 <= s.summaries[k].to;
    }
  }

  lemma SummarizeInv(s: State)
    requires Inv(s) && Enabled(s, Summarize)
    ensures Inv(Apply(s, Summarize))
  {
    FromIsOne(s);
    var b, n := Boundary(s), |s.task.segment|;
    assert s.task.segment[n - 1] == s.archive[b + n - 1];
  }

  lemma ReplaceInv(s: State)
    requires Inv(s) && Enabled(s, Replace)
    ensures Inv(Apply(s, Replace)) && Boundary(Apply(s, Replace)) > Boundary(s)
  {
    var summary := s.task.summary;
    assert MaxTo([summary]) == summary.to;
    forall i | 1 <= i <= summary.to ensures Covers([summary], i) {
      assert [summary][0].from <= i <= [summary][0].to;
    }
  }

  predicate OfReader(l: Label) {
    l.BeginAssemble? || l.ListSummaries? || l.CountTail? || l.Compare? || l.Snapshot? || l.Trim? || l.Leave?
  }

  predicate Stores(l: Label) {
    l.Persist? || l.PersistPair?
  }

  /** The reader never writes what the compactor works on. */
  lemma ReaderFrame(s: State, l: Label)
    requires Enabled(s, l) && OfReader(l)
    ensures Apply(s, l) == s.(reader := Apply(s, l).reader, memory := Apply(s, l).memory)
  {
  }

  lemma StepInv(s: State, l: Label)
    requires Inv(s) && Enabled(s, l)
    ensures Inv(Apply(s, l)) && Boundary(Apply(s, l)) >= Boundary(s)
  {
    if OfReader(l) {
      ReaderFrame(s, l);
    } else {
      match l
      case Persist(role, content) => PersistInv(s, role, content);
      case PersistPair(content) => PairInv(s, content);
      case Choose(cut) => ChooseInv(s, cut);
      case Summarize => SummarizeInv(s);
      case Replace => ReplaceInv(s);
      case _ =>
    }
  }

  /**
   In every interleaving of stored messages, reads and guarded one-at-a-time compactions: the boundary
   only moves forward, stays strictly below the newest message, parts no salvaged pair, and the
   summaries cover exactly the messages up to it, leaving exactly the rest to the hot tail.
   */
  lemma {:induction false} CompactionInvariant(s: State, labels: seq<Label>)
    requires Inv(s) && Valid(s, labels)
    ensures Inv(End(s, labels)) && Boundary(End(s, labels)) >= Boundary(s)
    decreases |labels|
  {
    if labels != [] {
      StepInv(s, labels[0]);
      CompactionInvariant(Apply(s, labels[0]), labels[1..]);
    }
  }

  /** Every stored pair is in the archive as it was stored. */
  predicate PairsStored(s: State) {
    forall p :: p in s.pairs ==>
      p + 1 < |s.archive| && s.archive[p].role == Assistant &&
      s.archive[p + 1].role == System && s.archive[p + 1].content == InterruptedNote
  }

  lemma StepPairs(s: State, l: Label)
    requires PairsStored(s) && Enabled(s, l)
    ensures PairsStored(Apply(s, l)) && s.pairs <= Apply(s, l).pairs
  {
    if OfReader(l) { ReaderFrame(s, l); }
  }

  /**
   In every run no pair stored together is ever parted: the boundary never lies between the partial
   answer and its note, so both are summarized or both are in the hot tail.
   */
  lemma {:induction false} PairsNeverParted(s: State, labels: seq<Label>, p: nat)
    requires Inv(s) && PairsStored(s) && Valid(s, labels) && p in End(s, labels).pairs
    ensures
      var s' := End(s, labels);
      && p + 1 < |s'.archive| && Boundary(s') != p + 1
      && (Covers(s'.summaries, s'.archive[p].number) <==> Covers(s'.summaries, s'.archive[p + 1].number))
    decreases |labels|
  {
    if labels == [] {
      PairTogether(s, p);
    } else {
      StepInv(s, labels[0]);
      StepPairs(s, labels[0]);
      PairsNeverParted(Apply(s, labels[0]), labels[1..], p);
    }
  }

  lemma PairTogether(s: State, p: nat)
    requires Inv(s) && PairsStored(s) && p in s.pairs
    ensures p + 1 < |s.archive| && Boundary(s) != p + 1
    ensures Covers(s.summaries, s.archive[p].number) <==> Covers(s.summaries, s.archive[p + 1].number)
  {
    assert s.archive[p + 1].role == System;
    Partition(s, p);
    Partition(s, p + 1);
  }

  /** Summarized part and hot tail partition the archive: every message is in exactly one. */
  lemma Partition(s: State, i: nat)
    requires Inv(s) && i < |s.archive|
    ensures Covers(s.summaries, s.archive[i].number) <==> s.archive[i].number <= Boundary(s)
    ensures (s.archive[i] in s.archive[Boundary(s)..]) <==> s.archive[i].number > Boundary(s)
  {
    var b := Boundary(s);
    if i >= b { assert s.archive[b..][i - b] == s.archive[i]; }
  }

  // ----- a reader beside the compactor

  /** What the reader holds is no newer than the store, and its topics reach its count. */
  ghost predicate ReaderSound(s: State) {
    match s.reader
    case Away => true
    case Reading(summaries, count) => count.Some? ==> CountSound(s, count.value)
    case Ready(topics, counted) => CountSound(s, counted) && TopicsSound(s, topics, counted)
    case Assembled(topics, counted, len, tail) => CountSound(s, counted) && TopicsSound(s, topics, counted)
  }

  ghost predicate CountSound(s: State, c: Count) {
    0 <= c.boundary <= Boundary(s) && c.boundary <= c.len <= |s.archive| && c.count == c.len - c.boundary
  }

  ghost predicate TopicsSound(s: State, topics: seq<Summary>, c: Count) {
    CoverExact(topics) && c.boundary <= MaxTo(topics)
  }

  ghost predicate FirstReadSound(s: State) {
    s.reader.Reading? && s.reader.summaries.Some? ==> CoverExact(s.reader.summaries.value)
  }

  ghost predicate ReadInv(s: State) {
    Inv(s) && ReaderSound(s) && FirstReadSound(s)
  }

  lemma ReaderStep(s: State, l: Label)
    requires ReadInv(s) && Enabled(s, l) && OfReader(l)
    ensures ReaderSound(Apply(s, l)) && FirstReadSound(Apply(s, l))
  {
  }

  lemma CompactorStep(s: State, l: Label)
    requires Enabled(s, l) && !OfReader(l)
    ensures Apply(s, l).reader == s.reader && s.archive <= Apply(s, l).archive
    ensures !Stores(l) ==> Apply(s, l).archive == s.archive
    ensures !l.Remember? ==> Apply(s, l).memory == s.memory
    ensures !Stores(l) && !l.Remember? ==> Apply(s, l).late == s.late
  {
  }

  lemma StepReadInv(s: State, l: Label)
    requires ReadInv(s) && Enabled(s, l)
    ensures ReadInv(Apply(s, l))
  {
    StepInv(s, l);
    if OfReader(l) { ReaderStep(s, l); } else { CompactorStep(s, l); }
  }

  lemma {:induction false} RunReadInv(s: State, labels: seq<Label>)
    requires ReadInv(s) && Valid(s, labels)
    ensures ReadInv(End(s, labels))
    decreases |labels|
  {
    if labels != [] {
      StepReadInv(s, labels[0]);
      RunReadInv(Apply(s, labels[0]), labels[1..]);
    }
  }

  // ----- the summary table

  type DialogId = nat

  datatype Row = Row(dialog: DialogId, summary: Summary)

  function RowsOf(rows: seq<Row>, d: DialogId): seq<Summary> {
    if rows == [] then []
    else RowsOf(rows[..|rows| - 1], d) + (if rows[|rows| - 1].dialog == d then [rows[|rows| - 1].summary] else [])
  }

  lemma RowsOfAppend(rows: seq<Row>, row: Row, d: DialogId)
    ensures RowsOf(rows + [row], d) == RowsOf(rows, d) + (if row.dialog == d then [row.summary] else [])
  {
    assert (rows + [row])[..|rows|] == rows;
  }

  class SummaryTable {
    var rows: seq<Row>

    constructor ()
      ensures rows == []
    {
      rows := [];
    }

    /** DELETE all summaries of the dialog, INSERT the merged one: one transaction. */
    method ReplaceForDialog(d: DialogId, summary: Summary)
      modifies this
      ensures RowsOf(rows, d) == [summary]
      ensures forall e :: e != d ==> RowsOf(rows, e) == RowsOf(old(rows), e)
    {
      var kept: seq<Row> := [];
      var i := 0;
      while i < |rows|
        invariant 0 <= i <= |rows| && rows == old(rows)
        invariant RowsOf(kept, d) == []
        invariant forall e :: e != d ==> RowsOf(kept, e) == RowsOf(rows[..i], e)
      {
        assert rows[..i + 1] == rows[..i] + [rows[i]];
        forall e ensures RowsOf(rows[..i + 1], e) ==
            RowsOf(rows[..i], e) + (if rows[i].dialog == e then [rows[i].summary] else [])
        {
          RowsOfAppend(rows[..i], rows[i], e);
        }
        if rows[i].dialog != d {
          forall e ensures RowsOf(kept + [rows[i]], e) ==
              RowsOf(kept, e) + (if rows[i].dialog == e then [rows[i].summary] else [])
          {
            RowsOfAppend(kept, rows[i], e);
          }
          kept := kept + [rows[i]];
        }
        i := i + 1;
      }
      assert rows[..i] == rows;
      forall e ensures RowsOf(kept + [Row(d, summary)], e) == RowsOf(kept, e) + (if d == e then [summary] else []) {
        RowsOfAppend(kept, Row(d, summary), e);
      }
      rows := kept + [Row(d, summary)];
    }
  }

  // ----- progress

  /** A compaction started in `s` with nobody writing meanwhile, up to the choice of its segment. */
  ghost function ChosenFrom(s: State, cut: nat): (t: State)
    requires s.task.Started? && Boundary(s) <= |s.archive|
    requires Enabled(Apply(Apply(s, ReadBoundary), ReadTail), Choose(cut))
  {
    Apply(Apply(Apply(s, ReadBoundary), ReadTail), Choose(cut))
  }

  /**
   An undisturbed compaction moves the boundary forward, by the segment it chose out of the oldest
   messages of the hot tail, exactly when the hot tail is long enough to be cut at all.
   */
  lemma CompactsIff(s: State, cut: nat)
    requires Inv(s) && s.task.Started?
    requires Enabled(Apply(Apply(s, ReadBoundary), ReadTail), Choose(cut))
    ensures
      var t := ChosenFrom(s, cut);
      var hot := s.archive[Boundary(s)..];
      && (TooShort(hot) <==> t.task == Idle)
      && (!TooShort(hot) ==>
            && Enabled(t, Summarize) && Enabled(Apply(t, Summarize), Replace)
            && 0 < cut < |hot| && cut <= SEGMENT_FETCH_LIMIT
            && Boundary(Apply(Apply(t, Summarize), Replace)) == Boundary(s) + cut)
  {
    var t := ChosenFrom(s, cut);
    ChosenShape(s, cut);
    if cut > 0 { CommitsSegment(t); }
  }

  lemma ChosenShape(s: State, cut: nat)
    requires Inv(s) && s.task.Started?
    requires Enabled(Apply(Apply(s, ReadBoundary), ReadTail), Choose(cut))
    ensures
      var t := ChosenFrom(s, cut);
      var hot := s.archive[Boundary(s)..];
      && Inv(t) && t.summaries == s.summaries
      && (cut == 0 <==> TooShort(hot))
      && (if cut == 0 then t.task == Idle
          else t.task.Chosen? && |t.task.segment| == cut < |hot| && cut <= SEGMENT_FETCH_LIMIT)
  {
    var b := Boundary(s);
    var r := Apply(Apply(s, ReadBoundary), ReadTail);
    StepInv(s, ReadBoundary);
    StepInv(Apply(s, ReadBoundary), ReadTail);
    SegmentGuarantees(r.task.tail, s.target, cut);
    WindowOfHot(s.archive, b, SEGMENT_FETCH_LIMIT);
    ChooseInv(r, cut);
  }

  /** A chosen segment that is summarized and stored moves the boundary past it. */
  lemma CommitsSegment(t: State)
    requires Inv(t) && t.task.Chosen?
    ensures Enabled(t, Summarize) && Enabled(Apply(t, Summarize), Replace)
    ensures Boundary(Apply(Apply(t, Summarize), Replace)) == Boundary(t) + |t.task.segment|
  {
    var b, n := Boundary(t), |t.task.segment|;
    assert t.task.segment[n - 1] == t.archive[b + n - 1];
    MaxToOne(Apply(t, Summarize).task.summary);
  }

  lemma MaxToOne(summary: Summary)
    requires summary.to > 0
    ensures MaxTo([summary]) == summary.to
  {
    assert [summary][1..] == [];
  }

  /** A window of two or more is the whole of the tail, or does not decide whether it is too short. */
  lemma WindowOfHot(archive: seq<Archived>, from: nat, limit: nat)
    requires from <= |archive| && limit > 2
    ensures |Window(archive, from, limit)| <= limit && |Window(archive, from, limit)| <= |archive[from..]|
    ensures TooShort(Window(archive, from, limit)) <==> TooShort(archive[from..])
  {
    var w, hot := Window(archive, from, limit), archive[from..];
    assert forall i :: 0 <= i < |w| ==> w[i] == hot[i];
  }
}
