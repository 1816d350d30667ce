/**
 The order in which stored messages join memory matters: a run in which an answer overtakes the
 question stored before it loses the answer, although nothing happens between count and snapshot.
 */
module AssembleOrder {
  import opened Domain
  import opened Segment
  import opened Compaction
  import opened AssembleGap

  const QUESTION := Archived(1, User, Words("q"))
  const ANSWER := Archived(2, Assistant, Words("a"))

  function Fresh(): State {
    State([], [], {}, {}, [], Idle, Away, 10)
  }

  /** The question was stored first and joined memory last; a compaction has summarized it. */
  function Inverted(): State {
    State([QUESTION, ANSWER], [ANSWER, QUESTION], {}, {}, [Summary(1, 1)], Idle, Away, 10)
  }

  lemma Prepend(s: State, l: Label, rest: seq<Label>)
    requires Enabled(s, l) && Valid(Apply(s, l), rest)
    ensures Valid(s, [l] + rest) && End(s, [l] + rest) == End(Apply(s, l), rest)
  {
    assert ([l] + rest)[1..] == rest;
  }

  /** A compaction of both messages summarizes the first. */
  lemma SummarizesQuestion(s: State)
    requires s == Inverted().(summaries := [])
    ensures
      var labels := [StartCompact] + ([ReadBoundary] + ([ReadTail] + ([Choose(1)] + ([Summarize] + ([Replace] + [])))));
      Valid(s, labels) && End(s, labels) == Inverted()
  {
    var tail := [QUESTION, ANSWER];
    var s1 := s.(task := Started);
    var s2 := s.(task := AtBoundary(0));
    var s3 := s.(task := WithTail(0, tail));
    var s4 := s.(task := Chosen([QUESTION]));
    var s5 := s.(task := Merging(Summary(1, 1)));
    assert Window(s.archive, 0, SEGMENT_FETCH_LIMIT) == tail;
    assert BudgetCut(tail, 10, 1) && MovedCut(tail, 1) == 1;
    assert tail[..1] == [QUESTION];
    assert Apply(s1, ReadBoundary) == s2;
    assert Apply(s2, ReadTail) == s3;
    assert Apply(s3, Choose(1)) == s4;
    assert Apply(s4, Summarize) == s5;
    assert Apply(s5, Replace) == Inverted();
    Prepend(s5, Replace, []);
    Prepend(s4, Summarize, [Replace] + []);
    Prepend(s3, Choose(1), [Summarize] + ([Replace] + []));
    Prepend(s2, ReadTail, [Choose(1)] + ([Summarize] + ([Replace] + [])));
    Prepend(s1, ReadBoundary, [ReadTail] + ([Choose(1)] + ([Summarize] + ([Replace] + []))));
    Prepend(s, StartCompact, [ReadBoundary] + ([ReadTail] + ([Choose(1)] + ([Summarize] + ([Replace] + [])))));
  }

  lemma StoresInverted() returns (labels: seq<Label>)
    ensures Valid(Fresh(), labels) && End(Fresh(), labels) == Inverted().(summaries := [])
  {
    var p, q := Persist(User, Words("q")), Persist(Assistant, Words("a"));
    var s1 := Fresh().(archive := [QUESTION], late := {0});
    var s2 := Fresh().(archive := [QUESTION, ANSWER], late := {0, 1});
    var s3 := s2.(memory := [ANSWER], late := {0});
    var s4 := Inverted().(summaries := []);
    assert Apply(Fresh(), p) == s1;
    assert Apply(s1, q) == s2;
    assert Apply(s2, Remember(1)) == s3;
    assert Apply(s3, Remember(0)) == s4;
    Prepend(s3, Remember(0), []);
    Prepend(s2, Remember(1), [Remember(0)] + []);
    Prepend(s1, q, [Remember(1)] + ([Remember(0)] + []));
    Prepend(Fresh(), p, [q] + ([Remember(1)] + ([Remember(0)] + [])));
    labels := [p] + ([q] + ([Remember(1)] + ([Remember(0)] + [])));
  }

  /** Both reads, undisturbed, up to the snapshot. */
  lemma CountsInverted() returns (s: State, labels: seq<Label>)
    ensures s == Inverted().(reader := Reading(Some([Summary(1, 1)]), None)) && labels == [Compare]
    ensures Valid(Apply(s, CountTail), labels) && Quiet(labels)
    ensures End(Apply(s, CountTail), labels) == Inverted().(reader := Ready([Summary(1, 1)], Count(1, 1, 2)))
  {
    s := Inverted().(reader := Reading(Some([Summary(1, 1)]), None));
    var s1 := s.(reader := Reading(Some([Summary(1, 1)]), Some(Count(1, 1, 2))));
    assert MaxTo([Summary(1, 1)]) == 1;
    assert Apply(s, CountTail) == s1;
    Prepend(s1, Compare, []);
    assert [Compare] + [] == [Compare];
    labels := [Compare];
  }

  /**
   A question is stored, a run's answer is stored and joins memory, then the question joins; a
   compaction commits between the two. Nothing is stored or joins after the count, yet the tail is
   the question again: the answer is neither summarized nor in the tail, and the trim drops it.
   */
  lemma InversionLosesMessage() returns (before: seq<Label>, s: State, labels: seq<Label>)
    ensures Valid(Fresh(), before) && End(Fresh(), before) == s && CountThenSnapshot(s, labels)
    ensures
      var s' := End(Apply(s, CountTail), labels);
      && !NoGap(s'.archive, s'.reader.topics, Snapshotted(s').tail)
      && Enabled(Apply(s', Snapshot), Trim) && ANSWER !in Apply(Apply(s', Snapshot), Trim).memory
      && !Agrees(s.archive, s.memory, Boundary(s))
  {
    var a := StoresInverted();
    var c := [StartCompact] + ([ReadBoundary] + ([ReadTail] + ([Choose(1)] + ([Summarize] + ([Replace] + [])))));
    SummarizesQuestion(Inverted().(summaries := []));
    var d := [BeginAssemble] + ([ListSummaries] + []);
    s, labels := CountsInverted();
    var s1 := Inverted().(reader := Reading(None, None));
    Prepend(s1, ListSummaries, []);
    Prepend(Inverted(), BeginAssemble, [ListSummaries] + []);
    JoinRuns(Fresh(), a, c);
    JoinRuns(Fresh(), a + c, d);
    before := a + c + d;
    assert CoverExact(Fresh().summaries);
    RunReadInv(Fresh(), before);
    LostAnswer(End(Apply(s, CountTail), labels));
    DisagreesWhenInverted();
  }

  lemma {:induction false} JoinRuns(s: State, a: seq<Label>, b: seq<Label>)
    requires Valid(s, a) && Valid(End(s, a), b)
    ensures Valid(s, a + b) && End(s, a + b) == End(End(s, a), b)
    decreases |a|
  {
    if a == [] {
      assert a + b == b;
    } else {
      assert (a + b)[1..] == a[1..] + b;
      JoinRuns(Apply(s, a[0]), a[1..], b);
    }
  }

  lemma LostAnswer(s: State)
    requires s == Inverted().(reader := Ready([Summary(1, 1)], Count(1, 1, 2)))
    ensures Enabled(s, Snapshot) && !NoGap(s.archive, s.reader.topics, Snapshotted(s).tail)
    ensures Enabled(Apply(s, Snapshot), Trim) && ANSWER !in Apply(Apply(s, Snapshot), Trim).memory
  {
    assert TailOf([ANSWER, QUESTION], 1) == [QUESTION];
    assert !Readable(s.archive, s.reader.topics, [QUESTION], 1);
    assert Apply(Apply(s, Snapshot), Trim).memory == [QUESTION];
  }

  lemma DisagreesWhenInverted()
    ensures MaxTo([Summary(1, 1)]) == 1 && !Agrees([QUESTION, ANSWER], [ANSWER, QUESTION], 1)
  {
    assert TailOf([ANSWER, QUESTION], 1) == [QUESTION];
    assert [QUESTION, ANSWER][1..] == [ANSWER];
    assert ANSWER in multiset([ANSWER]) && ANSWER !in multiset([QUESTION]);
  }
}
