/**
 Which messages a compaction may swallow (context/compactor.py, `select_compact_segment`).
 */
module Segment {
  import opened Domain

  /** Message text; the salvage note is the one text the policy recognises. */
  datatype Content = InterruptedNote | Words(text: string)

  /** One archived message; `number` is its position in the dialog, counted from 1. */
  datatype Archived = Archived(number: int, role: Role, content: Content)

  const INTERRUPTED_NOTE_LENGTH := 71

  function Length(c: Content): nat {
    match c
    case InterruptedNote => INTERRUPTED_NOTE_LENGTH
    case Words(text) => |text|
  }

  function Chars(messages: seq<Archived>): nat {
    if messages == [] then 0 else Chars(messages[..|messages| - 1]) + Length(messages[|messages| - 1].content)
  }

  predicate IsNote(m: Archived) {
    m.role == System && m.content == InterruptedNote
  }

  /** A cut between these two would separate a partial answer from the note saying so. */
  predicate IsSplitPair(lastIn: Archived, firstOut: Archived) {
    lastIn.role == Assistant && IsNote(firstOut)
  }

  /** A cut at `n` separates no salvaged pair. */
  predicate CleanCut(tail: seq<Archived>, n: nat)
    requires n <= |tail|
  {
    0 < n < |tail| ==> !IsSplitPair(tail[n - 1], tail[n])
  }

  /** Where the budget alone would cut: greedy, at least one message, never the last. */
  ghost predicate BudgetCut(tail: seq<Archived>, target: int, n: nat) {
    n <= |tail| && (|tail| <= 1 ==> n == 0) && (|tail| > 1 ==> 1 <= n < |tail|) &&
    (n > 1 ==> Chars(tail[..n]) <= target) &&
    (0 < n < |tail| - 1 ==> Chars(tail[..n + 1]) > target)
  }

  /**
   The cut moved off a salvaged pair: past the note when another message remains after it,
   before the pair when the note is the kept last one.
   */
  function MovedCut(tail: seq<Archived>, n: nat): nat
    requires n <= |tail|
  {
    if 0 < n < |tail| && IsSplitPair(tail[n - 1], tail[n])
    then (if n + 1 == |tail| then n - 1 else n + 1)
    else n
  }

  /** The segment is the budget's prefix with its cut moved off a pair. */
  ghost predicate IsSegmentCut(tail: seq<Archived>, target: int, cut: nat) {
    exists n: nat :: BudgetCut(tail, target, n) && cut == MovedCut(tail, n)
  }

  lemma Chars1(messages: seq<Archived>, m: Archived)
    ensures Chars(messages + [m]) == Chars(messages) + Length(m.content)
  {
    assert (messages + [m])[..|messages|] == messages;
  }

  lemma {:induction false} CharsMonotone(tail: seq<Archived>, a: nat, b: nat)
    requires a <= b <= |tail|
    ensures Chars(tail[..a]) <= Chars(tail[..b])
    decreases b - a
  {
    if a < b {
      CharsMonotone(tail, a, b - 1);
      assert tail[..b] == tail[..b - 1] + [tail[b - 1]];
      Chars1(tail[..b - 1], tail[b - 1]);
    }
  }

  method SelectCompactSegment(tail: seq<Archived>, target: int) returns (segment: seq<Archived>)
    ensures segment <= tail && IsSegmentCut(tail, target, |segment|)
  {
    segment := [];
    var total := 0;
    var i := 0;
    while i < |tail| - 1
      invariant 0 <= i && (|tail| > 0 ==> i <= |tail| - 1) && (|tail| == 0 ==> i == 0)
      invariant segment == tail[..i] && total == Chars(segment)
      invariant i > 1 ==> total <= target
      decreases |tail| - i
    {
      var m := tail[i];
      Chars1(segment, m);
      assert tail[..i + 1] == segment + [m];
      if segment != [] && total + Length(m.content) > target {
        break;
      }
      segment := segment + [m];
      total := total + Length(m.content);
      i := i + 1;
    }
    assert BudgetCut(tail, target, i);
    if segment != [] && |tail| > |segment| && IsSplitPair(segment[|segment| - 1], tail[|segment|]) {
      if |segment| + 1 == |tail| {
        segment := segment[..|segment| - 1];
      } else {
        segment := segment + [tail[|segment|]];
      }
    }
  }

  /** The budget cut is unique, so the segment is a function of the tail and the target. */
  lemma SegmentUnique(tail: seq<Archived>, target: int, a: nat, b: nat)
    requires BudgetCut(tail, target, a) && BudgetCut(tail, target, b)
    ensures a == b
  {
    if a < b { CharsMonotone(tail, a + 1, b); } else if b < a { CharsMonotone(tail, b + 1, a); }
  }

  /** At most one message, or a partial answer with its note and no more. */
  predicate TooShort(tail: seq<Archived>) {
    || |tail| <= 1
    || (|tail| == 2 && tail[0].role == Assistant && tail[1].role == System && tail[1].content == InterruptedNote)
  }

  /**
   What every segment guarantees: the newest message stays out, no partial answer is cut from its
   note, it is as long as the budget allows (but for a kept last pair), the budget is exceeded only by
   a single first message or by one trailing note, and it is empty only for a tail of at most one
   message or a lone pair.
   */
  lemma SegmentGuarantees(tail: seq<Archived>, target: int, cut: nat)
    requires IsSegmentCut(tail, target, cut)
    ensures cut <= |tail| && (tail != [] ==> cut < |tail|) && CleanCut(tail, cut)
    ensures 0 < cut < |tail| ==>
            !(tail[cut - 1].role == Assistant && tail[cut].role == System && tail[cut].content == InterruptedNote)
    ensures forall n :: 1 <= n < |tail| && (n == 1 || Chars(tail[..n]) <= target) ==>
              n <= cut || (n == cut + 1 == |tail| - 1 && tail[n - 1].role == Assistant && IsNote(tail[n]))
    ensures cut > 1 && Chars(tail[..cut]) > target ==>
            IsNote(tail[cut - 1]) && (cut == 2 || Chars(tail[..cut - 1]) <= target)
    ensures cut == 0 <==> TooShort(tail)
  {
    var n: nat :| BudgetCut(tail, target, n) && cut == MovedCut(tail, n);
    if cut < n { CharsMonotone(tail, cut, n); }
    forall k | n < k < |tail| && Chars(tail[..k]) <= target ensures false { CharsMonotone(tail, n + 1, k); }
  }
}
