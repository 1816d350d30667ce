/**
 Reciprocal-rank fusion (datasets/ranking.py, `fuse`): each ranking adds 1 / (60 + position)
 to the datasets it lists; an exact name adds its boost on top.
 */
module Fusion {
  import opened Ranking

  type Listing = seq<Embedded>

  /** A candidate at a position of some ranking, counted from 1. */
  datatype Occurrence = Occurrence(candidate: Embedded, position: nat)

  function Share(o: Occurrence): real {
    1.0 / (RRF_SMOOTHING + o.position) as real
  }

  function Key(o: Occurrence): nat {
    o.candidate.dataset.id
  }

  function Listed(l: Listing): (r: seq<Occurrence>)
    ensures |r| == |l|
    ensures forall i :: 0 <= i < |l| ==> r[i] == Occurrence(l[i], FIRST_RANK + i)
  {
    seq(|l|, i requires 0 <= i < |l| => Occurrence(l[i], FIRST_RANK + i))
  }

  /** Every occurrence, ranking by ranking. */
  function Occurrences(ls: seq<Listing>): seq<Occurrence> {
    if ls == [] then [] else Occurrences(ls[..|ls| - 1]) + Listed(ls[|ls| - 1])
  }

  /** The fused score of a dataset: the shares of its occurrences. */
  function Total(os: seq<Occurrence>, key: nat): real {
    if os == [] then 0.0
    else Total(os[..|os| - 1], key) + if Key(os[|os| - 1]) == key then Share(os[|os| - 1]) else 0.0
  }

  predicate Occurs(os: seq<Occurrence>, key: nat) {
    exists i :: 0 <= i < |os| && Key(os[i]) == key
  }

  /** The keys in the order of their first occurrence. */
  function Keys(os: seq<Occurrence>): (ks: seq<nat>)
    ensures forall key :: key in ks <==> Occurs(os, key)
    ensures forall i, j :: 0 <= i < j < |ks| ==> ks[i] != ks[j]
  {
    if os == [] then []
    else
      var n := |os| - 1;
      var before := Keys(os[..n]);
      assert forall key :: Occurs(os, key) <==> Occurs(os[..n], key) || key == Key(os[n]) by { OccursLast(os); }
      if Key(os[n]) in before then before else before + [Key(os[n])]
  }

  lemma OccursLast(os: seq<Occurrence>)
    requires os != []
    ensures forall key :: Occurs(os, key) <==> Occurs(os[..|os| - 1], key) || key == Key(os[|os| - 1])
  {
    var n := |os| - 1;
    forall key | Occurs(os[..n], key) ensures Occurs(os, key) {
      var i :| 0 <= i < n && Key(os[..n][i]) == key;
      assert Key(os[i]) == key;
    }
    forall key | Occurs(os, key) && key != Key(os[n]) ensures Occurs(os[..n], key) {
      var i :| 0 <= i < |os| && Key(os[i]) == key;
      assert Key(os[..n][i]) == key;
    }
    assert Key(os[n]) == Key(os[|os| - 1]);
  }

  /** The record kept for a key is its first candidate. */
  function First(os: seq<Occurrence>, key: nat): (c: Embedded)
    requires Occurs(os, key)
    ensures c.dataset.id == key
  {
    var n := |os| - 1;
    OccursLast(os);
    if Occurs(os[..n], key) then First(os[..n], key) else os[n].candidate
  }

  /** The first: no earlier occurrence has the key. */
  lemma {:induction false} FirstIsFirst(os: seq<Occurrence>, key: nat) returns (i: nat)
    requires Occurs(os, key)
    ensures i < |os| && Key(os[i]) == key && First(os, key) == os[i].candidate
    ensures forall j :: 0 <= j < i ==> Key(os[j]) != key
  {
    var n := |os| - 1;
    OccursLast(os);
    if Occurs(os[..n], key) {
      i := FirstIsFirst(os[..n], key);
      assert forall j :: 0 <= j < n ==> os[..n][j] == os[j];
    } else {
      i := n;
      assert forall j :: 0 <= j < n ==> Key(os[..n][j]) == Key(os[j]);
    }
  }

  function FusedScore(fold: Fold, os: seq<Occurrence>, query: string, key: nat): real
    requires Occurs(os, key)
  {
    Total(os, key) + if IsExact(fold, First(os, key).dataset, query) then EXACT_NAME_BOOST else 0.0
  }

  function FusedHits(fold: Fold, os: seq<Occurrence>, query: string): (hits: seq<Hit>)
    ensures |hits| == |Keys(os)|
    ensures forall i :: 0 <= i < |hits| ==>
              hits[i] == Hit(First(os, Keys(os)[i]).dataset, FusedScore(fold, os, query, Keys(os)[i]))
  {
    seq(|Keys(os)|, i requires 0 <= i < |Keys(os)| =>
      Hit(First(os, Keys(os)[i]).dataset, FusedScore(fold, os, query, Keys(os)[i])))
  }

  /** The dictionaries of the accumulating loops; `order` is the insertion order of the records. */
  datatype Sums = Sums(scores: map<nat, real>, records: map<nat, Embedded>, order: seq<nat>)

  ghost predicate ScoresRight(os: seq<Occurrence>, scores: map<nat, real>) {
    forall key :: (key in scores <==> Occurs(os, key)) && (key in scores ==> scores[key] == Total(os, key))
  }

  ghost predicate RecordsRight(os: seq<Occurrence>, records: map<nat, Embedded>) {
    forall key :: (key in records <==> Occurs(os, key)) && (Occurs(os, key) ==> records[key] == First(os, key))
  }

  /** What the loops know after the occurrences `os`. */
  ghost predicate Accumulated(os: seq<Occurrence>, t: Sums) {
    ScoresRight(os, t.scores) && RecordsRight(os, t.records) && t.order == Keys(os)
  }

  lemma {:induction false} TotalAbsent(os: seq<Occurrence>, key: nat)
    requires !Occurs(os, key)
    ensures Total(os, key) == 0.0
  {
    if os != [] {
      OccursLast(os);
      TotalAbsent(os[..|os| - 1], key);
    }
  }

  function Added(t: Sums, o: Occurrence): Sums {
    var key := Key(o);
    Sums(t.scores[key := (if key in t.scores then t.scores[key] else 0.0) + Share(o)],
         if key in t.records then t.records else t.records[key := o.candidate],
         if key in t.records then t.order else t.order + [key])
  }

  lemma AddedScores(os: seq<Occurrence>, o: Occurrence, t: Sums)
    requires ScoresRight(os, t.scores)
    ensures ScoresRight(os + [o], Added(t, o).scores)
  {
    var all := os + [o];
    assert all[..|os|] == os;
    OccursLast(all);
    if !Occurs(os, Key(o)) { TotalAbsent(os, Key(o)); }
  }

  lemma AddedRecords(os: seq<Occurrence>, o: Occurrence, t: Sums)
    requires RecordsRight(os, t.records) && t.order == Keys(os)
    ensures RecordsRight(os + [o], Added(t, o).records) && Added(t, o).order == Keys(os + [o])
  {
    var all := os + [o];
    assert all[..|os|] == os;
    OccursLast(all);
  }

  lemma AddedRight(os: seq<Occurrence>, o: Occurrence, t: Sums)
    requires Accumulated(os, t)
    ensures Accumulated(os + [o], Added(t, o))
  {
    AddedScores(os, o, t);
    AddedRecords(os, o, t);
  }

  function AddedAll(t: Sums, os: seq<Occurrence>): Sums {
    if os == [] then t else Added(AddedAll(t, os[..|os| - 1]), os[|os| - 1])
  }

  lemma {:induction false} AddedAllRight(before: seq<Occurrence>, t: Sums, os: seq<Occurrence>)
    requires Accumulated(before, t)
    ensures Accumulated(before + os, AddedAll(t, os))
  {
    if os == [] {
      assert before + os == before;
    } else {
      var n := |os| - 1;
      AddedAllRight(before, t, os[..n]);
      var all := before + os[..n];
      AddedRight(all, os[n], AddedAll(t, os[..n]));
      assert before + os == all + [os[n]];
    }
  }

  /** The inner loop: one ranking adds its shares. */
  method AddRanking(was: Sums, ranking: Listing) returns (t: Sums)
    ensures t == AddedAll(was, Listed(ranking))
  {
    t := was;
    var p := 0;
    while p < |ranking|
      invariant 0 <= p <= |ranking|
      invariant t == AddedAll(was, Listed(ranking)[..p])
    {
      assert Listed(ranking)[..p + 1][..p] == Listed(ranking)[..p];
      t := Added(t, Occurrence(ranking[p], FIRST_RANK + p));
      p := p + 1;
    }
    assert Listed(ranking)[..p] == Listed(ranking);
  }

  /** The hits in record order, each with its boost. */
  method CollectHits(fold: Fold, t: Sums, query: string, ghost os: seq<Occurrence>) returns (hits: seq<Hit>)
    requires Accumulated(os, t)
    ensures hits == FusedHits(fold, os, query)
  {
    hits := [];
    var j := 0;
    while j < |t.order|
      invariant 0 <= j <= |t.order|
      invariant hits == FusedHits(fold, os, query)[..j]
    {
      var key := t.order[j];
      assert Occurs(os, key);
      var boost := if fold(t.records[key].dataset.name) == fold(query) then EXACT_NAME_BOOST else 0.0;
      hits := hits + [Hit(t.records[key].dataset, t.scores[key] + boost)];
      j := j + 1;
    }
  }

  /** The merge: every ranking in turn, then one sort. */
  method Fuse(fold: Fold, rankings: seq<Listing>, query: string, k: int) returns (hits: seq<Hit>)
    ensures hits == Top(FusedHits(fold, Occurrences(rankings), query), k)
  {
    if k <= 0 {
      return [];
    }
    var t := Sums(map[], map[], []);
    var i := 0;
    while i < |rankings|
      invariant 0 <= i <= |rankings|
      invariant Accumulated(Occurrences(rankings[..i]), t)
    {
      AddedAllRight(Occurrences(rankings[..i]), t, Listed(rankings[i]));
      t := AddRanking(t, rankings[i]);
      assert rankings[..i + 1][..i] == rankings[..i];
      i := i + 1;
    }
    assert rankings[..i] == rankings;
    var all := CollectHits(fold, t, query, Occurrences(rankings));
    return Top(all, k);
  }

  // -------------------------------------------------------------------------------------
  // The exact name stays on top.
  // -------------------------------------------------------------------------------------

  /** The ranking lists each dataset once. */
  ghost predicate DuplicateFree(l: Listing) {
    forall i, j :: 0 <= i < j < |l| ==> l[i].dataset.id != l[j].dataset.id
  }

  lemma ShareBounds(o: Occurrence)
    requires o.position >= FIRST_RANK
    ensures 0.0 < Share(o) && 61.0 * Share(o) <= 1.0
  {
    var d := (RRF_SMOOTHING + o.position) as real;
    assert d >= 61.0;
    Reciprocal(d);
  }

  lemma Reciprocal(d: real)
    requires d >= 61.0
    ensures 0.0 < 1.0 / d && 61.0 * (1.0 / d) <= 1.0
  {
  }

  ghost predicate Positioned(os: seq<Occurrence>) {
    forall i :: 0 <= i < |os| ==> os[i].position >= FIRST_RANK
  }

  lemma {:induction false} TotalSign(os: seq<Occurrence>, key: nat)
    requires Positioned(os)
    ensures Total(os, key) >= 0.0 && (Occurs(os, key) ==> Total(os, key) > 0.0)
  {
    if os != [] {
      OccursLast(os);
      TotalSign(os[..|os| - 1], key);
      ShareBounds(os[|os| - 1]);
    }
  }

  lemma {:induction false} TotalConcat(a: seq<Occurrence>, b: seq<Occurrence>, key: nat)
    ensures Total(a + b, key) == Total(a, key) + Total(b, key)
  {
    if b == [] {
      assert a + b == a;
    } else {
      var n := |b| - 1;
      assert (a + b)[..|a| + n] == a + b[..n];
      TotalConcat(a, b[..n], key);
    }
  }

  /** A duplicate-free ranking gives a dataset at most one share. */
  lemma {:induction false} ListingTotal(l: Listing, key: nat)
    requires DuplicateFree(l)
    ensures 61.0 * Total(Listed(l), key) <= 1.0
    decreases |l|
  {
    if l != [] {
      var n := |l| - 1;
      var os := Listed(l);
      assert os[..n] == Listed(l[..n]);
      ShareBounds(os[n]);
      if Key(os[n]) == key {
        assert !Occurs(os[..n], key);
        TotalAbsent(os[..n], key);
      } else {
        ListingTotal(l[..n], key);
      }
    }
  }

  lemma {:induction false} OccurrencesPositioned(ls: seq<Listing>)
    ensures Positioned(Occurrences(ls))
  {
    if ls != [] { OccurrencesPositioned(ls[..|ls| - 1]); }
  }

  lemma {:induction false} FusedTotalBound(ls: seq<Listing>, key: nat)
    requires forall i :: 0 <= i < |ls| ==> DuplicateFree(ls[i])
    ensures 61.0 * Total(Occurrences(ls), key) <= |ls| as real
  {
    if ls != [] {
      var n := |ls| - 1;
      FusedTotalBound(ls[..n], key);
      TotalConcat(Occurrences(ls[..n]), Listed(ls[n]), key);
      ListingTotal(ls[n], key);
      assert |ls| as real == n as real + 1.0;
    }
  }

  /** For these rankings every exact name scores strictly above every other. */
  ghost predicate ExactOnTop(fold: Fold, ls: seq<Listing>, query: string) {
    var os := Occurrences(ls);
    forall e, o :: Occurs(os, e) && Occurs(os, o) &&
                   IsExact(fold, First(os, e).dataset, query) && !IsExact(fold, First(os, o).dataset, query) ==>
                     FusedScore(fold, os, query, e) > FusedScore(fold, os, query, o)
  }

  lemma ExactOnTopUpTo122(fold: Fold, ls: seq<Listing>, query: string)
    requires |ls| <= 122 && forall i :: 0 <= i < |ls| ==> DuplicateFree(ls[i])
    ensures ExactOnTop(fold, ls, query)
  {
    var os := Occurrences(ls);
    OccurrencesPositioned(ls);
    forall e, o | Occurs(os, e) && Occurs(os, o) &&
                  IsExact(fold, First(os, e).dataset, query) && !IsExact(fold, First(os, o).dataset, query)
      ensures FusedScore(fold, os, query, e) > FusedScore(fold, os, query, o)
    {
      TotalSign(os, e);
      FusedTotalBound(ls, o);
    }
  }

  // From 123 rankings on it can fail: every ranking puts `Other` first, one puts the exact name second.

  const NAMED: Embedded := Embedded(Dataset(0, "b"), [])
  const OTHER: Embedded := Embedded(Dataset(1, "a"), [])

  function Crowd(n: nat): seq<Listing>
    requires n > 0
  {
    if n == 1 then [[OTHER, NAMED]] else Crowd(n - 1) + [[OTHER]]
  }

  lemma {:induction false} CrowdShape(n: nat)
    requires n > 0
    ensures |Crowd(n)| == n && forall i :: 0 <= i < n ==> DuplicateFree(Crowd(n)[i])
  {
    if n > 1 { CrowdShape(n - 1); }
  }

  lemma CrowdGrows(n: nat)
    requires n > 1
    ensures Occurrences(Crowd(n)) == Occurrences(Crowd(n - 1)) + [Occurrence(OTHER, 1)]
  {
    CrowdShape(n - 1);
    assert Crowd(n)[..n - 1] == Crowd(n - 1);
    assert Listed([OTHER]) == [Occurrence(OTHER, 1)];
  }

  /** The scores after n rankings of the crowd, and the records behind them. */
  ghost predicate CrowdScores(os: seq<Occurrence>, n: nat) {
    && Occurs(os, 0) && First(os, 0) == NAMED && 62.0 * Total(os, 0) == 1.0
    && Occurs(os, 1) && First(os, 1) == OTHER && 61.0 * Total(os, 1) == n as real
  }

  lemma CrowdScoresGrow(os: seq<Occurrence>, n: nat)
    requires CrowdScores(os, n)
    ensures CrowdScores(os + [Occurrence(OTHER, 1)], n + 1)
  {
    OneMore(os, Occurrence(OTHER, 1), 0);
    OneMore(os, Occurrence(OTHER, 1), 1);
    assert (n + 1) as real == n as real + 1.0;
  }

  lemma {:induction false} CrowdFacts(n: nat)
    requires n > 0
    ensures CrowdScores(Occurrences(Crowd(n)), n)
  {
    if n == 1 {
      CrowdOfOne();
    } else {
      CrowdFacts(n - 1);
      CrowdScoresGrow(Occurrences(Crowd(n - 1)), n - 1);
      CrowdGrows(n);
    }
  }

  /** One more occurrence adds its share and leaves the first record alone. */
  lemma OneMore(os: seq<Occurrence>, o: Occurrence, key: nat)
    requires Occurs(os, key)
    ensures Occurs(os + [o], key) && First(os + [o], key) == First(os, key)
    ensures Total(os + [o], key) == Total(os, key) + if Key(o) == key then Share(o) else 0.0
  {
    var all := os + [o];
    assert all[..|os|] == os;
    OccursLast(all);
  }

  lemma CrowdOfOne()
    ensures CrowdScores(Occurrences(Crowd(1)), 1)
  {
    var a, b := Occurrence(OTHER, 1), Occurrence(NAMED, 2);
    var ls := Crowd(1);
    assert ls[..0] == [] && Occurrences(ls[..0]) == [];
    var os := Occurrences(ls);
    assert os == [a, b];
    assert os[..1] == [a] && [a][..0] == [];
    OccursLast(os);
    OccursLast([a]);
    assert Total([a], 1) == Total([], 1) + Share(a);
    assert Total([a], 0) == Total([], 0);
    assert Key(os[0]) == 1 && Key(os[1]) == 0;
    assert Occurs(os, 0) && Occurs(os, 1) && Occurs([a], 1);
  }

  /**
   With n duplicate-free rankings an exact name is sure to score strictly above every other
   exactly when n is at most 122.
   */
  lemma ExactOnTopIff(fold: Fold, n: nat)
    requires fold("a") != fold("b")
    ensures n <= 122 <==>
            forall ls: seq<Listing>, query :: |ls| == n && (forall i :: 0 <= i < n ==> DuplicateFree(ls[i])) ==>
              ExactOnTop(fold, ls, query)
  {
    if n <= 122 {
      forall ls: seq<Listing>, query | |ls| == n && (forall i :: 0 <= i < n ==> DuplicateFree(ls[i]))
        ensures ExactOnTop(fold, ls, query)
      {
        ExactOnTopUpTo122(fold, ls, query);
      }
    } else {
      CrowdShape(n);
      CrowdFacts(n);
      var os := Occurrences(Crowd(n));
      assert FusedScore(fold, os, "b", 0) <= FusedScore(fold, os, "b", 1) by {
        assert n as real >= 123.0;
      }
      assert !ExactOnTop(fold, Crowd(n), "b");
    }
  }
}
