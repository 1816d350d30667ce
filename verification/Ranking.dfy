/**
 Dataset ranking (datasets/ranking.py): scores with an exact-name boost, sorted by
 descending score and then by name, cut to the first k. `fold` is case folding.
 */
module Ranking {
  import opened Domain
  import opened Cosine
  import opened Similarity

  datatype Dataset = Dataset(id: nat, name: string)
  datatype Embedded = Embedded(dataset: Dataset, embedding: Vector)
  datatype Hit = Hit(dataset: Dataset, score: real)

  const EXACT_NAME_BOOST := 2.0
  const RRF_SMOOTHING := 60
  const FIRST_RANK := 1

  type Fold = string -> string

  predicate IsExact(fold: Fold, d: Dataset, query: string) {
    fold(d.name) == fold(query)
  }

  // -------------------------------------------------------------------------------------
  // The order of hits.
  // -------------------------------------------------------------------------------------

  predicate NameLeq(a: string, b: string) {
    a == "" || (b != "" && (a[0] < b[0] || (a[0] == b[0] && NameLeq(a[1..], b[1..]))))
  }

  lemma {:induction false} NameTotal(a: string, b: string)
    ensures NameLeq(a, b) || NameLeq(b, a)
  {
    if a != "" && b != "" && a[0] == b[0] { NameTotal(a[1..], b[1..]); }
  }

  lemma {:induction false} NameTransitive(a: string, b: string, c: string)
    requires NameLeq(a, b) && NameLeq(b, c)
    ensures NameLeq(a, c)
  {
    if a != "" && a[0] == b[0] == c[0] { NameTransitive(a[1..], b[1..], c[1..]); }
  }

  /** `a` may stand before `b`: a higher score, or the same and a name not after. */
  predicate Before(a: Hit, b: Hit) {
    a.score > b.score || (a.score == b.score && NameLeq(a.dataset.name, b.dataset.name))
  }

  lemma BeforeTransitive(a: Hit, b: Hit, c: Hit)
    requires Before(a, b) && Before(b, c)
    ensures Before(a, c)
  {
    if a.score == b.score == c.score { NameTransitive(a.dataset.name, b.dataset.name, c.dataset.name); }
  }

  ghost predicate Ordered(s: seq<Hit>) {
    forall i, j :: 0 <= i < j < |s| ==> Before(s[i], s[j])
  }

  /** Places a hit before the first it may precede. */
  function Insert(h: Hit, s: seq<Hit>): seq<Hit> {
    if s == [] then [h] else if Before(h, s[0]) then [h] + s else [s[0]] + Insert(h, s[1..])
  }

  /** The stable sort by descending score, then name. */
  function Sort(s: seq<Hit>): seq<Hit> {
    if s == [] then [] else Insert(s[0], Sort(s[1..]))
  }

  lemma {:induction false} InsertSorts(h: Hit, s: seq<Hit>)
    requires Ordered(s)
    ensures Ordered(Insert(h, s)) && multiset(Insert(h, s)) == multiset(s) + multiset{h}
  {
    if s == [] {
    } else if Before(h, s[0]) {
      forall j | 0 <= j < |s| ensures Before(h, s[j]) {
        if j > 0 { BeforeTransitive(h, s[0], s[j]); }
      }
    } else {
      var t := Insert(h, s[1..]);
      InsertSorts(h, s[1..]);
      NameTotal(h.dataset.name, s[0].dataset.name);
      assert s == [s[0]] + s[1..];
      forall j | 0 <= j < |t| ensures Before(s[0], t[j]) {
        assert t[j] in multiset(t);
        if t[j] != h {
          assert t[j] in s[1..];
        }
      }
    }
  }

  lemma {:induction false} SortSorts(s: seq<Hit>)
    ensures Ordered(Sort(s)) && multiset(Sort(s)) == multiset(s) && |Sort(s)| == |s|
  {
    if s != [] {
      SortSorts(s[1..]);
      InsertSorts(s[0], Sort(s[1..]));
      assert s == [s[0]] + s[1..];
      assert |multiset(Sort(s))| == |multiset(s)|;
    }
  }

  function Top(s: seq<Hit>, k: int): seq<Hit> {
    if k <= 0 then [] else if k < |Sort(s)| then Sort(s)[..k] else Sort(s)
  }

  /** What the cut leaves behind. */
  function LeftOver(s: seq<Hit>, k: int): seq<Hit>
    requires |Top(s, k)| <= |Sort(s)|
  {
    Sort(s)[|Top(s, k)|..]
  }

  lemma TopSplits(s: seq<Hit>, k: int)
    ensures |Sort(s)| == |s| && |Top(s, k)| == if k <= 0 then 0 else if k < |s| then k else |s|
    ensures Sort(s) == Top(s, k) + LeftOver(s, k)
  {
    SortSorts(s);
  }

  /** The first k in order; with what is left they are the input, and nothing left goes before them. */
  lemma TopIsBest(s: seq<Hit>, k: int)
    ensures |Top(s, k)| == if k <= 0 then 0 else if k < |s| then k else |s|
    ensures Ordered(Top(s, k))
    ensures |Top(s, k)| <= |Sort(s)| && multiset(Top(s, k)) + multiset(LeftOver(s, k)) == multiset(s)
    ensures forall h, r :: h in Top(s, k) && r in LeftOver(s, k) ==> Before(h, r)
  {
    TopSplits(s, k);
    SortSorts(s);
    var top, rest := Top(s, k), LeftOver(s, k);
    assert multiset(top + rest) == multiset(top) + multiset(rest);
    OrderedSplit(top, rest);
  }

  lemma OrderedSplit(a: seq<Hit>, b: seq<Hit>)
    requires Ordered(a + b)
    ensures Ordered(a) && forall h, r :: h in a && r in b ==> Before(h, r)
  {
    forall i, j | 0 <= i < j < |a| ensures Before(a[i], a[j]) {
      assert (a + b)[i] == a[i] && (a + b)[j] == a[j];
    }
    forall h, r | h in a && r in b ensures Before(h, r) {
      var i :| 0 <= i < |a| && a[i] == h;
      var j :| 0 <= j < |b| && b[j] == r;
      assert (a + b)[i] == h && (a + b)[|a| + j] == r;
    }
  }

  // -------------------------------------------------------------------------------------
  // Ranking by similarity.
  // -------------------------------------------------------------------------------------

  function Score(root: real -> real, fold: Fold, c: Embedded, query: string, embedding: Vector): Option<real>
    requires IsRoot(root)
  {
    var cosine := CosineSimilarity(root, embedding, c.embedding);
    if cosine.None? then None
    else Some(if IsExact(fold, c.dataset, query) then cosine.value + EXACT_NAME_BOOST else cosine.value)
  }

  /** None as soon as one candidate's vector has the wrong length. */
  function Scored(root: real -> real, fold: Fold, cs: seq<Embedded>, query: string, embedding: Vector):
    Option<seq<Hit>>
    requires IsRoot(root)
  {
    if cs == [] then Some([])
    else
      var score := Score(root, fold, cs[0], query, embedding);
      var rest := Scored(root, fold, cs[1..], query, embedding);
      if score.None? || rest.None? then None else Some([Hit(cs[0].dataset, score.value)] + rest.value)
  }

  function Rank(root: real -> real, fold: Fold, cs: seq<Embedded>, query: string, embedding: Vector, k: int):
    Option<seq<Hit>>
    requires IsRoot(root)
  {
    if k <= 0 then Some([])
    else
      var scored := Scored(root, fold, cs, query, embedding);
      if scored.None? then None else Some(Top(scored.value, k))
  }

  /**
   An exact-name hit never scores below a non-exact one, and scores the same exactly when its
   vector points away from the query and the other's along it.
   */
  lemma ExactNeverBelow(root: real -> real, fold: Fold, exact: Embedded, other: Embedded, query: string, v: Vector)
    requires IsRoot(root) && IsExact(fold, exact.dataset, query) && !IsExact(fold, other.dataset, query)
    requires Score(root, fold, exact, query, v).Some? && Score(root, fold, other, query, v).Some?
    ensures
      var e, o := Score(root, fold, exact, query, v).value, Score(root, fold, other, query, v).value;
      && e >= o
      && (e == o ==> e == 1.0)
      && (e == o <==> Aligned(root, -1.0, v, exact.embedding) && Aligned(root, 1.0, v, other.embedding))
  {
    ExtremeIffAligned(root, -1.0, v, exact.embedding);
    ExtremeIffAligned(root, 1.0, v, other.embedding);
    CosineBounded(root, v, exact.embedding);
    CosineBounded(root, v, other.embedding);
  }

  lemma {:induction false} ScoredAt(root: real -> real, fold: Fold, cs: seq<Embedded>, query: string, v: Vector)
    requires IsRoot(root)
    ensures
      var r := Scored(root, fold, cs, query, v);
      && (r.None? <==> exists i :: 0 <= i < |cs| && Score(root, fold, cs[i], query, v).None?)
      && (r.Some? ==> |r.value| == |cs| && forall i :: 0 <= i < |cs| ==>
            Some(r.value[i].score) == Score(root, fold, cs[i], query, v) && r.value[i].dataset == cs[i].dataset)
  {
    if cs != [] {
      ScoredAt(root, fold, cs[1..], query, v);
      assert forall i :: 1 <= i < |cs| ==> cs[i] == cs[1..][i - 1];
    }
  }

  /** `top` and `rest` are together the hits, and nothing in `rest` goes before anything in `top`. */
  ghost predicate BestOf(top: seq<Hit>, rest: seq<Hit>, hits: seq<Hit>) {
    multiset(top) + multiset(rest) == multiset(hits) && forall h, r :: h in top && r in rest ==> Before(h, r)
  }

  /** `hits` are the candidates, one each, with their scores. */
  ghost predicate ScoresOf(root: real -> real, fold: Fold, cs: seq<Embedded>, query: string, v: Vector, hits: seq<Hit>)
    requires IsRoot(root)
  {
    |hits| == |cs| &&
    forall i :: 0 <= i < |cs| ==>
      hits[i].dataset == cs[i].dataset && Score(root, fold, cs[i], query, v) == Some(hits[i].score)
  }

  /** What rank returns: the best k of the scored candidates, in order; it raises on a bad vector. */
  lemma RankIsTop(root: real -> real, fold: Fold, cs: seq<Embedded>, query: string, v: Vector, k: int)
    requires IsRoot(root)
    ensures
      var r := Rank(root, fold, cs, query, v, k);
      && (r.None? <==> k > 0 && exists i :: 0 <= i < |cs| && Score(root, fold, cs[i], query, v).None?)
      && (r.Some? ==> Ordered(r.value) && |r.value| == if k <= 0 then 0 else if k < |cs| then k else |cs|)
      && (r.Some? && k > 0 ==>
            forall h :: h in r.value ==>
              exists i :: 0 <= i < |cs| && cs[i].dataset == h.dataset &&
                          Score(root, fold, cs[i], query, v) == Some(h.score))
      && (r.Some? && k > 0 ==>
            exists hits, rest :: ScoresOf(root, fold, cs, query, v, hits) && BestOf(r.value, rest, hits))
  {
    ScoredAt(root, fold, cs, query, v);
    var scored := Scored(root, fold, cs, query, v);
    if k > 0 && scored.Some? {
      TopIsBest(scored.value, k);
      var top := Top(scored.value, k);
      assert ScoresOf(root, fold, cs, query, v, scored.value);
      assert BestOf(top, LeftOver(scored.value, k), scored.value);
      forall h | h in top
        ensures exists i :: 0 <= i < |cs| && cs[i].dataset == h.dataset &&
                            Score(root, fold, cs[i], query, v) == Some(h.score)
      {
        TopIn(scored.value, k, h);
        var i :| 0 <= i < |scored.value| && scored.value[i] == h;
        assert Some(scored.value[i].score) == Score(root, fold, cs[i], query, v);
      }
    }
  }

  /** `a` lies closer to the query than `b`: a larger dot product over norm. */
  ghost predicate Closer(root: real -> real, v: Vector, a: Vector, b: Vector)
    requires IsRoot(root)
  {
    Comparable(v, a) && Comparable(v, b) && Times(Dot(v, a), Norm(root, b)) > Times(Dot(v, b), Norm(root, a))
  }

  /** Of two candidates with names alike in matching the query, the closer one stands first. */
  lemma CloserComesFirst(root: real -> real, fold: Fold, cs: seq<Embedded>, query: string, v: Vector, k: int,
                         m: nat, n: nat, j: nat)
    requires IsRoot(root) && Rank(root, fold, cs, query, v, k).Some? && m < |cs| && n < |cs|
    requires Closer(root, v, cs[m].embedding, cs[n].embedding)
    requires IsExact(fold, cs[m].dataset, query) == IsExact(fold, cs[n].dataset, query)
    requires j < |Rank(root, fold, cs, query, v, k).value|
    requires Some(Rank(root, fold, cs, query, v, k).value[j].score) == Score(root, fold, cs[n], query, v)
    ensures exists i :: 0 <= i < j && Rank(root, fold, cs, query, v, k).value[i].dataset == cs[m].dataset
  {
    RankIsTop(root, fold, cs, query, v, k);
    SimilarityOrder(root, v, cs[m].embedding, cs[n].embedding);
    var r := Rank(root, fold, cs, query, v, k).value;
    var hits, rest :| ScoresOf(root, fold, cs, query, v, hits) && BestOf(r, rest, hits);
    HigherStandsBefore(r, rest, hits, hits[m], j);
  }

  /** What scores above the hit at a place stands before that place. */
  lemma HigherStandsBefore(top: seq<Hit>, rest: seq<Hit>, hits: seq<Hit>, h: Hit, j: nat)
    requires BestOf(top, rest, hits) && Ordered(top) && h in hits && j < |top| && h.score > top[j].score
    ensures exists i :: 0 <= i < j && top[i] == h
  {
    assert h in multiset(top) + multiset(rest);
    assert top[j] in top;
    assert h !in rest;
    var i :| 0 <= i < |top| && top[i] == h;
  }

  /** In the returned list an exact name stands after another name only on a tie at score 1. */
  lemma ExactFirst(root: real -> real, fold: Fold, cs: seq<Embedded>, query: string, v: Vector, k: int, i: nat, j: nat)
    requires IsRoot(root) && Rank(root, fold, cs, query, v, k).Some?
    requires i < j < |Rank(root, fold, cs, query, v, k).value|
    requires !IsExact(fold, Rank(root, fold, cs, query, v, k).value[i].dataset, query)
    requires IsExact(fold, Rank(root, fold, cs, query, v, k).value[j].dataset, query)
    ensures Rank(root, fold, cs, query, v, k).value[i].score == Rank(root, fold, cs, query, v, k).value[j].score == 1.0
  {
    RankIsTop(root, fold, cs, query, v, k);
    var r := Rank(root, fold, cs, query, v, k).value;
    assert Before(r[i], r[j]) && r[i] in r && r[j] in r;
    var m :| 0 <= m < |cs| && cs[m].dataset == r[i].dataset && Score(root, fold, cs[m], query, v) == Some(r[i].score);
    var n :| 0 <= n < |cs| && cs[n].dataset == r[j].dataset && Score(root, fold, cs[n], query, v) == Some(r[j].score);
    ExactNeverBelow(root, fold, cs[n], cs[m], query, v);
  }

  lemma TopIn(s: seq<Hit>, k: int, h: Hit)
    requires h in Top(s, k)
    ensures h in s
  {
    SortSorts(s);
    assert h in multiset(Sort(s));
  }

  /** The tie: the exact name loses to an earlier name. */
  lemma TieAtExtremes(root: real -> real, fold: Fold)
    requires IsRoot(root) && fold("a") != fold("b")
    ensures
      var exact, other := Embedded(Dataset(0, "b"), [-1.0]), Embedded(Dataset(1, "a"), [1.0]);
      var r := Rank(root, fold, [exact, other], "b", [1.0], 1);
      r.Some? && |r.value| == 1 && r.value[0].dataset == other.dataset
  {
    var exact, other := Embedded(Dataset(0, "b"), [-1.0]), Embedded(Dataset(1, "a"), [1.0]);
    UnitCosine(root, 1.0);
    UnitCosine(root, -1.0);
    var a, b := Hit(exact.dataset, 1.0), Hit(other.dataset, 1.0);
    assert Score(root, fold, exact, "b", [1.0]) == Some(1.0);
    assert Score(root, fold, other, "b", [1.0]) == Some(1.0);
    var scored := Scored(root, fold, [exact, other], "b", [1.0]);
    ScoredAt(root, fold, [exact, other], "b", [1.0]);
    assert scored.Some? && scored.value == [a, b];
    assert NameLeq("a", "b") && !NameLeq("b", "a");
    assert [a, b][1..] == [b] && [b][1..] == [];
    assert Sort([b]) == [b];
    assert [b][1..] == [] && Insert(a, []) == [a];
    assert Sort([a, b]) == Insert(a, [b]) == [b, a];
  }

  lemma UnitCosine(root: real -> real, x: real)
    requires IsRoot(root) && (x == 1.0 || x == -1.0)
    ensures CosineSimilarity(root, [1.0], [x]) == Some(x)
  {
    assert [1.0][1..] == [] && [x][1..] == [];
    assert SquareSum([x]) == x * x + SquareSum([]) == 1.0;
    assert SquareSum([1.0]) == 1.0;
    assert Dot([1.0], [x]) == x;
    assert IsNorm(root(1.0), 1.0);
    RootFacts(root, 1.0);
    OneRoot(root(1.0));
  }

  lemma OneRoot(r: real)
    requires IsNorm(r, 1.0)
    ensures r == 1.0
  {
    RootIsMonotone(1.0, r);
    RootIsMonotone(r, 1.0);
  }
}
