/**
 Reaching one state of the dialog machine from another, step by step, in any run or in clean
 runs only.
 */
module Reach {
  import opened Domain
  import opened Branch
  import opened DialogState
  import opened DialogWatermark
  import opened DialogOwnership

  /** Some system prompt. */
  const SYSTEM_ENTRY := Entry(Plain, Message(System, "", Own, None))

  ghost predicate Reaches(s: State, s': State, clean: bool) {
    exists labels :: RunsTo(s, labels, s', clean)
  }

  predicate RunsTo(s: State, labels: seq<Label>, s': State, clean: bool) {
    Valid(s, labels) && End(s, labels) == s' && (clean ==> CleanRun(s, labels))
  }

  lemma OneStep(s: State, l: Label, clean: bool)
    requires Enabled(s, l) && (clean ==> Clean(s, l))
    ensures Reaches(s, Apply(s, l), clean)
  {
    var labels := [l];
    assert labels[0] == l && labels[1..] == [];
    assert End(s, labels) == End(Apply(s, l), labels[1..]);
    assert clean ==> CleanRun(Apply(s, l), labels[1..]);
    assert clean ==> CleanRun(s, labels);
    assert RunsTo(s, labels, Apply(s, l), clean);
  }

  lemma {:induction false} JoinRuns(s: State, a: seq<Label>, b: seq<Label>)
    requires Valid(s, a) && Valid(End(s, a), b)
    ensures Valid(s, a + b) && End(s, a + b) == End(End(s, a), b)
    ensures CleanRun(s, a) && CleanRun(End(s, a), b) ==> CleanRun(s, a + b)
    decreases |a|
  {
    if a == [] {
      assert a + b == b;
    } else {
      assert (a + b)[1..] == a[1..] + b;
      JoinRuns(Apply(s, a[0]), a[1..], b);
    }
  }

  lemma Onward(s: State, s1: State, s2: State, clean: bool)
    requires Reaches(s, s1, clean) && Reaches(s1, s2, clean)
    ensures Reaches(s, s2, clean)
  {
    var a :| RunsTo(s, a, s1, clean);
    var b :| RunsTo(s1, b, s2, clean);
    JoinRuns(s, a, b);
    assert RunsTo(s, a + b, s2, clean);
  }

  /** After step `l`, go on as known. */
  lemma StepOnward(s: State, l: Label, s': State, clean: bool)
    requires Enabled(s, l) && (clean ==> Clean(s, l)) && Reaches(Apply(s, l), s', clean)
    ensures Reaches(s, s', clean)
  {
    OneStep(s, l, clean);
    Onward(s, Apply(s, l), s', clean);
  }

  /** Recovery, once over, does not come back. */
  lemma StaysOver(s: State, l: Label)
    requires !s.recovering && Enabled(s, l)
    ensures !Apply(s, l).recovering
  {
    if l.OnLaunch? {
      if l.launch.PlaceCheck? || l.launch.Admit? || l.launch.ResumeCheck? { AdmissionFrame(s, l.launch); }
      if l.launch.RefuseBudget? || l.launch.AbortLaunch? { GiveUpFrame(s, l.launch); }
    }
  }

  /** Some identifier is not used yet. */
  lemma {:induction false} FreshId(used: set<nat>) returns (x: nat)
    ensures x !in used && forall y :: y in used ==> y < x
    decreases used
  {
    if used == {} {
      x := 0;
    } else {
      var y :| y in used;
      var z := FreshId(used - {y});
      x := if z > y then z else y + 1;
      assert used == (used - {y}) + {y};
    }
  }
}
