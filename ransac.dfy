/**
 * The best-of-N bookkeeping every detector shares: each trial either is rejected or
 * yields a hypothesis with its inliers, and a trial replaces the best so far only when it
 * has strictly more inliers. The best starts with no inliers, so a trial with none never
 * becomes best.
 */
module Ransac {
  import opened Wrappers

  datatype Candidate<H> = Candidate(hyp: H, inliers: seq<nat>)

  /** The inlier count of the best so far; 0 before any trial is kept (`len(best_inliers)`). */
  function CountOf<H>(b: Option<(nat, Candidate<H>)>): nat {
    if b.None? then 0 else |b.value.1.inliers|
  }

  /** The selected trial, with its index, after running `trials` in order. */
  function Best<H>(trials: seq<Option<Candidate<H>>>): (b: Option<(nat, Candidate<H>)>)
    ensures b.Some? ==> b.value.0 < |trials| && trials[b.value.0] == Some(b.value.1)
    ensures b.Some? ==> |b.value.1.inliers| > 0
    decreases |trials|
  {
    if |trials| == 0 then None
    else
      var prev := Best(trials[..|trials| - 1]);
      var last := trials[|trials| - 1];
      if last.Some? && |last.value.inliers| > CountOf(prev) then Some((|trials| - 1, last.value))
      else prev
  }

  /** No kept trial has more inliers than the selected one. */
  lemma {:induction false} BestIsMaximal<H>(trials: seq<Option<Candidate<H>>>, j: nat)
    requires j < |trials| && trials[j].Some?
    ensures |trials[j].value.inliers| <= CountOf(Best(trials))
    decreases |trials|
  {
    var n := |trials|;
    var prev := trials[..n - 1];
    if j < n - 1 {
      assert prev[j] == trials[j];
      BestIsMaximal(prev, j);
    }
  }

  /** Every kept trial before the selected one has strictly fewer inliers: ties keep the earliest. */
  lemma {:induction false} BestIsEarliest<H>(trials: seq<Option<Candidate<H>>>, j: nat)
    requires Best(trials).Some?
    requires j < Best(trials).value.0 && trials[j].Some?
    ensures |trials[j].value.inliers| < |Best(trials).value.1.inliers|
    decreases |trials|
  {
    var n := |trials|;
    var prev := trials[..n - 1];
    assert prev[j] == trials[j];
    if Best(trials) == Best(prev) {
      BestIsEarliest(prev, j);
    } else {
      BestIsMaximal(prev, j);
    }
  }

  /** Nothing is selected exactly when every trial is rejected or has no inliers. */
  lemma {:induction false} BestNoneIff<H>(trials: seq<Option<Candidate<H>>>)
    ensures Best(trials).None? <==> forall j :: 0 <= j < |trials| && trials[j].Some? ==> |trials[j].value.inliers| == 0
    decreases |trials|
  {
    if |trials| > 0 {
      var n := |trials|;
      var prev := trials[..n - 1];
      BestNoneIff(prev);
      assert forall j :: 0 <= j < n - 1 ==> prev[j] == trials[j];
    }
  }

  /** A property every kept hypothesis has is a property of the selected one. */
  lemma BestSatisfies<H>(trials: seq<Option<Candidate<H>>>, ok: H -> bool)
    requires forall j :: 0 <= j < |trials| && trials[j].Some? ==> ok(trials[j].value.hyp)
    requires Best(trials).Some?
    ensures ok(Best(trials).value.1.hyp)
  {
    var k := Best(trials).value.0;
    assert trials[k].Some?;
  }

  function Strip<H>(b: Option<(nat, Candidate<H>)>): Option<Candidate<H>> {
    if b.None? then None else Some(b.value.1)
  }

  /** The trial loop: keeps `best_inliers` and the best hypothesis, replacing on a strictly larger count. */
  method SelectBest<H>(trials: seq<Option<Candidate<H>>>) returns (best: Option<Candidate<H>>)
    ensures best == Strip(Best(trials))
  {
    var bestInliers: seq<nat> := [];
    best := None;
    for i := 0 to |trials|
      invariant best == Strip(Best(trials[..i]))
      invariant |bestInliers| == CountOf(Best(trials[..i]))
    {
      assert trials[..i + 1][..i] == trials[..i];
      var t := trials[i];
      if t.Some? && |t.value.inliers| > |bestInliers| {
        bestInliers := t.value.inliers;
        best := t;
      }
    }
    assert trials[..|trials|] == trials;
  }
}
