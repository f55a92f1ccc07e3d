/**
 * The "extended label" relabelling used for the confusion-matrix figure:
 * a prediction within one FMS level of the true label counts as the true
 * label, any other prediction is kept. Labels are integers, modelled as
 * unbounded; the pairs are walked with `zip`, so the output is as long as the shorter input.
 */
module ExtendedPredictions {

  function Abs(x: int): int
  {
    if x < 0 then -x else x
  }

  function Min(a: int, b: int): int
  {
    if a <= b then a else b
  }

  /** The rule applied to one (true, predicted) pair. */
  function Relabel(truth: int, pred: int): int
  {
    if Abs(truth - pred) <= 1 then truth else pred
  }

  /** The relabelled sequence: the rule over the zipped pairs. */
  function Extend(yTrue: seq<int>, yPred: seq<int>): (ext: seq<int>)
    ensures |ext| == Min(|yTrue|, |yPred|)
  {
    seq(Min(|yTrue|, |yPred|), i requires 0 <= i < Min(|yTrue|, |yPred|) => Relabel(yTrue[i], yPred[i]))
  }

  /** `generate_extended_predictions(y_true, y_pred_exact)` */
  method GenerateExtendedPredictions(yTrue: seq<int>, yPred: seq<int>) returns (ext: seq<int>)
    ensures ext == Extend(yTrue, yPred)
  {
    ext := [];
    var n := Min(|yTrue|, |yPred|);
    for i := 0 to n
      invariant |ext| == i
      invariant forall k :: 0 <= k < i ==> ext[k] == Relabel(yTrue[k], yPred[k])
    {
      if Abs(yTrue[i] - yPred[i]) <= 1 {
        ext := ext + [yTrue[i]];
      } else {
        ext := ext + [yPred[i]];
      }
    }
  }

  /**
   * Each output label is the true or the predicted label at its position,
   * and it is the true label exactly when the prediction was within one
   * level of it.
   */
  lemma ExtendedLabelSource(yTrue: seq<int>, yPred: seq<int>, i: nat)
    requires i < |yTrue| && i < |yPred|
    ensures Extend(yTrue, yPred)[i] == yTrue[i] || Extend(yTrue, yPred)[i] == yPred[i]
    ensures Extend(yTrue, yPred)[i] == yTrue[i] <==> Abs(yTrue[i] - yPred[i]) <= 1
  {
  }

  /** The relabelled prediction is never further from the truth than the original one. */
  lemma ExtendNeverWorse(yTrue: seq<int>, yPred: seq<int>, i: nat)
    requires i < |yTrue| && i < |yPred|
    ensures Abs(yTrue[i] - Extend(yTrue, yPred)[i]) <= Abs(yTrue[i] - yPred[i])
  {
  }

  predicate AllLevels(labels: seq<int>)
  {
    forall i :: 0 <= i < |labels| ==> 1 <= labels[i] <= 7
  }

  /** Labels on the FMS scale 1..7 on both sides stay on that scale. */
  lemma ExtendKeepsLevels(yTrue: seq<int>, yPred: seq<int>)
    requires AllLevels(yTrue) && AllLevels(yPred)
    ensures AllLevels(Extend(yTrue, yPred))
  {
    var ext := Extend(yTrue, yPred);
    forall i | 0 <= i < |ext|
      ensures 1 <= ext[i] <= 7
    {
      ExtendedLabelSource(yTrue, yPred, i);
    }
  }

  /** Relabelling a second time changes nothing. */
  lemma ExtendIdempotent(yTrue: seq<int>, yPred: seq<int>)
    ensures Extend(yTrue, Extend(yTrue, yPred)) == Extend(yTrue, yPred)
  {
  }

  /** Positions where the exact prediction is correct stay correct. */
  lemma ExactMatchesKept(yTrue: seq<int>, yPred: seq<int>, i: nat)
    requires i < |yTrue| && i < |yPred| && yPred[i] == yTrue[i]
    ensures Extend(yTrue, yPred)[i] == yTrue[i]
  {
  }

  /** Number of zipped positions where the prediction equals the truth. */
  function MatchCount(yTrue: seq<int>, yPred: seq<int>): (n: nat)
    ensures n <= Min(|yTrue|, |yPred|)
  {
    if yTrue == [] || yPred == [] then 0
    else (if yTrue[0] == yPred[0] then 1 else 0) + MatchCount(yTrue[1..], yPred[1..])
  }

  /** Extended accuracy is at least exact accuracy: the match count never drops. */
  lemma {:induction false} MatchCountNeverDrops(yTrue: seq<int>, yPred: seq<int>)
    ensures MatchCount(yTrue, yPred) <= MatchCount(yTrue, Extend(yTrue, yPred))
  {
    if yTrue != [] && yPred != [] {
      assert Extend(yTrue, yPred)[1..] == Extend(yTrue[1..], yPred[1..]);
      MatchCountNeverDrops(yTrue[1..], yPred[1..]);
    }
  }
}
