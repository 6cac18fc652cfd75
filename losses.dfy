/**
 * `calculate_loss`: the per-layer mean squared errors between the current
 * outputs and the fixed targets, summed, divided by the number of targets and
 * scaled by the loss weight.
 */
module Losses {
  import opened Wrappers
  import opened Dicts
  import opened Kernels

  /**
   * How the computation fails in the source: `tf.add_n([])` on no outputs,
   * `KeyError` on an output name the targets lack, and an error from the
   * element-wise subtraction when output and target differ in shape.
   */
  datatype LossError = NoOutputs | MissingTarget(name: string) | ShapeMismatch(name: string)

  /** `mse(output, targets[name])` is defined. */
  predicate Matches(entry: (string, Tensor), targets: Dict<Tensor>) {
    entry.0 in Keys(targets) && |entry.1| == |Get(targets, entry.0)| && |entry.1| > 0
  }

  function ErrorFor(entry: (string, Tensor), targets: Dict<Tensor>): LossError {
    if entry.0 !in Keys(targets) then MissingTarget(entry.0) else ShapeMismatch(entry.0)
  }

  /**
   * `[mse(output, targets[name]) for name, output in outputs.items()]`,
   * raising at the first entry, in iteration order, that cannot be compared.
   */
  function LayerMses(outputs: Dict<Tensor>, targets: Dict<Tensor>): (r: Result<seq<real>, LossError>)
    ensures r.Ok? <==> forall i :: 0 <= i < |outputs| ==> Matches(outputs[i], targets)
    ensures r.Ok? ==> |r.value| == |outputs|
    ensures r.Ok? ==> forall i :: 0 <= i < |outputs| ==>
      r.value[i] == Mse(outputs[i].1, Get(targets, outputs[i].0))
    ensures r.Err? ==> exists i :: FailsFirstAt(outputs, targets, i, r.error)
  {
    if outputs == [] then Ok([])
    else
      var entry := outputs[0];
      if !Matches(entry, targets) then
        assert FailsFirstAt(outputs, targets, 0, ErrorFor(entry, targets));
        Err(ErrorFor(entry, targets))
      else
        match LayerMses(outputs[1..], targets)
        case Err(e) =>
          FirstFailureShift(outputs, targets, e);
          Err(e)
        case Ok(rest) =>
          assert forall i :: 1 <= i < |outputs| ==> outputs[i] == outputs[1..][i - 1];
          Ok([Mse(entry.1, Get(targets, entry.0))] + rest)
  }

  /** The first entry that cannot be compared: at `i` when the entries before `i` all can. */
  predicate FailsFirstAt(outputs: seq<(string, Tensor)>, targets: Dict<Tensor>, i: int, e: LossError) {
    0 <= i < |outputs| && !Matches(outputs[i], targets)
    && (forall j :: 0 <= j < i ==> Matches(outputs[j], targets))
    && e == ErrorFor(outputs[i], targets)
  }

  /** Failing first at `i` after a comparable head is failing first at `i + 1` with the head. */
  lemma FirstFailureShift(outputs: seq<(string, Tensor)>, targets: Dict<Tensor>, e: LossError)
    requires outputs != [] && Matches(outputs[0], targets)
    requires exists i :: FailsFirstAt(outputs[1..], targets, i, e)
    ensures exists i :: FailsFirstAt(outputs, targets, i, e)
  {
    var i :| FailsFirstAt(outputs[1..], targets, i, e);
    assert forall j :: 1 <= j < |outputs| ==> outputs[j] == outputs[1..][j - 1];
    assert FailsFirstAt(outputs, targets, i + 1, e);
  }

  function Sum(xs: seq<real>): real {
    if xs == [] then 0.0 else xs[0] + Sum(xs[1..])
  }

  /** `total / count * weight`, the source's order of operations. */
  function Weighted(total: real, count: nat, weight: real): real
    requires count > 0
  {
    total / (count as real) * weight
  }

  /** `calculate_loss(outputs, targets, weight)` */
  function CalculateLoss(outputs: Dict<Tensor>, targets: Dict<Tensor>, weight: real): (r: Result<real, LossError>)
    ensures outputs == [] ==> r == Err(NoOutputs)
    ensures r.Ok? <==> outputs != [] && forall i :: 0 <= i < |outputs| ==> Matches(outputs[i], targets)
    ensures r.Ok? ==> forall i :: 0 <= i < |outputs| ==> outputs[i].0 in Keys(targets)
  {
    var mses := LayerMses(outputs, targets);
    if mses.Err? then Err(mses.error)
    else if outputs == [] then Err(NoOutputs)
    else
      assert outputs[0].0 in Keys(targets);
      Ok(Weighted(Sum(mses.value), |targets|, weight))
  }

  lemma {:induction false} SumNonNegative(xs: seq<real>)
    requires forall i :: 0 <= i < |xs| ==> xs[i] >= 0.0
    ensures Sum(xs) >= 0.0
  {
    if xs != [] {
      SumNonNegative(xs[1..]);
    }
  }

  lemma {:induction false} SumZero(xs: seq<real>)
    requires forall i :: 0 <= i < |xs| ==> xs[i] == 0.0
    ensures Sum(xs) == 0.0
  {
    if xs != [] {
      SumZero(xs[1..]);
    }
  }

  /** The loss as `calculate_loss` computes it from the list of per-layer MSEs. */
  lemma LossOfMses(outputs: Dict<Tensor>, targets: Dict<Tensor>, weight: real)
    requires CalculateLoss(outputs, targets, weight).Ok?
    ensures |targets| > 0
    ensures CalculateLoss(outputs, targets, weight).value
      == Weighted(Sum(LayerMses(outputs, targets).value), |targets|, weight)
  {
    assert outputs[0].0 in Keys(targets);
  }

  /** Each output's MSE against the target of its name, added up over the outputs. */
  function MseTotal(outputs: seq<(string, Tensor)>, targets: Dict<Tensor>): real
    requires forall i :: 0 <= i < |outputs| ==> Matches(outputs[i], targets)
  {
    if outputs == [] then 0.0
    else
      assert Matches(outputs[0], targets);
      Mse(outputs[0].1, Get(targets, outputs[0].0)) + MseTotal(outputs[1..], targets)
  }

  /** When every output matches its target the per-layer list exists and adds up to `MseTotal`. */
  lemma {:induction false} LayerMsesTotal(outputs: Dict<Tensor>, targets: Dict<Tensor>)
    requires forall i :: 0 <= i < |outputs| ==> Matches(outputs[i], targets)
    ensures LayerMses(outputs, targets).Ok?
    ensures Sum(LayerMses(outputs, targets).value) == MseTotal(outputs, targets)
  {
    if outputs != [] {
      var rest: Dict<Tensor> := outputs[1..];
      assert forall i :: 0 <= i < |rest| ==> rest[i] == outputs[i + 1];
      LayerMsesTotal(rest, targets);
    }
  }

  /**
   * The loss is `weight` times the total of the per-layer MSEs, each output
   * measured against the target of its name, divided by the number of
   * targets (not of outputs).
   */
  lemma CalculateLossValue(outputs: Dict<Tensor>, targets: Dict<Tensor>, weight: real)
    requires CalculateLoss(outputs, targets, weight).Ok?
    ensures |targets| > 0
    ensures CalculateLoss(outputs, targets, weight).value == MseTotal(outputs, targets) / (|targets| as real) * weight
  {
    LossOfMses(outputs, targets, weight);
    LayerMsesTotal(outputs, targets);
  }

  lemma ProductNonNegative(a: real, b: real)
    requires a >= 0.0 && b >= 0.0
    ensures a * b >= 0.0
  {
  }

  /** With a non-negative weight the loss is non-negative. */
  lemma CalculateLossNonNegative(outputs: Dict<Tensor>, targets: Dict<Tensor>, weight: real)
    requires weight >= 0.0
    requires CalculateLoss(outputs, targets, weight).Ok?
    ensures CalculateLoss(outputs, targets, weight).value >= 0.0
  {
    LossOfMses(outputs, targets, weight);
    var mses := LayerMses(outputs, targets).value;
    SumNonNegative(mses);
    var mean := Sum(mses) / (|targets| as real);
    ProductNonNegative(mean, weight);
  }

  /** An image whose every output equals its target has zero loss. */
  lemma ZeroLossAtTargets(outputs: Dict<Tensor>, targets: Dict<Tensor>, weight: real)
    requires outputs != []
    requires forall i :: 0 <= i < |outputs| ==>
      Matches(outputs[i], targets) && outputs[i].1 == Get(targets, outputs[i].0)
    ensures CalculateLoss(outputs, targets, weight) == Ok(0.0)
  {
    var mses := LayerMses(outputs, targets).value;
    SumZero(mses);
    LossOfMses(outputs, targets, weight);
  }

  /** Outputs scored against themselves as targets have zero loss. */
  lemma ZeroLossAgainstItself(targets: Dict<Tensor>, weight: real)
    requires targets != []
    requires forall i :: 0 <= i < |targets| ==> |targets[i].1| > 0
    ensures CalculateLoss(targets, targets, weight) == Ok(0.0)
  {
    forall i | 0 <= i < |targets|
      ensures Matches(targets[i], targets) && targets[i].1 == Get(targets, targets[i].0)
    {
      assert targets[i].0 == Keys(targets)[i];
      assert IndexOf(targets, targets[i].0) == i;
    }
    ZeroLossAtTargets(targets, targets, weight);
  }

  /**
   * Two layers whose MSEs are a and b, against two targets: the loss is
   * (a + b) / 2 times the weight, the mean over the layers rather than the sum.
   */
  lemma TwoLayerLoss(n1: string, x1: Tensor, t1: Tensor, n2: string, x2: Tensor, t2: Tensor, weight: real)
    requires n1 != n2
    requires |x1| == |t1| > 0 && |x2| == |t2| > 0
    ensures CalculateLoss([(n1, x1), (n2, x2)], [(n1, t1), (n2, t2)], weight).Ok?
    ensures CalculateLoss([(n1, x1), (n2, x2)], [(n1, t1), (n2, t2)], weight).value
      == (Mse(x1, t1) + Mse(x2, t2)) / 2.0 * weight
  {
    var targets: Dict<Tensor> := [(n1, t1), (n2, t2)];
    assert Keys(targets) == [n1, n2];
    assert Get(targets, n1) == t1;
    assert Get(targets, n2) == t2;
    var outputs: Dict<Tensor> := [(n1, x1), (n2, x2)];
    assert Matches(outputs[0], targets) && Matches(outputs[1], targets);
    var mses := LayerMses(outputs, targets).value;
    var a, b := Mse(x1, t1), Mse(x2, t2);
    assert mses == [a, b];
    assert mses[1..] == [b] && mses[1..][1..] == [];
    assert Sum([b]) == b + Sum([]);
    assert Sum(mses) == a + b;
    LossOfMses(outputs, targets, weight);
    assert |targets| as real == 2.0;
    assert CalculateLoss(outputs, targets, weight).value == (a + b) / 2.0 * weight;
  }
}
