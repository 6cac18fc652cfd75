/**
 * Feature maps and `gram_matrix`, the style descriptor: for every image of
 * the batch, the channel-by-channel correlation summed over all spatial
 * positions and divided by the number of positions.
 */
module GramMatrix {
  import opened Kernels

  /**
   * The activations of one layer, shape (batch, height, width, channels).
   * Spatial positions are flattened row-major: `batch[b][i * width + j][c]`.
   */
  datatype FeatureMap = FeatureMap(height: nat, width: nat, channels: nat, batch: seq<seq<seq<real>>>)

  predicate WellShaped(fm: FeatureMap) {
    && fm.height > 0 && fm.width > 0
    && (forall b :: 0 <= b < |fm.batch| ==> |fm.batch[b]| == fm.height * fm.width)
    && (forall b, p :: 0 <= b < |fm.batch| && 0 <= p < |fm.batch[b]| ==> |fm.batch[b][p]| == fm.channels)
  }

  /** A tensor the backbone can produce: rectangular, with at least one position. */
  type Activation = fm: FeatureMap | WellShaped(fm) witness FeatureMap(1, 1, 0, [])

  /** Gram descriptors of a batch, shape (batch, channels, channels). */
  type Descriptor = seq<seq<seq<real>>>

  predicate HasChannels(positions: seq<seq<real>>, c: nat) {
    forall p :: 0 <= p < |positions| ==> c < |positions[p]|
  }

  /** Sum over the positions of channel c times channel d. */
  function SpatialSum(positions: seq<seq<real>>, c: nat, d: nat): real
    requires HasChannels(positions, c) && HasChannels(positions, d)
  {
    if positions == [] then 0.0
    else
      var last := positions[|positions| - 1];
      SpatialSum(positions[..|positions| - 1], c, d) + last[c] * last[d]
  }

  /** The row-major elements of a feature map. */
  function Elements(fm: FeatureMap): Tensor {
    Flatten(Flatten(fm.batch))
  }

  /** The row-major elements of a Gram descriptor. */
  function GramElements(g: Descriptor): Tensor {
    Flatten(Flatten(g))
  }

  /** `gram_matrix`: `einsum('bijc,bijd->bcd')` divided by height * width. */
  function Gram(fm: Activation): (g: Descriptor)
    ensures |g| == |fm.batch|
    ensures forall b :: 0 <= b < |g| ==> |g[b]| == fm.channels
    ensures forall b, c :: 0 <= b < |g| && 0 <= c < |g[b]| ==> |g[b][c]| == fm.channels
  {
    var locations := (fm.height * fm.width) as real;
    seq(|fm.batch|, b requires 0 <= b < |fm.batch| =>
      seq(fm.channels, c requires 0 <= c < fm.channels =>
        seq(fm.channels, d requires 0 <= d < fm.channels =>
          SpatialSum(fm.batch[b], c, d) / locations)))
  }

  lemma {:induction false} SpatialSumSymmetric(positions: seq<seq<real>>, c: nat, d: nat)
    requires HasChannels(positions, c) && HasChannels(positions, d)
    ensures SpatialSum(positions, c, d) == SpatialSum(positions, d, c)
  {
    if positions != [] {
      SpatialSumSymmetric(positions[..|positions| - 1], c, d);
    }
  }

  lemma {:induction false} SpatialSumDiagonal(positions: seq<seq<real>>, c: nat)
    requires HasChannels(positions, c)
    ensures SpatialSum(positions, c, c) >= 0.0
  {
    if positions != [] {
      var last := positions[|positions| - 1];
      SpatialSumDiagonal(positions[..|positions| - 1], c);
      SquareFacts(last[c]);
      assert last[c] * last[c] == Sq(last[c]);
    }
  }

  lemma {:induction false} SpatialSumAppend(xs: seq<seq<real>>, ys: seq<seq<real>>, c: nat, d: nat)
    requires HasChannels(xs, c) && HasChannels(xs, d) && HasChannels(ys, c) && HasChannels(ys, d)
    ensures HasChannels(xs + ys, c) && HasChannels(xs + ys, d)
    ensures SpatialSum(xs + ys, c, d) == SpatialSum(xs, c, d) + SpatialSum(ys, c, d)
  {
    if ys == [] {
      assert xs + ys == xs;
    } else {
      var zs := xs + ys;
      assert zs[..|zs| - 1] == xs + ys[..|ys| - 1];
      SpatialSumAppend(xs, ys[..|ys| - 1], c, d);
    }
  }

  /** Every Gram descriptor is symmetric in its two channel indices. */
  lemma GramSymmetric(fm: Activation)
    ensures forall b, c, d :: 0 <= b < |fm.batch| && 0 <= c < fm.channels && 0 <= d < fm.channels ==>
      Gram(fm)[b][c][d] == Gram(fm)[b][d][c]
  {
    forall b, c, d | 0 <= b < |fm.batch| && 0 <= c < fm.channels && 0 <= d < fm.channels
      ensures Gram(fm)[b][c][d] == Gram(fm)[b][d][c]
    {
      SpatialSumSymmetric(fm.batch[b], c, d);
    }
  }

  /** A channel's correlation with itself is never negative. */
  lemma GramDiagonalNonNegative(fm: Activation)
    ensures forall b, c :: 0 <= b < |fm.batch| && 0 <= c < fm.channels ==> Gram(fm)[b][c][c] >= 0.0
  {
    forall b, c | 0 <= b < |fm.batch| && 0 <= c < fm.channels
      ensures Gram(fm)[b][c][c] >= 0.0
    {
      SpatialSumDiagonal(fm.batch[b], c);
    }
  }

  /** The same feature map stacked twice along the height axis. */
  function StackedTwice(fm: Activation): (t: Activation)
    ensures t.height == 2 * fm.height && t.width == fm.width && t.channels == fm.channels
  {
    var t := FeatureMap(2 * fm.height, fm.width, fm.channels,
      seq(|fm.batch|, b requires 0 <= b < |fm.batch| => fm.batch[b] + fm.batch[b]));
    assert forall b :: 0 <= b < |t.batch| ==> |t.batch[b]| == t.height * t.width;
    t
  }

  /**
   * The normalisation by height * width makes the descriptor independent of
   * spatial extent: doubling the map by repetition leaves it unchanged.
   */
  lemma GramResolutionInvariant(fm: Activation)
    ensures Gram(StackedTwice(fm)) == Gram(fm)
  {
    var t := StackedTwice(fm);
    forall b, c | 0 <= b < |fm.batch| && 0 <= c < fm.channels
      ensures Gram(t)[b][c] == Gram(fm)[b][c]
    {
      forall d | 0 <= d < fm.channels
        ensures Gram(t)[b][c][d] == Gram(fm)[b][c][d]
      {
        StackedEntry(fm, b, c, d);
      }
    }
    assert forall b :: 0 <= b < |fm.batch| ==> Gram(t)[b] == Gram(fm)[b];
  }

  lemma StackedEntry(fm: Activation, b: nat, c: nat, d: nat)
    requires b < |fm.batch| && c < fm.channels && d < fm.channels
    ensures Gram(StackedTwice(fm))[b][c][d] == Gram(fm)[b][c][d]
  {
    var t := StackedTwice(fm);
    var n := (fm.height * fm.width) as real;
    var s := SpatialSum(fm.batch[b], c, d);
    SpatialSumAppend(fm.batch[b], fm.batch[b], c, d);
    assert t.batch[b] == fm.batch[b] + fm.batch[b];
    assert (t.height * t.width) as real == 2.0 * n;
    HalvesCancel(s, n);
  }

  lemma HalvesCancel(s: real, n: real)
    requires n > 0.0
    ensures (s + s) / (2.0 * n) == s / n
  {
  }
}
