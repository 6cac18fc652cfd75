/**
 * The style targets built in `StyleTransfer.__init__`: a dict of per-layer
 * lists, one empty list per style layer, then one Gram matrix appended per
 * style image and layer, then each list averaged element-wise.
 */
module Targets {
  import opened Wrappers
  import opened Dicts
  import opened Kernels
  import opened GramMatrix
  import opened Extraction

  type Lists = Dict<seq<Descriptor>>

  /** The dict after `for layer in style_layers: style_targets[layer] = []`. */
  function EmptyLists<V>(layers: seq<string>): (d: Dict<seq<V>>)
    ensures forall k :: k in Keys(d) <==> k in layers
    ensures forall k :: k in Keys(d) ==> Get(d, k) == []
  {
    if layers == [] then []
    else
      var n := |layers| - 1;
      assert forall k :: k in layers <==> k in layers[..n] || k == layers[n] by {
        assert layers == layers[..n] + [layers[n]];
      }
      Set(EmptyLists<V>(layers[..n]), layers[n], [])
  }

  /** With distinct names the lists come in layer order. */
  lemma {:induction false} EmptyListsOrder<V>(layers: seq<string>)
    requires Distinct(layers)
    ensures Keys(EmptyLists<V>(layers)) == layers
  {
    if layers != [] {
      var n := |layers| - 1;
      assert Distinct(layers[..n]);
      EmptyListsOrder<V>(layers[..n]);
      assert layers[n] !in layers[..n];
      assert layers == layers[..n] + [layers[n]];
    }
  }

  /** `for key in style_target: style_targets[key].append(style_target[key])` */
  function AppendEach<V>(targets: Dict<seq<V>>, styleTarget: seq<(string, V)>): (r: Dict<seq<V>>)
    requires forall i :: 0 <= i < |styleTarget| ==> styleTarget[i].0 in Keys(targets)
    ensures Keys(r) == Keys(targets)
    decreases |styleTarget|
  {
    if styleTarget == [] then targets
    else
      var n := |styleTarget| - 1;
      var t := AppendEach(targets, styleTarget[..n]);
      var key := styleTarget[n].0;
      Set(t, key, Get(t, key) + [styleTarget[n].1])
  }

  /** The values a sequence of entries holds under one key, in order. */
  function ValuesAt<V>(entries: seq<(string, V)>, k: string): seq<V> {
    if entries == [] then []
    else
      var n := |entries| - 1;
      ValuesAt(entries[..n], k) + (if entries[n].0 == k then [entries[n].1] else [])
  }

  /** Each list grows by exactly the values the style dict holds under its key. */
  lemma {:induction false} AppendEachGet<V>(targets: Dict<seq<V>>, styleTarget: seq<(string, V)>, k: string)
    requires forall i :: 0 <= i < |styleTarget| ==> styleTarget[i].0 in Keys(targets)
    requires k in Keys(targets)
    ensures Get(AppendEach(targets, styleTarget), k) == Get(targets, k) + ValuesAt(styleTarget, k)
  {
    if styleTarget != [] {
      var n := |styleTarget| - 1;
      AppendEachGet(targets, styleTarget[..n], k);
    }
  }

  /** In a dict a key holds exactly one value. */
  lemma {:induction false} ValuesAtUnique<V>(d: Dict<V>, i: nat)
    requires i < |d|
    ensures ValuesAt(d, d[i].0) == [d[i].1]
  {
    var n := |d| - 1;
    if i < n {
      ValuesAtUnique(d[..n], i);
    } else {
      ValuesAtAbsent(d[..n], d[i].0);
    }
  }

  lemma {:induction false} ValuesAtAbsent<V>(entries: seq<(string, V)>, k: string)
    requires k !in Keys(entries)
    ensures ValuesAt(entries, k) == []
  {
    if entries != [] {
      var n := |entries| - 1;
      assert Keys(entries[..n]) == Keys(entries)[..n];
      ValuesAtAbsent(entries[..n], k);
    }
  }

  /** `self.extractor(style_image)[1]` for each style image, folded into the lists. */
  function Accumulated(m: StyleContentModel, styleImages: seq<Tensor>): (d: Lists)
    ensures forall k :: k in Keys(d) <==> k in m.styleLayers
  {
    if styleImages == [] then EmptyLists<Descriptor>(m.styleLayers)
    else
      var n := |styleImages| - 1;
      var styleTarget := Call(m, styleImages[n]).1;
      var before := Accumulated(m, styleImages[..n]);
      assert forall i :: 0 <= i < |styleTarget| ==> styleTarget[i].0 in Keys(before) by {
        forall i | 0 <= i < |styleTarget| ensures styleTarget[i].0 in Keys(before) {
          assert styleTarget[i].0 in Keys(styleTarget);
        }
      }
      AppendEach(before, styleTarget)
  }

  /** The list of one layer: the style descriptors of that layer, image after image. */
  function Collected(m: StyleContentModel, styleImages: seq<Tensor>, k: string): seq<Descriptor> {
    if styleImages == [] then []
    else
      var n := |styleImages| - 1;
      Collected(m, styleImages[..n], k) + ValuesAt(Call(m, styleImages[n]).1, k)
  }

  /** Every layer's list holds what each image contributed to it, in image order. */
  lemma {:induction false} AccumulatedGet(m: StyleContentModel, styleImages: seq<Tensor>, k: string)
    requires k in m.styleLayers
    ensures k in Keys(Accumulated(m, styleImages))
    ensures Get(Accumulated(m, styleImages), k) == Collected(m, styleImages, k)
  {
    if styleImages != [] {
      var n := |styleImages| - 1;
      AccumulatedGet(m, styleImages[..n], k);
      var styleTarget := Call(m, styleImages[n]).1;
      var before := Accumulated(m, styleImages[..n]);
      forall i | 0 <= i < |styleTarget| ensures styleTarget[i].0 in Keys(before) {
        assert styleTarget[i].0 in Keys(styleTarget);
      }
      AppendEachGet(before, styleTarget, k);
    }
  }

  /** The backbone yields at least one output per style layer for every style image. */
  predicate EnoughOutputs(m: StyleContentModel, styleImages: seq<Tensor>) {
    forall n :: 0 <= n < |styleImages| ==> |Outputs(m, styleImages[n])| >= |m.styleLayers|
  }

  /** The Gram matrix of output i of every image, in image order. */
  function LayerGrams(m: StyleContentModel, styleImages: seq<Tensor>, i: nat): (gs: seq<Descriptor>)
    requires forall n :: 0 <= n < |styleImages| ==> i < |Outputs(m, styleImages[n])|
    ensures |gs| == |styleImages|
    ensures forall n :: 0 <= n < |styleImages| ==> gs[n] == Gram(Outputs(m, styleImages[n])[i])
  {
    seq(|styleImages|, n requires 0 <= n < |styleImages| => Gram(Outputs(m, styleImages[n])[i]))
  }

  /** `style_layers[i]` collects exactly the Gram matrix of output i of every image. */
  lemma {:induction false} CollectedGrams(m: StyleContentModel, styleImages: seq<Tensor>, i: nat)
    requires Distinct(m.styleLayers) && i < |m.styleLayers|
    requires EnoughOutputs(m, styleImages)
    ensures Collected(m, styleImages, m.styleLayers[i]) == LayerGrams(m, styleImages, i)
  {
    if styleImages != [] {
      var n := |styleImages| - 1;
      var init := styleImages[..n];
      CollectedGrams(m, init, i);
      var last := styleImages[n];
      CallStyle(m, last);
      var styleTarget := Call(m, last).1;
      ValuesAtUnique(styleTarget, i);
      assert ValuesAt(styleTarget, m.styleLayers[i]) == [Gram(Outputs(m, last)[i])];
      LayerGramsSnoc(m, styleImages, i);
    }
  }

  lemma LayerGramsSnoc(m: StyleContentModel, styleImages: seq<Tensor>, i: nat)
    requires styleImages != []
    requires forall n :: 0 <= n < |styleImages| ==> i < |Outputs(m, styleImages[n])|
    ensures LayerGrams(m, styleImages, i)
      == LayerGrams(m, styleImages[..|styleImages| - 1], i) + [Gram(Outputs(m, styleImages[|styleImages| - 1])[i])]
  {
    var n := |styleImages| - 1;
    var whole := LayerGrams(m, styleImages, i);
    var init := LayerGrams(m, styleImages[..n], i);
    var g := Gram(Outputs(m, styleImages[n])[i]);
    assert |whole| == |init + [g]|;
    forall k | 0 <= k < |whole| ensures whole[k] == (init + [g])[k] {
      if k < n {
        assert styleImages[..n][k] == styleImages[k];
      }
    }
  }

  /**
   * After accumulation the lists come in style-layer order and the list of
   * `style_layers[i]` holds one Gram matrix per style image, in image order.
   */
  lemma OneGramPerImage(m: StyleContentModel, styleImages: seq<Tensor>)
    requires Distinct(m.styleLayers)
    requires EnoughOutputs(m, styleImages)
    ensures Keys(Accumulated(m, styleImages)) == m.styleLayers
    ensures forall i :: 0 <= i < |m.styleLayers| ==> |Accumulated(m, styleImages)[i].1| == |styleImages|
    ensures forall i, n :: 0 <= i < |m.styleLayers| && 0 <= n < |styleImages| ==>
      Accumulated(m, styleImages)[i].1[n] == Gram(Outputs(m, styleImages[n])[i])
  {
    AccumulatedOrder(m, styleImages);
    var d := Accumulated(m, styleImages);
    forall i | 0 <= i < |m.styleLayers|
      ensures d[i].1 == LayerGrams(m, styleImages, i)
    {
      AccumulatedGet(m, styleImages, m.styleLayers[i]);
      CollectedGrams(m, styleImages, i);
      assert d[i].0 == m.styleLayers[i];
    }
  }

  lemma {:induction false} AccumulatedOrder(m: StyleContentModel, styleImages: seq<Tensor>)
    requires Distinct(m.styleLayers)
    ensures Keys(Accumulated(m, styleImages)) == m.styleLayers
  {
    if styleImages == [] {
      EmptyListsOrder<Descriptor>(m.styleLayers);
    } else {
      AccumulatedOrder(m, styleImages[..|styleImages| - 1]);
    }
  }

  /** The first loop of the constructor: one empty list per style layer. */
  method MakeEmptyLists<V>(layers: seq<string>) returns (targets: Dict<seq<V>>)
    ensures targets == EmptyLists(layers)
  {
    targets := [];
    for i := 0 to |layers|
      invariant targets == EmptyLists(layers[..i])
    {
      assert layers[..i + 1][..i] == layers[..i];
      targets := Set(targets, layers[i], []);
    }
    assert layers[..|layers|] == layers;
  }

  /** The inner loop of the constructor: append each entry of one image's style dict. */
  method AppendStyleTarget<V>(targets: Dict<seq<V>>, styleTarget: seq<(string, V)>) returns (r: Dict<seq<V>>)
    requires forall i :: 0 <= i < |styleTarget| ==> styleTarget[i].0 in Keys(targets)
    ensures r == AppendEach(targets, styleTarget)
  {
    r := targets;
    for j := 0 to |styleTarget|
      invariant r == AppendEach(targets, styleTarget[..j])
    {
      assert styleTarget[..j + 1][..j] == styleTarget[..j];
      var key := styleTarget[j].0;
      r := Set(r, key, Get(r, key) + [styleTarget[j].1]);
    }
    assert styleTarget[..|styleTarget|] == styleTarget;
  }

  /**
   * The loops of the constructor that fill `self.style_targets`, before
   * `avg_gram` is applied.
   */
  method AccumulateStyleTargets(m: StyleContentModel, styleImages: seq<Tensor>) returns (targets: Lists)
    ensures targets == Accumulated(m, styleImages)
  {
    targets := MakeEmptyLists<Descriptor>(m.styleLayers);
    for n := 0 to |styleImages|
      invariant targets == Accumulated(m, styleImages[..n])
    {
      assert styleImages[..n + 1][..n] == styleImages[..n];
      var styleTarget := Call(m, styleImages[n]).1;
      forall i | 0 <= i < |styleTarget| ensures styleTarget[i].0 in Keys(targets) {
        assert styleTarget[i].0 in Keys(styleTarget);
      }
      targets := AppendStyleTarget(targets, styleTarget);
    }
    assert styleImages[..|styleImages|] == styleImages;
  }

  /** The sum of position p over a list of equal-length tensors. */
  function ColumnSum(xs: seq<Tensor>, p: nat): real
    requires forall i :: 0 <= i < |xs| ==> p < |xs[i]|
  {
    if xs == [] then 0.0 else ColumnSum(xs[..|xs| - 1], p) + xs[|xs| - 1][p]
  }

  /**
   * `avg_gram` on one list: the element-wise mean of the (flattened) Gram
   * matrices; `None` when there is nothing to average or the shapes differ.
   */
  function ElementwiseMean(xs: seq<Tensor>): (r: Option<Tensor>)
    ensures r.Some? <==> xs != [] && forall i :: 0 <= i < |xs| ==> |xs[i]| == |xs[0]|
    ensures r.Some? ==> |r.value| == |xs[0]|
  {
    if xs == [] || exists i :: 0 <= i < |xs| && |xs[i]| != |xs[0]| then None
    else Some(seq(|xs[0]|, p requires 0 <= p < |xs[0]| => ColumnSum(xs, p) / (|xs| as real)))
  }

  lemma {:induction false} ColumnSumConstant(xs: seq<Tensor>, t: Tensor, p: nat)
    requires p < |t| && forall i :: 0 <= i < |xs| ==> xs[i] == t
    ensures ColumnSum(xs, p) == (|xs| as real) * t[p]
  {
    if xs != [] {
      ColumnSumConstant(xs[..|xs| - 1], t, p);
    }
  }

  lemma Cancel(n: real, v: real)
    requires n > 0.0
    ensures (n * v) / n == v
  {
  }

  /** Averaging copies of one tensor gives that tensor back. */
  lemma MeanOfCopies(xs: seq<Tensor>, t: Tensor)
    requires xs != [] && forall i :: 0 <= i < |xs| ==> xs[i] == t
    ensures ElementwiseMean(xs) == Some(t)
  {
    assert ElementwiseMean(xs).Some?;
    var r := ElementwiseMean(xs).value;
    forall p | 0 <= p < |t| ensures r[p] == t[p] {
      ColumnSumConstant(xs, t, p);
      Cancel(|xs| as real, t[p]);
    }
    assert r == t;
  }

  /** Two style images: each target entry is the midpoint of the two. */
  lemma MeanOfTwo(a: Tensor, b: Tensor)
    requires |a| == |b|
    ensures ElementwiseMean([a, b]).Some?
    ensures forall p :: 0 <= p < |a| ==> ElementwiseMean([a, b]).value[p] == (a[p] + b[p]) / 2.0
  {
    var xs := [a, b];
    forall p | 0 <= p < |a| ensures ColumnSum(xs, p) == a[p] + b[p] {
      assert xs[..1] == [a] && [a][..0] == [];
      assert ColumnSum([a], p) == ColumnSum([], p) + a[p];
      assert ColumnSum(xs, p) == ColumnSum([a], p) + b[p];
    }
  }

  /** The flattened entries of a list of Gram matrices. */
  function FlatGrams(gs: seq<Descriptor>): (ts: seq<Tensor>)
    ensures |ts| == |gs| && forall i :: 0 <= i < |gs| ==> ts[i] == GramElements(gs[i])
  {
    seq(|gs|, i requires 0 <= i < |gs| => GramElements(gs[i]))
  }

  /** `avg_gram(self.style_targets)`: every list replaced by its mean. */
  function AverageTargets(lists: Lists): (r: Option<Dict<Tensor>>)
    ensures r.Some? <==> forall i :: 0 <= i < |lists| ==> ElementwiseMean(FlatGrams(lists[i].1)).Some?
    ensures r.Some? ==> Keys(r.value) == Keys(lists)
    ensures r.Some? ==> forall i :: 0 <= i < |lists| ==> r.value[i].1 == ElementwiseMean(FlatGrams(lists[i].1)).value
  {
    if forall i :: 0 <= i < |lists| ==> ElementwiseMean(FlatGrams(lists[i].1)).Some? then
      var means := seq(|lists|, i requires 0 <= i < |lists| =>
        (lists[i].0, ElementwiseMean(FlatGrams(lists[i].1)).value));
      assert Keys(means) == Keys(lists);
      Some(means)
    else None
  }

  /**
   * With a single style image, each layer's target is that image's Gram
   * matrix for the layer, flattened.
   */
  lemma SingleImageTargets(m: StyleContentModel, styleImages: seq<Tensor>)
    requires Distinct(m.styleLayers)
    requires |styleImages| == 1 && EnoughOutputs(m, styleImages)
    ensures AverageTargets(Accumulated(m, styleImages)).Some?
    ensures Keys(AverageTargets(Accumulated(m, styleImages)).value) == m.styleLayers
    ensures forall i :: 0 <= i < |m.styleLayers| ==>
      AverageTargets(Accumulated(m, styleImages)).value[i].1 == GramElements(Gram(Outputs(m, styleImages[0])[i]))
  {
    var gs := LayerGramsOfOne(m, styleImages[0], |m.styleLayers|);
    SingleImageLists(m, styleImages, gs);
    AverageOfSingletons(Accumulated(m, styleImages), gs);
  }

  lemma SingleImageLists(m: StyleContentModel, styleImages: seq<Tensor>, gs: seq<Descriptor>)
    requires Distinct(m.styleLayers)
    requires |styleImages| == 1 && EnoughOutputs(m, styleImages)
    requires gs == LayerGramsOfOne(m, styleImages[0], |m.styleLayers|)
    ensures Keys(Accumulated(m, styleImages)) == m.styleLayers
    ensures |gs| == |Accumulated(m, styleImages)|
    ensures forall i :: 0 <= i < |gs| ==> Accumulated(m, styleImages)[i].1 == [gs[i]]
  {
    AccumulatedOrder(m, styleImages);
    var lists := Accumulated(m, styleImages);
    forall i | 0 <= i < |lists| ensures lists[i].1 == [gs[i]] {
      var layer := m.styleLayers[i];
      AccumulatedGet(m, styleImages, layer);
      CollectedGrams(m, styleImages, i);
      assert lists[i].0 == layer;
      Singleton(LayerGrams(m, styleImages, i), gs[i]);
    }
  }

  lemma Singleton<T>(xs: seq<T>, x: T)
    requires |xs| == 1 && xs[0] == x
    ensures xs == [x]
  {
  }

  function LayerGramsOfOne(m: StyleContentModel, image: Tensor, k: nat): (gs: seq<Descriptor>)
    requires k <= |Outputs(m, image)|
    ensures |gs| == k && forall i :: 0 <= i < k ==> gs[i] == Gram(Outputs(m, image)[i])
  {
    seq(k, i requires 0 <= i < k => Gram(Outputs(m, image)[i]))
  }

  lemma AverageOfSingletons(lists: Lists, gs: seq<Descriptor>)
    requires |lists| == |gs| && forall i :: 0 <= i < |lists| ==> lists[i].1 == [gs[i]]
    ensures AverageTargets(lists).Some?
    ensures Keys(AverageTargets(lists).value) == Keys(lists)
    ensures forall i :: 0 <= i < |lists| ==> AverageTargets(lists).value[i].1 == GramElements(gs[i])
  {
    forall i | 0 <= i < |lists|
      ensures ElementwiseMean(FlatGrams(lists[i].1)) == Some(GramElements(gs[i]))
    {
      MeanOfCopies(FlatGrams(lists[i].1), GramElements(gs[i]));
    }
  }
}
