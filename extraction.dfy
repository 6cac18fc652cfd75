/**
 * `StyleContentModel.call`: run the backbone on the image scaled to [0, 255],
 * Gram-transform the first `len(style_layers)` outputs and key them by the
 * style layer names, and key the remaining outputs, unchanged, by the content
 * layer names.
 */
module Extraction {
  import opened Dicts
  import opened Kernels
  import opened GramMatrix

  /**
   * The extractor. `backbone` stands for the VGG19 sub-model built from
   * `style_layers + content_layers` together with `preprocess_input`: it maps
   * the scaled image to one activation per requested layer.
   */
  datatype StyleContentModel = StyleContentModel(
    backbone: Tensor -> seq<Activation>,
    styleLayers: seq<string>,
    contentLayers: seq<string>)

  /** `self.vgg(preprocess_input(255.0 * inputs))` */
  function Outputs(m: StyleContentModel, inputs: Tensor): seq<Activation> {
    m.backbone(Scale(255.0, inputs))
  }

  /** Where Python's slices `outputs[:n]` and `outputs[n:]` split, `n = num_style_layers`. */
  function SplitPoint(m: StyleContentModel, outputs: seq<Activation>): (k: nat)
    ensures k <= |outputs| && k <= |m.styleLayers|
    ensures k == |m.styleLayers| || k == |outputs|
  {
    Min(|m.styleLayers|, |outputs|)
  }

  /** `[gram_matrix(style_output) for style_output in style_outputs]` */
  function Grams(outputs: seq<Activation>): (gs: seq<Descriptor>)
    ensures |gs| == |outputs| && forall i :: 0 <= i < |outputs| ==> gs[i] == Gram(outputs[i])
  {
    seq(|outputs|, i requires 0 <= i < |outputs| => Gram(outputs[i]))
  }

  /** `call(inputs)`, returning `(content_dict, style_dict)` in the source's order. */
  function Call(m: StyleContentModel, inputs: Tensor): (r: (Dict<Activation>, Dict<Descriptor>))
    ensures forall k :: k in Keys(r.1) <==> k in m.styleLayers[..SplitPoint(m, Outputs(m, inputs))]
    ensures forall k :: k in Keys(r.0) <==>
      k in m.contentLayers[..Min(|m.contentLayers|, |Outputs(m, inputs)| - SplitPoint(m, Outputs(m, inputs)))]
  {
    var outputs := Outputs(m, inputs);
    var k := SplitPoint(m, outputs);
    var stylePairs := Zip(m.styleLayers, Grams(outputs[..k]));
    var contentPairs := Zip(m.contentLayers, outputs[k..]);
    assert Keys(stylePairs) == m.styleLayers[..k];
    assert Keys(contentPairs) == m.contentLayers[..Min(|m.contentLayers|, |outputs| - k)];
    (FromPairs(contentPairs), FromPairs(stylePairs))
  }

  /**
   * When the backbone yields at least one output per style layer and the style
   * layer names are distinct, the style dict holds, in layer order, the Gram
   * matrix of output i under `style_layers[i]`.
   */
  lemma CallStyle(m: StyleContentModel, inputs: Tensor)
    requires Distinct(m.styleLayers)
    requires |Outputs(m, inputs)| >= |m.styleLayers|
    ensures Keys(Call(m, inputs).1) == m.styleLayers
    ensures forall i :: 0 <= i < |m.styleLayers| ==> Call(m, inputs).1[i].1 == Gram(Outputs(m, inputs)[i])
  {
    var outputs := Outputs(m, inputs);
    var k := |m.styleLayers|;
    assert SplitPoint(m, outputs) == k;
    var pairs := Zip(m.styleLayers, Grams(outputs[..k]));
    assert Keys(pairs) == m.styleLayers;
    FromDistinctPairs(pairs);
  }

  /**
   * When the backbone yields exactly one output per requested layer and the
   * content layer names are distinct, the content dict holds, in layer order,
   * output `len(style_layers) + j` unchanged under `content_layers[j]`.
   */
  lemma CallContent(m: StyleContentModel, inputs: Tensor)
    requires Distinct(m.contentLayers)
    requires |Outputs(m, inputs)| == |m.styleLayers| + |m.contentLayers|
    ensures Keys(Call(m, inputs).0) == m.contentLayers
    ensures forall j :: 0 <= j < |m.contentLayers| ==>
      Call(m, inputs).0[j].1 == Outputs(m, inputs)[|m.styleLayers| + j]
  {
    var outputs := Outputs(m, inputs);
    var k := |m.styleLayers|;
    assert SplitPoint(m, outputs) == k;
    var pairs := Zip(m.contentLayers, outputs[k..]);
    assert Keys(pairs) == m.contentLayers;
    FromDistinctPairs(pairs);
  }

  /** A dict entry looked up by name under the same conditions. */
  lemma CallLookup(m: StyleContentModel, inputs: Tensor)
    requires Distinct(m.styleLayers) && Distinct(m.contentLayers)
    requires |Outputs(m, inputs)| == |m.styleLayers| + |m.contentLayers|
    ensures forall i :: 0 <= i < |m.styleLayers| ==>
      m.styleLayers[i] in Keys(Call(m, inputs).1) &&
      Get(Call(m, inputs).1, m.styleLayers[i]) == Gram(Outputs(m, inputs)[i])
    ensures forall j :: 0 <= j < |m.contentLayers| ==>
      m.contentLayers[j] in Keys(Call(m, inputs).0) &&
      Get(Call(m, inputs).0, m.contentLayers[j]) == Outputs(m, inputs)[|m.styleLayers| + j]
  {
    CallStyle(m, inputs);
    CallContent(m, inputs);
    var (content, style) := Call(m, inputs);
    forall i | 0 <= i < |m.styleLayers|
      ensures Get(style, m.styleLayers[i]) == Gram(Outputs(m, inputs)[i])
    {
      assert style[i].0 == m.styleLayers[i];
    }
    forall j | 0 <= j < |m.contentLayers|
      ensures Get(content, m.contentLayers[j]) == Outputs(m, inputs)[|m.styleLayers| + j]
    {
      assert content[j].0 == m.contentLayers[j];
    }
  }
}
