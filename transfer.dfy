/**
 * The `StyleTransfer` object: its targets, fixed at construction, and the
 * training loop that records both losses at every step, lets the optimizer
 * move the image and clips it back into [0, 1].
 */
module Transfer {
  import opened Wrappers
  import opened Dicts
  import opened Text
  import opened Kernels
  import opened GramMatrix
  import opened Losses
  import opened Extraction
  import opened Targets

  /** How `train` stops early: a loss that cannot be computed, or `style_losses[-1]` on an empty list. */
  datatype TrainError<E> = LossFailed(cause: E) | EmptyLossReport

  /** What `train` leaves behind: the final image it returns, both loss series and the snapshot paths. */
  datatype TrainLog<T> = TrainLog(image: T, styleLosses: seq<real>, contentLosses: seq<real>, imagePaths: seq<string>)

  /**
   * The state of training after a number of steps: the image, the images the
   * optimizer has consumed so far, both loss series, and the error that
   * stopped it, if any.
   */
  datatype Progress<T, E> = Progress(
    image: T,
    history: seq<T>,
    styleLosses: seq<real>,
    contentLosses: seq<real>,
    failure: Option<E>)

  /** `len(str(epochs - 1))` */
  function EpochWidth(epochs: int): nat {
    |IntToString(epochs - 1)|
  }

  /** `f"{epoch:0>{epoch_len}}"` */
  function EpochLabel(epoch: nat, width: int): string {
    PadZeros(IntToString(epoch), width)
  }

  /** What every snapshot path of a run starts with: `f"outputs/gif_output/Image{time_start}_"`. */
  function SnapshotPrefix(timeStart: int): string {
    "outputs/gif_output/Image" + IntToString(timeStart) + "_"
  }

  /** `f"outputs/gif_output/Image{time_start}_{epoch:0>{epoch_len}}.jpg"` */
  function SnapshotPath(timeStart: int, epoch: nat, width: int): string {
    SnapshotPrefix(timeStart) + EpochLabel(epoch, width) + ".jpg"
  }

  /** The paths of the snapshots taken at the start of the first `count` epochs, in order. */
  function SnapshotPaths(timeStart: int, count: nat, width: int): (ps: seq<string>)
    ensures |ps| == count
  {
    if count == 0 then [] else SnapshotPaths(timeStart, count - 1, width) + [SnapshotPath(timeStart, count - 1, width)]
  }

  /** Snapshot e of a run is the one taken at the start of epoch e. */
  lemma {:induction false} SnapshotPathsAt(timeStart: int, count: nat, width: int, e: nat)
    requires e < count
    ensures SnapshotPaths(timeStart, count, width)[e] == SnapshotPath(timeStart, e, width)
  {
    if e < count - 1 {
      SnapshotPathsAt(timeStart, count - 1, width, e);
    }
  }

  /** The snapshot list of a run is sorted by name, so a directory listing shows it in epoch order. */
  lemma SnapshotPathsSorted(timeStart: int, epochs: int, e: nat, f: nat)
    requires e < f < epochs
    ensures StrLess(SnapshotPaths(timeStart, epochs, EpochWidth(epochs))[e], SnapshotPaths(timeStart, epochs, EpochWidth(epochs))[f])
  {
    SnapshotPathsAt(timeStart, epochs, EpochWidth(epochs), e);
    SnapshotPathsAt(timeStart, epochs, EpochWidth(epochs), f);
    SnapshotPathOrder(timeStart, epochs, e, f);
  }

  /** Every label of a run is exactly as wide as the label of its last epoch. */
  lemma EpochLabelWidth(epochs: int, epoch: nat)
    requires epoch < epochs
    ensures |EpochLabel(epoch, EpochWidth(epochs))| == EpochWidth(epochs)
  {
    DecimalLengthMonotone(epoch, epochs - 1);
  }

  /** The label still reads back as the epoch number. */
  lemma EpochLabelParses(epoch: nat, width: int)
    ensures ParseInt(EpochLabel(epoch, width)) == Some(epoch)
  {
    ParsePadded(epoch, width);
  }

  /** Within one run, label order is epoch order, in both directions. */
  lemma EpochLabelOrder(epochs: int, a: nat, b: nat)
    requires a < epochs && b < epochs
    ensures a < b <==> StrLess(EpochLabel(a, EpochWidth(epochs)), EpochLabel(b, EpochWidth(epochs)))
  {
    var w := EpochWidth(epochs);
    var la, lb := EpochLabel(a, w), EpochLabel(b, w);
    EpochLabelWidth(epochs, a);
    EpochLabelWidth(epochs, b);
    LabelDigits(a, w);
    LabelDigits(b, w);
    if a < b {
      DigitsOrder(la, lb);
    } else if a == b {
      StrLessIrreflexive(la);
    } else {
      DigitsOrder(lb, la);
      StrLessAsymmetric(lb, la);
    }
  }

  lemma LabelDigits(epoch: nat, width: int)
    ensures AllDigits(EpochLabel(epoch, width)) && DigitsValue(EpochLabel(epoch, width)) == epoch
  {
    assert IntToString(epoch) == Decimal(epoch);
    PaddedDigits(epoch, width);
  }

  /** The snapshot files of one run sort by name in epoch order. */
  lemma SnapshotPathOrder(timeStart: int, epochs: int, a: nat, b: nat)
    requires a < b < epochs
    ensures StrLess(SnapshotPath(timeStart, a, EpochWidth(epochs)), SnapshotPath(timeStart, b, EpochWidth(epochs)))
  {
    var w := EpochWidth(epochs);
    EpochLabelOrder(epochs, a, b);
    EpochLabelWidth(epochs, a);
    EpochLabelWidth(epochs, b);
    StrLessBetween(SnapshotPrefix(timeStart), EpochLabel(a, w), EpochLabel(b, w), ".jpg");
  }

  /** The number of steps `train` means to take: `epochs * steps_per_epoch` when both are positive. */
  function PlannedSteps(epochs: int, stepsPerEpoch: int): nat {
    if epochs > 0 && stepsPerEpoch > 0 then epochs * stepsPerEpoch else 0
  }

  /** The steps taken before epoch `epoch` starts: `stepsPerEpoch` for each earlier epoch. */
  function StepsBefore(epoch: nat, stepsPerEpoch: nat): nat {
    if epoch == 0 then 0 else StepsBefore(epoch - 1, stepsPerEpoch) + stepsPerEpoch
  }

  /** Epochs run so far never exceed the plan, and all of them make up the plan. */
  lemma {:induction false} StepsBeforePlanned(epochs: int, stepsPerEpoch: nat, epoch: nat)
    requires epoch <= epochs && stepsPerEpoch > 0
    ensures StepsBefore(epoch, stepsPerEpoch) == epoch * stepsPerEpoch <= PlannedSteps(epochs, stepsPerEpoch)
  {
    if epoch > 0 {
      StepsBeforePlanned(epochs, stepsPerEpoch, epoch - 1);
    }
    MultiplyMonotone(epoch, epochs, stepsPerEpoch);
  }

  lemma MultiplyMonotone(a: int, b: int, c: int)
    requires a <= b && c >= 0
    ensures a * c <= b * c
  {
  }

  /** What one step reports for an image: `Ok((style_loss, content_loss))` or the error computing them. */
  type LossReport = Tensor -> Result<(real, real), LossError>

  /** The optimizer step: the new image given every image it has consumed, the current one last. */
  type Optimizer = seq<Tensor> -> Tensor

  /**
   * Training from `img`, with the optimizer having consumed `hist`, for `n`
   * steps: record the losses of the current image, hand it to the optimizer
   * and clip the result; after a failed step nothing changes any more. The
   * image type, the error type and the clipping are left open so that this
   * and the lemmas below speak only about the order of events.
   */
  function Steps<T, E>(losses: T -> Result<(real, real), E>, optimizer: seq<T> -> T, clip: T -> T,
                       img: T, hist: seq<T>, n: nat): Progress<T, E>
  {
    if n == 0 then Progress(img, hist, [], [], None)
    else
      var p := Steps(losses, optimizer, clip, img, hist, n - 1);
      if p.failure.Some? then p
      else
        match losses(p.image)
        case Err(e) => p.(failure := Some(e))
        case Ok(l) =>
          var visited := p.history + [p.image];
          Progress(clip(optimizer(visited)), visited, p.styleLosses + [l.0], p.contentLosses + [l.1], None)
  }

  /** Without a failure, n steps record n losses of each kind and feed n images to the optimizer. */
  lemma {:induction false} StepsCount<T, E>(losses: T -> Result<(real, real), E>, optimizer: seq<T> -> T, clip: T -> T,
                                            img: T, hist: seq<T>, n: nat)
    ensures var p := Steps(losses, optimizer, clip, img, hist, n);
      |p.styleLosses| == |p.contentLosses| && |p.history| == |hist| + |p.styleLosses| <= |hist| + n
      && (p.failure.None? ==> |p.styleLosses| == n) && p.history[..|hist|] == hist
  {
    if n > 0 {
      StepsCount(losses, optimizer, clip, img, hist, n - 1);
      var p := Steps(losses, optimizer, clip, img, hist, n - 1);
      assert (p.history + [p.image])[..|hist|] == p.history[..|hist|];
    }
  }

  /** Once a step has failed, further steps change nothing. */
  lemma {:induction false} StepsAfterFailure<T, E>(losses: T -> Result<(real, real), E>, optimizer: seq<T> -> T, clip: T -> T,
                                                   img: T, hist: seq<T>, n: nat, m: nat)
    requires n <= m && Steps(losses, optimizer, clip, img, hist, n).failure.Some?
    ensures Steps(losses, optimizer, clip, img, hist, m) == Steps(losses, optimizer, clip, img, hist, n)
  {
    if m > n {
      StepsAfterFailure(losses, optimizer, clip, img, hist, n, m - 1);
    }
  }

  /** A step whose losses cannot be computed records the error and moves nothing, now and later. */
  lemma StepsFailAt<T, E>(losses: T -> Result<(real, real), E>, optimizer: seq<T> -> T, clip: T -> T,
                          img: T, hist: seq<T>, n: nat, m: nat, e: E)
    requires n < m && Steps(losses, optimizer, clip, img, hist, n).failure.None?
    requires losses(Steps(losses, optimizer, clip, img, hist, n).image) == Err(e)
    ensures Steps(losses, optimizer, clip, img, hist, m) == Steps(losses, optimizer, clip, img, hist, n).(failure := Some(e))
  {
    StepsAfterFailure(losses, optimizer, clip, img, hist, n + 1, m);
  }

  /** Without a step taken nothing has moved. */
  lemma {:induction false} StepsNoProgress<T, E>(losses: T -> Result<(real, real), E>, optimizer: seq<T> -> T, clip: T -> T,
                                                 img: T, hist: seq<T>, n: nat)
    requires |Steps(losses, optimizer, clip, img, hist, n).history| == |hist|
    ensures Steps(losses, optimizer, clip, img, hist, n).image == img
  {
    if n > 0 {
      StepsCount(losses, optimizer, clip, img, hist, n - 1);
      StepsNoProgress(losses, optimizer, clip, img, hist, n - 1);
    }
  }

  /** After at least one step the current image is the clipped optimizer output for the images consumed. */
  lemma {:induction false} StepsCurrentImage<T, E>(losses: T -> Result<(real, real), E>, optimizer: seq<T> -> T, clip: T -> T,
                                                   img: T, hist: seq<T>, n: nat)
    requires |Steps(losses, optimizer, clip, img, hist, n).history| > |hist|
    ensures var p := Steps(losses, optimizer, clip, img, hist, n); p.image == clip(optimizer(p.history))
  {
    var p := Steps(losses, optimizer, clip, img, hist, n - 1);
    if p.failure.Some? || losses(p.image).Err? {
      StepsCurrentImage(losses, optimizer, clip, img, hist, n - 1);
    }
  }

  /**
   * Step k records the losses of the k-th image handed to the optimizer; the
   * first such image is the starting one, and each later one is the clipped
   * optimizer output for the images before it.
   */
  lemma {:induction false} StepsTrajectory<T, E>(losses: T -> Result<(real, real), E>, optimizer: seq<T> -> T, clip: T -> T,
                                                 img: T, hist: seq<T>, n: nat, k: nat)
    requires k < |Steps(losses, optimizer, clip, img, hist, n).styleLosses|
    ensures var p := Steps(losses, optimizer, clip, img, hist, n);
      |p.history| == |hist| + |p.styleLosses| && |p.contentLosses| == |p.styleLosses|
      && losses(p.history[|hist| + k]) == Ok((p.styleLosses[k], p.contentLosses[k]))
      && p.history[|hist| + k] == (if k == 0 then img else clip(optimizer(p.history[..|hist| + k])))
  {
    StepsCount(losses, optimizer, clip, img, hist, n);
    StepsCount(losses, optimizer, clip, img, hist, n - 1);
    var p := Steps(losses, optimizer, clip, img, hist, n - 1);
    if k < |p.styleLosses| {
      StepsTrajectory(losses, optimizer, clip, img, hist, n - 1, k);
      var visited := p.history + [p.image];
      assert visited[|hist| + k] == p.history[|hist| + k];
      assert visited[..|hist| + k] == p.history[..|hist| + k];
    } else if k == 0 {
      StepsNoProgress(losses, optimizer, clip, img, hist, n - 1);
    } else {
      StepsCurrentImage(losses, optimizer, clip, img, hist, n - 1);
    }
  }

  /** With `clip_0_1` as the clipping, every image the optimizer has produced lies in [0, 1]. */
  lemma StepsInUnitRange<E>(losses: Tensor -> Result<(real, real), E>, optimizer: seq<Tensor> -> Tensor,
                            img: Tensor, hist: seq<Tensor>, n: nat, k: nat)
    requires 0 < k < |Steps(losses, optimizer, Clip01, img, hist, n).styleLosses|
    ensures |Steps(losses, optimizer, Clip01, img, hist, n).history| == |hist| + |Steps(losses, optimizer, Clip01, img, hist, n).styleLosses|
    ensures InUnitRange(Steps(losses, optimizer, Clip01, img, hist, n).history[|hist| + k])
  {
    StepsTrajectory(losses, optimizer, Clip01, img, hist, n, k);
  }

  /**
   * The inner loop of `train`: `count` steps from `image`, the optimizer
   * having consumed `history`, each recording the losses, applying the
   * optimizer and clipping; a step whose losses cannot be computed stops it
   * where it is. The result is where `Steps` says the run continues.
   */
  method RunSteps<T, E>(losses: T -> Result<(real, real), E>, optimizer: seq<T> -> T, clip: T -> T, count: int,
                        ghost img0: T, ghost hist0: seq<T>, ghost done: nat,
                        image: T, history: seq<T>, styleLosses: seq<real>, contentLosses: seq<real>)
    returns (img: T, hist: seq<T>, styleOut: seq<real>, contentOut: seq<real>, failure: Option<E>)
    requires Steps(losses, optimizer, clip, img0, hist0, done) == Progress(image, history, styleLosses, contentLosses, None)
    ensures var q := Steps(losses, optimizer, clip, img0, hist0, done + (if count > 0 then count else 0));
      img == q.image && hist == q.history && failure == q.failure
      && (failure.None? ==> styleOut == q.styleLosses && contentOut == q.contentLosses)
  {
    styleOut, contentOut := styleLosses, contentLosses;
    ghost var n := if count > 0 then count else 0;
    img, hist := image, history;
    var step := 0;
    while step < count
      invariant 0 <= step <= n
      invariant Steps(losses, optimizer, clip, img0, hist0, done + step) == Progress(img, hist, styleOut, contentOut, None)
    {
      var l := losses(img);
      if l.Err? {
        StepsFailAt(losses, optimizer, clip, img0, hist0, done + step, done + n, l.error);
        return img, hist, styleOut, contentOut, Some(l.error);
      }
      styleOut := styleOut + [l.value.0];
      contentOut := contentOut + [l.value.1];
      hist := hist + [img];
      img := clip(optimizer(hist));
      step := step + 1;
    }
    assert step == n;
    failure := None;
  }

  /**
   * What `train` reports once the run has reached `q`: an empty loss report
   * when epochs are asked for without steps, the first loss error, or both
   * loss series and, with `visuals`, one snapshot path per epoch.
   */
  ghost predicate TrainOutcome<T, E>(q: Progress<T, E>, epochs: int, stepsPerEpoch: int, visuals: bool, timeStart: int,
                                     r: Result<TrainLog<T>, TrainError<E>>)
  {
    if epochs > 0 && stepsPerEpoch <= 0 then r == Err(EmptyLossReport)
    else if q.failure.Some? then r == Err(LossFailed(q.failure.value))
    else
      r.Ok? && r.value.image == q.image
      && r.value.styleLosses == q.styleLosses && r.value.contentLosses == q.contentLosses
      && |q.styleLosses| == |q.contentLosses| == PlannedSteps(epochs, stepsPerEpoch)
      && r.value.imagePaths == (if visuals && epochs > 0 then SnapshotPaths(timeStart, epochs, EpochWidth(epochs)) else [])
  }

  /**
   * The loop of `train`: `epochs` rounds of `stepsPerEpoch` steps, noting a
   * snapshot path at the start of each round when `visuals` is set. The image
   * and the optimizer end where `PlannedSteps` steps leave them, or where the
   * first failing step stopped them.
   */
  method RunEpochs<T, E>(losses: T -> Result<(real, real), E>, optimizer: seq<T> -> T, clip: T -> T,
                         epochs: nat, stepsPerEpoch: nat, visuals: bool, timeStart: int, image: T, history: seq<T>)
    returns (img: T, hist: seq<T>, styleLosses: seq<real>, contentLosses: seq<real>, imagePaths: seq<string>,
             failure: Option<E>)
    requires stepsPerEpoch > 0
    ensures var q := Steps(losses, optimizer, clip, image, history, PlannedSteps(epochs, stepsPerEpoch));
      img == q.image && hist == q.history && failure == q.failure
      && (failure.None? ==> styleLosses == q.styleLosses && contentLosses == q.contentLosses)
    ensures failure.None? ==>
      imagePaths == (if visuals && epochs > 0 then SnapshotPaths(timeStart, epochs, EpochWidth(epochs)) else [])
  {
    ghost var total := PlannedSteps(epochs, stepsPerEpoch);
    styleLosses, contentLosses, imagePaths := [], [], [];
    var epochLen := EpochWidth(epochs);
    img, hist := image, history;
    ghost var done: nat := 0;
    var epoch := 0;
    while epoch < epochs
      invariant epoch <= epochs
      invariant done == StepsBefore(epoch, stepsPerEpoch) <= total
      invariant Steps(losses, optimizer, clip, image, history, done) == Progress(img, hist, styleLosses, contentLosses, None)
      invariant imagePaths == if visuals then SnapshotPaths(timeStart, epoch, epochLen) else []
    {
      if visuals {
        imagePaths := imagePaths + [SnapshotPath(timeStart, epoch, epochLen)];
      }
      img, hist, styleLosses, contentLosses, failure :=
        RunSteps(losses, optimizer, clip, stepsPerEpoch, image, history, done, img, hist, styleLosses, contentLosses);
      StepsBeforePlanned(epochs, stepsPerEpoch, epoch + 1);
      done := done + stepsPerEpoch;
      if failure.Some? {
        StepsAfterFailure(losses, optimizer, clip, image, history, done, total);
        return;
      }
      epoch := epoch + 1;
    }
    StepsBeforePlanned(epochs, stepsPerEpoch, epochs);
    failure := None;
  }

  /**
   * `train` with its losses, optimizer and clipping as parameters: an empty
   * loss report when epochs are asked for without steps (the first
   * `style_losses[-1]` finds the list empty), otherwise the outcome of the
   * epochs that `RunEpochs` runs.
   */
  method RunTraining<T, E>(losses: T -> Result<(real, real), E>, optimizer: seq<T> -> T, clip: T -> T,
                           epochs: int, stepsPerEpoch: int, visuals: bool, timeStart: int, image: T, history: seq<T>)
    returns (img: T, hist: seq<T>, r: Result<TrainLog<T>, TrainError<E>>)
    ensures var q := Steps(losses, optimizer, clip, image, history, PlannedSteps(epochs, stepsPerEpoch));
      img == q.image && hist == q.history && TrainOutcome(q, epochs, stepsPerEpoch, visuals, timeStart, r)
    ensures |hist| > |history| ==> img == clip(optimizer(hist))
  {
    ghost var total := PlannedSteps(epochs, stepsPerEpoch);
    if epochs <= 0 {
      // `range(epochs)` is empty
      return image, history, Ok(TrainLog(image, [], [], []));
    }
    if stepsPerEpoch <= 0 {
      return image, history, Err(EmptyLossReport);
    }
    var styleLosses, contentLosses, imagePaths, failure;
    img, hist, styleLosses, contentLosses, imagePaths, failure :=
      RunEpochs(losses, optimizer, clip, epochs, stepsPerEpoch, visuals, timeStart, image, history);
    StepsCount(losses, optimizer, clip, image, history, total);
    if |hist| > |history| {
      StepsCurrentImage(losses, optimizer, clip, image, history, total);
    }
    if failure.Some? {
      return img, hist, Err(LossFailed(failure.value));
    }
    r := Ok(TrainLog(img, styleLosses, contentLosses, imagePaths));
  }

  /** What the losses of a step depend on: the extractor, both target dicts and both weights. */
  datatype Objective = Objective(
    extractor: StyleContentModel,
    styleTargets: Dict<Tensor>,
    contentTargets: Dict<Tensor>,
    styleWeight: real,
    contentWeight: real)

  /** `style_loss(style_outputs)` */
  function StyleLoss(o: Objective, styleOutputs: Dict<Descriptor>): Result<real, LossError> {
    CalculateLoss(MapValues(styleOutputs, GramElements), o.styleTargets, o.styleWeight)
  }

  /** `content_loss(content_outputs)` */
  function ContentLoss(o: Objective, contentOutputs: Dict<Activation>): Result<real, LossError> {
    CalculateLoss(MapValues(contentOutputs, (x: Activation) => Elements(x)), o.contentTargets, o.contentWeight)
  }

  /** The `(style_loss, content_loss)` that `train_step` reports for an image; the content loss is computed first. */
  function StepLosses(o: Objective, img: Tensor): (r: Result<(real, real), LossError>)
    ensures r.Ok? <==> ContentLoss(o, Call(o.extractor, img).0).Ok? && StyleLoss(o, Call(o.extractor, img).1).Ok?
    ensures r.Ok? ==> r.value == (StyleLoss(o, Call(o.extractor, img).1).value, ContentLoss(o, Call(o.extractor, img).0).value)
    ensures ContentLoss(o, Call(o.extractor, img).0).Err? ==> r == Err(ContentLoss(o, Call(o.extractor, img).0).error)
  {
    var (contentOutputs, styleOutputs) := Call(o.extractor, img);
    match ContentLoss(o, contentOutputs)
    case Err(e) => Err(e)
    case Ok(contentLoss) =>
      match StyleLoss(o, styleOutputs)
      case Err(e) => Err(e)
      case Ok(styleLoss) => Ok((styleLoss, contentLoss))
  }

  /** With non-negative weights both reported losses are non-negative. */
  lemma StepLossesNonNegative(o: Objective, img: Tensor)
    requires o.styleWeight >= 0.0 && o.contentWeight >= 0.0
    requires StepLosses(o, img).Ok?
    ensures StepLosses(o, img).value.0 >= 0.0 && StepLosses(o, img).value.1 >= 0.0
  {
    var (contentOutputs, styleOutputs) := Call(o.extractor, img);
    CalculateLossNonNegative(MapValues(contentOutputs, (x: Activation) => Elements(x)), o.contentTargets, o.contentWeight);
    CalculateLossNonNegative(MapValues(styleOutputs, GramElements), o.styleTargets, o.styleWeight);
  }

  /**
   * The content targets are the content image's own content outputs, so the
   * content image has zero content loss (when every content output has an element).
   */
  lemma ContentLossAtContentImage(m: StyleContentModel, contentImage: Tensor, styleTargets: Dict<Tensor>,
                                  styleWeight: real, contentWeight: real)
    requires Call(m, contentImage).0 != []
    requires forall i :: 0 <= i < |Call(m, contentImage).0| ==> |Elements(Call(m, contentImage).0[i].1)| > 0
    ensures var contentTargets := MapValues(Call(m, contentImage).0, (x: Activation) => Elements(x));
      ContentLoss(Objective(m, styleTargets, contentTargets, styleWeight, contentWeight), Call(m, contentImage).0)
      == Ok(0.0)
  {
    var c := Call(m, contentImage).0;
    var t := MapValues(c, (x: Activation) => Elements(x));
    assert forall i :: 0 <= i < |t| ==> t[i].1 == Elements(c[i].1);
    ZeroLossAgainstItself(t, contentWeight);
  }

  /**
   * With a single style image the style targets are that image's own Gram
   * matrices, so the style image has zero style loss (when every style layer
   * yields an output whose Gram matrix has an element).
   */
  lemma StyleLossAtStyleImage(m: StyleContentModel, styleImage: Tensor, contentTargets: Dict<Tensor>,
                              styleWeight: real, contentWeight: real)
    requires Distinct(m.styleLayers) && m.styleLayers != []
    requires |Outputs(m, styleImage)| >= |m.styleLayers|
    requires forall i :: 0 <= i < |m.styleLayers| ==> |GramElements(Gram(Outputs(m, styleImage)[i]))| > 0
    ensures AverageTargets(Accumulated(m, [styleImage])).Some?
    ensures var styleTargets := AverageTargets(Accumulated(m, [styleImage])).value;
      StyleLoss(Objective(m, styleTargets, contentTargets, styleWeight, contentWeight), Call(m, styleImage).1)
      == Ok(0.0)
  {
    var targets := SingleImageStyleOutputs(m, styleImage);
    ZeroLossAgainstItself(targets, styleWeight);
  }

  /** The style image's own flattened Gram matrices are the averaged targets of that one image. */
  lemma SingleImageStyleOutputs(m: StyleContentModel, styleImage: Tensor) returns (targets: Dict<Tensor>)
    requires Distinct(m.styleLayers)
    requires |Outputs(m, styleImage)| >= |m.styleLayers|
    ensures AverageTargets(Accumulated(m, [styleImage])).Some?
    ensures targets == AverageTargets(Accumulated(m, [styleImage])).value
    ensures targets == MapValues(Call(m, styleImage).1, GramElements)
    ensures |targets| == |m.styleLayers|
    ensures forall i :: 0 <= i < |targets| ==> targets[i].1 == GramElements(Gram(Outputs(m, styleImage)[i]))
  {
    SingleImageTargets(m, [styleImage]);
    CallStyle(m, styleImage);
    targets := AverageTargets(Accumulated(m, [styleImage])).value;
    var style := Call(m, styleImage).1;
    var outputs := MapValues(style, GramElements);
    assert [styleImage][0] == styleImage;
    forall i | 0 <= i < |outputs| && i < |targets| ensures outputs[i].1 == targets[i].1 {
      assert outputs[i].1 == GramElements(style[i].1);
    }
    SameEntries(outputs, targets);
  }

  /** `train_step` as the training loop sees it. */
  function Report(o: Objective): LossReport {
    img => StepLosses(o, img)
  }

  class StyleTransfer {
    const extractor: StyleContentModel
    /** `avg_gram` of the accumulated Gram lists, flattened per layer. */
    const styleTargets: Dict<Tensor>
    /** The content image's content outputs, flattened per layer. */
    const contentTargets: Dict<Tensor>
    const styleWeight: real
    const contentWeight: real
    const totalVariationWeight: real
    /**
     * One Adam step (gradient of the total loss included): the new image,
     * given every image whose gradient the optimizer has consumed, the
     * current one last. Adam's moments and step count depend on nothing else.
     */
    const optimizer: Optimizer
    /** The losses `train_step` reports; fixed by the attributes above (see `Valid`). */
    const trainStep: LossReport

    var image: Tensor
    /** The optimizer's state, as the images it has been applied to, in order. */
    var history: seq<Tensor>

    /** `train_step` computes its losses from the extractor, the targets and the weights. */
    ghost predicate Valid() {
      trainStep == Report(Objective(extractor, styleTargets, contentTargets, styleWeight, contentWeight))
    }

    constructor(
      backbone: Tensor -> seq<Activation>,
      styleLayers: seq<string>,
      contentLayers: seq<string>,
      styleImages: seq<Tensor>,
      contentImage: Tensor,
      optimizer: Optimizer,
      styleWeight: real := 0.01,
      contentWeight: real := 10000.0,
      totalVariationWeight: real := 100.0)
      requires AverageTargets(Accumulated(StyleContentModel(backbone, styleLayers, contentLayers), styleImages)).Some?
      ensures Valid()
      ensures extractor == StyleContentModel(backbone, styleLayers, contentLayers)
      ensures styleTargets == AverageTargets(Accumulated(extractor, styleImages)).value
      ensures contentTargets == MapValues(Call(extractor, contentImage).0, (x: Activation) => Elements(x))
      ensures image == contentImage && history == []
      ensures this.styleWeight == styleWeight && this.contentWeight == contentWeight
      ensures this.totalVariationWeight == totalVariationWeight && this.optimizer == optimizer
    {
      var m := StyleContentModel(backbone, styleLayers, contentLayers);
      var lists := AccumulateStyleTargets(m, styleImages);
      var averaged := AverageTargets(lists).value;
      var content := MapValues(Call(m, contentImage).0, (x: Activation) => Elements(x));
      extractor := m;
      this.styleTargets := averaged;
      this.contentTargets := content;
      this.styleWeight := styleWeight;
      this.contentWeight := contentWeight;
      this.totalVariationWeight := totalVariationWeight;
      this.optimizer := optimizer;
      trainStep := Report(Objective(m, averaged, content, styleWeight, contentWeight));
      image := contentImage;
      history := [];
    }

    /**
     * `train(epochs=60, steps_per_epoch=25, visuals=False)`, with `time_start` given: the
     * loop of `RunTraining` on this object's image and optimizer state, whose
     * fields end where the loop leaves them.
     */
    method Train(timeStart: int, epochs: int := 60, stepsPerEpoch: int := 25, visuals: bool := false)
      returns (r: Result<TrainLog<Tensor>, TrainError<LossError>>)
      requires Valid()
      modifies this
      ensures Valid()
      ensures var q := Steps(trainStep, optimizer, Clip01, old(image), old(history), PlannedSteps(epochs, stepsPerEpoch));
        image == q.image && history == q.history && TrainOutcome(q, epochs, stepsPerEpoch, visuals, timeStart, r)
      ensures |history| > |old(history)| ==> InUnitRange(image)
    {
      var img, hist;
      img, hist, r := RunTraining(trainStep, optimizer, Clip01, epochs, stepsPerEpoch, visuals, timeStart, image, history);
      image, history := img, hist;
    }
  }
}
