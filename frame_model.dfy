/** The renderer's frame state machine as values.

    `RendererState` holds the fields of `Renderer` that its methods read and write;
    each function below is one method of `Renderer`, taking the old state and the
    outcomes of the graphics-library calls it makes, and giving the new state, how
    the call ended and the draws it issued. The class in module `Renderer` is proved
    to behave exactly like these functions; the lemmas here state what the frame
    loop promises across one or several calls. */
module FrameModel {
  import opened Gpu
  import opened SceneTargets

  datatype RendererState = RendererState(
    swapchain: SwapchainHandle,
    finalImages: seq<SwapchainView>,
    sceneImages: seq<SceneImage>,
    imageNum: nat,
    sceneViewSize: Extent,
    recreateSwapchain: bool,
    previousFrameEnd: Option<Future>)

  /** The fatal aborts of a frame: `panic!`, `expect`, `unwrap` and out-of-bounds indexing. */
  datatype Panic =
    | AcquireFailure(code: nat)               // any acquisition error but out-of-date
    | RecreateFailure(code: nat)              // any rebuild error but unsupported dimensions
    | SceneImageOutOfBounds(index: nat)       // `scene_images[image_num]`
    | ScenePassUnfinished                     // no `Finished` pass, so `after_future.unwrap()`
    | SceneFlushFailure(outcome: FlushOutcome) // the scene pass could not be flushed
    | PreviousFrameEndMissing                 // `previous_frame_end.take().unwrap()`
    | FinalImageOutOfBounds(index: nat)       // `final_images[image_num]`

  /** How a call ended: it ran to its end, it returned early because the swapchain
      is out of date, or the process aborted. */
  datatype Exit = Done | Skipped | Aborted(panic: Panic)

  /** Draw work the renderer hands to its collaborators. */
  datatype Effect =
    | SceneDraw(slot: nat, viewport: Extent, wait: Future)
                                                    // scene commands for `scene_images[slot]`, in a
                                                    // frame that starts from the future `wait`
    | UiDraw(wait: Future, target: SwapchainView)   // the UI overlay drawn onto a swapchain image

  /** The replies of the graphics library during one `render` call. */
  datatype FrameOutcomes = FrameOutcomes(
    rebuild: RecreateOutcome,
    acquire: AcquireOutcome,
    passes: seq<Pass>,
    sceneFlush: FlushOutcome,
    presentFlush: FlushOutcome)

  /** State after a call, how it ended, and the draws it issued in order. */
  datatype Step = Step(state: RendererState, exit: Exit, effects: seq<Effect>)

  /** `resize`. */
  function Resize(s: RendererState): RendererState {
    s.(recreateSwapchain := true)
  }

  /** `resize` called `n` times in a row. */
  function ResizeTimes(s: RendererState, n: nat): RendererState
    decreases n
  {
    if n == 0 then s else Resize(ResizeTimes(s, n - 1))
  }

  /** `recreate_swapchain`: swap in the rebuilt images and clear the flag, or keep
      everything when the dimensions are unsupported. The scene images stay. */
  function RecreateSwapchain(s: RendererState, rebuild: RecreateOutcome): Step {
    match rebuild
    case Rebuilt(swapchain, images) =>
      Step(s.(swapchain := swapchain, finalImages := ViewsOf(images), recreateSwapchain := false), Done, [])
    case UnsupportedDimensions => Step(s, Done, [])
    case RecreateFailed(code) => Step(s, Aborted(RecreateFailure(code)), [])
  }

  /** `resize_scene_view`: new scene resolution, scene images rebuilt for the current
      swapchain images. */
  function ResizeSceneView(s: RendererState, newSize: Extent): RendererState {
    s.(sceneViewSize := newSize, sceneImages := SceneImagesFor(s.finalImages, newSize))
  }

  /** `finish`: present and flush; keep the flushed future, or start again from a
      fresh `Now` when the flush fails. */
  function Finish(s: RendererState, after: Future, imageNum: nat, flush: FlushOutcome): RendererState {
    match flush
    case Flushed => s.(previousFrameEnd := Some(PresentFlushed(after, s.swapchain, imageNum)))
    case FlushOutOfDate => s.(recreateSwapchain := true, previousFrameEnd := Some(Now))
    case FlushFailed(_) => s.(previousFrameEnd := Some(Now))
  }

  /** The scene draws issued while draining `passes`: one per `Deferred` pass, in a
      frame started from a fresh `Now` rather than from the carried future. */
  function SceneDraws(passes: seq<Pass>, target: nat, viewport: Extent): seq<Effect>
    decreases |passes|
  {
    if passes == [] then []
    else
      SceneDraws(passes[..|passes| - 1], target, viewport) +
      (if passes[|passes| - 1].Deferred? then [SceneDraw(target, viewport, Now)] else [])
  }

  /** The future of the last `Finished` pass, if any (each one overwrites `after_future`). */
  function LastFinished(passes: seq<Pass>): Option<Future>
    decreases |passes|
  {
    if passes == [] then None
    else if passes[|passes| - 1].Finished? then Some(passes[|passes| - 1].after)
    else LastFinished(passes[..|passes| - 1])
  }

  /** `render_scene`: drain the passes of a frame bound to `scene_images[image_num]`,
      then flush the scene pass. The state is not changed. */
  function RenderScene(s: RendererState, passes: seq<Pass>, sceneFlush: FlushOutcome): Step {
    if s.imageNum >= |s.sceneImages| then Step(s, Aborted(SceneImageOutOfBounds(s.imageNum)), [])
    else
      var draws := SceneDraws(passes, s.imageNum, s.sceneViewSize);
      if LastFinished(passes).None? then Step(s, Aborted(ScenePassUnfinished), draws)
      else if sceneFlush.Flushed? then Step(s, Done, draws)
      else Step(s, Aborted(SceneFlushFailure(sceneFlush)), draws)
  }

  /** The start of `render`: recreate the swapchain when the flag is set. */
  function Prepare(s: RendererState, rebuild: RecreateOutcome): Step {
    if s.recreateSwapchain then RecreateSwapchain(s, rebuild) else Step(s, Done, [])
  }

  /** `render`: recreate if flagged, acquire, draw the scene, draw the UI over the
      joined carried and acquisition futures, and finish. */
  function Render(s: RendererState, o: FrameOutcomes): Step {
    var r := Prepare(s, o.rebuild);
    if r.exit.Aborted? then r
    else
      var s1 := r.state;
      match o.acquire
      case AcquireOutOfDate => Step(s1.(recreateSwapchain := true), Skipped, [])
      case AcquireFailed(code) => Step(s1, Aborted(AcquireFailure(code)), [])
      case Acquired(index, suboptimal) =>
        var s2 := s1.(recreateSwapchain := s1.recreateSwapchain || suboptimal, imageNum := index);
        var scene := RenderScene(s2, o.passes, o.sceneFlush);
        if scene.exit.Aborted? then scene
        else if s2.previousFrameEnd.None? then Step(s2, Aborted(PreviousFrameEndMissing), scene.effects)
        else
          var wait := Join(s2.previousFrameEnd.value, AcquireReady(s2.swapchain, index));
          var s3 := s2.(previousFrameEnd := None);
          if index >= |s3.finalImages| then Step(s3, Aborted(FinalImageOutOfBounds(index)), scene.effects)
          else
            var target := s3.finalImages[index];
            Step(Finish(s3, UiDrawn(wait, target), index, o.presentFlush), Done,
                 scene.effects + [UiDraw(wait, target)])
  }

  // ---------------------------------------------------------------------------
  // Resize

  /** Several resize notifications before the next render act like one. */
  lemma {:induction false} RepeatedResizeIsOne(s: RendererState, n: nat)
    requires n >= 1
    ensures ResizeTimes(s, n) == Resize(s)
    decreases n
  {
    if n > 1 {
      RepeatedResizeIsOne(s, n - 1);
    }
  }

  // ---------------------------------------------------------------------------
  // Recreation

  /** When the rebuild reports unsupported dimensions nothing about the swapchain
      changes and the flag stays set, so the next render tries again. The frame is
      not skipped for it: render goes on to acquire from the old swapchain. */
  lemma UnsupportedDimensionsRetries(s: RendererState, o: FrameOutcomes)
    requires s.recreateSwapchain && o.rebuild == UnsupportedDimensions
    ensures Prepare(s, o.rebuild) == Step(s, Done, [])
    ensures Render(s, o).state.recreateSwapchain
    ensures Render(s, o).state.swapchain == s.swapchain
    ensures Render(s, o).state.finalImages == s.finalImages
    ensures Render(s, o).state.sceneImages == s.sceneImages
    ensures o.acquire.Acquired? ==> Render(s, o).exit != Skipped
  {
  }

  /** No call of `render` rebuilds the scene images, not even one that recreates the
      swapchain with a different number of images. */
  lemma RenderKeepsSceneImages(s: RendererState, o: FrameOutcomes)
    ensures Render(s, o).state.sceneImages == s.sceneImages
    ensures Render(s, o).state.sceneViewSize == s.sceneViewSize
  {
  }

  /** A recreation that yields more images than there are scene images makes any
      acquired index past the scene images abort the frame at `scene_images[image_num]`. */
  lemma GrownSwapchainOverrunsSceneImages(s: RendererState, o: FrameOutcomes)
    requires s.recreateSwapchain && o.rebuild.Rebuilt?
    requires o.acquire.Acquired? && |s.sceneImages| <= o.acquire.index < |o.rebuild.images|
    ensures Render(s, o).exit == Aborted(SceneImageOutOfBounds(o.acquire.index))
    ensures Render(s, o).effects == []
  {
  }

  // ---------------------------------------------------------------------------
  // Acquisition

  /** An out-of-date acquisition marks the swapchain for recreation and returns
      without drawing; the frame counter, the carried future and the scene images
      are untouched. Without a pending recreation it acts exactly like `resize`. */
  lemma OutOfDateAcquireSkipsFrame(s: RendererState, o: FrameOutcomes)
    requires o.acquire == AcquireOutOfDate
    requires !(s.recreateSwapchain && o.rebuild.RecreateFailed?)
    ensures Render(s, o).exit == Skipped && Render(s, o).effects == []
    ensures Render(s, o).state.recreateSwapchain
    ensures Render(s, o).state.imageNum == s.imageNum
    ensures Render(s, o).state.previousFrameEnd == s.previousFrameEnd
    ensures Render(s, o).state.sceneImages == s.sceneImages
    ensures !s.recreateSwapchain ==> Render(s, o).state == Resize(s)
  {
  }

  /** A suboptimal image is still drawn into: the flag is set for the next frame,
      the acquired index becomes `image_num`, and the frame is not skipped; it runs
      to the end whenever the scene pass and the indices allow. */
  lemma SuboptimalFrameProceeds(s: RendererState, o: FrameOutcomes)
    requires o.acquire.Acquired? && o.acquire.suboptimal
    requires !(s.recreateSwapchain && o.rebuild.RecreateFailed?)
    ensures Render(s, o).exit != Skipped
    ensures Render(s, o).state.recreateSwapchain
    ensures Render(s, o).state.imageNum == o.acquire.index
    ensures s.previousFrameEnd.Some? && o.acquire.index < |Prepare(s, o.rebuild).state.finalImages| &&
            o.acquire.index < |s.sceneImages| && LastFinished(o.passes).Some? && o.sceneFlush == Flushed
            ==> Render(s, o).exit == Done
  {
  }

  // ---------------------------------------------------------------------------
  // The carried future

  /** `finish` always leaves one carried future: the flushed present, or a fresh
      `Now` on any flush error; only an out-of-date flush sets the flag, and no
      other field changes. */
  lemma FinishCarriesOneFuture(s: RendererState, after: Future, imageNum: nat, flush: FlushOutcome)
    ensures Finish(s, after, imageNum, flush).previousFrameEnd ==
      if flush.Flushed? then Some(PresentFlushed(after, s.swapchain, imageNum)) else Some(Now)
    ensures Finish(s, after, imageNum, flush).recreateSwapchain == (s.recreateSwapchain || flush.FlushOutOfDate?)
    ensures Finish(s, after, imageNum, flush).(previousFrameEnd := s.previousFrameEnd,
                                              recreateSwapchain := s.recreateSwapchain) == s
  {
  }

  /** With a carried future in place, `render` never fails to take it, and it leaves
      one in place again unless it aborts at `final_images[image_num]`, between the
      `take` and `finish`. */
  lemma RenderKeepsCarriedFuture(s: RendererState, o: FrameOutcomes)
    requires s.previousFrameEnd.Some?
    ensures Render(s, o).exit != Aborted(PreviousFrameEndMissing)
    ensures Render(s, o).state.previousFrameEnd.Some? <==>
      !(Render(s, o).exit.Aborted? && Render(s, o).exit.panic.FinalImageOutOfBounds?)
  {
  }

  /** A frame that runs to the end acquired an index that fits both image lists,
      issued its scene draws and then one UI draw waiting on the carried future
      joined with the acquisition, and carries forward the present of that UI draw
      (or a fresh `Now` when the flush failed). */
  lemma RenderThreadsCarriedFuture(s: RendererState, o: FrameOutcomes)
    requires Render(s, o).exit == Done
    ensures s.previousFrameEnd.Some? && o.acquire.Acquired?
    ensures Prepare(s, o.rebuild).exit == Done
    ensures
      var p, index := Prepare(s, o.rebuild).state, o.acquire.index;
      var wait := Join(s.previousFrameEnd.value, AcquireReady(p.swapchain, index));
      var r := Render(s, o);
      index < |p.finalImages| && index < |p.sceneImages| &&
      r.effects == SceneDraws(o.passes, index, p.sceneViewSize) + [UiDraw(wait, p.finalImages[index])] &&
      r.state.imageNum == index &&
      r.state.finalImages == p.finalImages &&
      r.state.previousFrameEnd ==
        (if o.presentFlush.Flushed? then Some(PresentFlushed(UiDrawn(wait, p.finalImages[index]), p.swapchain, index))
         else Some(Now))
  {
  }

  /** Over two frames that run to the end, the future the second frame waits on is
      exactly the present-and-flush future the first frame left behind. */
  lemma TwoFramesThreadOneFuture(s: RendererState, o1: FrameOutcomes, o2: FrameOutcomes)
    requires Render(s, o1).exit == Done && o1.presentFlush == Flushed
    requires Render(Render(s, o1).state, o2).exit == Done
    ensures
      var carried := Render(s, o1).state.previousFrameEnd;
      var effects := Render(Render(s, o1).state, o2).effects;
      carried.Some? && carried.value.PresentFlushed? &&
      |effects| > 0 && effects[|effects| - 1].UiDraw? &&
      effects[|effects| - 1].wait.Join? && effects[|effects| - 1].wait.first == carried.value
  {
    RenderThreadsCarriedFuture(s, o1);
    RenderThreadsCarriedFuture(Render(s, o1).state, o2);
  }

  /** A frame whose acquisition is out of date draws nothing; the next frame
      recreates the swapchain and draws into the new images, waiting on the future
      carried from before the skipped frame. */
  lemma OutOfDateFrameThenRecovery(s: RendererState, o5: FrameOutcomes, o6: FrameOutcomes,
                                   sc: SwapchainHandle, images: seq<SwapchainImage>, index: nat)
    requires !s.recreateSwapchain && s.previousFrameEnd.Some?
    requires o5.acquire == AcquireOutOfDate
    requires o6.rebuild == Rebuilt(sc, images) && o6.acquire == Acquired(index, false)
    requires index < |images| && index < |s.sceneImages|
    requires LastFinished(o6.passes).Some? && o6.sceneFlush == Flushed && o6.presentFlush == Flushed
    ensures Render(s, o5).exit == Skipped && Render(s, o5).effects == []
    ensures
      var r := Render(Render(s, o5).state, o6);
      var wait := Join(s.previousFrameEnd.value, AcquireReady(sc, index));
      r.exit == Done &&
      r.state.swapchain == sc && r.state.finalImages == ViewsOf(images) && !r.state.recreateSwapchain &&
      r.state.sceneImages == s.sceneImages && r.state.imageNum == index &&
      r.state.previousFrameEnd == Some(PresentFlushed(UiDrawn(wait, ViewsOf(images)[index]), sc, index))
  {
  }

  // ---------------------------------------------------------------------------
  // The scene pass

  /** Draining the passes issues one scene draw per `Deferred` pass, each for the
      given target at the given viewport, and none of them waits on anything but a
      fresh `Now` (so never on the carried future). */
  lemma {:induction false} SceneDrawsPerDeferredPass(passes: seq<Pass>, target: nat, viewport: Extent)
    ensures |SceneDraws(passes, target, viewport)| == multiset(passes)[Deferred]
    ensures forall e :: e in SceneDraws(passes, target, viewport) ==> e == SceneDraw(target, viewport, Now)
    decreases |passes|
  {
    if passes != [] {
      var init := passes[..|passes| - 1];
      assert passes == init + [passes[|passes| - 1]];
      SceneDrawsPerDeferredPass(init, target, viewport);
    }
  }

  /** A scene frame of one `Deferred` pass then `Finished(f)` gives
      exactly one scene draw at the scene resolution and ends with `f`. */
  lemma OneDeferredThenFinishedFrame(s: RendererState, f: Future)
    requires s.imageNum < |s.sceneImages|
    ensures LastFinished([Deferred, Finished(f)]) == Some(f)
    ensures RenderScene(s, [Deferred, Finished(f)], Flushed) ==
      Step(s, Done, [SceneDraw(s.imageNum, s.sceneViewSize, Now)])
  {
    assert [Deferred, Finished(f)][..1] == [Deferred];
    assert [Deferred][..0] == [];
    assert SceneDraws([Deferred], s.imageNum, s.sceneViewSize) == [SceneDraw(s.imageNum, s.sceneViewSize, Now)];
  }

  // ---------------------------------------------------------------------------
  // Scene resolution

  /** `resize_scene_view` restores the one-to-one pairing: one scene image per
      swapchain image, each at the new size in that image's format; only the scene
      size and images change. */
  lemma ResizeSceneViewPairsImages(s: RendererState, size: Extent)
    ensures |ResizeSceneView(s, size).sceneImages| == |s.finalImages|
    ensures forall i :: 0 <= i < |s.finalImages| ==>
      ResizeSceneView(s, size).sceneImages[i] == SceneImage(size, s.finalImages[i].image.format)
    ensures ResizeSceneView(s, size).sceneViewSize == size
    ensures ResizeSceneView(s, size).(sceneViewSize := s.sceneViewSize, sceneImages := s.sceneImages) == s
  {
  }
}
