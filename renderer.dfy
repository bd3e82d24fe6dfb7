/** The renderer object: the fields its methods update in place, and the methods
    that drive one window's frames. Each method is proved to change the fields
    exactly as the matching function of `FrameModel` says. */
module Renderer {
  import opened Gpu
  import opened DeviceSelection
  import opened SceneTargets
  import FrameModel

  class Renderer {
    /** The physical device the logical device was created on. */
    const device: PhysicalDevice
    /** Position, among the device's queue families, of the family the queue belongs to. */
    const queueFamily: nat

    var swapchain: SwapchainHandle
    var finalImages: seq<SwapchainView>
    var sceneImages: seq<SceneImage>
    var imageNum: nat
    var sceneViewSize: Extent
    var recreateSwapchain: bool
    var previousFrameEnd: Option<Future>

    /** The fields as a value of the frame model. */
    function State(): FrameModel.RendererState
      reads this
    {
      FrameModel.RendererState(swapchain, finalImages, sceneImages, imageNum, sceneViewSize,
                               recreateSwapchain, previousFrameEnd)
    }

    /** Between frames exactly one completion future is carried forward. */
    predicate Valid()
      reads this
    {
      previousFrameEnd.Some?
    }

    /** `new`: pick the device with the most compute shared memory and its first
        usable queue family, take the swapchain and its images, build one scene image
        per swapchain image, and start from a carried `Now`. Aborting when there is
        no physical device or no usable queue family becomes the two preconditions. */
    constructor (devices: seq<PhysicalDevice>, swapchain: SwapchainHandle, images: seq<SwapchainImage>,
                 sceneViewSize: Extent)
      requires SelectPhysicalDevice(devices).Some?
      requires FindQueueFamily(SelectPhysicalDevice(devices).value.queueFamilies).Some?
      ensures Valid()
      ensures device == SelectPhysicalDevice(devices).value
      ensures queueFamily == FindQueueFamily(device.queueFamilies).value
      ensures this.swapchain == swapchain && finalImages == ViewsOf(images)
      ensures |sceneImages| == |finalImages|
      ensures forall i :: 0 <= i < |images| ==> sceneImages[i] == SceneImage(sceneViewSize, images[i].format)
      ensures imageNum == 0 && this.sceneViewSize == sceneViewSize
      ensures !recreateSwapchain && previousFrameEnd == Some(Now)
    {
      var physical := SelectPhysicalDevice(devices).value;
      var views := ViewsOf(images);
      var scene := CreateSceneImages(views, sceneViewSize);
      device := physical;
      queueFamily := FindQueueFamily(physical.queueFamilies).value;
      this.swapchain := swapchain;
      finalImages := views;
      sceneImages := scene;
      imageNum := 0;
      this.sceneViewSize := sceneViewSize;
      previousFrameEnd := Some(Now);
      recreateSwapchain := false;
    }

    /** `resize`: mark the swapchain for recreation; nothing else changes. */
    method Resize()
      modifies this
      ensures State() == old(State()).(recreateSwapchain := true)
    {
      recreateSwapchain := true;
    }

    /** `recreate_swapchain`: on success take the new swapchain and its image views
        and clear the flag, leaving the scene images as they are; on unsupported
        dimensions change nothing; on any other error abort. */
    method RecreateSwapchain(rebuild: RecreateOutcome) returns (exit: FrameModel.Exit)
      modifies this
      ensures FrameModel.Step(State(), exit, []) == FrameModel.RecreateSwapchain(old(State()), rebuild)
      ensures rebuild.Rebuilt? ==>
        exit == FrameModel.Done && swapchain == rebuild.swapchain &&
        finalImages == ViewsOf(rebuild.images) && !recreateSwapchain
      ensures !rebuild.Rebuilt? ==>
        swapchain == old(swapchain) && finalImages == old(finalImages) &&
        recreateSwapchain == old(recreateSwapchain)
      ensures exit == (if rebuild.RecreateFailed? then FrameModel.Aborted(FrameModel.RecreateFailure(rebuild.code))
                       else FrameModel.Done)
      ensures sceneImages == old(sceneImages) && imageNum == old(imageNum) &&
              sceneViewSize == old(sceneViewSize) && previousFrameEnd == old(previousFrameEnd)
    {
      match rebuild {
        case Rebuilt(newSwapchain, newImages) =>
          swapchain := newSwapchain;
          finalImages := ViewsOf(newImages);
          recreateSwapchain := false;
          exit := FrameModel.Done;
        case UnsupportedDimensions =>
          exit := FrameModel.Done;
        case RecreateFailed(code) =>
          exit := FrameModel.Aborted(FrameModel.RecreateFailure(code));
      }
    }

    /** `resize_scene_view`: store the new size and rebuild the scene images, one per
        current swapchain image. */
    method ResizeSceneView(newSize: Extent)
      modifies this
      ensures sceneViewSize == newSize
      ensures |sceneImages| == |finalImages|
      ensures forall i :: 0 <= i < |finalImages| ==>
        sceneImages[i] == SceneImage(newSize, finalImages[i].image.format)
      ensures swapchain == old(swapchain) && finalImages == old(finalImages) && imageNum == old(imageNum) &&
              recreateSwapchain == old(recreateSwapchain) && previousFrameEnd == old(previousFrameEnd)
      ensures State() == FrameModel.ResizeSceneView(old(State()), newSize)
    {
      sceneViewSize := newSize;
      var images := CreateSceneImages(finalImages, newSize);
      sceneImages := images;
    }

    /** `finish`: present `after` on image `index` and flush. Whatever the flush
        reports, one future is carried afterwards: the flushed one, or a fresh `Now`
        on an error, and an out-of-date flush also marks the swapchain stale. */
    method Finish(after: Future, index: nat, flush: FlushOutcome)
      modifies this
      ensures Valid()
      ensures previousFrameEnd ==
        if flush.Flushed? then Some(PresentFlushed(after, swapchain, index)) else Some(Now)
      ensures recreateSwapchain == (old(recreateSwapchain) || flush.FlushOutOfDate?)
      ensures swapchain == old(swapchain) && finalImages == old(finalImages) && sceneImages == old(sceneImages) &&
              imageNum == old(imageNum) && sceneViewSize == old(sceneViewSize)
      ensures State() == FrameModel.Finish(old(State()), after, index, flush)
    {
      match flush {
        case Flushed =>
          previousFrameEnd := Some(PresentFlushed(after, swapchain, index));
        case FlushOutOfDate =>
          recreateSwapchain := true;
          previousFrameEnd := Some(Now);
        case FlushFailed(_) =>
          previousFrameEnd := Some(Now);
      }
    }

    /** `render_scene`: start a frame from a fresh `Now`, bound to
        `scene_images[image_num]`; drain its passes (one scene draw at the scene
        resolution per `Deferred`, the last `Finished` kept as the scene future),
        then flush that future. Changes no field. */
    method RenderScene(passes: seq<Pass>, sceneFlush: FlushOutcome)
      returns (exit: FrameModel.Exit, effects: seq<FrameModel.Effect>)
      ensures FrameModel.Step(State(), exit, effects) == FrameModel.RenderScene(State(), passes, sceneFlush)
      ensures imageNum >= |sceneImages| ==>
        exit == FrameModel.Aborted(FrameModel.SceneImageOutOfBounds(imageNum)) && effects == []
      ensures imageNum < |sceneImages| ==>
        |effects| == multiset(passes)[Deferred] &&
        forall e :: e in effects ==> e == FrameModel.SceneDraw(imageNum, sceneViewSize, Now)
      ensures exit == FrameModel.Done <==>
        imageNum < |sceneImages| && FrameModel.LastFinished(passes).Some? && sceneFlush == Flushed
    {
      if imageNum >= |sceneImages| {
        return FrameModel.Aborted(FrameModel.SceneImageOutOfBounds(imageNum)), [];
      }
      effects := [];
      var afterFuture: Option<Future> := None;
      var i := 0;
      while i < |passes|
        invariant 0 <= i <= |passes|
        invariant effects == FrameModel.SceneDraws(passes[..i], imageNum, sceneViewSize)
        invariant afterFuture == FrameModel.LastFinished(passes[..i])
      {
        assert passes[..i + 1][..i] == passes[..i];
        match passes[i] {
          case Deferred =>
            effects := effects + [FrameModel.SceneDraw(imageNum, sceneViewSize, Now)];
          case Finished(af) =>
            afterFuture := Some(af);
        }
        i := i + 1;
      }
      assert passes[..i] == passes;
      FrameModel.SceneDrawsPerDeferredPass(passes, imageNum, sceneViewSize);
      if afterFuture.None? {
        exit := FrameModel.Aborted(FrameModel.ScenePassUnfinished);
      } else if sceneFlush.Flushed? {
        exit := FrameModel.Done;
      } else {
        exit := FrameModel.Aborted(FrameModel.SceneFlushFailure(sceneFlush));
      }
    }

    /** `render`: recreate the swapchain if flagged; acquire an image (an out-of-date
        swapchain marks the flag and skips the frame, a suboptimal one marks it and
        goes on); draw the scene; take the carried future, join it with the
        acquisition and have the UI drawn onto `final_images[image_num]`; finish.
        The carried future is in place afterwards unless the frame aborted between
        taking it and finishing. */
    method Render(o: FrameModel.FrameOutcomes) returns (exit: FrameModel.Exit, effects: seq<FrameModel.Effect>)
      requires Valid()
      modifies this
      ensures FrameModel.Step(State(), exit, effects) == FrameModel.Render(old(State()), o)
      ensures Valid() <==> !(exit.Aborted? && exit.panic.FinalImageOutOfBounds?)
      ensures exit != FrameModel.Aborted(FrameModel.PreviousFrameEndMissing)
      ensures sceneImages == old(sceneImages) && sceneViewSize == old(sceneViewSize)
      ensures o.acquire == AcquireOutOfDate && !(old(recreateSwapchain) && o.rebuild.RecreateFailed?) ==>
        exit == FrameModel.Skipped && effects == [] && recreateSwapchain &&
        imageNum == old(imageNum) && previousFrameEnd == old(previousFrameEnd)
    {
      effects := [];
      exit := FrameModel.Done;
      if recreateSwapchain {
        exit := RecreateSwapchain(o.rebuild);
        if exit.Aborted? {
          return;
        }
      }
      var index: nat, suboptimal: bool;
      match o.acquire {
        case AcquireOutOfDate =>
          recreateSwapchain := true;
          return FrameModel.Skipped, [];
        case AcquireFailed(code) =>
          return FrameModel.Aborted(FrameModel.AcquireFailure(code)), [];
        case Acquired(i, sub) =>
          index, suboptimal := i, sub;
      }
      if suboptimal {
        recreateSwapchain := true;
      }
      imageNum := index;
      exit, effects := RenderScene(o.passes, o.sceneFlush);
      if exit.Aborted? {
        return;
      }
      var carried := previousFrameEnd.value;
      previousFrameEnd := None;
      var wait := Join(carried, AcquireReady(swapchain, index));
      if index >= |finalImages| {
        return FrameModel.Aborted(FrameModel.FinalImageOutOfBounds(index)), effects;
      }
      var target := finalImages[index];
      effects := effects + [FrameModel.UiDraw(wait, target)];
      Finish(UiDrawn(wait, target), index, o.presentFlush);
    }
  }
}
