/** The graphics-library objects the renderer handles, abstracted to values.

    Device objects (swapchains, images, futures) are opaque handles or terms; every
    call into the graphics library that can fail is replaced by an outcome value
    that says which of its results happened. */
module Gpu {

  datatype Option<+T> = None | Some(value: T) {
    /** `unwrap_or`: the carried value, or `default` when there is none. */
    function GetOr(default: T): T {
      match this
      case Some(v) => v
      case None => default
    }
  }

  /** Unsigned 32-bit integer: the component type of sizes and of device limits. */
  newtype u32 = x: int | 0 <= x < 0x1_0000_0000

  /** A size in pixels, `[u32; 2]` as (width, height). */
  datatype Extent = Extent(width: u32, height: u32)

  /** Opaque identifier of a pixel format. */
  type Format = nat

  /** Opaque identifier of one swapchain (a new one after every successful recreation). */
  type SwapchainHandle = nat

  /** A presentable image owned by a swapchain. */
  datatype SwapchainImage = SwapchainImage(handle: nat, format: Format, dimensions: Extent)

  /** An image view wrapping a swapchain image (the entries of `final_images`). */
  datatype SwapchainView = SwapchainView(image: SwapchainImage)

  /** An offscreen, sampled input attachment the scene is rendered into
      (the entries of `scene_images`): its size and its format. */
  datatype SceneImage = SceneImage(size: Extent, format: Format)

  /** A GPU completion future, represented by how it was built. */
  datatype Future =
    | Now                                                         // `sync::now(device)`: nothing to wait for
    | AcquireReady(swapchain: SwapchainHandle, image: nat)        // the future returned by image acquisition
    | Join(first: Future, second: Future)                         // `a.join(b)`
    | UiDrawn(wait: Future, target: SwapchainView)                // what the UI overlay returns after drawing
    | PresentFlushed(after: Future, swapchain: SwapchainHandle, image: nat)
                                                                  // present, then signal a fence and flush

  /** Result of `swapchain::acquire_next_image`. */
  datatype AcquireOutcome =
    | Acquired(index: nat, suboptimal: bool)
    | AcquireOutOfDate
    | AcquireFailed(code: nat)

  /** Result of rebuilding the swapchain at the window's current size. */
  datatype RecreateOutcome =
    | Rebuilt(swapchain: SwapchainHandle, images: seq<SwapchainImage>)
    | UnsupportedDimensions
    | RecreateFailed(code: nat)

  /** Result of `then_signal_fence_and_flush`. */
  datatype FlushOutcome =
    | Flushed
    | FlushOutOfDate
    | FlushFailed(code: nat)

  /** One step of the scene frame: a deferred draw pass to fill, or the end of the
      frame with the future that signals the scene pass is done. */
  datatype Pass = Deferred | Finished(after: Future)
}
