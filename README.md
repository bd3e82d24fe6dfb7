# Renderer frame state machine (egui_winit_vulkano, `wholesome` example)

This project models the renderer of the `wholesome` example. The renderer owns one
window's swapchain, a set of offscreen "scene" images, and the chain of GPU
completion futures that links one frame to the next. Each frame it draws the scene
into the scene image that matches the acquired swapchain index. The UI overlay then
draws onto the swapchain image, and the result is presented. Resizes and
out-of-date swapchains are absorbed into a `recreate_swapchain` flag.

The Vulkan objects are abstracted:

- Swapchains, images and views are handles or small records (`Gpu`). A scene image
  is the record of its size and format.
- A completion future is a term that records how it was built: `Now`, an
  acquisition future, `Join`, the UI overlay's result, and present-then-flush. This
  makes "the future carried into frame 2 is the one frame 1 produced" a provable
  equation.
- Every call into the graphics library is replaced by an outcome parameter:
  - image acquisition: `Acquired(index, suboptimal)`, `AcquireOutOfDate` or another error;
  - swapchain rebuild: `Rebuilt(handle, images)`, `UnsupportedDimensions` or another error;
  - fence-and-flush: `Flushed`, `FlushOutOfDate` or another error;
  - the scene frame's passes: a sequence of `Deferred` / `Finished(future)`.
- Fatal aborts (`panic!`, `expect`, `unwrap`, and indexing past the end of a vector)
  become an `Aborted(panic)` exit. The state at that point is kept, so the model
  shows what had already changed when the process would stop. Of the aborts during
  construction, two become the constructor's preconditions: no physical device
  (renderer.rs:80) and no usable queue family (renderer.rs:130). The rest belong to
  the setup listed under `## Left out`.

Modules:

- `Gpu`: the abstract device types and outcome types.
- `DeviceSelection`: the device-selection fold and the queue-family search of `new`.
- `SceneTargets`: image views and `create_scene_images`.
- `FrameModel`: the renderer's fields as a value `RendererState`, one function per
  method, and lemmas about one or several calls.
- `Renderer`: the class `Renderer`, with the same fields updated in place. Every
  method is proved to change them exactly as the `FrameModel` function says. The
  invariant `Valid()` says that one completion future is carried between frames.

Two behaviours of `render` are easy to miss, and the model keeps both:

- When the rebuild reports unsupported dimensions, `render` does not return. It
  goes on to acquire an image from the old swapchain and draws the frame. Only the
  flag stays set, so the next frame retries (`FrameModel.UnsupportedDimensionsRetries`).
- Recreating the swapchain does not rebuild the scene images. The scene images are
  therefore not kept one-to-one with the swapchain images after a recreation
  (`FrameModel.RenderKeepsSceneImages`). If the new swapchain has more images, an
  index past the old count aborts at `scene_images[image_num]`
  (`FrameModel.GrownSwapchainOverrunsSceneImages`). Only `resize_scene_view` and
  `new` pair the two lists again.

## Model

| member | source | states |
|---|---|---|
| `DeviceSelection.FoldFrom` | examples/wholesome/renderer.rs:69-79 | Folding the closure from a chosen device either keeps it, when nothing later has more compute shared memory, or ends on the first later device with the largest, strictly greater, value. |
| `DeviceSelection.SelectIsFirstMaximum` | examples/wholesome/renderer.rs:68-80 | The selection is `None` exactly when the device list is empty. Otherwise it is the device at the first position whose `max_compute_shared_memory_size` is maximal: ties keep the earlier device because `>=` keeps the accumulator. |
| `DeviceSelection.SelectCharacterised` | examples/wholesome/renderer.rs:68-80 | Both directions: the fold returns `d` if and only if `d` sits at the first position of maximal compute shared memory. |
| `DeviceSelection.FindQueueFamily` | examples/wholesome/renderer.rs:127-130 | Returns the first family that supports graphics and whose surface query answered yes (a failed query counts as no). Returns `None` exactly when no family qualifies. |
| `SceneTargets.ViewsOf` | examples/wholesome/renderer.rs:174-175 | One view per swapchain image, in the same order, wrapping that image. |
| `SceneTargets.CreateSceneImages` | examples/wholesome/renderer.rs:179-198 | Builds exactly one scene image per swapchain image, in order. Image i has the scene view size, whatever the swapchain image's own size, and the format of swapchain image i. |
| `FrameModel.RepeatedResizeIsOne` | examples/wholesome/renderer.rs:217-219 | Any number (at least one) of resize notifications before a render leaves the same state as one. |
| `FrameModel.UnsupportedDimensionsRetries` | examples/wholesome/renderer.rs:303-308 | On unsupported dimensions the recreation changes nothing. The flag stays set and the swapchain, its images and the scene images are the same after the render. The frame still goes on to acquire rather than being skipped. |
| `FrameModel.RenderKeepsSceneImages` | examples/wholesome/renderer.rs:311-315 | No render call rebuilds the scene images or changes the scene size, even one that replaces the swapchain images. |
| `FrameModel.GrownSwapchainOverrunsSceneImages` | examples/wholesome/renderer.rs:261-269 | After a recreation that yields more images than there are scene images, an acquired index past the scene images aborts at `scene_images[image_num]` before any draw. |
| `FrameModel.OutOfDateAcquireSkipsFrame` | examples/wholesome/renderer.rs:237-243 | An out-of-date acquisition sets the flag and returns with no draw. `image_num`, the carried future and the scene images are unchanged. With no recreation pending, the whole effect equals `resize`. |
| `FrameModel.SuboptimalFrameProceeds` | examples/wholesome/renderer.rs:246-249 | A suboptimal acquisition sets the flag, makes the acquired index `image_num`, and does not skip the frame. With valid indices, a finished scene pass and a carried future, the frame runs to the end. |
| `FrameModel.FinishCarriesOneFuture` | examples/wholesome/renderer.rs:319-342 | After `finish` a future is always carried: the present-and-flush future on success, a fresh `Now` on any flush error. Only an out-of-date flush sets the flag. Nothing else changes. |
| `FrameModel.RenderKeepsCarriedFuture` | examples/wholesome/renderer.rs:253-257 | Given a carried future, `render` never fails on taking it. A future is carried afterwards exactly when the frame did not abort between the take and `finish`. |
| `FrameModel.RenderThreadsCarriedFuture` | examples/wholesome/renderer.rs:249-258 | A completed frame acquired an index valid for both image lists. It issued its scene draws, then one UI draw that waits on the carried future joined with the acquisition. It carries forward the present of that UI draw, or `Now` when the flush failed. |
| `FrameModel.TwoFramesThreadOneFuture` | examples/wholesome/renderer.rs:253-257 | Over two completed frames, the future the second frame's UI draw waits on is exactly the present-and-flush future the first frame left. |
| `FrameModel.OutOfDateFrameThenRecovery` | examples/wholesome/renderer.rs:231-258 | A frame with an out-of-date acquisition draws nothing. The next frame recreates the swapchain and draws into the new images with the flag cleared. It waits on the future carried from before the skipped frame. The scene images are unchanged. |
| `FrameModel.SceneDrawsPerDeferredPass` | examples/wholesome/renderer.rs:262-282 | Draining the passes issues one scene draw per `Deferred` pass (counted by multiset), each at the scene view size for the current scene image. Every scene draw belongs to a frame started from a fresh `Now`, never from the carried future. |
| `FrameModel.OneDeferredThenFinishedFrame` | examples/wholesome/renderer.rs:261-292 | For a scene frame of one `Deferred` pass then `Finished(f)`, the scene is drawn once and the scene future is `f`. With a successful flush the scene step completes and changes nothing. |
| `FrameModel.ResizeSceneViewPairsImages` | examples/wholesome/renderer.rs:295-300 | Resizing the scene view gives one scene image per swapchain image, each at the new size in that image's format. Only the scene size and scene images change. |
| `Renderer.Renderer.constructor` | examples/wholesome/renderer.rs:55-119 | Keeps the selected device and its first usable queue family, the swapchain and views of its images, and one scene image per swapchain image. Starts with `image_num` 0, the flag clear and a carried `Now`. |
| `Renderer.Renderer.Resize` | examples/wholesome/renderer.rs:217-219 | The new state is the old one with the flag set: no other field changes. |
| `Renderer.Renderer.RecreateSwapchain` | examples/wholesome/renderer.rs:303-316 | On success it takes the new swapchain and its image views, clears the flag and leaves the scene images as they were. On unsupported dimensions it changes nothing. Any other error aborts. |
| `Renderer.Renderer.ResizeSceneView` | examples/wholesome/renderer.rs:295-300 | Stores the new size and rebuilds the scene images, one per current swapchain image. All other fields are unchanged. |
| `Renderer.Renderer.Finish` | examples/wholesome/renderer.rs:319-342 | Leaves `Valid()`: the carried future is the presented-and-flushed one, or `Now` on an error. The flag is also set on out-of-date. Other fields are unchanged. |
| `Renderer.Renderer.RenderScene` | examples/wholesome/renderer.rs:261-292 | The loop that drains the passes gives one scene draw per `Deferred` pass, for `scene_images[image_num]` at the scene size, in a frame started from a fresh `Now`. It completes exactly when that index is valid, a `Finished` pass was seen and the flush succeeded. No field changes. |
| `Renderer.Renderer.Render` | examples/wholesome/renderer.rs:231-258 | Changes the fields exactly as `FrameModel.Render`. It keeps `Valid()` unless it aborts at `final_images[image_num]`, and never fails on taking the carried future. It never touches the scene images. On an out-of-date acquisition it skips the frame with the flag set and the carried future untouched. |

## Left out

- Vulkan and winit setup is not modelled: instance creation, window and surface creation, logical device and queue creation, and the swapchain builder parameters. These are foreign library calls. Their results are the constructor's parameters.
- Creating image views and allocating scene images are assumed to succeed. Both abort on failure in the source.
- The window's current inner size is not modelled. The rebuild reads it from the window, so it enters the model only through the rebuild outcome.
- GPU execution order, fence signalling and the blocking `wait(None)` calls are not modelled. A failed wait is only logged, so it changes no state. Futures are terms that record which future is carried, not when work completes.
- The internals of the frame system, the triangle draw system and the UI overlay are not modelled. The frame system's passes are a parameter, the scene draw is a `SceneDraw` effect, and the overlay's result is the `UiDrawn` future plus a `UiDraw` effect. The frame system keeps the swapchain format it was created with; this is not modelled.
- The identity transform and the transparent clear colour are not modelled. They are floating-point constants with no logic.
- Console logging is not modelled.
- The accessors `device`, `queue`, `surface`, `window`, `last_image_num` and `scene_images` are not modelled. They return a field and have no logic.
