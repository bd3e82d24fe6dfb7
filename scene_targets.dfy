/** The swapchain image views and the offscreen scene images paired with them. */
module SceneTargets {
  import opened Gpu

  /** Wrap every swapchain image in a view, in order (`map(ImageView::new).collect()`). */
  function ViewsOf(images: seq<SwapchainImage>): (views: seq<SwapchainView>)
    ensures |views| == |images|
    ensures forall i :: 0 <= i < |images| ==> views[i].image == images[i]
  {
    seq(|images|, i requires 0 <= i < |images| => SwapchainView(images[i]))
  }

  /** The scene images that belong to `views` at resolution `size`. */
  function SceneImagesFor(views: seq<SwapchainView>, size: Extent): seq<SceneImage> {
    seq(|views|, i requires 0 <= i < |views| => SceneImage(size, views[i].image.format))
  }

  /** `create_scene_images`: one scene image per swapchain image, in the same order,
      each sized `sceneViewSize` (whatever the swapchain image's own size) and in the
      swapchain image's format. */
  method CreateSceneImages(swapchainImages: seq<SwapchainView>, sceneViewSize: Extent)
    returns (sceneImages: seq<SceneImage>)
    ensures |sceneImages| == |swapchainImages|
    ensures forall i :: 0 <= i < |swapchainImages| ==>
      sceneImages[i].size == sceneViewSize && sceneImages[i].format == swapchainImages[i].image.format
    ensures sceneImages == SceneImagesFor(swapchainImages, sceneViewSize)
  {
    sceneImages := [];
    for k := 0 to |swapchainImages|
      invariant |sceneImages| == k
      invariant forall i :: 0 <= i < k ==>
        sceneImages[i] == SceneImage(sceneViewSize, swapchainImages[i].image.format)
    {
      sceneImages := sceneImages + [SceneImage(sceneViewSize, swapchainImages[k].image.format)];
    }
  }
}
