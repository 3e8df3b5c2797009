/** Swapchain parameter selection (src/renderer/swapchain.rs, duplicated in src/main.rs).

    The selection rules follow the window-system-integration rules for
    `VkSurfaceCapabilitiesKHR` in section Surface Queries of the Vulkan specification:
    a current extent whose width is 0xFFFFFFFF lets the application pick the extent, and a
    `maxImageCount` of 0 means there is no upper limit on the image count.
 */
module Swapchain {
  import opened Vk

  datatype SurfaceFormat = SurfaceFormat(format: Format, colorSpace: ColorSpace)

  /** 8-bit BGRA in the nonlinear sRGB colour space. */
  const PREFERRED_FORMAT: SurfaceFormat := SurfaceFormat(B8G8R8A8_SRGB, SRGB_NONLINEAR)

  /** The fields of `VkSurfaceCapabilitiesKHR` the renderer reads. */
  datatype SurfaceCapabilities = SurfaceCapabilities(
    minImageCount: U32, maxImageCount: U32,
    currentExtent: Extent2D, minImageExtent: Extent2D, maxImageExtent: Extent2D,
    currentTransform: nat)

  /** `SwapchainSupport`: what the surface queries report for one device. */
  datatype SwapchainSupport = SwapchainSupport(
    capabilities: SurfaceCapabilities,
    formats: seq<SurfaceFormat>,
    presentModes: seq<PresentMode>)

  // ---------------------------------------------------------------------------------
  // Surface format

  /** `formats.iter().find(..)` for the preferred format. */
  function FindPreferredFormat(formats: seq<SurfaceFormat>): (r: Option<SurfaceFormat>)
    ensures r.Some? <==> PREFERRED_FORMAT in formats
    ensures r.Some? ==> r.value == PREFERRED_FORMAT
  {
    if formats == [] then None
    else if formats[0].format == B8G8R8A8_SRGB && formats[0].colorSpace == SRGB_NONLINEAR then Some(formats[0])
    else FindPreferredFormat(formats[1..])
  }

  /** `get_preferred_surface_format`: the preferred format when the surface reports it,
      otherwise the first format reported. An empty list is indexed out of bounds. */
  function PreferredSurfaceFormat(support: SwapchainSupport): (r: SurfaceFormat)
    requires |support.formats| > 0
    ensures r in support.formats
    ensures r == if PREFERRED_FORMAT in support.formats then PREFERRED_FORMAT else support.formats[0]
  {
    match FindPreferredFormat(support.formats)
    case Some(f) => f
    case None => support.formats[0]
  }

  // ---------------------------------------------------------------------------------
  // Present mode

  /** `present_modes.iter().find(..)` for MAILBOX. */
  function FindMailbox(modes: seq<PresentMode>): (r: Option<PresentMode>)
    ensures r.Some? <==> MAILBOX in modes
    ensures r.Some? ==> r.value == MAILBOX
  {
    if modes == [] then None
    else if modes[0] == MAILBOX then Some(modes[0])
    else FindMailbox(modes[1..])
  }

  /** `get_preferred_present_mode`: MAILBOX when listed, FIFO otherwise. */
  function PreferredPresentMode(support: SwapchainSupport): (r: PresentMode)
    ensures r == MAILBOX <==> MAILBOX in support.presentModes
    ensures r == MAILBOX || r == FIFO
  {
    match FindMailbox(support.presentModes)
    case Some(m) => m
    case None => FIFO
  }

  /** FIFO is the mode every surface supports; when the surface does list it, the chosen
      mode is always one the surface listed. */
  lemma PresentModeIsSupported(support: SwapchainSupport)
    requires FIFO in support.presentModes
    ensures PreferredPresentMode(support) in support.presentModes
  {
  }

  // ---------------------------------------------------------------------------------
  // Extent

  /** Rust's `Ord::clamp`, which panics unless lo <= hi. */
  function Clamp(v: U32, lo: U32, hi: U32): U32
    requires lo <= hi
  {
    if v < lo then lo else if v > hi then hi else v
  }

  /** The extents for which `clamp` does not panic when the window decides. */
  predicate ClampableBounds(capabilities: SurfaceCapabilities) {
    capabilities.currentExtent.width == U32_MAX ==>
      capabilities.minImageExtent.width <= capabilities.maxImageExtent.width
      && capabilities.minImageExtent.height <= capabilities.maxImageExtent.height
  }

  /** `get_swapchain_extent`: the surface's current extent, unless its width is the
      0xFFFFFFFF sentinel; then the window's size clamped per side to the surface bounds. */
  function SwapchainExtent(capabilities: SurfaceCapabilities, window: Extent2D): (r: Extent2D)
    requires ClampableBounds(capabilities)
    ensures capabilities.currentExtent.width != U32_MAX ==> r == capabilities.currentExtent
    ensures capabilities.currentExtent.width == U32_MAX ==>
      && ClampedSide(r.width, window.width,
                     capabilities.minImageExtent.width, capabilities.maxImageExtent.width)
      && ClampedSide(r.height, window.height,
                     capabilities.minImageExtent.height, capabilities.maxImageExtent.height)
  {
    if capabilities.currentExtent.width != U32_MAX then capabilities.currentExtent
    else Extent2D(
      Clamp(window.width, capabilities.minImageExtent.width, capabilities.maxImageExtent.width),
      Clamp(window.height, capabilities.minImageExtent.height, capabilities.maxImageExtent.height))
  }

  /** `side` is the window's `size` brought into [lo, hi]: unchanged when inside, the
      nearer bound when outside. */
  predicate ClampedSide(side: nat, size: nat, lo: nat, hi: nat) {
    && lo <= side <= hi
    && (lo <= size <= hi ==> side == size)
    && (size < lo ==> side == lo)
    && (size > hi ==> side == hi)
  }

  // ---------------------------------------------------------------------------------
  // Image count and sharing mode

  /** The image count `create_swapchain` requests: one more than the minimum, lowered to
      the maximum when that is nonzero and smaller. */
  function ImageCount(capabilities: SurfaceCapabilities): nat {
    var count := capabilities.minImageCount + 1;
    if capabilities.maxImageCount != 0 && count > capabilities.maxImageCount
    then capabilities.maxImageCount else count
  }

  /** The count never exceeds a nonzero maximum, is never below the minimum when the
      surface's limits are consistent (a nonzero maximum is at least the minimum), and is
      one above the minimum whenever the maximum allows it. */
  lemma ImageCountWithinLimits(capabilities: SurfaceCapabilities)
    requires capabilities.maxImageCount == 0 || capabilities.minImageCount <= capabilities.maxImageCount
    ensures capabilities.minImageCount <= ImageCount(capabilities)
    ensures capabilities.maxImageCount != 0 ==> ImageCount(capabilities) <= capabilities.maxImageCount
    ensures (capabilities.maxImageCount == 0 || capabilities.minImageCount < capabilities.maxImageCount)
            <==> ImageCount(capabilities) == capabilities.minImageCount + 1
  {
  }

  datatype SharingMode = EXCLUSIVE | CONCURRENT

  /** The fields of `VkSwapchainCreateInfoKHR` that `create_swapchain` decides. */
  datatype SwapchainCreateInfo = SwapchainCreateInfo(
    minImageCount: nat,
    imageFormat: Format,
    imageColorSpace: ColorSpace,
    imageExtent: Extent2D,
    imageArrayLayers: nat,
    imageSharingMode: SharingMode,
    queueFamilyIndices: seq<nat>,
    preTransform: nat,
    presentMode: PresentMode,
    clipped: bool,
    oldSwapchain: Option<Handle>)

  /** The create info `create_swapchain` builds from the surface's support, the two
      queue-family indices and the window size. The minimum count is below the u32 limit
      in any real surface report (the `+ 1` would overflow otherwise). */
  method SwapchainCreateParameters(support: SwapchainSupport, graphics: nat, present: nat, window: Extent2D)
    returns (info: SwapchainCreateInfo)
    requires |support.formats| > 0
    requires ClampableBounds(support.capabilities)
    requires support.capabilities.minImageCount < U32_MAX
    ensures info.minImageCount == ImageCount(support.capabilities)
    ensures support.capabilities.maxImageCount != 0 ==>
      info.minImageCount <= support.capabilities.maxImageCount
    ensures SurfaceFormat(info.imageFormat, info.imageColorSpace) == PreferredSurfaceFormat(support)
    ensures info.imageExtent == SwapchainExtent(support.capabilities, window)
    ensures info.presentMode == PreferredPresentMode(support)
    ensures graphics != present ==>
      info.imageSharingMode == CONCURRENT && info.queueFamilyIndices == [graphics, present]
    ensures graphics == present ==>
      info.imageSharingMode == EXCLUSIVE && info.queueFamilyIndices == []
    ensures info.imageArrayLayers == 1 && info.clipped
    ensures info.preTransform == support.capabilities.currentTransform
    ensures info.oldSwapchain == None
  {
    var surfaceFormat := PreferredSurfaceFormat(support);
    var presentMode := PreferredPresentMode(support);
    var extent := SwapchainExtent(support.capabilities, window);

    var imageCount := support.capabilities.minImageCount + 1;
    if support.capabilities.maxImageCount != 0 && imageCount > support.capabilities.maxImageCount {
      imageCount := support.capabilities.maxImageCount;
    }

    var queueFamilyIndices: seq<nat> := [];
    var sharingMode;
    if graphics != present {
      queueFamilyIndices := queueFamilyIndices + [graphics];
      queueFamilyIndices := queueFamilyIndices + [present];
      sharingMode := CONCURRENT;
    } else {
      sharingMode := EXCLUSIVE;
    }

    info := SwapchainCreateInfo(
      imageCount, surfaceFormat.format, surfaceFormat.colorSpace, extent, 1,
      sharingMode, queueFamilyIndices, support.capabilities.currentTransform,
      presentMode, true, None);
  }

  // ---------------------------------------------------------------------------------
  // Image views

  /** What `create_image_view` asks the driver for. */
  datatype ImageViewInfo = ImageViewInfo(image: Handle, format: Format, aspects: set<Aspect>, mipLevels: nat)

  /** The view request for one swapchain image: colour aspect, one mip level. */
  function SwapchainViewInfo(image: Handle, format: Format): ImageViewInfo {
    ImageViewInfo(image, format, {COLOR}, 1)
  }

  /** `create_swapchain_image_views`: one view per swapchain image, in image order, each
      created by the driver (`createView`); collecting stops at, and returns, the first
      driver error. */
  method CreateImageViews(images: seq<Handle>, format: Format,
                          createView: ImageViewInfo -> Result<Handle, VkError>)
    returns (r: Result<seq<Handle>, VkError>)
    ensures r.Ok? ==>
      && |r.value| == |images|
      && forall i :: 0 <= i < |images| ==>
           createView(SwapchainViewInfo(images[i], format)) == Ok(r.value[i])
    ensures r.Err? ==>
      exists k :: 0 <= k < |images|
        && createView(SwapchainViewInfo(images[k], format)) == Err(r.error)
        && forall i :: 0 <= i < k ==> createView(SwapchainViewInfo(images[i], format)).Ok?
  {
    var views: seq<Handle> := [];
    var i := 0;
    while i < |images|
      invariant 0 <= i <= |images| && |views| == i
      invariant forall j :: 0 <= j < i ==> createView(SwapchainViewInfo(images[j], format)) == Ok(views[j])
    {
      var created := createView(SwapchainViewInfo(images[i], format));
      if created.Err? {
        return Err(created.error);
      }
      views := views + [created.value];
      i := i + 1;
    }
    return Ok(views);
  }
}
