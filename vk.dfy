/** Vulkan vocabulary shared by the renderer's modules.

    Every handle the driver hands out is an opaque id, flag sets are Dafny sets of flag
    names, and the enumerations the renderer inspects are datatypes. Values that the
    renderer only passes through (device names, matrices, ...) are not represented.
 */
module Vk {

  /** An opaque driver handle (fence, semaphore, image, view, ...). */
  type Handle = nat

  /** The largest value of a Vulkan `uint32_t`; as a current extent it is the
      "the window decides" sentinel of section Surface Queries of the Vulkan specification. */
  const U32_MAX: nat := 0xFFFF_FFFF

  /** A `uint32_t`. */
  type U32 = x: nat | x <= U32_MAX

  /** A failing driver call; the code itself carries no logic here. */
  datatype VkError = VkError(code: int)

  datatype Option<T> = None | Some(value: T)

  /** Rust's `Result`, used for every fallible step the renderer propagates with `?`. */
  datatype Result<T, E> = Ok(value: T) | Err(error: E)

  datatype Format =
    | UNDEFINED
    | B8G8R8A8_SRGB
    | B8G8R8A8_UNORM
    | R8_SRGB
    | R8G8_SRGB
    | R8G8B8_SRGB
    | R8G8B8A8_SRGB
    | D16_UNORM
    | D32_SFLOAT
    | D32_SFLOAT_S8_UINT
    | D24_UNORM_S8_UINT
    | OtherFormat(code: int)

  datatype ColorSpace = SRGB_NONLINEAR | OtherColorSpace(code: int)

  datatype PresentMode = IMMEDIATE | MAILBOX | FIFO | FIFO_RELAXED

  datatype ImageLayout =
    | LAYOUT_UNDEFINED
    | TRANSFER_SRC_OPTIMAL
    | TRANSFER_DST_OPTIMAL
    | SHADER_READ_ONLY_OPTIMAL
    | DEPTH_STENCIL_ATTACHMENT_OPTIMAL
    | COLOR_ATTACHMENT_OPTIMAL
    | PRESENT_SRC

  datatype ImageTiling = OPTIMAL | LINEAR | DRM_FORMAT_MODIFIER

  datatype FormatFeature =
    | SAMPLED_IMAGE
    | SAMPLED_IMAGE_FILTER_LINEAR
    | COLOR_ATTACHMENT
    | DEPTH_STENCIL_ATTACHMENT
    | BLIT_SRC
    | BLIT_DST
    | TRANSFER_SRC
    | TRANSFER_DST

  /** What `vkGetPhysicalDeviceFormatProperties` reports for one format. */
  datatype FormatProperties = FormatProperties(
    linearTilingFeatures: set<FormatFeature>,
    optimalTilingFeatures: set<FormatFeature>)

  datatype PipelineStage =
    | TOP_OF_PIPE
    | TRANSFER
    | EARLY_FRAGMENT_TESTS
    | FRAGMENT_SHADER
    | COLOR_ATTACHMENT_OUTPUT

  datatype Access =
    | TRANSFER_READ
    | TRANSFER_WRITE
    | SHADER_READ
    | DEPTH_STENCIL_ATTACHMENT_READ
    | DEPTH_STENCIL_ATTACHMENT_WRITE

  datatype Aspect = COLOR | DEPTH | STENCIL

  datatype Extent2D = Extent2D(width: U32, height: U32)
}
