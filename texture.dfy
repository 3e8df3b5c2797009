/** Texture helpers (src/renderer/texture.rs): the layout-transition table, the aspect
    mask of a transition, the PNG colour-type table, the mip-level count and the command
    sequence `generate_mipmaps` records.

    Recording a command is modelled by returning it: a `seq<MipCommand>` is the contents of
    the transient command buffer, in recording order.
 */
module Texture {
  import opened Vk

  // ---------------------------------------------------------------------------------
  // PNG colour types

  /** The colour type the PNG decoder reports. */
  datatype ColorType = Grayscale | Rgb | Indexed | GrayscaleAlpha | Rgba

  datatype BitDepth = One | Two | Four | Eight | Sixteen

  /** The two assertions of `get_vulkan_image_format`, which panic. */
  datatype ImageFormatPanic = IndexedColorsUnsupported | SixteenBitUnsupported

  /** Samples per pixel of a PNG colour type (an indexed pixel is one palette index). */
  function PngChannels(colorType: ColorType): nat {
    match colorType
    case Grayscale => 1
    case GrayscaleAlpha => 2
    case Rgb => 3
    case Rgba => 4
    case Indexed => 1
  }

  /** Components per texel of the 8-bit formats a texture can have, 0 for the rest. */
  function FormatChannels(format: Format): nat {
    match format
    case R8_SRGB => 1
    case R8G8_SRGB => 2
    case R8G8B8_SRGB => 3
    case R8G8B8A8_SRGB => 4
    case _ => 0
  }

  /** `get_vulkan_image_format`: the 8-bit sRGB format with as many components as the
      colour type has samples, for every bit depth up to eight; indexed colour (checked
      first) and 16-bit samples panic. */
  function VulkanImageFormat(colorType: ColorType, bitDepth: BitDepth): (r: Result<Format, ImageFormatPanic>)
    ensures r.Ok? <==> colorType != Indexed && bitDepth != Sixteen
    ensures r == Err(IndexedColorsUnsupported) <==> colorType == Indexed
    ensures r.Ok? ==> FormatChannels(r.value) == PngChannels(colorType)
  {
    if colorType == Indexed then Err(IndexedColorsUnsupported)
    else if bitDepth == Sixteen then Err(SixteenBitUnsupported)
    else match colorType
      case Grayscale => Ok(R8_SRGB)
      case GrayscaleAlpha => Ok(R8G8_SRGB)
      case Rgb => Ok(R8G8B8_SRGB)
      case Rgba => Ok(R8G8B8A8_SRGB)
  }

  // ---------------------------------------------------------------------------------
  // Layout transitions

  /** Access and stage masks of one image memory barrier. */
  datatype BarrierMasks = BarrierMasks(
    srcAccess: set<Access>, dstAccess: set<Access>,
    srcStage: PipelineStage, dstStage: PipelineStage)

  datatype TransitionError =
    | UnsupportedLayoutTransition
    | TransitionCommandsFailed(error: VkError)

  /** What the driver answers for the one-off command buffer: `begin` is the first error of
      `begin_transient_commands` (allocate, begin recording) and `end` the first error of
      `end_transient_commands` (end recording, submit, wait for the queue to go idle). */
  datatype TransientReplies = TransientReplies(begin: Result<(), VkError>, end: Result<(), VkError>)

  /** The table at the head of `transition_image_layout`. */
  function TransitionMasks(oldLayout: ImageLayout, newLayout: ImageLayout): Result<BarrierMasks, TransitionError>
  {
    match (oldLayout, newLayout)
    case (LAYOUT_UNDEFINED, DEPTH_STENCIL_ATTACHMENT_OPTIMAL) =>
      Ok(BarrierMasks({}, {DEPTH_STENCIL_ATTACHMENT_READ, DEPTH_STENCIL_ATTACHMENT_WRITE},
                      TOP_OF_PIPE, EARLY_FRAGMENT_TESTS))
    case (LAYOUT_UNDEFINED, TRANSFER_DST_OPTIMAL) =>
      Ok(BarrierMasks({}, {TRANSFER_WRITE}, TOP_OF_PIPE, TRANSFER))
    case (TRANSFER_DST_OPTIMAL, SHADER_READ_ONLY_OPTIMAL) =>
      Ok(BarrierMasks({TRANSFER_WRITE}, {SHADER_READ}, TRANSFER, FRAGMENT_SHADER))
    case _ => Err(UnsupportedLayoutTransition)
  }

  /** The pipeline stages at which an access type can happen, after the "supported access
      types" table of the Synchronization chapter of the Vulkan specification (restricted to
      the stages this renderer names). */
  function AccessStages(a: Access): set<PipelineStage> {
    match a
    case TRANSFER_READ => {TRANSFER}
    case TRANSFER_WRITE => {TRANSFER}
    case SHADER_READ => {FRAGMENT_SHADER}
    case DEPTH_STENCIL_ATTACHMENT_READ => {EARLY_FRAGMENT_TESTS}
    case DEPTH_STENCIL_ATTACHMENT_WRITE => {EARLY_FRAGMENT_TESTS}
  }

  predicate SupportedTransition(oldLayout: ImageLayout, newLayout: ImageLayout) {
    || (oldLayout == LAYOUT_UNDEFINED && newLayout == DEPTH_STENCIL_ATTACHMENT_OPTIMAL)
    || (oldLayout == LAYOUT_UNDEFINED && newLayout == TRANSFER_DST_OPTIMAL)
    || (oldLayout == TRANSFER_DST_OPTIMAL && newLayout == SHADER_READ_ONLY_OPTIMAL)
  }

  /** Exactly the three supported layout pairs are accepted; for each, every access in a
      mask can happen at that mask's stage, nothing is waited for when the old contents
      are undefined, and the layout reached is written (depth or transfer) or read
      (shader) as the new layout intends. */
  lemma TransitionTableIsConsistent(oldLayout: ImageLayout, newLayout: ImageLayout)
    ensures TransitionMasks(oldLayout, newLayout).Ok? <==> SupportedTransition(oldLayout, newLayout)
    ensures TransitionMasks(oldLayout, newLayout).Ok? ==>
      var m := TransitionMasks(oldLayout, newLayout).value;
      && (forall a :: a in m.srcAccess ==> m.srcStage in AccessStages(a))
      && (forall a :: a in m.dstAccess ==> m.dstStage in AccessStages(a))
      && (m.srcAccess == {} <==> oldLayout == LAYOUT_UNDEFINED)
      && (newLayout == SHADER_READ_ONLY_OPTIMAL ==> m.dstAccess == {SHADER_READ})
      && (newLayout == TRANSFER_DST_OPTIMAL ==> m.dstAccess == {TRANSFER_WRITE})
      && (newLayout == DEPTH_STENCIL_ATTACHMENT_OPTIMAL ==> DEPTH_STENCIL_ATTACHMENT_WRITE in m.dstAccess)
  {
  }

  /** Whether a format has a stencil component. */
  predicate HasStencil(format: Format) {
    format == D32_SFLOAT_S8_UINT || format == D24_UNORM_S8_UINT
  }

  /** The aspect mask of `transition_image_layout`. */
  function AspectMask(format: Format, newLayout: ImageLayout): set<Aspect> {
    if newLayout == DEPTH_STENCIL_ATTACHMENT_OPTIMAL then
      match format
      case D32_SFLOAT_S8_UINT => {DEPTH, STENCIL}
      case D24_UNORM_S8_UINT => {DEPTH, STENCIL}
      case D32_SFLOAT => {DEPTH}
      case _ => {COLOR}
    else {COLOR}
  }

  /** One pipeline barrier: levels [baseMipLevel, baseMipLevel + levelCount) of the image's
      aspects move from `oldLayout` to `newLayout`. */
  datatype LayoutBarrier = LayoutBarrier(
    oldLayout: ImageLayout, newLayout: ImageLayout, aspects: set<Aspect>,
    baseMipLevel: nat, levelCount: nat, masks: BarrierMasks)

  /** `transition_image_layout`: an unsupported layout pair is rejected before anything is
      recorded; otherwise the barrier over all `mipLevels` levels is recorded into a one-off
      command buffer, and a failure to begin or to end and run that buffer is returned. */
  function TransitionImageLayout(format: Format, mipLevels: nat,
                                 oldLayout: ImageLayout, newLayout: ImageLayout,
                                 replies: TransientReplies): (r: Result<LayoutBarrier, TransitionError>)
    ensures r == Err(UnsupportedLayoutTransition) <==> !SupportedTransition(oldLayout, newLayout)
    ensures SupportedTransition(oldLayout, newLayout) && replies.begin.Err? ==>
      r == Err(TransitionCommandsFailed(replies.begin.error))
    ensures SupportedTransition(oldLayout, newLayout) && replies.begin.Ok? && replies.end.Err? ==>
      r == Err(TransitionCommandsFailed(replies.end.error))
    ensures r.Ok? <==> SupportedTransition(oldLayout, newLayout) && replies.begin.Ok? && replies.end.Ok?
    ensures r.Ok? ==>
      && r.value.oldLayout == oldLayout && r.value.newLayout == newLayout
      && r.value.baseMipLevel == 0 && r.value.levelCount == mipLevels
      && r.value.masks == TransitionMasks(oldLayout, newLayout).value
      && r.value.aspects == AspectMask(format, newLayout)
      && r.value.aspects != {}
  {
    TransitionTableIsConsistent(oldLayout, newLayout);
    match TransitionMasks(oldLayout, newLayout)
    case Err(e) => Err(e)
    case Ok(m) =>
      if replies.begin.Err? then Err(TransitionCommandsFailed(replies.begin.error))
      else if replies.end.Err? then Err(TransitionCommandsFailed(replies.end.error))
      else Ok(LayoutBarrier(oldLayout, newLayout, AspectMask(format, newLayout), 0, mipLevels, m))
  }

  /** A transition to the depth attachment layout of any format the depth search can return
      covers the depth aspect, and the stencil aspect exactly when the format has stencil;
      every other transition covers only the colour aspect. */
  lemma DepthAspectMatchesFormat(format: Format, newLayout: ImageLayout)
    ensures newLayout == DEPTH_STENCIL_ATTACHMENT_OPTIMAL
            && format in [D32_SFLOAT, D32_SFLOAT_S8_UINT, D24_UNORM_S8_UINT] ==>
      DEPTH in AspectMask(format, newLayout)
      && COLOR !in AspectMask(format, newLayout)
      && (STENCIL in AspectMask(format, newLayout) <==> HasStencil(format))
    ensures newLayout != DEPTH_STENCIL_ATTACHMENT_OPTIMAL ==> AspectMask(format, newLayout) == {COLOR}
  {
  }

  // ---------------------------------------------------------------------------------
  // Mip levels

  function Pow2(k: nat): (r: nat)
    ensures r >= 1
  {
    if k == 0 then 1 else 2 * Pow2(k - 1)
  }

  /** Number of binary digits of n (0 for 0). */
  function BitLength(n: nat): nat {
    if n == 0 then 0 else 1 + BitLength(n / 2)
  }

  /** `floor(log2(max(width, height))) + 1` from `create_texture_image`, computed on integers.
      For a zero-sized image the float logarithm is minus infinity, which the saturating
      cast turns into 0, so the count is 1. */
  function MipLevels(width: U32, height: U32): nat {
    var m := if width >= height then width else height;
    if m == 0 then 1 else BitLength(m)
  }

  /** One step of `generate_mipmaps`' size update: halve (rounding down) only while above 1. */
  function Halve(x: nat): nat {
    if x > 1 then x / 2 else x
  }

  /** The size after k halving steps. */
  function Halved(x: nat, k: nat): nat {
    if k == 0 then x else Halved(Halve(x), k - 1)
  }

  lemma {:induction false} BitLengthBounds(n: nat)
    requires n >= 1
    ensures BitLength(n) >= 1
    ensures Pow2(BitLength(n) - 1) <= n < Pow2(BitLength(n))
  {
    if n > 1 {
      BitLengthBounds(n / 2);
    }
  }

  lemma {:induction false} HalvedIsOneAfterBitLengthSteps(n: nat)
    requires n >= 1
    ensures BitLength(n) >= 1 && Halved(n, BitLength(n) - 1) == 1
  {
    if n > 1 {
      HalvedIsOneAfterBitLengthSteps(n / 2);
      assert Halve(n) == n / 2;
    }
  }

  /** The mip-level count is floor(log2(max(w, h))) + 1: 2^(levels-1) <= max(w, h) < 2^levels,
      and halving the larger side `levels - 1` times brings it to exactly one texel, so the
      last level generated is one texel along its larger side. */
  lemma MipLevelsIsFloorLog2PlusOne(width: U32, height: U32)
    requires width >= 1 || height >= 1
    ensures var m := if width >= height then width else height;
      && MipLevels(width, height) >= 1
      && Pow2(MipLevels(width, height) - 1) <= m < Pow2(MipLevels(width, height))
      && Halved(m, MipLevels(width, height) - 1) == 1
  {
    var m := if width >= height then width else height;
    BitLengthBounds(m);
    HalvedIsOneAfterBitLengthSteps(m);
  }

  // ---------------------------------------------------------------------------------
  // Mipmap generation

  /** A command recorded into the command buffer by `generate_mipmaps`. */
  datatype MipCommand =
    | Barrier(level: nat, oldLayout: ImageLayout, newLayout: ImageLayout,
              srcAccess: set<Access>, dstAccess: set<Access>,
              srcStage: PipelineStage, dstStage: PipelineStage)
    | Blit(srcLevel: nat, srcWidth: nat, srcHeight: nat,
           dstLevel: nat, dstWidth: nat, dstHeight: nat)

  datatype MipmapError =
    | LinearBlittingUnsupported(format: Format)
    | MipmapCommandsFailed(error: VkError)

  /** The blit's destination size along one side: half, but never below 1. */
  function BlitSize(x: nat): nat {
    if x > 1 then x / 2 else 1
  }

  /** The commands of loop iteration i, whose source level i - 1 is w by h texels. */
  function IterationCommands(i: nat, w: nat, h: nat): seq<MipCommand>
    requires i >= 1
  {
    [ Barrier(i - 1, TRANSFER_DST_OPTIMAL, TRANSFER_SRC_OPTIMAL,
              {TRANSFER_WRITE}, {TRANSFER_READ}, TRANSFER, TRANSFER),
      Blit(i - 1, w, h, i, BlitSize(w), BlitSize(h)),
      Barrier(i - 1, TRANSFER_SRC_OPTIMAL, SHADER_READ_ONLY_OPTIMAL,
              {TRANSFER_READ}, {SHADER_READ}, TRANSFER, FRAGMENT_SHADER) ]
  }

  /** The commands of iterations i .. n-1, level i - 1 being w by h texels. */
  function IterationsFrom(i: nat, n: nat, w: nat, h: nat): seq<MipCommand>
    requires i >= 1
    decreases n - i
  {
    if i >= n then [] else IterationCommands(i, w, h) + IterationsFrom(i + 1, n, Halve(w), Halve(h))
  }

  /** The barrier after the loop, for the last level, which was only ever a blit destination. */
  function FinalBarrier(n: nat): MipCommand
    requires n >= 1
  {
    Barrier(n - 1, TRANSFER_DST_OPTIMAL, SHADER_READ_ONLY_OPTIMAL,
            {TRANSFER_WRITE}, {SHADER_READ}, TRANSFER, FRAGMENT_SHADER)
  }

  /** Everything `generate_mipmaps` records for a `width` by `height` image with n levels. */
  function MipCommands(width: nat, height: nat, n: nat): seq<MipCommand>
    requires n >= 1
  {
    IterationsFrom(1, n, width, height) + [FinalBarrier(n)]
  }

  /** `generate_mipmaps`: fails before recording anything unless the format's optimal
      tiling supports linear filtering; otherwise records the whole mip chain into a one-off
      command buffer, and a failure to begin or to end and run that buffer is returned. The
      count `mipLevels` is at least 1 at the only call site (`mip_levels - 1` underflows
      otherwise). */
  method GenerateMipmaps(format: Format, width: U32, height: U32, mipLevels: nat,
                         query: Format -> FormatProperties, replies: TransientReplies)
    returns (r: Result<seq<MipCommand>, MipmapError>)
    requires mipLevels >= 1
    ensures SAMPLED_IMAGE_FILTER_LINEAR !in query(format).optimalTilingFeatures ==>
      r == Err(LinearBlittingUnsupported(format))
    ensures SAMPLED_IMAGE_FILTER_LINEAR in query(format).optimalTilingFeatures && replies.begin.Err? ==>
      r == Err(MipmapCommandsFailed(replies.begin.error))
    ensures SAMPLED_IMAGE_FILTER_LINEAR in query(format).optimalTilingFeatures
            && replies.begin.Ok? && replies.end.Err? ==>
      r == Err(MipmapCommandsFailed(replies.end.error))
    ensures SAMPLED_IMAGE_FILTER_LINEAR in query(format).optimalTilingFeatures
            && replies.begin.Ok? && replies.end.Ok? ==>
      r == Ok(MipCommands(width, height, mipLevels))
  {
    if SAMPLED_IMAGE_FILTER_LINEAR !in query(format).optimalTilingFeatures {
      return Err(LinearBlittingUnsupported(format));
    }
    if replies.begin.Err? {
      return Err(MipmapCommandsFailed(replies.begin.error));
    }
    var commands: seq<MipCommand> := [];
    var mipWidth: nat := width;
    var mipHeight: nat := height;
    var i := 1;
    while i < mipLevels
      invariant 1 <= i <= mipLevels
      invariant commands + IterationsFrom(i, mipLevels, mipWidth, mipHeight)
                == IterationsFrom(1, mipLevels, width, height)
    {
      ghost var before, w0, h0 := commands, mipWidth, mipHeight;
      // level i - 1 becomes a blit source
      commands := commands + [Barrier(i - 1, TRANSFER_DST_OPTIMAL, TRANSFER_SRC_OPTIMAL,
                                      {TRANSFER_WRITE}, {TRANSFER_READ}, TRANSFER, TRANSFER)];
      var dstWidth := if mipWidth > 1 then mipWidth / 2 else 1;
      var dstHeight := if mipHeight > 1 then mipHeight / 2 else 1;
      commands := commands + [Blit(i - 1, mipWidth, mipHeight, i, dstWidth, dstHeight)];
      // level i - 1 is final: hand it to the fragment shader
      commands := commands + [Barrier(i - 1, TRANSFER_SRC_OPTIMAL, SHADER_READ_ONLY_OPTIMAL,
                                      {TRANSFER_READ}, {SHADER_READ}, TRANSFER, FRAGMENT_SHADER)];
      if mipWidth > 1 {
        mipWidth := mipWidth / 2;
      }
      if mipHeight > 1 {
        mipHeight := mipHeight / 2;
      }
      assert commands == before + IterationCommands(i, w0, h0);
      IterationStep(before, i, mipLevels, w0, h0);
      i := i + 1;
    }
    assert IterationsFrom(i, mipLevels, mipWidth, mipHeight) == [];
    assert commands == IterationsFrom(1, mipLevels, width, height);
    commands := commands + [Barrier(mipLevels - 1, TRANSFER_DST_OPTIMAL, SHADER_READ_ONLY_OPTIMAL,
                                    {TRANSFER_WRITE}, {SHADER_READ}, TRANSFER, FRAGMENT_SHADER)];
    if replies.end.Err? {
      return Err(MipmapCommandsFailed(replies.end.error));
    }
    return Ok(commands);
  }

  /** One loop iteration moves its three commands from the pending iterations to the
      recorded ones. */
  lemma IterationStep(before: seq<MipCommand>, i: nat, n: nat, w: nat, h: nat)
    requires 1 <= i < n
    ensures (before + IterationCommands(i, w, h)) + IterationsFrom(i + 1, n, Halve(w), Halve(h))
            == before + IterationsFrom(i, n, w, h)
  {
  }

  /** How many barriers in `commands` move `level` to SHADER_READ_ONLY_OPTIMAL. */
  function ShaderReadTransitions(commands: seq<MipCommand>, level: nat): nat {
    if commands == [] then 0
    else
      var c := commands[0];
      (if c.Barrier? && c.level == level && c.newLayout == SHADER_READ_ONLY_OPTIMAL then 1 else 0)
      + ShaderReadTransitions(commands[1..], level)
  }

  lemma {:induction false} ShaderReadTransitionsAppend(a: seq<MipCommand>, b: seq<MipCommand>, level: nat)
    ensures ShaderReadTransitions(a + b, level)
            == ShaderReadTransitions(a, level) + ShaderReadTransitions(b, level)
  {
    if a == [] {
      assert a + b == b;
    } else {
      assert (a + b)[0] == a[0];
      assert (a + b)[1..] == a[1..] + b;
      ShaderReadTransitionsAppend(a[1..], b, level);
    }
  }

  lemma {:induction false} IterationsShaderRead(i: nat, n: nat, w: nat, h: nat, level: nat)
    requires i >= 1
    ensures ShaderReadTransitions(IterationsFrom(i, n, w, h), level)
            == if i - 1 <= level < n - 1 then 1 else 0
    decreases n - i
  {
    if i < n {
      var first := IterationCommands(i, w, h);
      ShaderReadTransitionsAppend(first, IterationsFrom(i + 1, n, Halve(w), Halve(h)), level);
      IterationsShaderRead(i + 1, n, Halve(w), Halve(h), level);
      assert first[1..] == [first[1], first[2]];
      assert first[1..][1..] == [first[2]];
      assert first[1..][1..][1..] == [];
      assert ShaderReadTransitions(first[1..][1..], level) == if level == i - 1 then 1 else 0;
      assert ShaderReadTransitions(first[1..], level) == if level == i - 1 then 1 else 0;
      assert ShaderReadTransitions(first, level) == if level == i - 1 then 1 else 0;
    }
  }

  /** Every level below `n` is handed to the fragment shader (moved to
      SHADER_READ_ONLY_OPTIMAL) exactly once, and no other level is. */
  lemma EveryLevelReadOnlyOnce(width: nat, height: nat, n: nat, level: nat)
    requires n >= 1
    ensures ShaderReadTransitions(MipCommands(width, height, n), level) == if level < n then 1 else 0
  {
    IterationsShaderRead(1, n, width, height, level);
    ShaderReadTransitionsAppend(IterationsFrom(1, n, width, height), [FinalBarrier(n)], level);
    assert [FinalBarrier(n)][1..] == [];
  }

  lemma {:induction false} HalvedPositive(x: nat, k: nat)
    requires x >= 1
    ensures Halved(x, k) >= 1
  {
    if k > 0 {
      HalvedPositive(Halve(x), k - 1);
    }
  }

  lemma {:induction false} IterationBlits(i: nat, n: nat, w: nat, h: nat, width: nat, height: nat, k: nat)
    requires i >= 1 && w == Halved(width, i - 1) && h == Halved(height, i - 1)
    requires width >= 1 && height >= 1
    requires k < |IterationsFrom(i, n, w, h)|
    ensures var c := IterationsFrom(i, n, w, h)[k];
      c.Blit? ==>
        && c.dstLevel == c.srcLevel + 1 && c.srcLevel >= i - 1
        && c.srcWidth == Halved(width, c.srcLevel) && c.srcHeight == Halved(height, c.srcLevel)
        && c.dstWidth == Halved(width, c.dstLevel) && c.dstHeight == Halved(height, c.dstLevel)
        && c.dstWidth >= 1 && c.dstHeight >= 1
    decreases n - i
  {
    HalvedPositive(width, i - 1);
    HalvedPositive(height, i - 1);
    if i < n {
      if k >= 3 {
        HalvedStep(width, i - 1);
        HalvedStep(height, i - 1);
        IterationBlits(i + 1, n, Halve(w), Halve(h), width, height, k - 3);
      } else {
        HalvedStep(width, i - 1);
        HalvedStep(height, i - 1);
        HalvedPositive(width, i);
        HalvedPositive(height, i);
      }
    }
  }

  lemma {:induction false} HalvedStep(x: nat, k: nat)
    ensures Halved(x, k + 1) == Halve(Halved(x, k))
  {
    if k > 0 {
      HalvedStep(Halve(x), k - 1);
    }
  }

  /** For an image of at least one texel, every blit reads level l at its size (the image
      halved l times, never below 1) and writes level l + 1 at the next size, which is
      again at least one texel. */
  lemma BlitsFollowTheMipChain(width: nat, height: nat, n: nat, k: nat)
    requires width >= 1 && height >= 1 && n >= 1
    requires k < |MipCommands(width, height, n)|
    ensures var c := MipCommands(width, height, n)[k];
      c.Blit? ==>
        && c.dstLevel == c.srcLevel + 1 && c.dstLevel < n
        && c.srcWidth == Halved(width, c.srcLevel) && c.srcHeight == Halved(height, c.srcLevel)
        && c.dstWidth == Halved(width, c.dstLevel) && c.dstHeight == Halved(height, c.dstLevel)
        && c.dstWidth >= 1 && c.dstHeight >= 1
  {
    var loop := IterationsFrom(1, n, width, height);
    if k < |loop| {
      IterationBlits(1, n, width, height, width, height, k);
      BlitLevelsBelow(1, n, width, height, k);
    }
  }

  lemma {:induction false} BlitLevelsBelow(i: nat, n: nat, w: nat, h: nat, k: nat)
    requires i >= 1
    requires k < |IterationsFrom(i, n, w, h)|
    ensures var c := IterationsFrom(i, n, w, h)[k]; c.Blit? ==> c.srcLevel + 1 < n
    decreases n - i
  {
    if i < n && k >= 3 {
      BlitLevelsBelow(i + 1, n, Halve(w), Halve(h), k - 3);
    }
  }
}
