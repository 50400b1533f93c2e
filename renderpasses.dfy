/**
 * The world renderpass's attachment count and the order of swapchain
 * recreation (ref_vk/vk_common.c:347, 425-498, 1870, 1896-1909).
 * With multisampling the world pass renders into an MSAA colour buffer and
 * resolves into the colour buffer, so it has three attachments (colour,
 * depth, resolve); without, two (colour, depth). The count is written out in
 * three places, which must agree with each other and with the three-entry
 * arrays they describe.
 */
module Renderpasses {
  import opened VkTypes

  /** VkSampleCountFlagBits values the renderer selects from. */
  datatype SampleCount = S1 | S2 | S4 | S8 | S16

  /** Attachments of the world renderpass, in array order. */
  datatype Attachment = Color | Depth | MsaaResolve

  /** The attachment description, image view and clear value arrays, all three entries long. */
  const WORLD_ATTACHMENTS: seq<Attachment> := [Color, Depth, MsaaResolve]
  const CLEAR_VALUE_COUNT: nat := 3

  function MsaaEnabled(s: SampleCount): bool
  {
    s != S1
  }

  /** Framebuffer creation: attachmentCount of the world framebuffer. */
  function FramebufferAttachmentCount(s: SampleCount): nat
  {
    if s != S1 then 3 else 2
  }

  /** Renderpass creation: attachmentCount, through the msaaEnabled flag. */
  function RenderpassAttachmentCount(msaaEnabled: bool): nat
  {
    if msaaEnabled then 3 else 2
  }

  /** Beginning the world renderpass: clearValueCount. */
  function ClearValueCount(s: SampleCount): nat
  {
    if s != S1 then 3 else 2
  }

  /**
   * The subpass's colour attachment reference: with MSAA the multisampled
   * attachment (entry 2), which resolves into entry 0; without, entry 0.
   */
  function ColorReference(msaaEnabled: bool): nat
  {
    if msaaEnabled then 2 else 0
  }

  const DEPTH_REFERENCE: nat := 1

  /**
   * The three counts agree for every sample count, are three exactly with
   * MSAA, never exceed the arrays they count, and cover every attachment
   * the subpass references.
   */
  lemma AttachmentCountsAgree(s: SampleCount)
    ensures FramebufferAttachmentCount(s) == RenderpassAttachmentCount(MsaaEnabled(s)) == ClearValueCount(s)
    ensures FramebufferAttachmentCount(s) == 3 <==> MsaaEnabled(s)
    ensures FramebufferAttachmentCount(s) <= |WORLD_ATTACHMENTS| && ClearValueCount(s) <= CLEAR_VALUE_COUNT
    ensures ColorReference(MsaaEnabled(s)) < RenderpassAttachmentCount(MsaaEnabled(s))
    ensures DEPTH_REFERENCE < RenderpassAttachmentCount(MsaaEnabled(s))
    ensures WORLD_ATTACHMENTS[DEPTH_REFERENCE] == Depth
  {
  }

  /** QVk_RecreateSwapchain's calls, in order (the viewport update in between is left out). */
  const RECREATE_SWAPCHAIN_STEPS: seq<SwapchainStep> :=
    [WaitDeviceIdle, DestroyFramebuffers, DestroyImageViews, CreateSwapchain,
     DestroyDrawBuffers, CreateDrawBuffers, CreateImageViews, CreateFramebuffers]

  /** Position of a step in the recreation order. */
  function StepIndex(s: SwapchainStep): (i: nat)
    ensures i < |RECREATE_SWAPCHAIN_STEPS| && RECREATE_SWAPCHAIN_STEPS[i] == s
  {
    match s
    case WaitDeviceIdle => 0
    case DestroyFramebuffers => 1
    case DestroyImageViews => 2
    case CreateSwapchain => 3
    case DestroyDrawBuffers => 4
    case CreateDrawBuffers => 5
    case CreateImageViews => 6
    case CreateFramebuffers => 7
  }

  /**
   * Recreation waits for the device first, takes every step exactly once,
   * destroys framebuffers before the image views and draw buffers they use,
   * and creates them only after the new swapchain's image views and the new
   * draw buffers exist.
   */
  lemma RecreationOrder()
    ensures RECREATE_SWAPCHAIN_STEPS[0] == WaitDeviceIdle
    ensures forall i, j :: 0 <= i < j < |RECREATE_SWAPCHAIN_STEPS| ==> RECREATE_SWAPCHAIN_STEPS[i] != RECREATE_SWAPCHAIN_STEPS[j]
    ensures forall s: SwapchainStep :: s in RECREATE_SWAPCHAIN_STEPS
    ensures StepIndex(DestroyFramebuffers) < StepIndex(DestroyImageViews) && StepIndex(DestroyFramebuffers) < StepIndex(DestroyDrawBuffers)
    ensures StepIndex(DestroyImageViews) < StepIndex(CreateSwapchain) < StepIndex(CreateImageViews)
    ensures StepIndex(CreateImageViews) < StepIndex(CreateFramebuffers) && StepIndex(CreateDrawBuffers) < StepIndex(CreateFramebuffers)
    ensures StepIndex(DestroyDrawBuffers) < StepIndex(CreateDrawBuffers)
  {
    forall s: SwapchainStep ensures s in RECREATE_SWAPCHAIN_STEPS {
      var _ := StepIndex(s);
    }
  }
}
