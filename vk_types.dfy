/**
 * Shared vocabulary of the renderer model: opaque Vulkan handles, the
 * constants of ref_vk/vk_common.c, the dynamic-buffer record and the events
 * that stand for calls into the Vulkan driver and the memory allocator.
 */
module VkTypes {

  /** Vulkan objects are opaque: only their identity matters to the model. */
  type BufferId = nat
  type DescSetId = nat
  type CmdBufferId = nat
  /** A pipeline handle; 0 plays the part of VK_NULL_HANDLE. */
  type PipelineId = nat

  const NULL_HANDLE: PipelineId := 0

  /** Instances per dynamic buffer kind; also the number of staging buffers. */
  const NUM_DYNBUFFERS: nat := 2
  /** Slots of the deferred-free ring. */
  const NUM_SWAPBUFFER_SLOTS: nat := 4
  /** Frame slots (command buffer, fence and semaphores). */
  const NUM_CMDBUFFERS: nat := 2
  /** The uniform allocator tests this many bytes against the capacity. */
  const UNIFORM_ALLOC_SIZE: nat := 1024
  /** Start capacities of the three dynamic buffer kinds, in bytes. */
  const VERTEX_BUFFER_SIZE: nat := 1024 * 1024
  const INDEX_BUFFER_SIZE: nat := 2 * 1024
  const UNIFORM_BUFFER_SIZE: nat := 2048 * 1024
  /** Fixed size of each staging buffer, in bytes. */
  const STAGING_BUFFER_MAXSIZE: nat := 8192 * 1024
  /** Initial number of triangles in the triangle-fan index prefix. */
  const TRIANGLE_FAN_INDEX_CNT: nat := 200
  /** Alignments of index and uniform allocations, in bytes. */
  const INDEX_ALIGNMENT: nat := 4
  const UNIFORM_ALIGNMENT: nat := 256
  /**
   * The largest request size for which the narrowing of a 64-bit size to a
   * signed 32-bit int followed by NextPow2 stays in range (2^30).
   */
  const MAX_REQUEST_SIZE: nat := 0x4000_0000

  function Max(a: nat, b: nat): (r: nat)
    ensures r >= a && r >= b && (r == a || r == b)
  {
    if a >= b then a else b
  }

  /**
   * Rounding up to a multiple of a, as every allocator writes it: x when x is
   * already a multiple, otherwise x + a - x % a.
   */
  function AlignUp(x: nat, a: nat): (r: nat)
    requires a > 0
    ensures r % a == 0
    ensures x <= r < x + a
  {
    if x % a == 0 then x
    else
      ModUnique(x + a - x % a, a, x / a + 1, 0);
      x + a - x % a
  }

  /** AlignUp gives the least multiple of a that is at least x. */
  lemma AlignUpLeast(x: nat, a: nat, m: nat)
    requires a > 0 && m % a == 0 && x <= m
    ensures AlignUp(x, a) <= m
  {
    if x % a != 0 {
      ModUnique(m, a, m / a, 0);
      ModUnique(x, a, x / a, x % a);
      if m / a <= x / a {
        MulMonotone(a, m / a, x / a);
        assert false;
      }
      MulMonotone(a, x / a + 1, m / a);
    }
  }

  lemma SumAligned(x: nat, y: nat, a: nat)
    requires a > 0 && x % a == 0 && y % a == 0
    ensures (x + y) % a == 0
  {
    ModUnique(x, a, x / a, 0);
    ModUnique(y, a, y / a, 0);
    ModUnique(x + y, a, x / a + y / a, 0);
  }

  lemma MulMonotone(a: nat, i: int, j: int)
    requires i <= j
    ensures i * a <= j * a
  {
  }

  /** Division with remainder is unique: the quotient and remainder of x by a are q and r. */
  lemma ModUnique(x: int, a: int, q: int, r: int)
    requires a > 0 && x == q * a + r && 0 <= r < a
    ensures x % a == r && x / a == q
  {
    var d := q - x / a;
    assert d * a == x % a - r;
  }


  /**
   * One instance of a dynamic buffer (qvkbuffer_t): its handle, its bump
   * offset and, for index data, the 16-bit values known to be stored in its
   * mapped memory, keyed by halfword position (byte offset / 2).
   */
  datatype DynBuffer = DynBuffer(id: BufferId, currentOffset: nat, halfwords: map<nat, nat>)

  /** A buffer just created by the allocator: offset 0, contents unknown. */
  function FreshBuffer(id: BufferId): DynBuffer
  {
    DynBuffer(id, 0, map[])
  }

  /** A staging buffer (qvkstagingbuffer_t) without its fence and memory. */
  datatype StagingBuffer = StagingBuffer(buffer: BufferId, cmdBuffer: CmdBufferId, currentOffset: nat, submitted: bool)

  /** Steps of QVk_RecreateSwapchain, see Renderpasses.RecreateSwapchainSteps. */
  datatype SwapchainStep =
    | WaitDeviceIdle
    | DestroyFramebuffers
    | DestroyImageViews
    | CreateSwapchain
    | DestroyDrawBuffers
    | CreateDrawBuffers
    | CreateImageViews
    | CreateFramebuffers

  /** Calls into the driver or the allocator that the model records in order. */
  datatype Event =
    | FreeBuffer(buffer: BufferId)
    | FreeDescriptorSets(sets: seq<DescSetId>)
    | SubmitStaging(staging: nat)
    | WaitStagingFence(staging: nat)
    | AcquireImage(slot: nat)
    | WaitFrameFence(slot: nat)
    | SubmitFrame(slot: nat)
    | Present(slot: nat)
    | EndWorldRenderpass
    | Swapchain(step: SwapchainStep)
    | BindPipeline(pipeline: PipelineId)
}
