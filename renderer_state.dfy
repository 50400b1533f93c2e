/**
 * The renderer state of ref_vk/vk_common.c as one value, and each of its
 * operations as a function from the state before to the state after. The
 * class VkCommon.Renderer keeps the same state in fields and arrays and is
 * proved to follow these functions; the lemmas here state what the
 * operations promise.
 */
module RendererState {
  import opened VkTypes
  import DynAlloc
  import Graveyard
  import Staging
  import TriangleFan
  import VkResults
  import Renderpasses

  /**
   * vertex, index, uniform: the vk_dyn*Buffers arrays with their vk_config
   * capacity, usage and peak usage; uboSets: vk_uboDescriptorSets;
   * fanCount, fanUsage, fanMaxUsage: the triangle_fan_index_* counters;
   * fanSlot: the slot vk_triangleFanIbo points into; pipeline:
   * vk_state.current_pipeline; postprocess: vk_postprocessPipeline's handle;
   * nextBuffer, nextSet: the handles the driver will hand out next; calls:
   * the driver calls made so far.
   */
  datatype Vk = Vk(
    vertex: DynAlloc.Pool, index: DynAlloc.Pool, uniform: DynAlloc.Pool,
    uboSets: seq<DescSetId>,
    fanCount: nat, fanUsage: nat, fanMaxUsage: nat,
    activeDyn: nat,
    grave: Graveyard.Ring,
    staging: Staging.Ring,
    fanSlot: nat, fanIboUsage: nat,
    activeBuffer: nat, frameStarted: bool,
    pipeline: PipelineId, postprocess: PipelineId,
    nextBuffer: BufferId, nextSet: DescSetId,
    calls: seq<Event>)

  /** Array lengths and index ranges. */
  predicate Shape(v: Vk)
  {
    && DynAlloc.PoolShape(v.vertex) && DynAlloc.PoolShape(v.index) && DynAlloc.PoolShape(v.uniform)
    && |v.uboSets| == NUM_DYNBUFFERS
    && v.activeDyn < NUM_DYNBUFFERS && v.fanSlot < NUM_DYNBUFFERS && v.activeBuffer < NUM_CMDBUFFERS
    && Graveyard.Valid(v.grave) && Staging.Valid(v.staging)
  }

  /**
   * What the allocators keep: capacities at least their start values,
   * vertex and index offsets within capacity, index offsets multiples of 4,
   * uniform offsets multiples of 256, usage never above peak usage.
   */
  predicate Pools(v: Vk)
    requires Shape(v)
  {
    && v.vertex.size >= VERTEX_BUFFER_SIZE && v.index.size >= INDEX_BUFFER_SIZE && v.uniform.size >= UNIFORM_BUFFER_SIZE
    && DynAlloc.OffsetsWithin(v.vertex) && DynAlloc.OffsetsWithin(v.index)
    && DynAlloc.OffsetsAligned(v.index, INDEX_ALIGNMENT) && DynAlloc.OffsetsAligned(v.uniform, UNIFORM_ALIGNMENT)
    && v.vertex.usage <= v.vertex.maxUsage && v.index.usage <= v.index.maxUsage && v.uniform.usage <= v.uniform.maxUsage
    && v.fanUsage <= v.fanMaxUsage
    && v.index.bufs[0].id != v.index.bufs[1].id
    && Staging.Inv(v.staging)
  }

  /**
   * The triangle-fan bookkeeping: the bytes reserved at the start of each
   * index buffer are 6 * count rounded up to 4, fit the capacity and are
   * covered by the peak usage.
   */
  predicate FanReserved(v: Vk)
  {
    && v.fanCount >= 1
    && v.fanIboUsage == AlignUp(6 * v.fanCount, INDEX_ALIGNMENT)
    && v.fanIboUsage <= v.index.size && v.fanIboUsage <= v.index.maxUsage
  }

  predicate Inv(v: Vk)
  {
    Shape(v) && Pools(v) && FanReserved(v)
  }

  // ---------------------------------------------------------------- allocators

  /** QVk_GetVertexBuffer: the buffer and offset handed out. */
  function GetVertexBuffer(v: Vk, size: nat): (r: (Vk, BufferId, nat))
    requires Shape(v) && size <= MAX_REQUEST_SIZE
    ensures Shape(r.0)
  {
    var g := DynAlloc.Allocate(DynAlloc.Vertex, v.vertex, v.activeDyn, size, v.nextBuffer);
    (v.(vertex := g.pool, nextBuffer := g.nextId, grave := Graveyard.RetireBuffers(v.grave, g.retired)), g.buffer, g.offset)
  }

  /** QVk_GetIndexBuffer: the offset handed out in the active index buffer. */
  function GetIndexBuffer(v: Vk, size: nat): (r: (Vk, nat))
    requires Shape(v) && size <= MAX_REQUEST_SIZE
    ensures Shape(r.0)
  {
    var g := DynAlloc.Allocate(DynAlloc.Index, v.index, v.activeDyn, size, v.nextBuffer);
    (v.(index := g.pool, nextBuffer := g.nextId, grave := Graveyard.RetireBuffers(v.grave, g.retired)), g.offset)
  }

  /**
   * QVk_GetUniformBuffer: the offset handed out and the descriptor set of
   * the active uniform buffer. A growth also retires both descriptor sets
   * and creates one for each new buffer.
   */
  function GetUniformBuffer(v: Vk, size: nat): (r: (Vk, nat, DescSetId))
    requires Shape(v) && size <= MAX_REQUEST_SIZE
    ensures Shape(r.0)
  {
    var g := DynAlloc.Allocate(DynAlloc.Uniform, v.uniform, v.activeDyn, size, v.nextBuffer);
    var v1 := v.(uniform := g.pool, nextBuffer := g.nextId, grave := Graveyard.RetireBuffers(v.grave, g.retired));
    var v2 := if g.grown then RenewUboSets(v1) else v1;
    (v2, g.offset, v2.uboSets[v.activeDyn])
  }

  /** The descriptor sets of a uniform growth: the old ones are parked, the next two handles replace them. */
  function RenewUboSets(v: Vk): (r: Vk)
    requires Shape(v)
    ensures Shape(r)
  {
    v.(uboSets := [v.nextSet, v.nextSet + 1], nextSet := v.nextSet + NUM_DYNBUFFERS,
       grave := Graveyard.RetireDescSets(v.grave, v.uboSets))
  }

  /** The three allocators keep the invariant. */
  lemma GetVertexBufferKeepsInv(v: Vk, size: nat)
    requires Inv(v) && size <= MAX_REQUEST_SIZE
    ensures Inv(GetVertexBuffer(v, size).0)
  {
    DynAlloc.AllocateContract(DynAlloc.Vertex, v.vertex, v.activeDyn, size, v.nextBuffer);
    DynAlloc.AllocateKeepsWithin(DynAlloc.Vertex, v.vertex, v.activeDyn, size, v.nextBuffer);
  }

  /**
   * An index allocation keeps the allocator invariants, never lowers the
   * capacity or the peak usage, and the handed-out range fits.
   */
  lemma GetIndexBufferKeepsPools(v: Vk, size: nat)
    requires Shape(v) && Pools(v) && size <= MAX_REQUEST_SIZE
    ensures var (v', offset) := GetIndexBuffer(v, size);
      && Pools(v') && v'.index.size >= v.index.size && v'.index.maxUsage >= v.index.maxUsage
      && offset + AlignUp(size, INDEX_ALIGNMENT) <= v'.index.size
      && offset + AlignUp(size, INDEX_ALIGNMENT) <= v'.index.maxUsage
      && v'.activeDyn == v.activeDyn && v'.fanCount == v.fanCount && v'.fanIboUsage == v.fanIboUsage
  {
    DynAlloc.AllocateContract(DynAlloc.Index, v.index, v.activeDyn, size, v.nextBuffer);
    DynAlloc.AllocateKeepsWithin(DynAlloc.Index, v.index, v.activeDyn, size, v.nextBuffer);
    DynAlloc.IndexKeepsAlignment(v.index, v.activeDyn, size, v.nextBuffer);
    DynAlloc.IndexFits(v.index, v.activeDyn, size, v.nextBuffer);
  }

  lemma GetIndexBufferKeepsInv(v: Vk, size: nat)
    requires Inv(v) && size <= MAX_REQUEST_SIZE
    ensures Inv(GetIndexBuffer(v, size).0)
  {
    GetIndexBufferKeepsPools(v, size);
  }

  lemma GetUniformBufferKeepsInv(v: Vk, size: nat)
    requires Inv(v) && size <= MAX_REQUEST_SIZE
    ensures Inv(GetUniformBuffer(v, size).0)
  {
    DynAlloc.AllocateContract(DynAlloc.Uniform, v.uniform, v.activeDyn, size, v.nextBuffer);
    DynAlloc.UniformKeepsAlignment(v.uniform, v.activeDyn, size, v.nextBuffer);
  }

  // ---------------------------------------------------------------- staging

  /** QVk_GetStagingBuffer on the renderer: the staging ring's outcome, its driver calls recorded. */
  function GetStagingBuffer(v: Vk, size: nat, alignment: nat): (r: (Vk, Staging.Outcome))
    requires Shape(v) && alignment > 0
    ensures Shape(r.0)
  {
    var o := Staging.GetStaging(v.staging, size, alignment);
    (v.(staging := o.ring, calls := v.calls + (if o.Granted? then o.events else [])), o)
  }

  /** QVk_SubmitStagingBuffers on the renderer. */
  function SubmitStagingBuffers(v: Vk): (r: Vk)
    requires Shape(v)
    ensures Shape(r)
  {
    var (ring, events) := Staging.SubmitPending(v.staging);
    v.(staging := ring, calls := v.calls + events)
  }

  /** A granted staging request keeps the invariant; a request too large is fatal. */
  lemma GetStagingBufferKeepsInv(v: Vk, size: nat, alignment: nat)
    requires Inv(v) && alignment > 0
    ensures var (v', o) := GetStagingBuffer(v, size, alignment);
      (o.Fatal? <==> size > STAGING_BUFFER_MAXSIZE) && (o.Granted? ==> Inv(v'))
  {
    Staging.GetStagingTooLarge(v.staging, size, alignment);
    if size <= STAGING_BUFFER_MAXSIZE {
      Staging.GetStagingFits(v.staging, size, alignment);
    }
  }

  lemma SubmitStagingBuffersKeepsInv(v: Vk)
    requires Inv(v)
    ensures Inv(SubmitStagingBuffers(v))
  {
    Staging.SubmitPendingExactly(v.staging);
  }

  // ---------------------------------------------------------------- triangle fan

  /** The memcpy of the prefix into the active index buffer at byte offset offset. */
  function WriteFan(v: Vk, offset: nat): (r: Vk)
    requires Shape(v)
    ensures Shape(r)
  {
    var b := v.index.bufs[v.activeDyn];
    v.(index := v.index.(bufs := v.index.bufs[v.activeDyn := TriangleFan.WriteHalfwords(b, offset / 2, TriangleFan.FanList(v.fanCount))]))
  }

  /**
   * The second loop of RebuildTriangleFanIndexBuffer from iteration i on:
   * advance the dynamic-buffer index, allocate 6 * count bytes of index
   * buffer and copy the prefix there.
   */
  function RebuildFrom(v: Vk, i: nat): (r: Vk)
    requires Shape(v) && i <= NUM_DYNBUFFERS && 6 * v.fanCount <= MAX_REQUEST_SIZE
    ensures Shape(r) && r.fanCount == v.fanCount
    decreases NUM_DYNBUFFERS - i
  {
    if i == NUM_DYNBUFFERS then v
    else
      var (v1, offset) := GetIndexBuffer(v.(activeDyn := (v.activeDyn + 1) % NUM_DYNBUFFERS), 6 * v.fanCount);
      RebuildFrom(WriteFan(v1, offset), i + 1)
  }

  /**
   * RebuildTriangleFanIndexBuffer: the loop, then the fan IBO points at the
   * slot now active and the reserved size is 6 * count rounded up to 4.
   */
  function Rebuild(v: Vk): (r: Vk)
    requires Shape(v) && 6 * v.fanCount <= MAX_REQUEST_SIZE
    ensures Shape(r)
  {
    var v2 := RebuildFrom(v, 0);
    v2.(fanSlot := v2.activeDyn, fanIboUsage := AlignUp(6 * v.fanCount, INDEX_ALIGNMENT))
  }

  /** RebuildTriangleFanIndexBuffer as its loop followed by the final assignment. */
  lemma RebuildSteps(v: Vk, v2: Vk)
    requires Shape(v) && 6 * v.fanCount <= MAX_REQUEST_SIZE && v2 == RebuildFrom(v, 0)
    ensures Rebuild(v) == v2.(fanSlot := v2.activeDyn, fanIboUsage := AlignUp(6 * v2.fanCount, INDEX_ALIGNMENT))
  {
  }

  /** Doubling the triangle count is needed exactly when more indices are asked for than triangles are held. */
  predicate NeedsRebuild(v: Vk, indexCount: nat)
  {
    indexCount > v.fanCount
  }

  /**
   * QVk_GetTriangleFanIbo: raise usage and peak usage to indexCount, double
   * the count and rebuild when indexCount exceeds it, and return the buffer
   * now in the slot the last rebuild pointed at.
   */
  function GetTriangleFanIbo(v: Vk, indexCount: nat): (r: (Vk, BufferId))
    requires Shape(v) && (NeedsRebuild(v, indexCount) ==> 12 * v.fanCount <= MAX_REQUEST_SIZE)
    ensures Shape(r.0)
  {
    var v1 := TrackFanUsage(v, indexCount);
    var v2 := if NeedsRebuild(v1, indexCount) then GrowFan(v1) else v1;
    (v2, v2.index.bufs[v2.fanSlot].id)
  }

  /** Usage rises to indexCount and peak usage follows it; nothing else changes. */
  function TrackFanUsage(v: Vk, indexCount: nat): (r: Vk)
    ensures r.fanUsage >= indexCount && r.fanUsage >= v.fanUsage
    ensures r.fanMaxUsage >= r.fanUsage && r.fanMaxUsage >= v.fanMaxUsage
    ensures r == v.(fanUsage := r.fanUsage, fanMaxUsage := r.fanMaxUsage)
  {
    var usage := if indexCount > v.fanUsage then indexCount else v.fanUsage;
    v.(fanUsage := usage, fanMaxUsage := if usage > v.fanMaxUsage then usage else v.fanMaxUsage)
  }

  /** The count doubles and the index buffers are rebuilt. */
  function GrowFan(v: Vk): (r: Vk)
    requires Shape(v) && 12 * v.fanCount <= MAX_REQUEST_SIZE
    ensures Shape(r)
  {
    Rebuild(v.(fanCount := 2 * v.fanCount))
  }

  /** The rebuild loop from iteration i on is one iteration followed by the rest. */
  lemma RebuildFromStep(v: Vk, i: nat)
    requires Shape(v) && i < NUM_DYNBUFFERS && 6 * v.fanCount <= MAX_REQUEST_SIZE
    ensures RebuildFrom(v, i) == RebuildFrom(RebuildStep(v), i + 1)
  {
  }

  /** One iteration of the rebuild loop: the next slot becomes active and receives the prefix. */
  function RebuildStep(v: Vk): (r: Vk)
    requires Shape(v) && 6 * v.fanCount <= MAX_REQUEST_SIZE
    ensures Shape(r) && r.fanCount == v.fanCount
  {
    var res := GetIndexBuffer(v.(activeDyn := (v.activeDyn + 1) % NUM_DYNBUFFERS), 6 * v.fanCount);
    WriteFan(res.0, res.1)
  }

  /** One iteration, taken apart into its three steps. */
  lemma RebuildStepSteps(v: Vk, s1: Vk, s2: Vk, offset: nat)
    requires Shape(v) && 6 * v.fanCount <= MAX_REQUEST_SIZE
    requires s1 == v.(activeDyn := (v.activeDyn + 1) % NUM_DYNBUFFERS)
    requires s2 == GetIndexBuffer(s1, 6 * v.fanCount).0 && offset == GetIndexBuffer(s1, 6 * v.fanCount).1
    ensures RebuildStep(v) == WriteFan(s2, offset)
  {
    var res := GetIndexBuffer(s1, 6 * v.fanCount);
    assert res.0 == s2 && res.1 == offset;
  }

  /**
   * One iteration keeps the allocator invariants, and afterwards the
   * reserved prefix size fits the capacity and the peak usage.
   */
  lemma RebuildStepKeepsPools(v: Vk)
    requires Shape(v) && Pools(v) && 6 * v.fanCount <= MAX_REQUEST_SIZE
    ensures var r := RebuildStep(v);
      && Pools(r) && r.activeDyn == (v.activeDyn + 1) % NUM_DYNBUFFERS
      && r.fanCount == v.fanCount && r.fanUsage == v.fanUsage && r.fanMaxUsage == v.fanMaxUsage
      && r.index.size >= v.index.size && r.index.maxUsage >= v.index.maxUsage
      && AlignUp(6 * v.fanCount, INDEX_ALIGNMENT) <= r.index.size
      && AlignUp(6 * v.fanCount, INDEX_ALIGNMENT) <= r.index.maxUsage
  {
    var u := v.(activeDyn := (v.activeDyn + 1) % NUM_DYNBUFFERS);
    assert Pools(u);
    GetIndexBufferKeepsPools(u, 6 * v.fanCount);
    var res := GetIndexBuffer(u, 6 * v.fanCount);
    WriteFanKeepsPools(res.0, res.1);
    var r := RebuildStep(v);
    assert r == WriteFan(res.0, res.1);
    assert Pools(r);
    assert r.index.size >= res.0.index.size >= v.index.size;
    assert r.index.maxUsage >= res.0.index.maxUsage >= v.index.maxUsage;
  }

  /** Copying the prefix changes contents only: offsets, capacities and counters stay. */
  lemma WriteFanKeepsPools(v: Vk, offset: nat)
    requires Shape(v) && Pools(v)
    ensures var r := WriteFan(v, offset);
      && Pools(r) && r.index.size == v.index.size && r.index.maxUsage == v.index.maxUsage
      && r.activeDyn == v.activeDyn && r.fanCount == v.fanCount && r.fanUsage == v.fanUsage && r.fanMaxUsage == v.fanMaxUsage
  {
    var r := WriteFan(v, offset);
    assert forall i :: 0 <= i < NUM_DYNBUFFERS ==> r.index.bufs[i].currentOffset == v.index.bufs[i].currentOffset;
  }

  /** The rebuild loop is two iterations. */
  lemma RebuildUnrolled(v: Vk)
    requires Shape(v) && 6 * v.fanCount <= MAX_REQUEST_SIZE
    ensures RebuildFrom(v, 0) == RebuildStep(RebuildStep(v))
  {
    var w1 := RebuildStep(v);
    var w2 := RebuildStep(w1);
    assert RebuildFrom(v, 0) == RebuildFrom(w1, 1);
    assert RebuildFrom(w1, 1) == RebuildFrom(w2, 2);
  }

  /**
   * A rebuild keeps the allocator invariants, establishes the fan
   * bookkeeping for the current count, leaves the dynamic-buffer index and
   * the fan usage counters where they were and points the fan IBO at the
   * active slot.
   */
  lemma RebuildKeepsInv(v: Vk)
    requires Shape(v) && Pools(v) && v.fanCount >= 1 && 6 * v.fanCount <= MAX_REQUEST_SIZE
    ensures var r := Rebuild(v);
      && Inv(r) && r.activeDyn == v.activeDyn && r.fanSlot == v.activeDyn && r.fanCount == v.fanCount
      && r.fanIboUsage == AlignUp(6 * v.fanCount, INDEX_ALIGNMENT)
      && r.index.maxUsage >= v.index.maxUsage && r.fanUsage == v.fanUsage && r.fanMaxUsage == v.fanMaxUsage
  {
    RebuildUnrolled(v);
    RebuildStepKeepsPools(v);
    RebuildStepKeepsPools(RebuildStep(v));
  }

  /** QVk_GetTriangleFanIbo keeps the invariant. */
  lemma GetTriangleFanIboKeepsInv(v: Vk, indexCount: nat)
    requires Inv(v) && (NeedsRebuild(v, indexCount) ==> 12 * v.fanCount <= MAX_REQUEST_SIZE)
    ensures Inv(GetTriangleFanIbo(v, indexCount).0)
  {
    if NeedsRebuild(v, indexCount) {
      var v1 := TrackFanUsage(v, indexCount);
      RebuildKeepsInv(v1.(fanCount := 2 * v.fanCount));
    }
  }

  /**
   * One call: usage and peak usage reach indexCount, peak usage never
   * decreases, the count doubles exactly when indexCount exceeds it, the
   * dynamic-buffer index is unchanged, and the buffer returned is the one in
   * the slot of the last rebuild: the slot active now if this call rebuilt,
   * otherwise the slot recorded before.
   */
  lemma GetTriangleFanIboContract(v: Vk, indexCount: nat)
    requires Inv(v) && (NeedsRebuild(v, indexCount) ==> 12 * v.fanCount <= MAX_REQUEST_SIZE)
    ensures var (r, ibo) := GetTriangleFanIbo(v, indexCount);
      && r.fanUsage >= indexCount && r.fanUsage >= v.fanUsage && r.fanMaxUsage >= r.fanUsage && r.fanMaxUsage >= v.fanMaxUsage
      && r.fanCount == (if indexCount > v.fanCount then 2 * v.fanCount else v.fanCount)
      && r.activeDyn == v.activeDyn
      && r.fanSlot == (if indexCount > v.fanCount then v.activeDyn else v.fanSlot)
      && ibo == r.index.bufs[r.fanSlot].id
      && (indexCount <= v.fanCount ==> r == v.(fanUsage := r.fanUsage, fanMaxUsage := r.fanMaxUsage))
  {
    if NeedsRebuild(v, indexCount) {
      var v1 := TrackFanUsage(v, indexCount);
      RebuildKeepsInv(v1.(fanCount := 2 * v.fanCount));
    }
  }

  /**
   * The count is doubled once per call, not until it suffices: asking for
   * more than twice the count leaves fewer triangles than indexCount.
   */
  lemma GetTriangleFanIboDoublesOnce(v: Vk, indexCount: nat)
    requires Inv(v) && indexCount > 2 * v.fanCount && 12 * v.fanCount <= MAX_REQUEST_SIZE
    ensures GetTriangleFanIbo(v, indexCount).0.fanCount < indexCount
  {
    GetTriangleFanIboContract(v, indexCount);
  }

  // ---------------------------------------------------------------- frame lifecycle

  /** The driver calls of QVk_RecreateSwapchain, in order. */
  function SwapchainEvents(): (e: seq<Event>)
    ensures |e| == |Renderpasses.RECREATE_SWAPCHAIN_STEPS|
    ensures forall i :: 0 <= i < |e| ==> e[i] == Swapchain(Renderpasses.RECREATE_SWAPCHAIN_STEPS[i])
  {
    seq(|Renderpasses.RECREATE_SWAPCHAIN_STEPS|, i requires 0 <= i < |Renderpasses.RECREATE_SWAPCHAIN_STEPS| =>
      Swapchain(Renderpasses.RECREATE_SWAPCHAIN_STEPS[i]))
  }

  /** Every call of step a in e comes before every call of step b. */
  predicate Before(e: seq<Event>, a: SwapchainStep, b: SwapchainStep)
  {
    forall i, j :: 0 <= i < |e| && 0 <= j < |e| && e[i] == Swapchain(a) && e[j] == Swapchain(b) ==> i < j
  }

  /** A recreation call sits at its step's place in the fixed order. */
  lemma SwapchainEventAt(i: nat, s: SwapchainStep)
    requires i < |SwapchainEvents()| && SwapchainEvents()[i] == Swapchain(s)
    ensures i == Renderpasses.StepIndex(s)
  {
    Renderpasses.RecreationOrder();
  }

  /** Steps earlier in the fixed order are called earlier. */
  lemma SwapchainBefore(a: SwapchainStep, b: SwapchainStep)
    requires Renderpasses.StepIndex(a) < Renderpasses.StepIndex(b)
    ensures Before(SwapchainEvents(), a, b)
  {
    var e := SwapchainEvents();
    forall i, j | 0 <= i < |e| && 0 <= j < |e| && e[i] == Swapchain(a) && e[j] == Swapchain(b)
      ensures i < j
    {
      SwapchainEventAt(i, a);
      SwapchainEventAt(j, b);
    }
  }

  /**
   * The calls QVk_RecreateSwapchain makes destroy the framebuffers before the
   * image views and draw buffers they use, and create them only after the new
   * image views and draw buffers.
   */
  lemma SwapchainEventsOrder()
    ensures Before(SwapchainEvents(), DestroyFramebuffers, DestroyImageViews)
    ensures Before(SwapchainEvents(), DestroyFramebuffers, DestroyDrawBuffers)
    ensures Before(SwapchainEvents(), DestroyImageViews, CreateSwapchain)
    ensures Before(SwapchainEvents(), CreateSwapchain, CreateImageViews)
    ensures Before(SwapchainEvents(), CreateImageViews, CreateFramebuffers)
    ensures Before(SwapchainEvents(), CreateDrawBuffers, CreateFramebuffers)
    ensures Before(SwapchainEvents(), DestroyDrawBuffers, CreateDrawBuffers)
  {
    SwapchainBefore(DestroyFramebuffers, DestroyImageViews);
    SwapchainBefore(DestroyFramebuffers, DestroyDrawBuffers);
    SwapchainBefore(DestroyImageViews, CreateSwapchain);
    SwapchainBefore(CreateSwapchain, CreateImageViews);
    SwapchainBefore(CreateImageViews, CreateFramebuffers);
    SwapchainBefore(CreateDrawBuffers, CreateFramebuffers);
    SwapchainBefore(DestroyDrawBuffers, CreateDrawBuffers);
  }

  /** No recreation call is made twice. */
  lemma SwapchainEventsDistinct()
    ensures forall i, j :: 0 <= i < j < |SwapchainEvents()| ==> SwapchainEvents()[i] != SwapchainEvents()[j]
  {
    Renderpasses.RecreationOrder();
  }

  /** Every recreation step is called, the device wait first. */
  lemma SwapchainEventsComplete()
    ensures SwapchainEvents()[0] == Swapchain(WaitDeviceIdle)
    ensures forall s: SwapchainStep :: Swapchain(s) in SwapchainEvents()
  {
    Renderpasses.RecreationOrder();
    var e := SwapchainEvents();
    forall s: SwapchainStep
      ensures Swapchain(s) in e
    {
      assert e[Renderpasses.StepIndex(s)] == Swapchain(s);
    }
  }

  /** QVk_RecreateSwapchain: only driver calls, in the fixed destroy/create order. */
  function RecreateSwapchain(v: Vk): (r: Vk)
  {
    v.(calls := v.calls + SwapchainEvents())
  }

  /** QVk_BindPipeline: a one-entry cache in front of vkCmdBindPipeline. */
  function BindPipeline(v: Vk, pipeline: PipelineId): (r: Vk)
  {
    if v.pipeline != pipeline then v.(pipeline := pipeline, calls := v.calls + [Event.BindPipeline(pipeline)]) else v
  }

  /**
   * The pipeline is bound afterwards, and the driver is called exactly when
   * it was not already bound; nothing else changes.
   */
  lemma BindPipelineCaches(v: Vk, pipeline: PipelineId)
    ensures var r := BindPipeline(v, pipeline);
      && r.pipeline == pipeline
      && r.calls == v.calls + (if v.pipeline == pipeline then [] else [Event.BindPipeline(pipeline)])
      && r.(pipeline := v.pipeline, calls := v.calls) == v
  {
  }

  /** Binding the same pipeline twice calls the driver once. */
  lemma BindPipelineIdempotent(v: Vk, pipeline: PipelineId)
    ensures BindPipeline(BindPipeline(v, pipeline), pipeline) == BindPipeline(v, pipeline)
  {
  }

  /** Instance a of pool p starts over at offset o. */
  function SetOffset(p: DynAlloc.Pool, a: nat, o: nat): (r: DynAlloc.Pool)
    requires a < |p.bufs|
    ensures |r.bufs| == |p.bufs|
  {
    p.(bufs := p.bufs[a := p.bufs[a].(currentOffset := o)])
  }

  /**
   * The start of QVk_BeginFrame: clear the pipeline cache and the usage
   * counters; the index usage restarts at the reserved fan prefix.
   */
  function ResetTracking(v: Vk): (r: Vk)
  {
    v.(pipeline := NULL_HANDLE, vertex := v.vertex.(usage := 0), index := v.index.(usage := v.fanIboUsage),
       uniform := v.uniform.(usage := 0), fanUsage := 0)
  }

  /**
   * The dynamic-buffer swap of QVk_BeginFrame: advance the index and rewind
   * the new slot's offsets, uniform and vertex to 0, index past the prefix.
   */
  function SwapDynamicBuffers(v: Vk): (r: Vk)
    requires Shape(v)
    ensures Shape(r)
  {
    var a := (v.activeDyn + 1) % NUM_DYNBUFFERS;
    v.(activeDyn := a, uniform := SetOffset(v.uniform, a, 0), vertex := SetOffset(v.vertex, a, 0),
       index := SetOffset(v.index, a, v.fanIboUsage))
  }

  /**
   * QVk_BeginFrame, given what vkAcquireNextImageKHR returned: reset the
   * tracking state, release the graveyard slot two ahead, acquire, swap
   * the dynamic buffers; on VK_ERROR_OUT_OF_DATE_KHR recreate the swapchain
   * and return that code, otherwise wait for the frame's fence and start
   * the frame.
   */
  function BeginFrame(v: Vk, acquire: int): (r: (Vk, int))
    requires Shape(v)
    ensures Shape(r.0)
  {
    var v1 := ResetTracking(v);
    var (grave, freed) := Graveyard.Release(v.grave);
    var v2 := SwapDynamicBuffers(v1.(grave := grave, calls := v.calls + freed + [AcquireImage(v.activeBuffer)]));
    if acquire == VkResults.VK_ERROR_OUT_OF_DATE_KHR then (RecreateSwapchain(v2), acquire)
    else (v2.(calls := v2.calls + [WaitFrameFence(v.activeBuffer)], frameStarted := true), VkResults.VK_SUCCESS)
  }

  /**
   * QVk_EndFrame, given what vkQueuePresentKHR returned: VK_NOT_READY and no
   * change unless a frame was started; otherwise end the world renderpass
   * when forced, submit pending staging buffers, bind the postprocess
   * pipeline, submit and present, recreate the swapchain when the present
   * was out of date or suboptimal, advance the frame slot and end the frame.
   */
  function EndFrame(v: Vk, force: bool, present: int): (r: (Vk, int))
    requires Shape(v)
    ensures Shape(r.0)
  {
    if !v.frameStarted then (v, VkResults.VK_NOT_READY)
    else (PresentFrame(SubmitFrameWork(v, force), present), present)
  }

  /** The first half of a completed QVk_EndFrame: the optional renderpass end, the staging submission and the postprocess bind. */
  function SubmitFrameWork(v: Vk, force: bool): (r: Vk)
    requires Shape(v)
    ensures Shape(r)
  {
    var v1 := if force then v.(calls := v.calls + [EndWorldRenderpass]) else v;
    var v2 := SubmitStagingBuffers(v1);
    BindPipeline(v2, v2.postprocess)
  }

  /** The second half: submit and present, recreate the swapchain when asked to, advance the frame slot. */
  function PresentFrame(v: Vk, present: int): (r: Vk)
    requires Shape(v)
    ensures Shape(r)
  {
    var v1 := v.(calls := v.calls + [SubmitFrame(v.activeBuffer), Present(v.activeBuffer)]);
    var v2 := if present == VkResults.VK_ERROR_OUT_OF_DATE_KHR || present == VkResults.VK_SUBOPTIMAL_KHR then RecreateSwapchain(v1) else v1;
    v2.(activeBuffer := (v2.activeBuffer + 1) % NUM_CMDBUFFERS, frameStarted := false)
  }

  lemma BeginFrameKeepsInv(v: Vk, acquire: int)
    requires Inv(v)
    ensures Inv(BeginFrame(v, acquire).0)
  {
    var r := BeginFrame(v, acquire).0;
    var a := (v.activeDyn + 1) % NUM_DYNBUFFERS;
    assert r.index.bufs[a].currentOffset == v.fanIboUsage;
    assert forall i :: 0 <= i < NUM_DYNBUFFERS && i != a ==> r.index.bufs[i] == v.index.bufs[i];
    assert forall i :: 0 <= i < NUM_DYNBUFFERS && i != a ==> r.uniform.bufs[i] == v.uniform.bufs[i];
    assert forall i :: 0 <= i < NUM_DYNBUFFERS && i != a ==> r.vertex.bufs[i] == v.vertex.bufs[i];
  }

  /**
   * Both outcomes of QVk_BeginFrame: the graveyard is released one step,
   * the dynamic-buffer index advances, only the new slot's offsets are
   * rewound (uniform and vertex to 0, index past the fan prefix), the
   * pipeline cache is cleared, and the frame slot and staging ring are
   * untouched. On VK_ERROR_OUT_OF_DATE_KHR that code is returned, the frame
   * is not started and the swapchain is recreated; on any other result the
   * frame starts and VK_SUCCESS is returned.
   */
  lemma BeginFrameContract(v: Vk, acquire: int)
    requires Inv(v)
    ensures var (r, code) := BeginFrame(v, acquire); var a := (v.activeDyn + 1) % NUM_DYNBUFFERS;
      && r.grave == Graveyard.Release(v.grave).0
      && r.activeDyn == a
      && r.uniform.bufs[a].currentOffset == 0 && r.vertex.bufs[a].currentOffset == 0
      && r.index.bufs[a].currentOffset == v.fanIboUsage
      && r.uniform.bufs[1 - a] == v.uniform.bufs[1 - a] && r.vertex.bufs[1 - a] == v.vertex.bufs[1 - a]
      && r.index.bufs[1 - a] == v.index.bufs[1 - a]
      && r.index.bufs[a].id == v.index.bufs[a].id && r.index.bufs[a].halfwords == v.index.bufs[a].halfwords
      && r.vertex.size == v.vertex.size && r.index.size == v.index.size && r.uniform.size == v.uniform.size
      && r.pipeline == NULL_HANDLE && r.fanUsage == 0 && r.index.usage == v.fanIboUsage
      && r.vertex.usage == 0 && r.uniform.usage == 0
      && r.activeBuffer == v.activeBuffer && r.staging == v.staging && r.fanSlot == v.fanSlot
      && (acquire == VkResults.VK_ERROR_OUT_OF_DATE_KHR ==>
            code == acquire && r.frameStarted == v.frameStarted
            && r.calls[|r.calls| - |SwapchainEvents()|..] == SwapchainEvents())
      && (acquire != VkResults.VK_ERROR_OUT_OF_DATE_KHR ==>
            code == VkResults.VK_SUCCESS && r.frameStarted
            && r.calls[|r.calls| - 1] == WaitFrameFence(v.activeBuffer))
  {
  }

  /**
   * QVk_BeginFrame does not look at whether a frame is already started: on a
   * successful acquire it does the same thing either way.
   */
  lemma BeginFrameUnchecked(v: Vk, acquire: int)
    requires Shape(v) && acquire != VkResults.VK_ERROR_OUT_OF_DATE_KHR
    ensures BeginFrame(v.(frameStarted := true), acquire) == BeginFrame(v.(frameStarted := false), acquire)
  {
  }

  /** Without a started frame QVk_EndFrame returns VK_NOT_READY and changes nothing. */
  lemma EndFrameNotStarted(v: Vk, force: bool, present: int)
    requires Shape(v) && !v.frameStarted
    ensures EndFrame(v, force, present) == (v, VkResults.VK_NOT_READY)
  {
  }

  /**
   * A completed QVk_EndFrame returns the present result, advances the frame
   * slot, ends the frame, leaves no staging buffer pending, leaves the
   * postprocess pipeline bound and the dynamic buffers untouched, and
   * recreates the swapchain exactly when the present was out of date or
   * suboptimal.
   */
  lemma EndFrameCompleted(v: Vk, force: bool, present: int)
    requires Inv(v) && v.frameStarted
    ensures var (r, code) := EndFrame(v, force, present);
      && code == present
      && r.activeBuffer == (v.activeBuffer + 1) % NUM_CMDBUFFERS && !r.frameStarted
      && (forall k :: 0 <= k < NUM_DYNBUFFERS ==> !Staging.Pending(r.staging, k))
      && r.pipeline == v.postprocess
      && r.vertex == v.vertex && r.index == v.index && r.uniform == v.uniform && r.activeDyn == v.activeDyn
      && r.grave == v.grave
      && Inv(r)
      && ((present == VkResults.VK_ERROR_OUT_OF_DATE_KHR || present == VkResults.VK_SUBOPTIMAL_KHR) ==>
            |r.calls| >= |SwapchainEvents()| && r.calls[|r.calls| - |SwapchainEvents()|..] == SwapchainEvents())
      && (present != VkResults.VK_ERROR_OUT_OF_DATE_KHR && present != VkResults.VK_SUBOPTIMAL_KHR ==>
            r.calls[|r.calls| - 1] == Present(v.activeBuffer))
  {
    Staging.SubmitPendingExactly(v.staging);
  }

  /** Either way QVk_EndFrame keeps the invariant. */
  lemma EndFrameKeepsInv(v: Vk, force: bool, present: int)
    requires Inv(v)
    ensures Inv(EndFrame(v, force, present).0)
  {
    if v.frameStarted {
      EndFrameCompleted(v, force, present);
    }
  }

  // ---------------------------------------------------------------- the fan prefix over frames

  /** Both index buffers hold the current prefix at their start, where the fan draws read it. */
  ghost predicate PrefixAtStart(v: Vk)
    requires Shape(v)
  {
    forall s :: 0 <= s < NUM_DYNBUFFERS ==> TriangleFan.HasFanPrefixAt(v.index.bufs[s], 0, v.fanCount)
  }

  /** QVk_BeginFrame only moves offsets, so a prefix in place stays in place. */
  lemma BeginFrameKeepsPrefix(v: Vk, acquire: int)
    requires Inv(v) && PrefixAtStart(v)
    ensures PrefixAtStart(BeginFrame(v, acquire).0)
  {
    BeginFrameContract(v, acquire);
    var r := BeginFrame(v, acquire).0;
    forall s | 0 <= s < NUM_DYNBUFFERS
      ensures TriangleFan.HasFanPrefixAt(r.index.bufs[s], 0, r.fanCount)
    {
      assert r.index.bufs[s].halfwords == v.index.bufs[s].halfwords;
      assert TriangleFan.HasFanPrefixAt(v.index.bufs[s], 0, v.fanCount);
    }
  }

  /**
   * An index allocation that does not grow the buffers and starts at or
   * after the reserved prefix leaves the prefix intact in both buffers.
   */
  lemma IndexAllocationKeepsPrefix(v: Vk, size: nat)
    requires Inv(v) && PrefixAtStart(v) && size <= MAX_REQUEST_SIZE
    requires v.index.bufs[v.activeDyn].currentOffset >= v.fanIboUsage
    requires v.index.bufs[v.activeDyn].currentOffset + AlignUp(size, INDEX_ALIGNMENT) <= v.index.size
    ensures PrefixAtStart(GetIndexBuffer(v, size).0)
  {
    var a := v.activeDyn;
    DynAlloc.AllocateWithoutGrowth(DynAlloc.Index, v.index, a, size, v.nextBuffer);
    var r := GetIndexBuffer(v, size).0;
    var b := v.index.bufs[a];
    assert b.currentOffset / 2 >= 3 * v.fanCount;
    assert r.index.bufs[a] == DynAlloc.Bump(b, AlignUp(size, INDEX_ALIGNMENT));
    assert r.index.bufs[1 - a] == v.index.bufs[1 - a];
    assert TriangleFan.HasFanPrefixAt(b, 0, v.fanCount);
    forall s | 0 <= s < NUM_DYNBUFFERS
      ensures TriangleFan.HasFanPrefixAt(r.index.bufs[s], 0, r.fanCount)
    {
      if s != a {
        assert s == 1 - a;
        assert TriangleFan.HasFanPrefixAt(v.index.bufs[s], 0, v.fanCount);
      }
    }
  }

  /**
   * Growing the index buffers replaces both by fresh ones and nothing writes
   * the prefix again: afterwards neither buffer holds it, yet the next
   * QVk_BeginFrame still starts the index offset past it (BeginFrameContract).
   */
  lemma IndexGrowthDropsPrefix(v: Vk, size: nat)
    requires Shape(v) && size <= MAX_REQUEST_SIZE && v.fanCount >= 1
    requires v.index.bufs[v.activeDyn].currentOffset + AlignUp(size, INDEX_ALIGNMENT) > v.index.size
    ensures forall s :: 0 <= s < NUM_DYNBUFFERS ==> !TriangleFan.HasFanPrefixAt(GetIndexBuffer(v, size).0.index.bufs[s], 0, v.fanCount)
  {
    var r := GetIndexBuffer(v, size).0;
    DynAlloc.AllocateContract(DynAlloc.Index, v.index, v.activeDyn, size, v.nextBuffer);
    forall s | 0 <= s < NUM_DYNBUFFERS
      ensures !TriangleFan.HasFanPrefixAt(r.index.bufs[s], 0, v.fanCount)
    {
      assert r.index.bufs[s].halfwords == map[];
      TriangleFan.FreshBufferLacksPrefix(r.index.bufs[s].id, 0, v.fanCount);
      assert r.index.bufs[s].halfwords == FreshBuffer(r.index.bufs[s].id).halfwords;
    }
  }

  /**
   * The rebuild copies the prefix to wherever each index buffer's bump
   * offset stands, not to the start of the buffer: when neither allocation
   * grows the buffers, each buffer holds the prefix at its pre-rebuild
   * offset. That is the start only while both offsets are 0, as during
   * initialisation.
   */
  lemma RebuildWritesAtBumpOffsets(v: Vk)
    requires Shape(v) && 6 * v.fanCount <= MAX_REQUEST_SIZE
    requires forall s :: 0 <= s < NUM_DYNBUFFERS ==>
      v.index.bufs[s].currentOffset + AlignUp(6 * v.fanCount, INDEX_ALIGNMENT) <= v.index.size
    ensures forall s :: 0 <= s < NUM_DYNBUFFERS ==>
      TriangleFan.HasFanPrefixAt(Rebuild(v).index.bufs[s], v.index.bufs[s].currentOffset / 2, v.fanCount)
  {
    RebuildTwice(v);
    RebuildUnrolled(v);
    assert Rebuild(v).index == RebuildStep(RebuildStep(v)).index;
  }

  /** Both iterations of a rebuild that does not grow, each writing at its buffer's bump offset. */
  lemma RebuildTwice(v: Vk)
    requires Shape(v) && 6 * v.fanCount <= MAX_REQUEST_SIZE
    requires forall s :: 0 <= s < NUM_DYNBUFFERS ==>
      v.index.bufs[s].currentOffset + AlignUp(6 * v.fanCount, INDEX_ALIGNMENT) <= v.index.size
    ensures var w := RebuildStep(RebuildStep(v)).index;
      forall s :: 0 <= s < NUM_DYNBUFFERS ==>
        && TriangleFan.HasFanPrefixAt(w.bufs[s], v.index.bufs[s].currentOffset / 2, v.fanCount)
        && w.bufs[s].currentOffset == v.index.bufs[s].currentOffset + AlignUp(6 * v.fanCount, INDEX_ALIGNMENT)
  {
    var c := v.fanCount;
    var a1 := (v.activeDyn + 1) % NUM_DYNBUFFERS;
    var a2 := v.activeDyn;
    var w1 := RebuildStep(v);
    RebuildStepWrites(v);
    assert w1.activeDyn == a1 && (a1 + 1) % NUM_DYNBUFFERS == a2 && a2 == 1 - a1;
    assert w1.index.bufs[a2] == v.index.bufs[a2] && w1.index.size == v.index.size && w1.fanCount == c;
    RebuildStepWrites(w1);
    var w2 := RebuildStep(w1);
    var step := AlignUp(6 * c, INDEX_ALIGNMENT);
    forall s | 0 <= s < NUM_DYNBUFFERS
      ensures TriangleFan.HasFanPrefixAt(w2.index.bufs[s], v.index.bufs[s].currentOffset / 2, c)
      ensures w2.index.bufs[s].currentOffset == v.index.bufs[s].currentOffset + step
    {
      if s == a1 {
        assert w2.index.bufs[s] == w1.index.bufs[s];
      } else {
        assert s == a2 && w1.index.bufs[s] == v.index.bufs[s];
      }
    }
  }

  /**
   * One rebuild iteration that does not grow the buffers writes the prefix
   * at the new active buffer's offset, advances that offset by the rounded
   * size and leaves the other buffer and the capacity as they were.
   */
  lemma RebuildStepWrites(v: Vk)
    requires Shape(v) && 6 * v.fanCount <= MAX_REQUEST_SIZE
    requires var a := (v.activeDyn + 1) % NUM_DYNBUFFERS;
      v.index.bufs[a].currentOffset + AlignUp(6 * v.fanCount, INDEX_ALIGNMENT) <= v.index.size
    ensures var a := (v.activeDyn + 1) % NUM_DYNBUFFERS; var r := RebuildStep(v);
      && r.activeDyn == a && r.fanCount == v.fanCount
      && TriangleFan.HasFanPrefixAt(r.index.bufs[a], v.index.bufs[a].currentOffset / 2, v.fanCount)
      && r.index.bufs[1 - a] == v.index.bufs[1 - a]
      && r.index.size == v.index.size
      && r.index.bufs[a].currentOffset == v.index.bufs[a].currentOffset + AlignUp(6 * v.fanCount, INDEX_ALIGNMENT)
  {
    var a := (v.activeDyn + 1) % NUM_DYNBUFFERS;
    var u := v.(activeDyn := a);
    DynAlloc.AllocateWithoutGrowth(DynAlloc.Index, u.index, a, 6 * v.fanCount, u.nextBuffer);
    var res := GetIndexBuffer(u, 6 * v.fanCount);
    assert res.1 == v.index.bufs[a].currentOffset;
    TriangleFan.WriteFanPlacesPrefix(res.0.index.bufs[a], res.1 / 2, v.fanCount);
    var r := RebuildStep(v);
    assert r == WriteFan(res.0, res.1);
    assert r.index.bufs[a] == TriangleFan.WriteHalfwords(res.0.index.bufs[a], res.1 / 2, TriangleFan.FanList(v.fanCount));
    assert r.index.bufs[1 - a] == res.0.index.bufs[1 - a];
  }

  /**
   * The fan IBO lags the dynamic-buffer index: right after a rebuild they
   * agree, but the next QVk_BeginFrame advances the index and not the fan
   * slot, so QVk_GetTriangleFanIbo (without a rebuild) returns the index
   * buffer of the previous frame, not the one the frame allocates from.
   */
  lemma FanIboLagsAfterBeginFrame(v: Vk, acquire: int, indexCount: nat)
    requires Inv(v) && v.fanSlot == v.activeDyn && indexCount <= v.fanCount
    ensures var r := BeginFrame(v, acquire).0; var (_, ibo) := GetTriangleFanIbo(r, indexCount);
      && ibo == v.index.bufs[v.activeDyn].id
      && ibo != r.index.bufs[r.activeDyn].id
  {
    BeginFrameContract(v, acquire);
    BeginFrameKeepsInv(v, acquire);
    var r := BeginFrame(v, acquire).0;
    GetTriangleFanIboContract(r, indexCount);
  }

  // ---------------------------------------------------------------- initialisation

  /**
   * The state QVk_Init leaves before its final rebuild: vk_config's start
   * values, CreateDynamicBuffers' buffers (vertex, index, uniform per
   * instance, then the instance's descriptor set), CreateStagingBuffers'
   * two buffers and command buffers, all counters and indices 0. Handles
   * are numbered from 1 in creation order.
   */
  function Created(postprocess: PipelineId): (v: Vk)
    ensures Shape(v) && Pools(v)
  {
    Vk(DynAlloc.Pool(VERTEX_BUFFER_SIZE, 0, 0, [FreshBuffer(1), FreshBuffer(4)]),
       DynAlloc.Pool(INDEX_BUFFER_SIZE, 0, 0, [FreshBuffer(2), FreshBuffer(5)]),
       DynAlloc.Pool(UNIFORM_BUFFER_SIZE, 0, 0, [FreshBuffer(3), FreshBuffer(6)]),
       [1, 2],
       TRIANGLE_FAN_INDEX_CNT, 0, 0,
       0,
       Graveyard.Empty(),
       Staging.Initial(7, 1, 8, 2),
       0, 0,
       0, false,
       NULL_HANDLE, postprocess,
       9, 3,
       [])
  }

  /** The state after QVk_Init's RebuildTriangleFanIndexBuffer. */
  function Initial(postprocess: PipelineId): Vk
  {
    Rebuild(Created(postprocess))
  }

  /**
   * A rebuild on index buffers that are both empty and large enough puts
   * the prefix at the start of both and leaves each offset just past it.
   */
  lemma RebuildFromEmpty(v: Vk)
    requires Shape(v) && Pools(v) && v.fanCount >= 1 && 6 * v.fanCount <= MAX_REQUEST_SIZE
    requires v.index.bufs[0].currentOffset == 0 && v.index.bufs[1].currentOffset == 0
    requires AlignUp(6 * v.fanCount, INDEX_ALIGNMENT) <= v.index.size
    ensures var r := Rebuild(v);
      && Inv(r) && PrefixAtStart(r) && r.fanSlot == v.activeDyn && r.activeDyn == v.activeDyn
      && r.index.bufs[0].currentOffset == r.fanIboUsage && r.index.bufs[1].currentOffset == r.fanIboUsage
  {
    assert forall s :: 0 <= s < NUM_DYNBUFFERS ==>
      v.index.bufs[s].currentOffset + AlignUp(6 * v.fanCount, INDEX_ALIGNMENT) <= v.index.size;
    RebuildWritesAtBumpOffsets(v);
    RebuildBumpsOffsets(v);
    RebuildKeepsInv(v);
  }

  /** Each index buffer's offset moves on by 6 * count rounded up to 4 during a rebuild that does not grow the buffers. */
  lemma RebuildBumpsOffsets(v: Vk)
    requires Shape(v) && 6 * v.fanCount <= MAX_REQUEST_SIZE
    requires forall s :: 0 <= s < NUM_DYNBUFFERS ==>
      v.index.bufs[s].currentOffset + AlignUp(6 * v.fanCount, INDEX_ALIGNMENT) <= v.index.size
    ensures forall s :: 0 <= s < NUM_DYNBUFFERS ==>
      Rebuild(v).index.bufs[s].currentOffset == v.index.bufs[s].currentOffset + AlignUp(6 * v.fanCount, INDEX_ALIGNMENT)
  {
    RebuildTwice(v);
    RebuildUnrolled(v);
    assert Rebuild(v).index == RebuildStep(RebuildStep(v)).index;
  }

  /**
   * After initialisation the invariant holds, both index buffers hold the
   * prefix at their start, each offset stands just past it, and the fan
   * IBO is slot 0.
   */
  lemma InitialState(postprocess: PipelineId)
    ensures var v := Initial(postprocess);
      && Inv(v) && PrefixAtStart(v) && v.fanSlot == 0 && v.activeDyn == 0 && !v.frameStarted
      && v.fanIboUsage == 6 * TRIANGLE_FAN_INDEX_CNT
      && v.index.bufs[0].currentOffset == v.fanIboUsage && v.index.bufs[1].currentOffset == v.fanIboUsage
  {
    var c := Created(postprocess);
    assert AlignUp(6 * TRIANGLE_FAN_INDEX_CNT, INDEX_ALIGNMENT) == 1200 by {
      assert 1200 % 4 == 0;
    }
    RebuildFromEmpty(c);
  }
}
