/**
 * The renderer globals of ref_vk/vk_common.c as objects updated in place.
 * DynPool holds one dynamic buffer kind, SwapRing the deferred-free ring,
 * StagingRing the two staging buffers and Renderer everything together.
 * Every method is proved to leave its object in the state the matching
 * function of DynAlloc, Graveyard, Staging or RendererState computes from
 * the state before; the Renderer methods also keep RendererState.Inv.
 */
module VkCommon {
  import opened VkTypes
  import PowerOfTwo
  import DynAlloc
  import Graveyard
  import Staging
  import TriangleFan
  import VkResults
  import RS = RendererState

  /**
   * One dynamic buffer kind: the vk_dyn*Buffers array and the vk_config
   * capacity, usage and peak usage of that kind.
   */
  class DynPool {
    var size: nat
    var usage: nat
    var maxUsage: nat
    const bufs: array<DynBuffer>

    ghost function Value(): DynAlloc.Pool
      reads this, bufs
    {
      DynAlloc.Pool(size, usage, maxUsage, bufs[..])
    }

    /** CreateDynamicBuffers for one kind: both instances at the start capacity. */
    constructor (capacity: nat, id0: BufferId, id1: BufferId)
      ensures Value() == DynAlloc.Pool(capacity, 0, 0, [FreshBuffer(id0), FreshBuffer(id1)])
      ensures fresh(bufs)
    {
      size, usage, maxUsage := capacity, 0, 0;
      bufs := new DynBuffer[NUM_DYNBUFFERS] [FreshBuffer(id0), FreshBuffer(id1)];
    }

    /**
     * The growth branch of an allocator: the new capacity, then the loop that
     * replaces both instances.
     */
    method Grow(request: nat, firstId: BufferId) returns (retired: seq<BufferId>)
      requires bufs.Length == NUM_DYNBUFFERS && request <= MAX_REQUEST_SIZE
      modifies this, bufs
      ensures Value() == DynAlloc.Grow(old(Value()), request, firstId)
      ensures retired == [old(bufs[0].id), old(bufs[1].id)]
    {
      size := Max(2 * size, PowerOfTwo.NextPow2(request));
      retired := Replace(firstId);
    }

    /**
     * The loop of the growth branch: hand back both instances in index order
     * and put fresh buffers firstId and firstId + 1 in their place.
     */
    method Replace(firstId: BufferId) returns (retired: seq<BufferId>)
      requires bufs.Length == NUM_DYNBUFFERS
      modifies bufs
      ensures bufs[..] == [FreshBuffer(firstId), FreshBuffer(firstId + 1)]
      ensures retired == [old(bufs[0].id), old(bufs[1].id)]
    {
      retired := [];
      var i := 0;
      while i < NUM_DYNBUFFERS
        invariant 0 <= i <= NUM_DYNBUFFERS
        invariant |retired| == i && forall j :: 0 <= j < i ==> retired[j] == old(bufs[j].id)
        invariant forall j :: 0 <= j < i ==> bufs[j] == FreshBuffer(firstId + j)
        invariant forall j :: i <= j < NUM_DYNBUFFERS ==> bufs[j] == old(bufs[j])
      {
        retired := retired + [bufs[i].id];
        bufs[i] := FreshBuffer(firstId + i);
        i := i + 1;
      }
      assert bufs[..] == [FreshBuffer(firstId), FreshBuffer(firstId + 1)];
    }

    /** Hand out step bytes of instance active: its handle and offset before; usage and peak follow. */
    method Take(active: nat, step: nat) returns (buffer: BufferId, offset: nat)
      requires bufs.Length == NUM_DYNBUFFERS && active < NUM_DYNBUFFERS
      modifies this, bufs
      ensures Value() == DynAlloc.Take(old(Value()), active, step)
      ensures buffer == old(bufs[active].id) && offset == old(bufs[active].currentOffset)
    {
      offset := bufs[active].currentOffset;
      buffer := bufs[active].id;
      bufs[active] := DynAlloc.Bump(bufs[active], step);
      usage := bufs[active].currentOffset;
      if maxUsage < usage {
        maxUsage := usage;
      }
    }

    /**
     * The shared shape of QVk_GetVertexBuffer, QVk_GetIndexBuffer and
     * QVk_GetUniformBuffer on this pool: grow when the tested amount does
     * not fit, then hand out the rounded request from instance active.
     */
    method Allocate(kind: DynAlloc.Kind, active: nat, request: nat, nextId: BufferId, grave: SwapRing)
      returns (grown: bool, next: BufferId, buffer: BufferId, offset: nat)
      requires bufs.Length == NUM_DYNBUFFERS && active < NUM_DYNBUFFERS && request <= MAX_REQUEST_SIZE
      requires grave.Valid()
      modifies this, bufs, grave.buffers
      ensures var g := DynAlloc.Allocate(kind, old(Value()), active, request, nextId);
        && Value() == g.pool && grown == g.grown && next == g.nextId && buffer == g.buffer && offset == g.offset
        && grave.Valid() && grave.Value() == Graveyard.RetireBuffers(old(grave.Value()), g.retired)
    {
      grown := bufs[active].currentOffset + DynAlloc.NeedOf(kind, request) > size;
      next := nextId;
      if grown {
        next := nextId + NUM_DYNBUFFERS;
        var retired := Grow(request, nextId);
        grave.RetireBuffers(retired);
      } else {
        assert grave.buffers[grave.cursor] + [] == grave.buffers[grave.cursor];
        assert grave.buffers[..] == grave.buffers[..][grave.cursor := grave.buffers[grave.cursor] + []];
      }
      buffer, offset := Take(active, DynAlloc.StepOf(kind, request));
    }

    /** The usage counter of this kind, as QVk_BeginFrame resets it. */
    method SetUsage(newUsage: nat)
      modifies this
      ensures Value() == old(Value()).(usage := newUsage)
    {
      usage := newUsage;
    }

    /** Instance active starts over at offset, as QVk_BeginFrame rewinds the new slot. */
    method Rewind(active: nat, offset: nat)
      requires bufs.Length == NUM_DYNBUFFERS && active < NUM_DYNBUFFERS
      modifies bufs
      ensures Value() == RS.SetOffset(old(Value()), active, offset)
    {
      bufs[active] := bufs[active].(currentOffset := offset);
    }

    /** The memcpy of 16-bit data into instance active at halfword position at. */
    method Write(active: nat, at: nat, data: seq<nat>)
      requires bufs.Length == NUM_DYNBUFFERS && active < NUM_DYNBUFFERS
      modifies bufs
      ensures Value() == old(Value()).(bufs := old(Value()).bufs[active := TriangleFan.WriteHalfwords(old(bufs[active]), at, data)])
    {
      bufs[active] := TriangleFan.WriteHalfwords(bufs[active], at, data);
    }
  }

  /**
   * vk_swapBuffers and vk_swapDescriptorSets (a slot's length is its count
   * in vk_swapBuffersCnt / vk_swapDescSetsCnt) and vk_activeSwapBufferIdx.
   */
  class SwapRing {
    var cursor: nat
    const buffers: array<seq<BufferId>>
    const descSets: array<seq<DescSetId>>

    ghost function Value(): Graveyard.Ring
      reads this, buffers, descSets
    {
      Graveyard.Ring(cursor, buffers[..], descSets[..])
    }

    ghost predicate Valid()
      reads this, buffers, descSets
    {
      buffers != descSets && Graveyard.Valid(Value())
    }

    /** The zero-initialised statics: every slot empty, slot 0 active. */
    constructor ()
      ensures Valid() && Value() == Graveyard.Empty()
      ensures fresh(buffers) && fresh(descSets)
    {
      cursor := 0;
      buffers := new seq<BufferId>[NUM_SWAPBUFFER_SLOTS](_ => []);
      descSets := new seq<DescSetId>[NUM_SWAPBUFFER_SLOTS](_ => []);
      new;
      assert buffers[..] == Graveyard.Empty().buffers;
      assert descSets[..] == Graveyard.Empty().descSets;
    }

    /** An allocator's growth appends the replaced buffers to the active slot. */
    method RetireBuffers(ids: seq<BufferId>)
      requires Valid()
      modifies buffers
      ensures Valid() && Value() == Graveyard.RetireBuffers(old(Value()), ids)
    {
      buffers[cursor] := buffers[cursor] + ids;
    }

    /** The uniform allocator's growth appends the replaced descriptor sets to the active slot. */
    method RetireDescSets(sets: seq<DescSetId>)
      requires Valid()
      modifies descSets
      ensures Valid() && Value() == Graveyard.RetireDescSets(old(Value()), sets)
    {
      descSets[cursor] := descSets[cursor] + sets;
    }

    /**
     * ReleaseSwapBuffers: advance the cursor, then free every buffer of the
     * slot after it, one call each, and its descriptor sets in one call.
     */
    method Release() returns (freed: seq<Event>)
      requires Valid()
      modifies this, buffers, descSets
      ensures Valid() && (Value(), freed) == Graveyard.Release(old(Value()))
    {
      ghost var g := Value();
      cursor := (cursor + 1) % NUM_SWAPBUFFER_SLOTS;
      var rel := (cursor + 1) % NUM_SWAPBUFFER_SLOTS;
      freed := [];
      if |buffers[rel]| > 0 {
        var parked := buffers[rel];
        var i := 0;
        while i < |parked|
          invariant 0 <= i <= |parked|
          invariant freed == Graveyard.FreeEvents(parked[..i])
        {
          assert Graveyard.FreeEvents(parked[..i + 1]) == Graveyard.FreeEvents(parked[..i]) + [FreeBuffer(parked[i])];
          freed := freed + [FreeBuffer(parked[i])];
          i := i + 1;
        }
        assert parked[..i] == parked;
        buffers[rel] := [];
      } else {
        assert buffers[..] == buffers[..][rel := []];
      }
      ghost var bufEvents := freed;
      assert bufEvents == if |g.buffers[rel]| > 0 then Graveyard.FreeEvents(g.buffers[rel]) else [];
      if |descSets[rel]| > 0 {
        freed := freed + [FreeDescriptorSets(descSets[rel])];
        descSets[rel] := [];
      } else {
        assert descSets[..] == descSets[..][rel := []];
      }
      assert freed == bufEvents + if |g.descSets[rel]| > 0 then [FreeDescriptorSets(g.descSets[rel])] else [];
      assert Value() == Graveyard.Ring(cursor, g.buffers[rel := []], g.descSets[rel := []]);
    }
  }

  /** vk_stagingBuffers (without fences and memory) and vk_activeStagingBuffer. */
  class StagingRing {
    var active: nat
    const bufs: array<StagingBuffer>

    ghost function Value(): Staging.Ring
      reads this, bufs
    {
      Staging.Ring(bufs[..], active)
    }

    /** CreateStagingBuffers: two empty, unsubmitted buffers with their command buffers; buffer 0 active. */
    constructor (buf0: BufferId, cmd0: CmdBufferId, buf1: BufferId, cmd1: CmdBufferId)
      requires cmd0 != cmd1
      ensures Value() == Staging.Initial(buf0, cmd0, buf1, cmd1)
      ensures fresh(bufs)
    {
      active := 0;
      bufs := new StagingBuffer[NUM_DYNBUFFERS] [StagingBuffer(buf0, cmd0, 0, false), StagingBuffer(buf1, cmd1, 0, false)];
    }

    /** SubmitStagingBuffer(index): submit the buffer, mark it submitted and rotate the active index. */
    method Submit(index: nat) returns (events: seq<Event>)
      requires Staging.Valid(Value()) && index < NUM_DYNBUFFERS
      modifies this, bufs
      ensures (Value(), events) == Staging.Submit(old(Value()), index)
    {
      events := [SubmitStaging(index)];
      bufs[index] := bufs[index].(submitted := true);
      active := (active + 1) % NUM_DYNBUFFERS;
    }

    /**
     * QVk_GetStagingBuffer. fatal stands for Sys_Error, after which nothing
     * is handed out; the rounded offset is stored before that check.
     */
    method Get(size: nat, alignment: nat) returns (fatal: bool, handout: Staging.Handout, events: seq<Event>)
      requires Staging.Valid(Value()) && alignment > 0
      modifies this, bufs
      ensures var o := Staging.GetStaging(old(Value()), size, alignment);
        && Value() == o.ring && fatal == o.Fatal?
        && events == (if o.Granted? then o.events else [])
        && (o.Granted? ==> handout == o.handout)
    {
      var i := active;
      bufs[i] := bufs[i].(currentOffset := AlignUp(bufs[i].currentOffset, alignment));
      if size > STAGING_BUFFER_MAXSIZE {
        return true, Staging.Handout(0, 0, 0), [];
      }
      fatal := false;
      events := [];
      if bufs[i].currentOffset + size >= STAGING_BUFFER_MAXSIZE && !bufs[i].submitted {
        events := Submit(i);
      }
      var j := active;
      if bufs[j].submitted {
        events := events + [WaitStagingFence(j)];
        bufs[j] := bufs[j].(currentOffset := 0, submitted := false);
      }
      handout := Staging.Handout(bufs[j].cmdBuffer, bufs[j].buffer, bufs[j].currentOffset);
      bufs[j] := bufs[j].(currentOffset := bufs[j].currentOffset + size);
    }

    /** QVk_SubmitStagingBuffers: submit, in index order, every unsubmitted buffer holding data. */
    method SubmitPending() returns (events: seq<Event>)
      requires Staging.Valid(Value())
      modifies this, bufs
      ensures (Value(), events) == Staging.SubmitPending(old(Value()))
    {
      ghost var all := Staging.SubmitPending(Value());
      events := [];
      var i := 0;
      assert events + Staging.SubmitPendingFrom(Value(), i).1 == all.1;
      while i < NUM_DYNBUFFERS
        invariant 0 <= i <= NUM_DYNBUFFERS && Staging.Valid(Value())
        invariant Staging.SubmitPendingFrom(Value(), i).0 == all.0
        invariant events + Staging.SubmitPendingFrom(Value(), i).1 == all.1
      {
        ghost var before := Value();
        var e := SubmitIfPending(i);
        events := events + e;
        assert Staging.SubmitPendingFrom(before, i) == (Staging.SubmitPendingFrom(Value(), i + 1).0, e + Staging.SubmitPendingFrom(Value(), i + 1).1);
        i := i + 1;
      }
      assert events + [] == events;
    }

    /** One iteration of QVk_SubmitStagingBuffers: submit buffer i if it is pending. */
    method SubmitIfPending(i: nat) returns (events: seq<Event>)
      requires Staging.Valid(Value()) && i < NUM_DYNBUFFERS
      modifies this, bufs
      ensures (Value(), events) == if Staging.Pending(old(Value()), i) then Staging.Submit(old(Value()), i) else (old(Value()), [])
    {
      events := [];
      if !bufs[i].submitted && bufs[i].currentOffset > 0 {
        events := Submit(i);
      }
    }
  }

  /**
   * The renderer: the three dynamic pools, vk_uboDescriptorSets, the
   * graveyard, the staging ring and the scalar globals of vk_common.c.
   */
  class Renderer {
    const vertex: DynPool
    const index: DynPool
    const uniform: DynPool
    const uboSets: array<DescSetId>
    const grave: SwapRing
    const staging: StagingRing
    var fanCount: nat
    var fanUsage: nat
    var fanMaxUsage: nat
    var activeDyn: nat
    var fanSlot: nat
    var fanIboUsage: nat
    var activeBuffer: nat
    var frameStarted: bool
    var pipeline: PipelineId
    var postprocess: PipelineId
    var nextBuffer: BufferId
    var nextSet: DescSetId
    var calls: seq<Event>

    /** The state as one RendererState value. */
    ghost function State(): RS.Vk
      reads this, vertex, vertex.bufs, index, index.bufs, uniform, uniform.bufs, uboSets
      reads grave, grave.buffers, grave.descSets, staging, staging.bufs
    {
      RS.Vk(vertex.Value(), index.Value(), uniform.Value(), uboSets[..],
            fanCount, fanUsage, fanMaxUsage, activeDyn, grave.Value(), staging.Value(),
            fanSlot, fanIboUsage, activeBuffer, frameStarted, pipeline, postprocess,
            nextBuffer, nextSet, calls)
    }

    /** The objects are distinct and the arrays have their lengths. */
    ghost predicate Shaped()
      reads this, vertex, vertex.bufs, index, index.bufs, uniform, uniform.bufs, uboSets
      reads grave, grave.buffers, grave.descSets, staging, staging.bufs
    {
      && vertex != index && vertex != uniform && index != uniform
      && vertex.bufs != index.bufs && vertex.bufs != uniform.bufs && index.bufs != uniform.bufs
      && grave.buffers != grave.descSets
      && RS.Shape(State())
    }

    ghost predicate Valid()
      reads this, vertex, vertex.bufs, index, index.bufs, uniform, uniform.bufs, uboSets
      reads grave, grave.buffers, grave.descSets, staging, staging.bufs
    {
      Shaped() && RS.Inv(State())
    }

    /** QVk_Init's buffer set-up: the buffers and handles created in order, then the first fan rebuild. */
    constructor (postprocess: PipelineId)
      ensures Valid() && State() == RS.Initial(postprocess)
    {
      vertex := new DynPool(VERTEX_BUFFER_SIZE, 1, 4);
      index := new DynPool(INDEX_BUFFER_SIZE, 2, 5);
      uniform := new DynPool(UNIFORM_BUFFER_SIZE, 3, 6);
      uboSets := new DescSetId[NUM_DYNBUFFERS] [1, 2];
      grave := new SwapRing();
      staging := new StagingRing(7, 1, 8, 2);
      fanCount, fanUsage, fanMaxUsage := TRIANGLE_FAN_INDEX_CNT, 0, 0;
      activeDyn, fanSlot, fanIboUsage, activeBuffer := 0, 0, 0, 0;
      frameStarted := false;
      pipeline := NULL_HANDLE;
      this.postprocess := postprocess;
      nextBuffer, nextSet := 9, 3;
      calls := [];
      new;
      assert uboSets[..] == [1, 2];
      assert State() == RS.Created(postprocess);
      RebuildTriangleFanIndexBuffer();
      RS.InitialState(postprocess);
    }

    /** QVk_GetVertexBuffer. */
    method GetVertexBuffer(size: nat) returns (buffer: BufferId, offset: nat)
      requires Valid() && size <= MAX_REQUEST_SIZE
      modifies this, vertex, vertex.bufs, grave.buffers
      ensures Valid()
      ensures (State(), buffer, offset) == RS.GetVertexBuffer(old(State()), size)
    {
      RS.GetVertexBufferKeepsInv(State(), size);
      buffer, offset := AllocateVertex(size);
    }

    /** The vertex allocator on the shape alone: the pool, the graveyard and the handle counter change. */
    method AllocateVertex(size: nat) returns (buffer: BufferId, offset: nat)
      requires Shaped() && size <= MAX_REQUEST_SIZE
      modifies this, vertex, vertex.bufs, grave.buffers
      ensures var g := DynAlloc.Allocate(DynAlloc.Vertex, old(vertex.Value()), old(activeDyn), size, old(nextBuffer));
        && State() == old(State()).(vertex := g.pool, nextBuffer := g.nextId, grave := Graveyard.RetireBuffers(old(grave.Value()), g.retired))
        && buffer == g.buffer && offset == g.offset
    {
      var grown;
      grown, nextBuffer, buffer, offset := vertex.Allocate(DynAlloc.Vertex, activeDyn, size, nextBuffer, grave);
    }

    /** QVk_GetIndexBuffer. */
    method GetIndexBuffer(size: nat) returns (offset: nat)
      requires Valid() && size <= MAX_REQUEST_SIZE
      modifies this, index, index.bufs, grave.buffers
      ensures Valid()
      ensures (State(), offset) == RS.GetIndexBuffer(old(State()), size)
    {
      RS.GetIndexBufferKeepsInv(State(), size);
      offset := AllocateIndex(size);
    }

    /** The index allocator on the shape alone; the triangle-fan rebuild calls it too. */
    method AllocateIndex(size: nat) returns (offset: nat)
      requires Shaped() && size <= MAX_REQUEST_SIZE
      modifies this, index, index.bufs, grave.buffers
      ensures Shaped() && (State(), offset) == RS.GetIndexBuffer(old(State()), size)
    {
      var grown, buffer;
      grown, nextBuffer, buffer, offset := index.Allocate(DynAlloc.Index, activeDyn, size, nextBuffer, grave);
    }

    /** QVk_GetUniformBuffer. */
    method GetUniformBuffer(size: nat) returns (offset: nat, descSet: DescSetId)
      requires Valid() && size <= MAX_REQUEST_SIZE
      modifies this, uniform, uniform.bufs, uboSets, grave.buffers, grave.descSets
      ensures Valid()
      ensures (State(), offset, descSet) == RS.GetUniformBuffer(old(State()), size)
    {
      RS.GetUniformBufferKeepsInv(State(), size);
      offset, descSet := AllocateUniform(size);
    }

    /**
     * The uniform allocator on the shape alone. A growth also parks both
     * descriptor sets in the graveyard and creates one for each new buffer.
     */
    method AllocateUniform(size: nat) returns (offset: nat, descSet: DescSetId)
      requires Shaped() && size <= MAX_REQUEST_SIZE
      modifies this, uniform, uniform.bufs, uboSets, grave.buffers, grave.descSets
      ensures Shaped() && (State(), offset, descSet) == RS.GetUniformBuffer(old(State()), size)
    {
      var grown;
      grown, offset := AllocateUniformBuffer(size);
      if grown {
        ReplaceUboSets();
      }
      descSet := uboSets[activeDyn];
    }

    /** The buffer part of the uniform allocator: the pool, the graveyard and the handle counter change. */
    method AllocateUniformBuffer(size: nat) returns (grown: bool, offset: nat)
      requires Shaped() && size <= MAX_REQUEST_SIZE
      modifies this, uniform, uniform.bufs, grave.buffers
      ensures var g := DynAlloc.Allocate(DynAlloc.Uniform, old(uniform.Value()), old(activeDyn), size, old(nextBuffer));
        && State() == old(State()).(uniform := g.pool, nextBuffer := g.nextId, grave := Graveyard.RetireBuffers(old(grave.Value()), g.retired))
        && grown == g.grown && offset == g.offset
    {
      var buffer;
      grown, nextBuffer, buffer, offset := uniform.Allocate(DynAlloc.Uniform, activeDyn, size, nextBuffer, grave);
    }

    /** The descriptor-set part of a uniform growth. */
    method ReplaceUboSets()
      requires Shaped()
      modifies this, uboSets, grave.descSets
      ensures State() == RS.RenewUboSets(old(State()))
    {
      nextSet := CreateUboSets();
    }

    /**
     * Both descriptor sets go to the graveyard and sets nextSet and
     * nextSet + 1 take their place; next is the counter afterwards.
     */
    method CreateUboSets() returns (next: DescSetId)
      requires Shaped()
      modifies uboSets, grave.descSets
      ensures next == nextSet + NUM_DYNBUFFERS && uboSets[..] == [nextSet, nextSet + 1]
      ensures grave.Valid() && grave.Value() == Graveyard.RetireDescSets(old(grave.Value()), old(uboSets[..]))
    {
      grave.RetireDescSets(uboSets[..]);
      var i := 0;
      while i < NUM_DYNBUFFERS
        invariant 0 <= i <= NUM_DYNBUFFERS
        invariant forall j :: 0 <= j < i ==> uboSets[j] == nextSet + j
        modifies uboSets
      {
        uboSets[i] := nextSet + i;
        i := i + 1;
      }
      next := nextSet + NUM_DYNBUFFERS;
      assert uboSets[..] == [nextSet, nextSet + 1];
    }

    /** QVk_GetStagingBuffer; fatal stands for Sys_Error, after which the caller does not go on. */
    method GetStagingBuffer(size: nat, alignment: nat) returns (fatal: bool, handout: Staging.Handout)
      requires Valid() && alignment > 0
      modifies this, staging, staging.bufs
      ensures var (v, o) := RS.GetStagingBuffer(old(State()), size, alignment);
        && Shaped() && State() == v && fatal == o.Fatal? && (o.Granted? ==> handout == o.handout)
      ensures !fatal ==> Valid()
    {
      RS.GetStagingBufferKeepsInv(State(), size, alignment);
      fatal, handout := RequestStaging(size, alignment);
    }

    /** QVk_GetStagingBuffer on the shape alone: the ring's outcome, its driver calls recorded. */
    method RequestStaging(size: nat, alignment: nat) returns (fatal: bool, handout: Staging.Handout)
      requires Shaped() && alignment > 0
      modifies this, staging, staging.bufs
      ensures var (v, o) := RS.GetStagingBuffer(old(State()), size, alignment);
        && State() == v && fatal == o.Fatal? && (o.Granted? ==> handout == o.handout)
    {
      var events;
      fatal, handout, events := staging.Get(size, alignment);
      calls := calls + events;
    }

    /** QVk_SubmitStagingBuffers. */
    method SubmitStagingBuffers()
      requires Valid()
      modifies this, staging, staging.bufs
      ensures Valid() && State() == RS.SubmitStagingBuffers(old(State()))
    {
      RS.SubmitStagingBuffersKeepsInv(State());
      SubmitPendingStaging();
    }

    /** QVk_SubmitStagingBuffers on the shape alone. */
    method SubmitPendingStaging()
      requires Shaped()
      modifies this, staging, staging.bufs
      ensures State() == RS.SubmitStagingBuffers(old(State()))
    {
      var events := staging.SubmitPending();
      calls := calls + events;
    }

    /** QVk_BindPipeline. */
    method BindPipeline(p: PipelineId)
      requires Shaped()
      modifies this
      ensures Shaped() && State() == RS.BindPipeline(old(State()), p)
    {
      if pipeline != p {
        calls := calls + [Event.BindPipeline(p)];
        pipeline := p;
      }
    }

    /** QVk_RecreateSwapchain: the driver calls in their order. */
    method RecreateSwapchain()
      requires Shaped()
      modifies this
      ensures Shaped() && State() == RS.RecreateSwapchain(old(State()))
    {
      var log := calls;
      log := log + [Swapchain(WaitDeviceIdle)];
      log := log + [Swapchain(DestroyFramebuffers)];
      log := log + [Swapchain(DestroyImageViews)];
      log := log + [Swapchain(CreateSwapchain)];
      log := log + [Swapchain(DestroyDrawBuffers)];
      log := log + [Swapchain(CreateDrawBuffers)];
      log := log + [Swapchain(CreateImageViews)];
      log := log + [Swapchain(CreateFramebuffers)];
      assert log == calls + RS.SwapchainEvents();
      calls := log;
    }

    /**
     * RebuildTriangleFanIndexBuffer: fill the prefix, then twice advance
     * the dynamic-buffer index, allocate 6 * count bytes of index buffer and
     * copy the prefix there; the fan IBO then points at the active slot.
     */
    method RebuildTriangleFanIndexBuffer()
      requires Shaped() && 6 * fanCount <= MAX_REQUEST_SIZE
      modifies this, index, index.bufs, grave.buffers
      ensures Shaped() && State() == RS.Rebuild(old(State()))
    {
      var fanData := FillFanData(fanCount);
      ghost var s0 := State();
      CopyFanToAllSlots(fanData[..]);
      RS.RebuildSteps(s0, State());
      PointFanIbo();
    }

    /** The loop of RebuildTriangleFanIndexBuffer: the prefix lands in every dynamic index buffer in turn. */
    method CopyFanToAllSlots(fanData: seq<nat>)
      requires Shaped() && 6 * fanCount <= MAX_REQUEST_SIZE && fanData == TriangleFan.FanList(fanCount)
      modifies this, index, index.bufs, grave.buffers
      ensures Shaped() && State() == RS.RebuildFrom(old(State()), 0)
    {
      ghost var target := RS.RebuildFrom(State(), 0);
      var i := 0;
      while i < NUM_DYNBUFFERS
        invariant 0 <= i <= NUM_DYNBUFFERS && Shaped() && fanCount == old(fanCount)
        invariant fanData == TriangleFan.FanList(fanCount)
        invariant RS.RebuildFrom(State(), i) == target
      {
        ghost var before := State();
        RS.RebuildFromStep(before, i);
        CopyFanToNextSlot(fanData);
        assert State() == RS.RebuildStep(before);
        i := i + 1;
      }
    }

    /** The fan IBO is the active slot's index buffer, and 6 * count bytes, rounded up to 4, stay reserved. */
    method PointFanIbo()
      requires Shaped()
      modifies this
      ensures Shaped()
      ensures State() == old(State()).(fanSlot := old(activeDyn), fanIboUsage := AlignUp(6 * old(fanCount), INDEX_ALIGNMENT))
    {
      fanSlot, fanIboUsage := activeDyn, AlignUp(3 * fanCount * 2, INDEX_ALIGNMENT);
    }

    /** One iteration of the rebuild loop. */
    method CopyFanToNextSlot(fanData: seq<nat>)
      requires Shaped() && 6 * fanCount <= MAX_REQUEST_SIZE && fanData == TriangleFan.FanList(fanCount)
      modifies this, index, index.bufs, grave.buffers
      ensures Shaped() && State() == RS.RebuildStep(old(State()))
    {
      ghost var s0 := State();
      AdvanceDynIndex();
      ghost var s1 := State();
      var dstOffset := AllocateIndex(6 * fanCount);
      ghost var s2 := State();
      WriteFan(dstOffset, fanData);
      RS.RebuildStepSteps(s0, s1, s2, dstOffset);
    }

    /** vk_activeDynBufferIdx moves to the other slot. */
    method AdvanceDynIndex()
      requires Shaped()
      modifies this
      ensures Shaped() && State() == old(State()).(activeDyn := (old(activeDyn) + 1) % NUM_DYNBUFFERS)
    {
      activeDyn := (activeDyn + 1) % NUM_DYNBUFFERS;
    }

    /** The memcpy of the prefix into the active index buffer at byte offset dstOffset. */
    method WriteFan(dstOffset: nat, fanData: seq<nat>)
      requires Shaped() && fanData == TriangleFan.FanList(fanCount)
      modifies index.bufs
      ensures Shaped() && State() == RS.WriteFan(old(State()), dstOffset)
    {
      index.Write(activeDyn, dstOffset / 2, fanData);
    }

    /** QVk_GetTriangleFanIbo. */
    method GetTriangleFanIbo(indexCount: nat) returns (ibo: BufferId)
      requires Valid() && (indexCount > fanCount ==> 12 * fanCount <= MAX_REQUEST_SIZE)
      modifies this, index, index.bufs, grave.buffers
      ensures Valid() && (State(), ibo) == RS.GetTriangleFanIbo(old(State()), indexCount)
    {
      RS.GetTriangleFanIboKeepsInv(State(), indexCount);
      ibo := ServeTriangleFan(indexCount);
    }

    /** QVk_GetTriangleFanIbo on the shape alone. */
    method ServeTriangleFan(indexCount: nat) returns (ibo: BufferId)
      requires Shaped() && (indexCount > fanCount ==> 12 * fanCount <= MAX_REQUEST_SIZE)
      modifies this, index, index.bufs, grave.buffers
      ensures Shaped() && (State(), ibo) == RS.GetTriangleFanIbo(old(State()), indexCount)
    {
      TrackFanUsage(indexCount);
      if indexCount > fanCount {
        GrowFan();
      }
      ibo := index.bufs[fanSlot].id;
    }

    /** The count doubles and the index buffers are rebuilt. */
    method GrowFan()
      requires Shaped() && 12 * fanCount <= MAX_REQUEST_SIZE
      modifies this, index, index.bufs, grave.buffers
      ensures Shaped() && State() == RS.GrowFan(old(State()))
    {
      fanCount := fanCount * 2;
      RebuildTriangleFanIndexBuffer();
    }

    /** The usage and peak-usage updates of QVk_GetTriangleFanIbo. */
    method TrackFanUsage(indexCount: nat)
      requires Shaped()
      modifies this
      ensures Shaped() && State() == RS.TrackFanUsage(old(State()), indexCount)
    {
      if indexCount > fanUsage {
        fanUsage := indexCount;
      }
      if fanUsage > fanMaxUsage {
        fanMaxUsage := fanUsage;
      }
    }

    /** QVk_BeginFrame, given what vkAcquireNextImageKHR returns. */
    method BeginFrame(acquire: int) returns (result: int)
      requires Valid()
      modifies this, vertex, vertex.bufs, index, index.bufs, uniform, uniform.bufs, grave, grave.buffers, grave.descSets
      ensures Valid() && (State(), result) == RS.BeginFrame(old(State()), acquire)
    {
      RS.BeginFrameKeepsInv(State(), acquire);
      ResetTracking();
      ReleaseAndAcquire();
      SwapDynamicBuffers();
      if acquire == VkResults.VK_ERROR_OUT_OF_DATE_KHR {
        RecreateSwapchain();
        return acquire;
      }
      Record([WaitFrameFence(activeBuffer)]);
      SetFrameStarted(true);
      result := VkResults.VK_SUCCESS;
    }

    /** The tracking reset at the start of QVk_BeginFrame. */
    method ResetTracking()
      requires Shaped()
      modifies this, vertex, index, uniform
      ensures Shaped() && State() == RS.ResetTracking(old(State()))
    {
      pipeline := NULL_HANDLE;
      ResetUsage();
      fanUsage := 0;
    }

    /** The three usage counters restart: vertex and uniform at 0, index at the reserved fan prefix. */
    method ResetUsage()
      requires Shaped()
      modifies vertex, index, uniform
      ensures Shaped()
      ensures State() == old(State()).(vertex := old(State()).vertex.(usage := 0),
        index := old(State()).index.(usage := fanIboUsage), uniform := old(State()).uniform.(usage := 0))
    {
      vertex.SetUsage(0);
      index.SetUsage(fanIboUsage);
      uniform.SetUsage(0);
    }

    /** ReleaseSwapBuffers, then the image acquisition, recorded in order. */
    method ReleaseAndAcquire()
      requires Shaped()
      modifies this, grave, grave.buffers, grave.descSets
      ensures Shaped()
      ensures var (g, freed) := Graveyard.Release(old(grave.Value()));
        State() == old(State()).(grave := g, calls := old(calls) + freed + [AcquireImage(old(activeBuffer))])
    {
      var freed := grave.Release();
      calls := calls + freed + [AcquireImage(activeBuffer)];
    }

    /** The dynamic-buffer swap of QVk_BeginFrame. */
    method SwapDynamicBuffers()
      requires Shaped()
      modifies this, vertex.bufs, index.bufs, uniform.bufs
      ensures Shaped() && State() == RS.SwapDynamicBuffers(old(State()))
    {
      AdvanceDynIndex();
      RewindSlot();
    }

    /** The new slot starts over: uniform and vertex offsets at 0, the index offset past the fan prefix. */
    method RewindSlot()
      requires Shaped()
      modifies vertex.bufs, index.bufs, uniform.bufs
      ensures Shaped()
      ensures State() == old(State()).(uniform := RS.SetOffset(old(State()).uniform, activeDyn, 0),
        vertex := RS.SetOffset(old(State()).vertex, activeDyn, 0), index := RS.SetOffset(old(State()).index, activeDyn, fanIboUsage))
    {
      uniform.Rewind(activeDyn, 0);
      vertex.Rewind(activeDyn, 0);
      index.Rewind(activeDyn, fanIboUsage);
    }

    /** Driver calls appended to the log. */
    method Record(events: seq<Event>)
      requires Shaped()
      modifies this
      ensures Shaped() && State() == old(State()).(calls := old(calls) + events)
    {
      calls := calls + events;
    }

    /** vk_frameStarted. */
    method SetFrameStarted(started: bool)
      requires Shaped()
      modifies this
      ensures Shaped() && State() == old(State()).(frameStarted := started)
    {
      frameStarted := started;
    }

    /** QVk_EndFrame, given what vkQueuePresentKHR returns. */
    method EndFrame(force: bool, present: int) returns (result: int)
      requires Valid()
      modifies this, staging, staging.bufs
      ensures Valid() && (State(), result) == RS.EndFrame(old(State()), force, present)
    {
      RS.EndFrameKeepsInv(State(), force, present);
      if !frameStarted {
        return VkResults.VK_NOT_READY;
      }
      result := FinishFrame(force, present);
    }

    /** QVk_EndFrame once a frame has been started. */
    method FinishFrame(force: bool, present: int) returns (result: int)
      requires Shaped() && frameStarted
      modifies this, staging, staging.bufs
      ensures Shaped() && State() == RS.EndFrame(old(State()), force, present).0 && result == present
    {
      SubmitFrameWork(force);
      PresentFrame(present);
      result := present;
    }

    /** The first half of a completed QVk_EndFrame. */
    method SubmitFrameWork(force: bool)
      requires Shaped()
      modifies this, staging, staging.bufs
      ensures Shaped() && State() == RS.SubmitFrameWork(old(State()), force)
    {
      if force {
        Record([EndWorldRenderpass]);
      }
      SubmitPendingStaging();
      BindPipeline(postprocess);
    }

    /** The second half of a completed QVk_EndFrame. */
    method PresentFrame(present: int)
      requires Shaped()
      modifies this
      ensures Shaped() && State() == RS.PresentFrame(old(State()), present)
    {
      Record([SubmitFrame(activeBuffer), Present(activeBuffer)]);
      if present == VkResults.VK_ERROR_OUT_OF_DATE_KHR || present == VkResults.VK_SUBOPTIMAL_KHR {
        RecreateSwapchain();
      }
      AdvanceFrame();
    }

    /** The end of QVk_EndFrame: the next command buffer, and no frame started. */
    method AdvanceFrame()
      requires Shaped()
      modifies this
      ensures Shaped() && State() == old(State()).(activeBuffer := (old(activeBuffer) + 1) % NUM_CMDBUFFERS, frameStarted := false)
    {
      activeBuffer, frameStarted := (activeBuffer + 1) % NUM_CMDBUFFERS, false;
    }
  }

  /** The first loop of RebuildTriangleFanIndexBuffer: (0, i + 1, i + 2) per triangle, stored as uint16_t. */
  method FillFanData(count: nat) returns (fanData: array<nat>)
    ensures fresh(fanData) && fanData[..] == TriangleFan.FanList(count)
  {
    fanData := new nat[3 * count];
    var idx := 0;
    var i := 0;
    while i < count
      invariant 0 <= i <= count && idx == 3 * i
      invariant forall k :: 0 <= k < idx ==> fanData[k] == TriangleFan.FanValue(k)
    {
      assert idx / 3 == i && (idx + 1) / 3 == i && (idx + 2) / 3 == i;
      fanData[idx] := 0;
      idx := idx + 1;
      fanData[idx] := (i + 1) % TriangleFan.UINT16_MODULUS;
      idx := idx + 1;
      fanData[idx] := (i + 2) % TriangleFan.UINT16_MODULUS;
      idx := idx + 1;
      i := i + 1;
    }
  }
}
