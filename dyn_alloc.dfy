/**
 * The bump allocator shared by QVk_GetVertexBuffer, QVk_GetIndexBuffer and
 * QVk_GetUniformBuffer (ref_vk/vk_common.c:1911-2033). Each buffer kind has
 * two instances, one per frame in flight, and one capacity; a request that
 * does not fit replaces both instances by larger fresh ones.
 */
module DynAlloc {
  import opened VkTypes
  import opened PowerOfTwo

  /** One buffer kind: its capacity, usage and peak usage from vk_config, and its two instances. */
  datatype Pool = Pool(size: nat, usage: nat, maxUsage: nat, bufs: seq<DynBuffer>)

  /** What one allocation hands back (buffer and offset) and what it did to the pool. */
  datatype Grant = Grant(pool: Pool, buffer: BufferId, offset: nat, grown: bool, retired: seq<BufferId>, nextId: BufferId)

  /** The three kinds differ in the rounding of a request and in the amount tested against the capacity. */
  datatype Kind = Vertex | Index | Uniform

  /** Bytes the bump pointer advances by: the request, rounded up to 4 (index) or 256 (uniform). */
  function StepOf(kind: Kind, size: nat): (step: nat)
    ensures size <= step
    ensures kind == Index ==> step % INDEX_ALIGNMENT == 0 && step < size + INDEX_ALIGNMENT
    ensures kind == Uniform ==> step % UNIFORM_ALIGNMENT == 0 && step < size + UNIFORM_ALIGNMENT
  {
    match kind
    case Vertex => size
    case Index => AlignUp(size, INDEX_ALIGNMENT)
    case Uniform => AlignUp(size, UNIFORM_ALIGNMENT)
  }

  /** Bytes added to the offset in the growth test; the uniform kind tests a fixed 1024. */
  function NeedOf(kind: Kind, size: nat): nat
  {
    match kind
    case Vertex => size
    case Index => AlignUp(size, INDEX_ALIGNMENT)
    case Uniform => UNIFORM_ALLOC_SIZE
  }

  /** Halfword positions in [lo, hi) lose their known contents. */
  function Forget(h: map<nat, nat>, lo: nat, hi: nat): (r: map<nat, nat>)
    ensures forall k :: k in r <==> k in h && !(lo <= k < hi)
    ensures forall k :: k in r ==> r[k] == h[k]
  {
    map k | k in h && !(lo <= k < hi) :: h[k]
  }

  /** Hand out step bytes at the current offset; the caller writes data the model does not know there. */
  function Bump(b: DynBuffer, step: nat): DynBuffer
  {
    b.(currentOffset := b.currentOffset + step,
       halfwords := Forget(b.halfwords, b.currentOffset / 2, (b.currentOffset + step + 1) / 2))
  }

  predicate PoolShape(p: Pool)
  {
    |p.bufs| == NUM_DYNBUFFERS
  }

  /** The allocator grows when the active offset plus the tested amount exceeds the capacity. */
  predicate NeedsGrowth(kind: Kind, p: Pool, active: nat, size: nat)
    requires PoolShape(p) && active < NUM_DYNBUFFERS
  {
    p.bufs[active].currentOffset + NeedOf(kind, size) > p.size
  }

  /**
   * Growth: the capacity becomes max(2 * capacity, NextPow2(size)) and both
   * instances are replaced by fresh buffers nextId and nextId + 1 at offset 0.
   */
  function Grow(p: Pool, size: nat, nextId: BufferId): (q: Pool)
    requires PoolShape(p) && size <= MAX_REQUEST_SIZE
    ensures PoolShape(q)
  {
    p.(size := Max(2 * p.size, NextPow2(size)), bufs := [FreshBuffer(nextId), FreshBuffer(nextId + 1)])
  }

  /** Handing out step bytes: the active instance advances, usage follows it and peak usage keeps up. */
  function Take(p: Pool, active: nat, step: nat): (q: Pool)
    requires PoolShape(p) && active < NUM_DYNBUFFERS
    ensures PoolShape(q)
  {
    var usage := p.bufs[active].currentOffset + step;
    Pool(p.size, usage, if p.maxUsage < usage then usage else p.maxUsage, p.bufs[active := Bump(p.bufs[active], step)])
  }

  /**
   * One allocation of size bytes from the active instance: grow if needed
   * (retiring both old instances in index order), then hand out the active
   * instance's offset and advance it by the rounded size.
   */
  function Allocate(kind: Kind, p: Pool, active: nat, size: nat, nextId: BufferId): (g: Grant)
    requires PoolShape(p) && active < NUM_DYNBUFFERS && size <= MAX_REQUEST_SIZE
    ensures PoolShape(g.pool)
  {
    var grow := NeedsGrowth(kind, p, active, size);
    var q := if grow then Grow(p, size, nextId) else p;
    Grant(Take(q, active, StepOf(kind, size)),
          q.bufs[active].id, q.bufs[active].currentOffset, grow,
          if grow then [p.bufs[0].id, p.bufs[1].id] else [],
          if grow then nextId + NUM_DYNBUFFERS else nextId)
  }

  /**
   * One call: it grows exactly when offset + tested amount > capacity; the
   * capacity never shrinks; the handed-out offset is the active instance's
   * pre-call offset (0 after a growth) and that instance advances by the
   * rounded size; a growth retires both old instances in order; usage is
   * the new offset and the peak usage never decreases.
   */
  lemma AllocateContract(kind: Kind, p: Pool, active: nat, size: nat, nextId: BufferId)
    requires PoolShape(p) && active < NUM_DYNBUFFERS && size <= MAX_REQUEST_SIZE
    ensures var g := Allocate(kind, p, active, size, nextId);
      && (g.grown <==> p.bufs[active].currentOffset + NeedOf(kind, size) > p.size)
      && g.pool.size >= p.size
      && (g.grown ==> g.pool.size >= 2 * p.size && g.pool.size >= NextPow2(size))
      && g.offset == (if g.grown then 0 else p.bufs[active].currentOffset)
      && g.buffer == (if g.grown then nextId + active else p.bufs[active].id)
      && g.pool.bufs[active].id == g.buffer
      && g.pool.bufs[active].currentOffset == g.offset + StepOf(kind, size)
      && (!g.grown ==> g.pool.bufs[1 - active] == p.bufs[1 - active])
      && (g.grown ==> g.pool.bufs[1 - active] == FreshBuffer(nextId + 1 - active))
      && g.retired == (if g.grown then [p.bufs[0].id, p.bufs[1].id] else [])
      && g.nextId == nextId + |g.retired|
      && g.pool.usage == g.pool.bufs[active].currentOffset
      && g.pool.maxUsage >= p.maxUsage && g.pool.maxUsage >= g.pool.usage
  {
    if NeedsGrowth(kind, p, active, size) {
      AllocateWithGrowth(kind, p, active, size, nextId);
    } else {
      AllocateWithoutGrowth(kind, p, active, size, nextId);
    }
  }

  /**
   * An allocation that does not fit replaces both instances by fresh
   * buffers nextId and nextId + 1, retires the old ones in order and hands
   * out offset 0 of the fresh active instance.
   */
  lemma AllocateWithGrowth(kind: Kind, p: Pool, active: nat, size: nat, nextId: BufferId)
    requires PoolShape(p) && active < NUM_DYNBUFFERS && size <= MAX_REQUEST_SIZE
    requires p.bufs[active].currentOffset + NeedOf(kind, size) > p.size
    ensures var g := Allocate(kind, p, active, size, nextId);
      && g.grown && g.pool.size == Max(2 * p.size, NextPow2(size))
      && g.retired == [p.bufs[0].id, p.bufs[1].id] && g.nextId == nextId + NUM_DYNBUFFERS
      && g.offset == 0 && g.buffer == nextId + active
      && g.pool.bufs[active] == Bump(FreshBuffer(nextId + active), StepOf(kind, size))
      && g.pool.bufs[1 - active] == FreshBuffer(nextId + 1 - active)
      && g.pool.usage == StepOf(kind, size)
      && g.pool.maxUsage == Max(p.maxUsage, StepOf(kind, size))
  {
    var q := Grow(p, size, nextId);
    assert q.bufs[active] == FreshBuffer(nextId + active);
    assert q.bufs[1 - active] == FreshBuffer(nextId + 1 - active);
  }

  /**
   * An allocation that fits changes only the active instance, which it
   * bumps by the rounded size; the capacity, the other instance and the ids
   * stay and nothing is retired.
   */
  lemma AllocateWithoutGrowth(kind: Kind, p: Pool, active: nat, size: nat, nextId: BufferId)
    requires PoolShape(p) && active < NUM_DYNBUFFERS && size <= MAX_REQUEST_SIZE
    requires p.bufs[active].currentOffset + NeedOf(kind, size) <= p.size
    ensures var g := Allocate(kind, p, active, size, nextId);
      && !g.grown && g.pool.size == p.size && g.retired == [] && g.nextId == nextId
      && g.offset == p.bufs[active].currentOffset && g.buffer == p.bufs[active].id
      && g.pool.bufs == p.bufs[active := Bump(p.bufs[active], StepOf(kind, size))]
  {
  }

  /** A vertex allocation always fits: offset + size <= capacity afterwards. */
  lemma VertexFits(p: Pool, active: nat, size: nat, nextId: BufferId)
    requires PoolShape(p) && active < NUM_DYNBUFFERS && size <= MAX_REQUEST_SIZE
    ensures var g := Allocate(Vertex, p, active, size, nextId);
      g.offset + size <= g.pool.size
  {
    if NeedsGrowth(Vertex, p, active, size) {
      AllocateWithGrowth(Vertex, p, active, size, nextId);
    } else {
      AllocateWithoutGrowth(Vertex, p, active, size, nextId);
    }
  }

  /**
   * An index allocation always fits once the capacity is at least 2 bytes
   * (it starts at 2 KiB): after a growth the rounded request is at most
   * NextPow2(size), a multiple of 4, or at most twice the old capacity.
   */
  lemma IndexFits(p: Pool, active: nat, size: nat, nextId: BufferId)
    requires PoolShape(p) && active < NUM_DYNBUFFERS && size <= MAX_REQUEST_SIZE && p.size >= 2
    ensures var g := Allocate(Index, p, active, size, nextId);
      g.offset + AlignUp(size, INDEX_ALIGNMENT) <= g.pool.size
  {
    var g := Allocate(Index, p, active, size, nextId);
    AllocateContract(Index, p, active, size, nextId);
    if g.grown {
      if size >= 4 {
        NextPow2MultipleOfFour(size);
        AlignUpLeast(size, INDEX_ALIGNMENT, NextPow2(size));
      } else {
        AlignUpLeast(size, INDEX_ALIGNMENT, 4);
      }
    }
  }

  /**
   * A uniform allocation fits when its rounded size is at most the 1024
   * bytes the growth test reserves (and the capacity is at least 512,
   * it starts at 2 MiB).
   */
  lemma UniformFitsWhenSmall(p: Pool, active: nat, size: nat, nextId: BufferId)
    requires PoolShape(p) && active < NUM_DYNBUFFERS && size <= MAX_REQUEST_SIZE && p.size >= 512
    requires AlignUp(size, UNIFORM_ALIGNMENT) <= UNIFORM_ALLOC_SIZE
    ensures var g := Allocate(Uniform, p, active, size, nextId);
      g.offset + AlignUp(size, UNIFORM_ALIGNMENT) <= g.pool.size
  {
    AllocateContract(Uniform, p, active, size, nextId);
  }

  /**
   * ... and a larger one can overrun: whenever offset + 1024 fits but
   * offset + rounded size does not, no growth happens and the handed-out
   * range ends past the capacity.
   */
  lemma UniformOverrun(p: Pool, active: nat, size: nat, nextId: BufferId)
    requires PoolShape(p) && active < NUM_DYNBUFFERS && size <= MAX_REQUEST_SIZE
    requires p.bufs[active].currentOffset + UNIFORM_ALLOC_SIZE <= p.size < p.bufs[active].currentOffset + AlignUp(size, UNIFORM_ALIGNMENT)
    ensures var g := Allocate(Uniform, p, active, size, nextId);
      !g.grown && g.offset + AlignUp(size, UNIFORM_ALIGNMENT) > g.pool.size
  {
    AllocateContract(Uniform, p, active, size, nextId);
  }

  /** A concrete instance: a 4 MiB uniform request on a fresh 2 MiB buffer. */
  lemma UniformOverrunExample()
    ensures var p := Pool(UNIFORM_BUFFER_SIZE, 0, 0, [FreshBuffer(1), FreshBuffer(2)]);
      var g := Allocate(Uniform, p, 0, 4 * 1024 * 1024, 3);
      !g.grown && g.offset == 0 && g.pool.size == UNIFORM_BUFFER_SIZE
      && g.pool.bufs[0].currentOffset == 4 * 1024 * 1024
  {
    var p := Pool(UNIFORM_BUFFER_SIZE, 0, 0, [FreshBuffer(1), FreshBuffer(2)]);
    UniformOverrun(p, 0, 4 * 1024 * 1024, 3);
    AllocateContract(Uniform, p, 0, 4 * 1024 * 1024, 3);
  }

  /** Every instance's offset is a multiple of a. */
  predicate OffsetsAligned(p: Pool, a: nat)
    requires a > 0
  {
    forall i :: 0 <= i < |p.bufs| ==> p.bufs[i].currentOffset % a == 0
  }

  /** Handing out a multiple of a keeps every offset a multiple of a. */
  lemma TakeKeepsAlignment(p: Pool, active: nat, step: nat, a: nat)
    requires PoolShape(p) && active < NUM_DYNBUFFERS && a > 0
    requires OffsetsAligned(p, a) && step % a == 0
    ensures OffsetsAligned(Take(p, active, step), a)
  {
    SumAligned(p.bufs[active].currentOffset, step, a);
  }

  /** Index offsets stay multiples of 4 ... */
  lemma IndexKeepsAlignment(p: Pool, active: nat, size: nat, nextId: BufferId)
    requires PoolShape(p) && active < NUM_DYNBUFFERS && size <= MAX_REQUEST_SIZE
    requires OffsetsAligned(p, INDEX_ALIGNMENT)
    ensures OffsetsAligned(Allocate(Index, p, active, size, nextId).pool, INDEX_ALIGNMENT)
  {
    var q := if NeedsGrowth(Index, p, active, size) then Grow(p, size, nextId) else p;
    assert OffsetsAligned(q, INDEX_ALIGNMENT);
    TakeKeepsAlignment(q, active, StepOf(Index, size), INDEX_ALIGNMENT);
  }

  /** ... and uniform offsets multiples of 256. */
  lemma UniformKeepsAlignment(p: Pool, active: nat, size: nat, nextId: BufferId)
    requires PoolShape(p) && active < NUM_DYNBUFFERS && size <= MAX_REQUEST_SIZE
    requires OffsetsAligned(p, UNIFORM_ALIGNMENT)
    ensures OffsetsAligned(Allocate(Uniform, p, active, size, nextId).pool, UNIFORM_ALIGNMENT)
  {
    var q := if NeedsGrowth(Uniform, p, active, size) then Grow(p, size, nextId) else p;
    assert OffsetsAligned(q, UNIFORM_ALIGNMENT);
    TakeKeepsAlignment(q, active, StepOf(Uniform, size), UNIFORM_ALIGNMENT);
  }

  /** Every instance's offset is within the capacity. */
  predicate OffsetsWithin(p: Pool)
  {
    forall i :: 0 <= i < |p.bufs| ==> p.bufs[i].currentOffset <= p.size
  }

  /** Vertex and index allocations keep every offset within the capacity. */
  lemma AllocateKeepsWithin(kind: Kind, p: Pool, active: nat, size: nat, nextId: BufferId)
    requires PoolShape(p) && active < NUM_DYNBUFFERS && size <= MAX_REQUEST_SIZE && kind != Uniform && p.size >= 2
    requires OffsetsWithin(p)
    ensures OffsetsWithin(Allocate(kind, p, active, size, nextId).pool)
  {
    var g := Allocate(kind, p, active, size, nextId);
    if kind == Vertex {
      VertexFits(p, active, size, nextId);
    } else {
      IndexFits(p, active, size, nextId);
    }
    if p.bufs[active].currentOffset + NeedOf(kind, size) > p.size {
      AllocateWithGrowth(kind, p, active, size, nextId);
      assert g.pool.bufs[1 - active].currentOffset == 0;
    } else {
      AllocateWithoutGrowth(kind, p, active, size, nextId);
    }
  }

  /** Both instances have distinct ids, all below the next id to be minted. */
  predicate IdsBelow(p: Pool, nextId: BufferId)
  {
    PoolShape(p) && p.bufs[0].id != p.bufs[1].id && p.bufs[0].id < nextId && p.bufs[1].id < nextId
  }

  /** An allocation keeps the ids distinct and below the next id, and the granted buffer stays active. */
  lemma AllocateKeepsIds(kind: Kind, p: Pool, active: nat, size: nat, nextId: BufferId)
    requires PoolShape(p) && active < NUM_DYNBUFFERS && size <= MAX_REQUEST_SIZE && IdsBelow(p, nextId)
    ensures var g := Allocate(kind, p, active, size, nextId);
      && IdsBelow(g.pool, g.nextId) && g.buffer < g.nextId && nextId <= g.nextId
      && g.pool.bufs[active].id == g.buffer
      && g.pool.bufs[active].currentOffset == g.offset + StepOf(kind, size)
      && (g.buffer == p.bufs[active].id ==> g.offset == p.bufs[active].currentOffset)
      && (g.buffer != p.bufs[active].id ==> g.buffer >= nextId)
      && (forall i :: 0 <= i < NUM_DYNBUFFERS && g.pool.bufs[i].id < nextId ==> g.pool.bufs[i] == p.bufs[i] || i == active)
  {
    AllocateContract(kind, p, active, size, nextId);
  }

  /** A sequence of allocations of one kind within one frame (the active instance fixed). */
  function Grants(kind: Kind, p: Pool, active: nat, sizes: seq<nat>, nextId: BufferId): (gs: seq<Grant>)
    requires PoolShape(p) && active < NUM_DYNBUFFERS
    requires forall i :: 0 <= i < |sizes| ==> sizes[i] <= MAX_REQUEST_SIZE
    ensures |gs| == |sizes|
    decreases |sizes|
  {
    if sizes == [] then []
    else
      var g := Allocate(kind, p, active, sizes[0], nextId);
      [g] + Grants(kind, g.pool, active, sizes[1..], g.nextId)
  }

  /** No grant in gs hands out a range of b starting below o. */
  predicate StartAfter(gs: seq<Grant>, b: BufferId, o: nat)
  {
    forall j :: 0 <= j < |gs| && gs[j].buffer == b ==> gs[j].offset >= o
  }

  /**
   * Once buffer b has been bumped to o, no later allocation hands out a
   * range of b starting below o.
   */
  lemma {:induction false} LaterGrantsStartAfter(kind: Kind, p: Pool, active: nat, sizes: seq<nat>, nextId: BufferId, b: BufferId, o: nat)
    requires PoolShape(p) && active < NUM_DYNBUFFERS
    requires forall i :: 0 <= i < |sizes| ==> sizes[i] <= MAX_REQUEST_SIZE
    requires IdsBelow(p, nextId) && b < nextId
    requires forall i :: 0 <= i < NUM_DYNBUFFERS && p.bufs[i].id == b ==> p.bufs[i].currentOffset >= o
    ensures StartAfter(Grants(kind, p, active, sizes, nextId), b, o)
    decreases |sizes|
  {
    if sizes != [] {
      var g := Allocate(kind, p, active, sizes[0], nextId);
      AllocateKeepsIds(kind, p, active, sizes[0], nextId);
      LaterGrantsStartAfter(kind, g.pool, active, sizes[1..], g.nextId, b, o);
      var gs := Grants(kind, p, active, sizes, nextId);
      assert gs[1..] == Grants(kind, g.pool, active, sizes[1..], g.nextId);
    }
  }

  /** Grant i covers [offset, offset + rounded sizes[i]) of its buffer; no two of these ranges overlap. */
  predicate Disjoint(kind: Kind, gs: seq<Grant>, sizes: seq<nat>)
    requires |gs| == |sizes|
  {
    forall i, j :: 0 <= i < j < |gs| ==>
      gs[i].buffer != gs[j].buffer || gs[i].offset + StepOf(kind, sizes[i]) <= gs[j].offset
  }

  /**
   * Allocations made in one frame never overlap: two grants are in
   * different buffers, or the earlier one ends where a later one may start.
   */
  lemma {:induction false} GrantsDisjoint(kind: Kind, p: Pool, active: nat, sizes: seq<nat>, nextId: BufferId)
    requires PoolShape(p) && active < NUM_DYNBUFFERS
    requires forall i :: 0 <= i < |sizes| ==> sizes[i] <= MAX_REQUEST_SIZE
    requires IdsBelow(p, nextId)
    ensures Disjoint(kind, Grants(kind, p, active, sizes, nextId), sizes)
    decreases |sizes|
  {
    if sizes != [] {
      var g := Allocate(kind, p, active, sizes[0], nextId);
      AllocateKeepsIds(kind, p, active, sizes[0], nextId);
      var gs := Grants(kind, p, active, sizes, nextId);
      var rest := Grants(kind, g.pool, active, sizes[1..], g.nextId);
      assert gs == [g] + rest;
      GrantsDisjoint(kind, g.pool, active, sizes[1..], g.nextId);
      LaterGrantsStartAfter(kind, g.pool, active, sizes[1..], g.nextId, g.buffer, g.offset + StepOf(kind, sizes[0]));
      assert sizes == [sizes[0]] + sizes[1..];
      DisjointCons(kind, g, rest, sizes[0], sizes[1..]);
    }
  }

  /** Prepending a grant whose range ends before every later range of its buffer keeps the ranges disjoint. */
  lemma DisjointCons(kind: Kind, g: Grant, rest: seq<Grant>, s0: nat, sizes: seq<nat>)
    requires |rest| == |sizes| && Disjoint(kind, rest, sizes)
    requires StartAfter(rest, g.buffer, g.offset + StepOf(kind, s0))
    ensures Disjoint(kind, [g] + rest, [s0] + sizes)
  {
    var gs := [g] + rest;
    var ss := [s0] + sizes;
    forall i, j | 0 <= i < j < |gs|
      ensures gs[i].buffer != gs[j].buffer || gs[i].offset + StepOf(kind, ss[i]) <= gs[j].offset
    {
      assert gs[j] == rest[j - 1];
      if i > 0 {
        assert gs[i] == rest[i - 1] && ss[i] == sizes[i - 1];
      }
    }
  }
}
