/**
 * The staging ring of ref_vk/vk_common.c (vk_stagingBuffers and
 * vk_activeStagingBuffer): two fixed-size upload buffers, each recorded into
 * its own command buffer; the active one is filled by QVk_GetStagingBuffer
 * until a request would reach the end, then submitted, and a submitted
 * buffer is reused only after its fence has been waited on.
 */
module Staging {
  import opened VkTypes

  datatype Ring = Ring(bufs: seq<StagingBuffer>, active: nat)

  predicate Valid(r: Ring)
  {
    |r.bufs| == NUM_DYNBUFFERS && r.active < NUM_DYNBUFFERS
  }

  /**
   * What every operation keeps: the buffer that is not active is either
   * submitted or empty, and the two command buffers are distinct.
   */
  predicate Inv(r: Ring)
  {
    && Valid(r)
    && (!r.bufs[1 - r.active].submitted ==> r.bufs[1 - r.active].currentOffset == 0)
    && r.bufs[0].cmdBuffer != r.bufs[1].cmdBuffer
  }

  /** The ring after CreateStagingBuffers: both buffers empty and unsubmitted, buffer 0 active. */
  function Initial(buf0: BufferId, cmd0: CmdBufferId, buf1: BufferId, cmd1: CmdBufferId): (r: Ring)
    requires cmd0 != cmd1
    ensures Inv(r)
  {
    Ring([StagingBuffer(buf0, cmd0, 0, false), StagingBuffer(buf1, cmd1, 0, false)], 0)
  }

  /** SubmitStagingBuffer(index): mark the buffer submitted and rotate the active index, whatever index was. */
  function Submit(r: Ring, index: nat): (res: (Ring, seq<Event>))
    requires Valid(r) && index < NUM_DYNBUFFERS
    ensures Valid(res.0)
  {
    (Ring(r.bufs[index := r.bufs[index].(submitted := true)], (r.active + 1) % NUM_DYNBUFFERS), [SubmitStaging(index)])
  }

  /** What the caller gets: the command buffer to record into, the buffer and the byte offset. */
  datatype Handout = Handout(cmdBuffer: CmdBufferId, buffer: BufferId, offset: nat)

  /** Sys_Error aborts the program; the ring keeps what was stored before it. */
  datatype Outcome =
    | Fatal(ring: Ring)
    | Granted(ring: Ring, handout: Handout, events: seq<Event>)

  /**
   * QVk_GetStagingBuffer: round the active offset up to alignment and store
   * it; a request larger than the buffer is fatal; when offset + size reaches
   * the end of an unsubmitted buffer, submit it (which rotates the active
   * index); if the now active buffer is submitted, wait for its fence and
   * reset it; hand out its offset and advance it by size.
   */
  function GetStaging(r: Ring, size: nat, alignment: nat): (o: Outcome)
    requires Valid(r) && alignment > 0
    ensures Valid(o.ring)
  {
    var i := r.active;
    var aligned := AlignUp(r.bufs[i].currentOffset, alignment);
    var r1 := r.(bufs := r.bufs[i := r.bufs[i].(currentOffset := aligned)]);
    if size > STAGING_BUFFER_MAXSIZE then Fatal(r1)
    else
      var (r2, submitted) := if aligned + size >= STAGING_BUFFER_MAXSIZE && !r1.bufs[i].submitted then Submit(r1, i) else (r1, []);
      var j := r2.active;
      var b := r2.bufs[j];
      var waited := if b.submitted then [WaitStagingFence(j)] else [];
      var ready := if b.submitted then b.(currentOffset := 0, submitted := false) else b;
      Granted(r2.(bufs := r2.bufs[j := ready.(currentOffset := ready.currentOffset + size)]),
              Handout(ready.cmdBuffer, ready.buffer, ready.currentOffset),
              submitted + waited)
  }

  /**
   * A request no larger than the buffer is granted a range that fits, starts
   * at a multiple of alignment, and lies in the buffer that is then active
   * and unsubmitted; the invariant is kept.
   */
  lemma GetStagingFits(r: Ring, size: nat, alignment: nat)
    requires Inv(r) && alignment > 0 && size <= STAGING_BUFFER_MAXSIZE
    ensures var o := GetStaging(r, size, alignment);
      && o.Granted?
      && Inv(o.ring)
      && o.handout.offset % alignment == 0
      && o.handout.offset + size <= STAGING_BUFFER_MAXSIZE
      && !o.ring.bufs[o.ring.active].submitted
      && o.handout.buffer == o.ring.bufs[o.ring.active].buffer
      && o.handout.cmdBuffer == o.ring.bufs[o.ring.active].cmdBuffer
      && o.ring.bufs[o.ring.active].currentOffset == o.handout.offset + size
  {
    var i := r.active;
    var aligned := AlignUp(r.bufs[i].currentOffset, alignment);
    var o := GetStaging(r, size, alignment);
    if aligned + size >= STAGING_BUFFER_MAXSIZE && !r.bufs[i].submitted {
      // the full buffer is submitted and the other one, empty or waited on, takes over at offset 0
      assert o.ring.active == 1 - i && o.handout.offset == 0;
      assert o.ring.bufs[i].submitted;
    } else {
      assert o.ring.active == i;
      assert o.handout.offset == if r.bufs[i].submitted then 0 else aligned;
    }
  }

  /** A request larger than the buffer is fatal. */
  lemma GetStagingTooLarge(r: Ring, size: nat, alignment: nat)
    requires Valid(r) && alignment > 0
    ensures GetStaging(r, size, alignment).Fatal? <==> size > STAGING_BUFFER_MAXSIZE
  {
  }

  /**
   * No buffer goes from submitted back to writable without its fence wait,
   * and that wait comes after any submission the same call made.
   */
  lemma ResetOnlyAfterFenceWait(r: Ring, size: nat, alignment: nat)
    requires Valid(r) && alignment > 0 && size <= STAGING_BUFFER_MAXSIZE
    ensures var o := GetStaging(r, size, alignment);
      && (forall k :: 0 <= k < NUM_DYNBUFFERS && r.bufs[k].submitted && !o.ring.bufs[k].submitted ==>
            WaitStagingFence(k) in o.events)
      && (forall k :: 0 <= k < NUM_DYNBUFFERS && WaitStagingFence(k) in o.events ==>
            o.events[|o.events| - 1] == WaitStagingFence(k) && k == o.ring.active)
  {
  }

  /**
   * Two 5 MiB requests on a fresh ring: the second no longer fits the 8 MiB
   * buffer, so the first buffer is submitted and the second request lands at
   * offset 0 of the other buffer, recorded into the other command buffer.
   */
  lemma OverflowSwitchesBuffer(buf0: BufferId, cmd0: CmdBufferId, buf1: BufferId, cmd1: CmdBufferId)
    requires cmd0 != cmd1
    ensures var o1 := GetStaging(Initial(buf0, cmd0, buf1, cmd1), 5 * 1024 * 1024, 4);
      && o1.Granted? && o1.handout == Handout(cmd0, buf0, 0) && o1.events == []
      && var o2 := GetStaging(o1.ring, 5 * 1024 * 1024, 4);
      && o2.Granted? && o2.handout == Handout(cmd1, buf1, 0) && o2.events == [SubmitStaging(0)]
      && o2.ring.bufs[0].submitted
  {
    var r0 := Initial(buf0, cmd0, buf1, cmd1);
    var o1 := GetStaging(r0, 5 * 1024 * 1024, 4);
    assert AlignUp(0, 4) == 0;
    assert o1.ring.bufs[0].currentOffset == 5 * 1024 * 1024;
    assert AlignUp(5 * 1024 * 1024, 4) == 5 * 1024 * 1024;
  }

  /** A buffer with recorded uploads that has not been submitted yet. */
  predicate Pending(r: Ring, k: nat)
    requires Valid(r) && k < NUM_DYNBUFFERS
  {
    !r.bufs[k].submitted && r.bufs[k].currentOffset > 0
  }

  /** The loop of QVk_SubmitStagingBuffers from index i on: submit each pending buffer in index order. */
  function SubmitPendingFrom(r: Ring, i: nat): (res: (Ring, seq<Event>))
    requires Valid(r) && i <= NUM_DYNBUFFERS
    ensures Valid(res.0)
    decreases NUM_DYNBUFFERS - i
  {
    if i == NUM_DYNBUFFERS then (r, [])
    else
      var (r1, e1) := if Pending(r, i) then Submit(r, i) else (r, []);
      var (r2, e2) := SubmitPendingFrom(r1, i + 1);
      (r2, e1 + e2)
  }

  /** QVk_SubmitStagingBuffers. */
  function SubmitPending(r: Ring): (res: (Ring, seq<Event>))
    requires Valid(r)
    ensures Valid(res.0)
  {
    SubmitPendingFrom(r, 0)
  }

  /**
   * QVk_SubmitStagingBuffers submits exactly the pending buffers (under the
   * invariant, at most the active one), leaves none pending and keeps the
   * invariant.
   */
  lemma SubmitPendingExactly(r: Ring)
    requires Inv(r)
    ensures var (r2, events) := SubmitPending(r);
      && (forall k :: 0 <= k < NUM_DYNBUFFERS ==> (SubmitStaging(k) in events <==> Pending(r, k)))
      && (forall k :: 0 <= k < NUM_DYNBUFFERS ==> !Pending(r2, k))
      && (forall k :: 0 <= k < NUM_DYNBUFFERS ==> r2.bufs[k].currentOffset == r.bufs[k].currentOffset)
      && Inv(r2)
  {
    var (r2, events) := SubmitPending(r);
    var (r1, e1) := if Pending(r, 0) then Submit(r, 0) else (r, []);
    assert SubmitPending(r) == (SubmitPendingFrom(r1, 1).0, e1 + SubmitPendingFrom(r1, 1).1);
    var (r1b, e1b) := if Pending(r1, 1) then Submit(r1, 1) else (r1, []);
    assert SubmitPendingFrom(r1, 1) == (r1b, e1b + []);
  }
}
