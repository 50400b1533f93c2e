/**
 * The deferred-free ring of ref_vk/vk_common.c (vk_swapBuffers,
 * vk_swapDescriptorSets, their counts and vk_activeSwapBufferIdx): buffers
 * and descriptor sets that a growing allocator replaces are parked in the
 * active slot and freed a fixed number of ReleaseSwapBuffers calls later,
 * once the GPU can no longer be reading them.
 */
module Graveyard {
  import opened VkTypes

  /**
   * cursor is vk_activeSwapBufferIdx; each slot's sequence is the malloc'd
   * array, its length the slot's count, and the empty sequence stands for the
   * NULL pointer with count 0.
   */
  datatype Ring = Ring(cursor: nat, buffers: seq<seq<BufferId>>, descSets: seq<seq<DescSetId>>)

  predicate Valid(g: Ring)
  {
    g.cursor < NUM_SWAPBUFFER_SLOTS && |g.buffers| == NUM_SWAPBUFFER_SLOTS && |g.descSets| == NUM_SWAPBUFFER_SLOTS
  }

  /** The ring as the zero-initialised statics leave it. */
  function Empty(): (g: Ring)
    ensures Valid(g) && g.cursor == 0
    ensures forall s :: 0 <= s < NUM_SWAPBUFFER_SLOTS ==> g.buffers[s] == [] && g.descSets[s] == []
  {
    Ring(0, seq(NUM_SWAPBUFFER_SLOTS, _ => []), seq(NUM_SWAPBUFFER_SLOTS, _ => []))
  }

  /** A growing allocator appends the replaced buffers, in order, to the active slot. */
  function RetireBuffers(g: Ring, bufs: seq<BufferId>): (r: Ring)
    requires Valid(g)
    ensures Valid(r) && r.cursor == g.cursor && r.descSets == g.descSets
  {
    g.(buffers := g.buffers[g.cursor := g.buffers[g.cursor] + bufs])
  }

  /** The uniform allocator also appends the replaced descriptor sets to the active slot. */
  function RetireDescSets(g: Ring, sets: seq<DescSetId>): (r: Ring)
    requires Valid(g)
    ensures Valid(r) && r.cursor == g.cursor && r.buffers == g.buffers
  {
    g.(descSets := g.descSets[g.cursor := g.descSets[g.cursor] + sets])
  }

  /** One QVk_FreeBuffer call per parked buffer, in slot order. */
  function FreeEvents(bufs: seq<BufferId>): (e: seq<Event>)
    ensures |e| == |bufs|
  {
    seq(|bufs|, i requires 0 <= i < |bufs| => FreeBuffer(bufs[i]))
  }

  /** The slot ReleaseSwapBuffers frees when the cursor stands at c: two ahead. */
  function ReleasedSlot(c: nat): nat
  {
    ((c + 1) % NUM_SWAPBUFFER_SLOTS + 1) % NUM_SWAPBUFFER_SLOTS
  }

  /**
   * ReleaseSwapBuffers: advance the cursor, then free the slot after the new
   * cursor, buffers first (when its count is positive) and then its
   * descriptor sets in one call (when their count is positive), and empty it.
   */
  function Release(g: Ring): (r: (Ring, seq<Event>))
    requires Valid(g)
    ensures Valid(r.0)
  {
    var c := (g.cursor + 1) % NUM_SWAPBUFFER_SLOTS;
    var rel := (c + 1) % NUM_SWAPBUFFER_SLOTS;
    var bufEvents := if |g.buffers[rel]| > 0 then FreeEvents(g.buffers[rel]) else [];
    var setEvents := if |g.descSets[rel]| > 0 then [FreeDescriptorSets(g.descSets[rel])] else [];
    (Ring(c, g.buffers[rel := []], g.descSets[rel := []]), bufEvents + setEvents)
  }

  /**
   * One call: the cursor moves on by one, the slot freed is neither the old
   * nor the new active slot, it ends empty, every other slot keeps its
   * contents, and the events free exactly what that slot held.
   */
  lemma ReleaseFreesTwoAhead(g: Ring)
    requires Valid(g)
    ensures var (r, events) := Release(g); var rel := ReleasedSlot(g.cursor);
      && r.cursor == (g.cursor + 1) % NUM_SWAPBUFFER_SLOTS
      && rel != r.cursor && rel != g.cursor
      && rel == (g.cursor + 2) % NUM_SWAPBUFFER_SLOTS
      && r.buffers[rel] == [] && r.descSets[rel] == []
      && (forall s :: 0 <= s < NUM_SWAPBUFFER_SLOTS && s != rel ==> r.buffers[s] == g.buffers[s] && r.descSets[s] == g.descSets[s])
      && (forall b :: b in g.buffers[rel] ==> FreeBuffer(b) in events)
      && (|g.descSets[rel]| > 0 <==> FreeDescriptorSets(g.descSets[rel]) in events)
      && |events| == |g.buffers[rel]| + (if |g.descSets[rel]| > 0 then 1 else 0)
  {
    var (r, events) := Release(g);
    var rel := ReleasedSlot(g.cursor);
    forall b | b in g.buffers[rel]
      ensures FreeBuffer(b) in events
    {
      var i :| 0 <= i < |g.buffers[rel]| && g.buffers[rel][i] == b;
      assert FreeEvents(g.buffers[rel])[i] == FreeBuffer(b);
    }
  }

  /** What happens to the ring between frames: an allocator retires things, or a frame begins. */
  datatype Op = Retire(bufs: seq<BufferId>, sets: seq<DescSetId>) | ReleaseOp

  function Step(g: Ring, op: Op): (r: (Ring, seq<Event>))
    requires Valid(g)
    ensures Valid(r.0)
  {
    match op
    case Retire(bufs, sets) => (RetireDescSets(RetireBuffers(g, bufs), sets), [])
    case ReleaseOp => Release(g)
  }

  /** Runs ops in order, collecting the free events. */
  function Run(g: Ring, ops: seq<Op>): (r: (Ring, seq<Event>))
    requires Valid(g)
    ensures Valid(r.0)
    decreases |ops|
  {
    if ops == [] then (g, [])
    else
      var (g1, e1) := Step(g, ops[0]);
      var (g2, e2) := Run(g1, ops[1..]);
      (g2, e1 + e2)
  }

  function Releases(ops: seq<Op>): nat
  {
    if ops == [] then 0 else (if ops[0].ReleaseOp? then 1 else 0) + Releases(ops[1..])
  }

  /** A run of ops is its first step followed by the rest. */
  lemma RunFirst(g: Ring, ops: seq<Op>)
    requires Valid(g) && ops != []
    ensures Run(g, ops).0 == Run(Step(g, ops[0]).0, ops[1..]).0
    ensures Releases(ops) == (if ops[0].ReleaseOp? then 1 else 0) + Releases(ops[1..])
  {
  }

  /** One step moves the cursor on exactly when it is a release. */
  lemma StepCursor(g: Ring, op: Op)
    requires Valid(g)
    ensures Step(g, op).0.cursor == (g.cursor + (if op.ReleaseOp? then 1 else 0)) % NUM_SWAPBUFFER_SLOTS
  {
  }

  /** A step that does not free slot s leaves everything in it in place. */
  lemma StepKeepsSlot(g: Ring, op: Op, s: nat)
    requires Valid(g) && s < NUM_SWAPBUFFER_SLOTS
    requires op.ReleaseOp? ==> ReleasedSlot(g.cursor) != s
    ensures g.buffers[s] <= Step(g, op).0.buffers[s]
    ensures g.descSets[s] <= Step(g, op).0.descSets[s]
  {
    if op.ReleaseOp? {
      ReleaseFreesTwoAhead(g);
    }
  }

  /** Reducing modulo the slot count before adding changes nothing. */
  lemma SlotArithmetic(x: nat, y: nat)
    ensures (x % NUM_SWAPBUFFER_SLOTS + y) % NUM_SWAPBUFFER_SLOTS == (x + y) % NUM_SWAPBUFFER_SLOTS
  {
    var q := x / NUM_SWAPBUFFER_SLOTS;
    assert x == NUM_SWAPBUFFER_SLOTS * q + x % NUM_SWAPBUFFER_SLOTS;
  }

  /** The cursor counts ReleaseSwapBuffers calls modulo the number of slots. */
  lemma {:induction false} RunCursor(g: Ring, ops: seq<Op>)
    requires Valid(g)
    ensures Run(g, ops).0.cursor == (g.cursor + Releases(ops)) % NUM_SWAPBUFFER_SLOTS
    decreases |ops|
  {
    if ops != [] {
      RunFirst(g, ops);
      StepCursor(g, ops[0]);
      var k := if ops[0].ReleaseOp? then 1 else 0;
      RunCursor(Step(g, ops[0]).0, ops[1..]);
      SlotArithmetic(g.cursor + k, Releases(ops[1..]));
    }
  }

  /**
   * How many ReleaseSwapBuffers calls, counted from cursor c, it takes until
   * slot s is the one freed: 3 for the active slot itself.
   */
  function Until(c: nat, s: nat): (n: nat)
    ensures 1 <= n <= NUM_SWAPBUFFER_SLOTS
  {
    var d := (s + NUM_SWAPBUFFER_SLOTS - c % NUM_SWAPBUFFER_SLOTS + 3) % NUM_SWAPBUFFER_SLOTS;
    if d == 0 then NUM_SWAPBUFFER_SLOTS else d
  }

  /** After Until(c, s) - 1 releases from cursor c, the next release frees slot s. */
  lemma UntilReaches(c: nat, s: nat)
    requires c < NUM_SWAPBUFFER_SLOTS && s < NUM_SWAPBUFFER_SLOTS
    ensures ReleasedSlot((c + Until(c, s) - 1) % NUM_SWAPBUFFER_SLOTS) == s
  {
  }

  /** A release that does not free slot s brings its turn one release closer. */
  lemma UntilStep(c: nat, s: nat)
    requires c < NUM_SWAPBUFFER_SLOTS && s < NUM_SWAPBUFFER_SLOTS
    ensures ReleasedSlot(c) != s <==> Until(c, s) > 1
    ensures ReleasedSlot(c) != s ==> Until((c + 1) % NUM_SWAPBUFFER_SLOTS, s) == Until(c, s) - 1
  {
  }

  /**
   * Nothing parked in slot s is freed before its turn: while fewer than
   * Until(cursor, s) releases have happened, the slot still starts with
   * everything it held.
   */
  lemma {:induction false} SlotSurvives(g: Ring, ops: seq<Op>, s: nat)
    requires Valid(g) && s < NUM_SWAPBUFFER_SLOTS
    requires Releases(ops) < Until(g.cursor, s)
    ensures g.buffers[s] <= Run(g, ops).0.buffers[s]
    ensures g.descSets[s] <= Run(g, ops).0.descSets[s]
    decreases |ops|
  {
    if ops != [] {
      var g1 := Step(g, ops[0]).0;
      RunFirst(g, ops);
      StepCursor(g, ops[0]);
      if ops[0].ReleaseOp? {
        UntilStep(g.cursor, s);
      }
      StepKeepsSlot(g, ops[0], s);
      SlotSurvives(g1, ops[1..], s);
    }
  }

  /**
   * ... and on its turn everything parked there is freed: after
   * Until(cursor, s) - 1 releases, the next ReleaseSwapBuffers frees every
   * buffer and descriptor set slot s held at the start.
   */
  lemma FreedOnItsTurn(g: Ring, ops: seq<Op>, s: nat)
    requires Valid(g) && s < NUM_SWAPBUFFER_SLOTS
    requires Releases(ops) == Until(g.cursor, s) - 1
    ensures var (r, events) := Release(Run(g, ops).0);
      && (forall b :: b in g.buffers[s] ==> FreeBuffer(b) in events)
      && (g.descSets[s] != [] ==> exists sets :: FreeDescriptorSets(sets) in events && g.descSets[s] <= sets)
      && r.buffers[s] == [] && r.descSets[s] == []
  {
    var g2 := Run(g, ops).0;
    SlotSurvives(g, ops, s);
    RunReachesSlot(g, ops, s);
    ReleaseFreesSlot(g2, s);
    if g.descSets[s] != [] {
      assert FreeDescriptorSets(g2.descSets[s]) in Release(g2).1;
    }
  }

  /** After Until(cursor, s) - 1 releases the cursor stands where the next release frees slot s. */
  lemma RunReachesSlot(g: Ring, ops: seq<Op>, s: nat)
    requires Valid(g) && s < NUM_SWAPBUFFER_SLOTS
    requires Releases(ops) == Until(g.cursor, s) - 1
    ensures ReleasedSlot(Run(g, ops).0.cursor) == s
  {
    RunCursor(g, ops);
    CursorAfter(g.cursor, Releases(ops), Run(g, ops).0.cursor, s);
  }

  /** The cursor reached after Until(c0, s) - 1 releases is the one whose release frees slot s. */
  lemma CursorAfter(c0: nat, n: nat, c: nat, s: nat)
    requires c0 < NUM_SWAPBUFFER_SLOTS && s < NUM_SWAPBUFFER_SLOTS
    requires n == Until(c0, s) - 1 && c == (c0 + n) % NUM_SWAPBUFFER_SLOTS
    ensures ReleasedSlot(c) == s
  {
    UntilReaches(c0, s);
  }

  /** A release frees every buffer and descriptor set of the slot two ahead of the cursor and empties it. */
  lemma ReleaseFreesSlot(g: Ring, s: nat)
    requires Valid(g) && s < NUM_SWAPBUFFER_SLOTS && ReleasedSlot(g.cursor) == s
    ensures var (r, events) := Release(g);
      && (forall b :: b in g.buffers[s] ==> FreeBuffer(b) in events)
      && (g.descSets[s] != [] ==> FreeDescriptorSets(g.descSets[s]) in events)
      && r.buffers[s] == [] && r.descSets[s] == []
  {
    ReleaseFreesTwoAhead(g);
  }

  /** A buffer parked while its slot is active is freed by the third ReleaseSwapBuffers call. */
  lemma FreedOnThirdRelease(g: Ring, ops: seq<Op>)
    requires Valid(g) && Releases(ops) == 2
    ensures var (r, events) := Release(Run(g, ops).0);
      forall b :: b in g.buffers[g.cursor] ==> FreeBuffer(b) in events
  {
    FreedOnItsTurn(g, ops, g.cursor);
  }
}
