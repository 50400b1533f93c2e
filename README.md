# Vulkan renderer bookkeeping, modelled in Dafny

This project models the integer bookkeeping of the Vulkan renderer's common
module, `ref_vk/vk_common.c`. That module manages GPU memory and drives the
frame loop. The Vulkan objects themselves (buffers, descriptor sets, command
buffers, pipelines) are opaque handles here. The results of the driver calls
the module depends on (image acquisition, presentation) are parameters. Calls
into the driver and the memory allocator are recorded, in order, as events in
a log.

What is left is a sequential state machine over small fixed arrays, modular
indices and byte offsets:

- **Dynamic buffers.** There are three dynamic buffer kinds: vertex, index and
  uniform. Each kind has two instances, one per frame in flight, and a bump
  allocator. A request that does not fit replaces both instances by larger
  fresh buffers and retires the old ones (`DynAlloc`).
- **Graveyard.** Retired buffers and descriptor sets wait in a four-slot
  deferred-free ring, the graveyard. `ReleaseSwapBuffers` frees one slot per
  frame (`Graveyard`).
- **Staging ring.** Two fixed-size staging buffers take uploads. They are
  submitted when full and reused after their fence wait (`Staging`).
- **Triangle-fan prefix.** Each index buffer holds a shared 16-bit index
  prefix at its start. It is used to draw triangle fans as triangle lists
  (`TriangleFan`).
- **Frame lifecycle.** `QVk_BeginFrame` and `QVk_EndFrame` move the frame
  through its steps. `QVk_RecreateSwapchain` follows a fixed order, and
  `QVk_BindPipeline` keeps a one-entry cache (`RendererState`, `Renderpasses`).
- **Helpers.** `NextPow2` does bit smearing on a 32-bit `int` (`PowerOfTwo`).
  `QVk_GetError` maps a code to its name (`VkResults`).
  `QVk_FindDepthFormat` picks the depth format (`DepthFormat`). The world
  renderpass's attachment count is written in three places (`Renderpasses`).

The model has two layers:

- **`RendererState`** puts all of the module's globals into one value (`Vk`).
  Each C function becomes a function from the state before to the state
  after. The lemmas state what the operations promise: invariants kept,
  offsets handed out, what is freed when, and the shape of the fan prefix.
- **`VkCommon`** holds the same globals in objects updated in place:
  - `DynPool`: the `vk_dyn*Buffers` arrays and the `vk_config` counters;
  - `SwapRing`: the graveyard arrays and their cursor;
  - `StagingRing`: the staging buffers;
  - `Renderer`: everything together.

  Every method ensures that its object's new state is the matching
  specification function applied to the old state. The public `Renderer`
  methods also keep `RendererState.Inv`. Loops stay loops:
  - the graveyard free loop;
  - the staging submission loop;
  - the buffer replacement loop of a growth;
  - the descriptor-set loop;
  - both loops of the fan rebuild.

Modules and files:

| Module | File | Contents |
|---|---|---|
| `VkTypes` | `vk_types.dfy` | handles, constants, `AlignUp`, buffer records, events |
| `PowerOfTwo` | `next_pow2.dfy` | `NextPow2` on a 32-bit word given as its bits |
| `VkResults` | `vk_result.dfy` | `QVk_GetError` |
| `DepthFormat` | `depth_format.dfy` | `QVk_FindDepthFormat` |
| `Renderpasses` | `renderpasses.dfy` | attachment counts and swapchain recreation order |
| `DynAlloc` | `dyn_alloc.dfy` | the shared allocator of the three dynamic buffer kinds |
| `Graveyard` | `graveyard.dfy` | the deferred-free ring |
| `Staging` | `staging.dfy` | the staging ring |
| `TriangleFan` | `triangle_fan.dfy` | the fan index prefix and writes into index memory |
| `RendererState` | `renderer_state.dfy` | the whole state and every operation on it |
| `VkCommon` | `vk_common.dfy` | the classes updated in place |

The graveyard: `ReleaseSwapBuffers` (`ref_vk/vk_common.c:959-960`) first
advances the cursor and then frees the slot after the new cursor. That slot
is two slots from the cursor as it stood before the call. Something retired
while its slot is active is therefore freed by the third following
`ReleaseSwapBuffers` (`Graveyard.ReleaseFreesTwoAhead`,
`Graveyard.FreedOnThirdRelease`).

The model keeps four quirks of the code rather than repairing them:

- The fan index buffer returned is the one that was active at the last
  rebuild, not the current one (`RendererState.FanIboLagsAfterBeginFrame`).
- An index-buffer growth drops the fan prefix, yet every frame still starts
  the index offset past it (`RendererState.IndexGrowthDropsPrefix`).
- The rebuild writes the prefix at the current bump offsets, which are 0
  only at initialisation (`RendererState.RebuildWritesAtBumpOffsets`).
- The uniform growth test reserves a fixed 1024 bytes, so a larger request
  can overrun the buffer (`DynAlloc.UniformOverrun`).

## Model

| member | source | states |
|---|---|---|
| VkTypes.AlignUp | ref_vk/vk_common.c:1950-1951 | rounding x up to a: the result is a multiple of a and lies in [x, x + a) |
| VkTypes.AlignUpLeast | ref_vk/vk_common.c:1950-1951 | the rounded value is the least multiple of a that is at least x |
| PowerOfTwo.NextPow2 | ref_vk/vk_common.c:983-993 | for 0 <= v <= 2^30: 0 maps to 0 (the decrement and increment wrap); otherwise the result is a power of two r with v <= r < 2v |
| PowerOfTwo.NextPow2Wraps | ref_vk/vk_common.c:983-993 | the two cases of the 32-bit computation: v = 0 wraps round to 0; v >= 1 gives 2^BitLength(v - 1) |
| PowerOfTwo.NextPow2IsLeast | ref_vk/vk_common.c:983-993 | no power of two that is at least v lies below NextPow2(v), so it is the least one |
| PowerOfTwo.NextPow2MultipleOfFour | ref_vk/vk_common.c:1955 | from 4 on the grown capacity NextPow2(size) is a multiple of 4 |
| PowerOfTwo.SmearedPlusOne | ref_vk/vk_common.c:985-991 | the smeared word plus one, before the increment wraps, is 2^BitLength of the decremented value |
| PowerOfTwo.SmearFillsBelowTop | ref_vk/vk_common.c:986-990 | after the five shift-or steps exactly the bits below the top set bit are set |
| PowerOfTwo.SmearCoversWord | ref_vk/vk_common.c:986-990 | after the shifts 1, 2, 4, 8 and 16, bit i is set iff some bit at or up to 31 places above i was set |
| PowerOfTwo.SmearDoubles | ref_vk/vk_common.c:986-990 | one step v \|= v >> s, with an arithmetic shift, doubles the window of higher bits each bit reflects |
| PowerOfTwo.ZeroWraps | ref_vk/vk_common.c:985-991 | 0 - 1 is the all-ones word, which smears to itself, and + 1 wraps to 0 |
| PowerOfTwo.PositiveDoesNotWrap | ref_vk/vk_common.c:985-991 | for 1 <= v <= 2^30 the increment does not wrap and the result is 2^BitLength(v - 1), between v and 2v |
| VkResults.CaseOf | ref_vk/vk_common.c:2178-2206 | the case label selected for a code has that code as its value |
| VkResults.GetError | ref_vk/vk_common.c:2175-2207 | the result is "<unknown>" or "VK_" followed by a name |
| VkResults.CaseOfCode | ref_vk/vk_common.c:2178-2206 | every listed result has its own case label |
| VkResults.GetErrorKnown | ref_vk/vk_common.c:2175-2207 | a code gets a name, not "<unknown>", iff it is one of the listed results |
| VkResults.GetErrorOfCode | ref_vk/vk_common.c:2177-2206 | a listed code's string is "VK_" and that result's own name |
| VkResults.SuccessIsUnknown | ref_vk/vk_common.c:2178-2206 | VK_SUCCESS has no case and maps to "<unknown>" |
| VkResults.GetErrorInjective | ref_vk/vk_common.c:2177-2206 | two codes with the same known name are the same code |
| VkResults.NamedOfName | ref_vk/vk_common.c:2177-2206 | each name reads back to its own case, so no two cases share a name |
| DepthFormat.FindDepthFormat | ref_vk/vk_common.c:245-265 | returns the first candidate in priority order that the device supports; D16_UNORM when it supports none |
| DepthFormat.FirstSupportedUnique | ref_vk/vk_common.c:245-265 | the first supported candidate is unique, so the device determines the result |
| Renderpasses.AttachmentCountsAgree | ref_vk/vk_common.c:494-498 | this renderpass count, the framebuffer count at line 347 and the clear-value count at line 1870 agree for every sample count; each is 3 iff MSAA is on; none exceeds the three-entry arrays; the subpass's colour and depth references are below the count |
| Renderpasses.StepIndex | ref_vk/vk_common.c:1896-1909 | each recreation step has a position in the fixed order |
| Renderpasses.RecreationOrder | ref_vk/vk_common.c:1896-1909 | recreation waits for the device first, takes each step once, destroys framebuffers before their views and draw buffers, and creates framebuffers after the new image views and draw buffers |
| DynAlloc.StepOf | ref_vk/vk_common.c:1950-1990 | the bump step is at least the request; for index and uniform buffers it is the request rounded up to the next multiple of 4 or 256 |
| DynAlloc.AllocateContract | ref_vk/vk_common.c:1947-1984 | growth happens iff offset + tested amount > capacity; capacity never shrinks and after growth is at least 2x and NextPow2(size); the handed-out offset is the old offset (0 after growth) and the active instance advances by the rounded size; growth retires both old instances in order; usage is the new offset; peak usage never decreases |
| DynAlloc.AllocateWithGrowth | ref_vk/vk_common.c:1953-1981 | growth: capacity max(2 * capacity, NextPow2(size)); both instances are fresh buffers, the active one bumped by the rounded size; the old ids are retired in order; offset 0 |
| DynAlloc.AllocateWithoutGrowth | ref_vk/vk_common.c:1976-1981 | without growth only the active instance changes, bumped by the rounded size; nothing is retired |
| DynAlloc.VertexFits | ref_vk/vk_common.c:1911-1945 | a vertex allocation always fits in the capacity afterwards |
| DynAlloc.IndexFits | ref_vk/vk_common.c:1947-1984 | an index allocation always fits in the capacity afterwards |
| DynAlloc.UniformFitsWhenSmall | ref_vk/vk_common.c:1989-2026 | a uniform allocation fits when its rounded size is at most the 1024 bytes the test reserves |
| DynAlloc.UniformOverrun | ref_vk/vk_common.c:1992-2026 | when offset + 1024 fits but offset + rounded size does not, nothing grows and the range ends past the capacity |
| DynAlloc.UniformOverrunExample | ref_vk/vk_common.c:1992-2026 | a 4 MiB request on a fresh 2 MiB uniform buffer is handed out at offset 0 without growth |
| DynAlloc.TakeKeepsAlignment | ref_vk/vk_common.c:1976-1977 | handing out a multiple of a keeps every offset a multiple of a |
| DynAlloc.IndexKeepsAlignment | ref_vk/vk_common.c:1950-1977 | index offsets stay multiples of 4 |
| DynAlloc.UniformKeepsAlignment | ref_vk/vk_common.c:1989-2026 | uniform offsets stay multiples of 256 |
| DynAlloc.AllocateKeepsWithin | ref_vk/vk_common.c:1911-1984 | vertex and index allocations keep every offset within the capacity |
| DynAlloc.AllocateKeepsIds | ref_vk/vk_common.c:1926-1977 | the two instances keep distinct handles below the next fresh one; the granted buffer stays active; old buffers other than the active one are untouched |
| DynAlloc.LaterGrantsStartAfter | ref_vk/vk_common.c:1936-1938 | once a buffer's offset has passed o, no later allocation hands out a range of it starting below o |
| DynAlloc.GrantsDisjoint | ref_vk/vk_common.c:1936-1977 | the ranges handed out within one frame never overlap |
| Graveyard.Empty | ref_vk/vk_common.c:209-220 | the zero-initialised ring: cursor 0 and every slot empty |
| Graveyard.RetireBuffers | ref_vk/vk_common.c:1918-1928 | retiring appends to the active slot only; the cursor and descriptor sets stay |
| Graveyard.RetireDescSets | ref_vk/vk_common.c:1998-2015 | retiring sets appends to the active slot only; the cursor and buffers stay |
| Graveyard.ReleaseFreesTwoAhead | ref_vk/vk_common.c:957-980 | the cursor advances by one mod 4; the freed slot is (old cursor + 2) mod 4, neither the old nor the new active slot; it ends empty; other slots keep their contents; the events free exactly what it held |
| Graveyard.StepCursor | ref_vk/vk_common.c:959 | only a release moves the cursor, by one mod 4 |
| Graveyard.StepKeepsSlot | ref_vk/vk_common.c:957-980 | a step that does not free slot s keeps everything in it |
| Graveyard.RunCursor | ref_vk/vk_common.c:959 | the cursor counts releases mod 4 |
| Graveyard.UntilStep | ref_vk/vk_common.c:959-960 | a release that does not free slot s brings its turn one release closer |
| Graveyard.SlotSurvives | ref_vk/vk_common.c:957-980 | nothing in slot s is freed before its turn |
| Graveyard.RunReachesSlot | ref_vk/vk_common.c:959-960 | after Until(cursor, s) - 1 releases, the next release frees slot s |
| Graveyard.ReleaseFreesSlot | ref_vk/vk_common.c:962-979 | a release frees every buffer and descriptor set of its slot and empties it |
| Graveyard.FreedOnItsTurn | ref_vk/vk_common.c:957-980 | on its turn everything parked in slot s is freed and the slot is emptied |
| Graveyard.FreedOnThirdRelease | ref_vk/vk_common.c:957-980 | a buffer parked in the active slot is freed by the third following release |
| Staging.Initial | ref_vk/vk_common.c:1029-1049 | the created ring keeps the staging invariant |
| Staging.GetStagingFits | ref_vk/vk_common.c:2035-2078 | a request no larger than the buffer is granted; the offset is aligned; the range fits; the active buffer afterwards is unsubmitted, holds the range and is the one handed out; the invariant is kept |
| Staging.GetStagingTooLarge | ref_vk/vk_common.c:2042-2043 | the call is fatal iff size > 8 MiB |
| Staging.ResetOnlyAfterFenceWait | ref_vk/vk_common.c:2045-2055 | a submitted buffer becomes writable only with its fence wait, and that wait is the last event, for the active buffer |
| Staging.OverflowSwitchesBuffer | ref_vk/vk_common.c:2045-2076 | two 5 MiB requests: the second submits buffer 0 and lands at offset 0 of buffer 1 with its command buffer |
| Staging.SubmitPendingExactly | ref_vk/vk_common.c:2098-2105 | exactly the unsubmitted buffers holding data are submitted; none is left pending; offsets stay; the invariant is kept |
| TriangleFan.FanValue | ref_vk/vk_common.c:1005-1010 | each value fits in 16 bits |
| TriangleFan.FanList | ref_vk/vk_common.c:1005-1010 | 3 * count values; triangle i is (0, i + 1, i + 2), each mod 2^16 |
| TriangleFan.WriteHalfwords | ref_vk/vk_common.c:1018 | the copy stores data at positions at.. and keeps every other known position; handle and offset unchanged |
| TriangleFan.WriteFanPlacesPrefix | ref_vk/vk_common.c:1017-1018 | copying the list places the prefix at the destination |
| TriangleFan.FreshBufferLacksPrefix | ref_vk/vk_common.c:1971 | a freshly created buffer holds no prefix |
| TriangleFan.FanWrapsPast16Bits | ref_vk/vk_common.c:1008-1009 | triangle 65535 is stored as (0, 0, 1) |
| RendererState.GetVertexBufferKeepsInv | ref_vk/vk_common.c:1911-1945 | the vertex allocator keeps the renderer invariant |
| RendererState.GetIndexBufferKeepsPools | ref_vk/vk_common.c:1947-1984 | an index allocation keeps the allocator invariants and never lowers the capacity or the peak usage; the range fits; the fan fields stay |
| RendererState.GetIndexBufferKeepsInv | ref_vk/vk_common.c:1947-1984 | the index allocator keeps the renderer invariant |
| RendererState.GetUniformBufferKeepsInv | ref_vk/vk_common.c:1986-2033 | the uniform allocator keeps the renderer invariant |
| RendererState.GetStagingBufferKeepsInv | ref_vk/vk_common.c:2035-2078 | the request is fatal iff too large, and a granted one keeps the invariant |
| RendererState.SubmitStagingBuffersKeepsInv | ref_vk/vk_common.c:2098-2105 | submitting pending staging buffers keeps the invariant |
| RendererState.TrackFanUsage | ref_vk/vk_common.c:2082-2086 | usage rises to at least indexCount and never falls; peak usage keeps up and never falls; nothing else changes |
| RendererState.RebuildStepKeepsPools | ref_vk/vk_common.c:1012-1021 | one iteration keeps the allocator invariants, moves the index on by one, and leaves the reserved prefix within capacity and peak usage |
| RendererState.WriteFanKeepsPools | ref_vk/vk_common.c:1018 | copying the prefix changes contents only |
| RendererState.RebuildKeepsInv | ref_vk/vk_common.c:996-1026 | a rebuild keeps the invariant, reserves 6 * count rounded to 4, leaves the dynamic index and the fan counters as they were, and points the fan IBO at the active slot |
| RendererState.GetTriangleFanIboKeepsInv | ref_vk/vk_common.c:2080-2096 | the fan IBO query keeps the invariant |
| RendererState.GetTriangleFanIboContract | ref_vk/vk_common.c:2080-2096 | usage and peak usage reach indexCount and never fall; the count doubles iff indexCount exceeds it; the dynamic index stays; the buffer returned is in the slot of the last rebuild; without a rebuild only the counters change |
| RendererState.GetTriangleFanIboDoublesOnce | ref_vk/vk_common.c:2088-2093 | the count doubles once per call, so asking for more than twice the count leaves it short |
| RendererState.SwapchainEventsComplete | ref_vk/vk_common.c:1896-1909 | the first recreation call is the device wait, and every recreation step is called |
| RendererState.SwapchainEventsDistinct | ref_vk/vk_common.c:1896-1909 | no recreation call is made twice |
| RendererState.SwapchainBefore | ref_vk/vk_common.c:1896-1909 | a step earlier in the fixed order is called before a later one |
| RendererState.SwapchainEventsOrder | ref_vk/vk_common.c:1896-1909 | the framebuffers are destroyed before the image views and draw buffers; the old image views before the new swapchain, whose image views come before the new framebuffers; the draw buffers are destroyed before they are created again, and created before the framebuffers |
| RendererState.BindPipelineCaches | ref_vk/vk_common.c:2166-2173 | the pipeline is bound afterwards; the driver is called iff it was not already bound; nothing else changes |
| RendererState.BindPipelineIdempotent | ref_vk/vk_common.c:2166-2173 | binding the same pipeline twice is the same as binding it once |
| RendererState.BeginFrameKeepsInv | ref_vk/vk_common.c:1734-1787 | QVk_BeginFrame keeps the invariant |
| RendererState.BeginFrameContract | ref_vk/vk_common.c:1734-1787 | the graveyard releases one step; the dynamic index advances; only the new slot is rewound (uniform and vertex to 0, index past the prefix); the pipeline cache is cleared; vertex, uniform and fan usage become 0 and index usage the reserved prefix; the frame slot and staging ring stay. On VK_ERROR_OUT_OF_DATE_KHR that code is returned, the started flag is unchanged and the swapchain is recreated; otherwise the fence is waited on, the frame starts and VK_SUCCESS is returned |
| RendererState.BeginFrameUnchecked | ref_vk/vk_common.c:1734-1787 | QVk_BeginFrame behaves the same whether or not a frame was already started |
| RendererState.EndFrameNotStarted | ref_vk/vk_common.c:1792-1793 | without a started frame QVk_EndFrame returns VK_NOT_READY and changes nothing |
| RendererState.EndFrameCompleted | ref_vk/vk_common.c:1789-1853 | a completed frame returns the present result; the frame slot advances; the frame ends; no staging buffer is left pending; the postprocess pipeline is bound; the dynamic buffers and graveyard are untouched; the swapchain is recreated iff the present was out of date or suboptimal |
| RendererState.EndFrameKeepsInv | ref_vk/vk_common.c:1789-1853 | QVk_EndFrame keeps the invariant |
| RendererState.BeginFrameKeepsPrefix | ref_vk/vk_common.c:1749-1754 | a frame start only moves offsets, so a prefix in place stays |
| RendererState.IndexAllocationKeepsPrefix | ref_vk/vk_common.c:1976-1977 | an index allocation past the prefix that does not grow keeps the prefix in both buffers |
| RendererState.IndexGrowthDropsPrefix | ref_vk/vk_common.c:1966-1973 | an index growth leaves neither buffer holding the prefix |
| RendererState.RebuildWritesAtBumpOffsets | ref_vk/vk_common.c:1012-1021 | without growth each buffer receives the prefix at its pre-rebuild bump offset, not at its start |
| RendererState.RebuildTwice | ref_vk/vk_common.c:1012-1021 | when neither iteration grows the buffers, each index buffer ends with the prefix at its old offset and its offset advanced by 6 * count rounded to 4 |
| RendererState.RebuildStepWrites | ref_vk/vk_common.c:1014-1018 | one iteration writes the prefix at the new active buffer's offset, advances that offset and leaves the other buffer |
| RendererState.RebuildBumpsOffsets | ref_vk/vk_common.c:1012-1021 | without growth each index offset moves on by 6 * count rounded to 4 |
| RendererState.FanIboLagsAfterBeginFrame | ref_vk/vk_common.c:2080-2096 | after a rebuild and then a frame start, the fan IBO returned is the previous frame's index buffer, not the active one |
| RendererState.Created | ref_vk/vk_common.c:1470-1481 | the start values satisfy the allocator invariants |
| RendererState.RebuildFromEmpty | ref_vk/vk_common.c:1705-1712 | a rebuild on empty index buffers puts the prefix at the start of both and leaves each offset just past it |
| RendererState.InitialState | ref_vk/vk_common.c:1705-1712 | after initialisation the invariant holds, both index buffers start with the prefix, each offset is 1200 and the fan IBO is slot 0 |
| VkCommon.DynPool.constructor | ref_vk/vk_common.c:940-954 | both instances fresh at the start capacity, counters 0 |
| VkCommon.DynPool.Grow | ref_vk/vk_common.c:1915-1933 | the pool becomes DynAlloc.Grow of the old pool; the old handles are returned in order |
| VkCommon.DynPool.Replace | ref_vk/vk_common.c:1926-1933 | the loop replaces both instances by fresh buffers and returns the old handles in order |
| VkCommon.DynPool.Take | ref_vk/vk_common.c:1936-1942 | returns the active instance's handle and old offset; the pool becomes DynAlloc.Take |
| VkCommon.DynPool.Allocate | ref_vk/vk_common.c:1911-1945 | the pool, the results and the graveyard are those of DynAlloc.Allocate on the old state |
| VkCommon.DynPool.SetUsage | ref_vk/vk_common.c:1738-1741 | only the usage counter changes |
| VkCommon.DynPool.Rewind | ref_vk/vk_common.c:1751-1754 | only the given instance's offset changes |
| VkCommon.DynPool.Write | ref_vk/vk_common.c:1018 | only the given instance's contents change, by the copy |
| VkCommon.SwapRing.constructor | ref_vk/vk_common.c:209-220 | the ring starts empty with cursor 0 |
| VkCommon.SwapRing.RetireBuffers | ref_vk/vk_common.c:1918-1928 | the ring becomes Graveyard.RetireBuffers of the old ring |
| VkCommon.SwapRing.RetireDescSets | ref_vk/vk_common.c:1998-2015 | the ring becomes Graveyard.RetireDescSets of the old ring |
| VkCommon.SwapRing.Release | ref_vk/vk_common.c:957-980 | the free loop yields the ring and events of Graveyard.Release |
| VkCommon.StagingRing.constructor | ref_vk/vk_common.c:1029-1049 | the ring is Staging.Initial |
| VkCommon.StagingRing.Submit | ref_vk/vk_common.c:1052-1079 | the buffer is marked submitted and the active index rotates, as Staging.Submit |
| VkCommon.StagingRing.Get | ref_vk/vk_common.c:2035-2078 | the ring, fatality, handout and events are those of Staging.GetStaging |
| VkCommon.StagingRing.SubmitPending | ref_vk/vk_common.c:2098-2105 | the loop yields the ring and events of Staging.SubmitPending |
| VkCommon.StagingRing.SubmitIfPending | ref_vk/vk_common.c:2100-2104 | one iteration submits buffer i exactly when it is pending, as Staging.SubmitPendingFrom's step |
| VkCommon.Renderer.constructor | ref_vk/vk_common.c:1705-1712 | the state is the initial state and the invariant holds |
| VkCommon.Renderer.GetVertexBuffer | ref_vk/vk_common.c:1911-1945 | the state and results follow RendererState.GetVertexBuffer and the invariant is kept |
| VkCommon.Renderer.AllocateVertex | ref_vk/vk_common.c:1911-1945 | only the vertex pool, handle counter and graveyard change, as the allocator computes |
| VkCommon.Renderer.GetIndexBuffer | ref_vk/vk_common.c:1947-1984 | the state and offset follow RendererState.GetIndexBuffer and the invariant is kept |
| VkCommon.Renderer.AllocateIndex | ref_vk/vk_common.c:1947-1984 | the state and offset follow RendererState.GetIndexBuffer |
| VkCommon.Renderer.GetUniformBuffer | ref_vk/vk_common.c:1986-2033 | the state, offset and descriptor set follow RendererState.GetUniformBuffer and the invariant is kept |
| VkCommon.Renderer.AllocateUniform | ref_vk/vk_common.c:1986-2033 | the state, offset and descriptor set follow RendererState.GetUniformBuffer |
| VkCommon.Renderer.AllocateUniformBuffer | ref_vk/vk_common.c:1992-2026 | only the uniform pool, handle counter and graveyard change, as the allocator computes |
| VkCommon.Renderer.ReplaceUboSets | ref_vk/vk_common.c:2007-2020 | the old descriptor sets are parked and two fresh ones take their place |
| VkCommon.Renderer.CreateUboSets | ref_vk/vk_common.c:2012-2020 | the sets become the next two handles; the old ones go to the active graveyard slot |
| VkCommon.Renderer.GetStagingBuffer | ref_vk/vk_common.c:2035-2078 | the state and results follow RendererState.GetStagingBuffer; the invariant is kept unless fatal |
| VkCommon.Renderer.RequestStaging | ref_vk/vk_common.c:2035-2078 | the state and results follow RendererState.GetStagingBuffer |
| VkCommon.Renderer.SubmitStagingBuffers | ref_vk/vk_common.c:2098-2105 | the state follows RendererState.SubmitStagingBuffers and the invariant is kept |
| VkCommon.Renderer.SubmitPendingStaging | ref_vk/vk_common.c:2098-2105 | the state follows RendererState.SubmitStagingBuffers |
| VkCommon.Renderer.BindPipeline | ref_vk/vk_common.c:2166-2173 | the state follows RendererState.BindPipeline |
| VkCommon.Renderer.RecreateSwapchain | ref_vk/vk_common.c:1896-1909 | the recreation calls are appended in their fixed order |
| VkCommon.Renderer.RebuildTriangleFanIndexBuffer | ref_vk/vk_common.c:996-1026 | the state follows RendererState.Rebuild |
| VkCommon.Renderer.CopyFanToAllSlots | ref_vk/vk_common.c:1012-1021 | the loop's state follows the rebuild loop of RendererState |
| VkCommon.Renderer.PointFanIbo | ref_vk/vk_common.c:1023-1024 | the fan IBO is the active slot and 6 * count rounded to 4 is reserved; nothing else changes |
| VkCommon.Renderer.CopyFanToNextSlot | ref_vk/vk_common.c:1014-1018 | one iteration follows RendererState.RebuildStep |
| VkCommon.Renderer.AdvanceDynIndex | ref_vk/vk_common.c:1014 | only the dynamic-buffer index changes, by one mod 2 |
| VkCommon.Renderer.WriteFan | ref_vk/vk_common.c:1018 | the copy follows RendererState.WriteFan |
| VkCommon.Renderer.GetTriangleFanIbo | ref_vk/vk_common.c:2080-2096 | the state and buffer follow RendererState.GetTriangleFanIbo and the invariant is kept |
| VkCommon.Renderer.ServeTriangleFan | ref_vk/vk_common.c:2080-2096 | the state and buffer follow RendererState.GetTriangleFanIbo |
| VkCommon.Renderer.GrowFan | ref_vk/vk_common.c:2088-2093 | the count doubles and the buffers are rebuilt |
| VkCommon.Renderer.TrackFanUsage | ref_vk/vk_common.c:2082-2086 | the counters follow RendererState.TrackFanUsage |
| VkCommon.Renderer.BeginFrame | ref_vk/vk_common.c:1734-1787 | the state and result follow RendererState.BeginFrame and the invariant is kept |
| VkCommon.Renderer.ResetTracking | ref_vk/vk_common.c:1736-1742 | the pipeline cache and usage counters are reset as RendererState.ResetTracking |
| VkCommon.Renderer.ResetUsage | ref_vk/vk_common.c:1738-1741 | vertex and uniform usage become 0 and index usage the reserved prefix |
| VkCommon.Renderer.ReleaseAndAcquire | ref_vk/vk_common.c:1744-1746 | the graveyard releases one step, then the acquisition is recorded |
| VkCommon.Renderer.SwapDynamicBuffers | ref_vk/vk_common.c:1750-1754 | the state follows RendererState.SwapDynamicBuffers |
| VkCommon.Renderer.RewindSlot | ref_vk/vk_common.c:1751-1754 | only the active slot's three offsets change |
| VkCommon.Renderer.EndFrame | ref_vk/vk_common.c:1789-1853 | the state and result follow RendererState.EndFrame and the invariant is kept |
| VkCommon.Renderer.FinishFrame | ref_vk/vk_common.c:1795-1852 | a started frame is completed and the present result returned |
| VkCommon.Renderer.SubmitFrameWork | ref_vk/vk_common.c:1795-1810 | the state follows RendererState.SubmitFrameWork |
| VkCommon.Renderer.PresentFrame | ref_vk/vk_common.c:1840-1851 | the state follows RendererState.PresentFrame |
| VkCommon.Renderer.AdvanceFrame | ref_vk/vk_common.c:1849-1851 | the frame slot advances mod 2 and the frame ends |
| VkCommon.FillFanData | ref_vk/vk_common.c:1005-1010 | the filled array is the fan list for the count |

## Left out

- `QVk_Init` and `QVk_Shutdown`: the instance, device, surface, allocator, command pool, fence and semaphore set-up and teardown are calls into Vulkan. Only the buffer set-up (`RendererState.Created`) and the first fan rebuild are modelled.
- Descriptor-set layouts, the descriptor pool, samplers, renderpass and pipeline creation, framebuffers and the static buffers are Vulkan struct assembly. Of these, only the attachment-count rule is kept. `ref_vk/vk_pipeline.c` is not part of this model.
- Driver and allocator calls are recorded as events, not executed: fence waits and resets, queue submits, present, command buffer recording, mapping, unmapping, flushing and invalidating memory. Only the fan index data written into mapped memory is modelled, as 16-bit values per halfword position.
- The acquired image index, viewport and scissor updates and all floating point are not modelled. `BUFFER_RESIZE_FACTOR` is modelled as exact doubling.
- Logging (`Con_Printf` and the log file) is not modelled.
- The draw helpers that use these allocators are not modelled.
- Handles are numbers handed out in creation order. Their concrete values are not the driver's.
- Retiring appends to a sequence. It is not modelled as `malloc`/`realloc` of a counted array; the count is the sequence's length.
- Within one allocation the offset, usage and peak-usage writes happen together; their order inside the C function is not modelled.
- `Sys_Error` on a too-large staging request is the `Fatal` outcome: the state keeps the aligned offset stored before the check, and nothing after it.
- DynAlloc.Grow: capacities are unbounded integers. The source treats them as 32-bit unsigned values (printed with `%u` at `ref_vk/vk_common.c:1917`, 1957 and 1996) and recomputes them through a float multiply by `BUFFER_RESIZE_FACTOR`, so a capacity past 2^31 would overflow there; the model doubles exactly and does not wrap.
- PowerOfTwo.NextPow2: modelled only for 0 <= v <= 2^30. Its callers narrow a 64-bit size to a signed 32-bit `int`, and a larger size would overflow or turn negative there.
- DynAlloc.Allocate: requires size <= 2^30 for the same reason. The same bound is on every allocator member in `RendererState` and `VkCommon`. It keeps the 32-bit `aligned_size` and the narrowing to `int` exact.
- RendererState.Rebuild: requires 6 * count <= 2^30, and a rebuild triggered by QVk_GetTriangleFanIbo requires 12 * count <= 2^30. These keep the 32-bit sizes exact. Wrap-around of larger counts is not modelled; the wrap of the 16-bit index values is (`TriangleFan.FanWrapsPast16Bits`).
- RendererState.BeginFrame: the debug-only `assert` on the acquire result is not modelled. Any result other than VK_ERROR_OUT_OF_DATE_KHR starts the frame and returns VK_SUCCESS, as a release build does.
- RendererState.EndFrame: `R_EndWorldRenderpass` is outside this file. It is the event `EndWorldRenderpass`.
