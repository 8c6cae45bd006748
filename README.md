# Deferred shading pipeline and GPU particle world: a Dafny model

This project models the orchestration layer of a Unity deferred-shading
renderer and of the GPU particle simulation that plugs into it. Nothing here
draws or simulates. The model keeps the state these two classes manage and the
order in which they do it:

- **DSRenderer** (`ds_renderer.dfy`, with `callbacks.dfy` and
  `frame_events.dfy`):
  - the four-slot G-buffer, the previous-frame G-buffer and the two composite
    textures;
  - the resize check that releases and reallocates them;
  - the per-frame swap of current and previous G-buffers, and the render
    buffers rebound to the new current one;
  - the view-projection shift and `SwapFramebuffer`;
  - seven callback lists sorted by priority;
  - the order in which `OnPreRender` and `OnPostRender` run those callbacks
    and the passes between them, recorded as a trace of events.
- **MPParticleWorldImplGPU** (`particle_world.dfy`, `growth.dfy`, `cube.dfy`):
  - four growable compute buffers (sphere, capsule and box colliders, and
    forces) whose capacity doubles until it exceeds the live count;
  - the constant 36-vertex cube mesh built from 24 face corners and an index
    table.
- **ParticleWorld** (`particle_world.dfy`):
  - the two G-buffer copy targets, sized from the renderer's resolution;
  - the per-frame collider snapshot and force-list clear;
  - the G-buffer pass, which makes the copy at most once per frame and only
    when some particle set asks for it.

The graphics device (`backend.dfy`) is reduced to a handle allocator and a
log of releases. Each allocation yields a handle never seen before, and every
release is appended in order. Render textures are records of their handle,
size, depth bits, format and created flag.

The camera's internal resolution is taken as a pair of real numbers that is
passed in. The C# `(int)` cast is modelled as truncation toward zero. The cube
mesh's positions are written in units of its half-size s (0.05), so every
coordinate is -1 or 1 and the normals are exact integers.

Two behaviours of the code worth noting:

- `List<T>.Sort` is not a stable sort, so only the ordering and the contents
  of a callback list are promised. The relative order of callbacks with equal
  priority is left open.
- `DSRenderer.UpdateRenderTargets` compares only the width of slot 0. A
  height-only change keeps the old targets (`HeightIsNotCompared`).

`ParticleWorld.UpdateRenderTargets` and the copy getters are modelled with the
corrected width comparison described under "## Findings"; the comparison as
written is kept beside it (`CopiesAfterAsWritten`).

## Model

| member | source | states |
|---|---|---|
| Backend.Truncate | Assets/DeferredShading/Scripts/DSRenderer.cs:156 | The `(int)` cast truncates toward zero: for a non-negative value the result is the largest integer not above it; for a negative one, the smallest integer not below it. |
| Backend.Device.CreateRenderTexture | Assets/DeferredShading/Scripts/DSRenderer.cs:117-128 | A created texture of the requested size, depth and format, under a handle never handed out before; nothing is released. |
| Backend.Device.ReleaseTexture | Assets/DeferredShading/Scripts/DSRenderer.cs:159-160 | The texture is logged as released and is no longer created; it is still referenced with the same handle and size. |
| Growth.GrownCapacity | Assets/CSParticle/Scripts/ParticleWorld.cs:145-148 | The capacity after growth exceeds the count and is at least the old one. It is unchanged or at most twice the count: growth never overshoots by more than one doubling. |
| Growth.GrowCapacity | Assets/CSParticle/Scripts/ParticleWorld.cs:145-148 | The doubling loop ends with a capacity above the count, equal to the growth specification. |
| Growth.GrownIsPowerOfTwoMultiple | Assets/CSParticle/Scripts/ParticleWorld.cs:145-148 | The grown capacity is the old one times 2^k, where k is the number of doublings. |
| Growth.GrownCapacityIsSmallestDoubling | Assets/CSParticle/Scripts/ParticleWorld.cs:145-148 | cap·2^k is the grown capacity if and only if it exceeds the count and cap·2^(k-1) does not. |
| Growth.GrowthComposes | Assets/CSParticle/Scripts/ParticleWorld.cs:143-148 | Growing for a count and then for a larger one ends where growing once for the larger one does. |
| Growth.GrowthOfTwoUpdates | Assets/CSParticle/Scripts/ParticleWorld.cs:143-148 | Two updates in a row leave the capacity that one update with the larger count leaves. |
| Growth.CapacityFollowsRunningMaximum | Assets/CSParticle/Scripts/ParticleWorld.cs:143-148 | After any number of updates, the capacity is the initial one grown for the largest count seen so far. |
| Growth.CapacityNeverDecreases | Assets/CSParticle/Scripts/ParticleWorld.cs:143-148 | Over a run of updates every capacity exceeds its count and is at least the initial one, and capacities never decrease. |
| Growth.GrowthScenario | Assets/CSParticle/Scripts/ParticleWorld.cs:143-148 | From 256, counts 10 and then 300 give capacities 256 and then 512: one doubling, not 257 and not 1024. |
| CubeMesh.CubeIndicesStayOnTheirFace | Assets/CSParticle/Scripts/ParticleWorld.cs:92-115 | The index table has 36 entries. Each group of six (two triangles) refers only to the four corners of its own face. |
| CubeMesh.ExpandedVerticesLieOnTheirFaces | Assets/CSParticle/Scripts/ParticleWorld.cs:92-115 | Every indexed corner lies on the face its normal points to: its coordinate along the normal is +s. |
| CubeMesh.CubeFaceNormalsAgree | Assets/CSParticle/Scripts/ParticleWorld.cs:100-107 | The four corners of a face share one normal, and that normal has unit length. |
| CubeMesh.ExpandedVerticesShareFaceNormal | Assets/CSParticle/Scripts/ParticleWorld.cs:100-115 | All six vertices of face k carry that face's normal. |
| CubeMesh.ExpandIndexed | Assets/CSParticle/Scripts/ParticleWorld.cs:116-121 | Vertex i takes the position and the normal of corner indices[i], for every i. |
| CubeMesh.BuildCubeVertices | Assets/CSParticle/Scripts/ParticleWorld.cs:86-122 | 36 vertices. Each is its indexed corner, carries its face's normal and lies on its face. |
| Callbacks.Compare | Assets/DeferredShading/Scripts/DSRenderer.cs:29-35 | The comparer's sign is the order of the two priorities, in all three directions. |
| Callbacks.CompareIsTotalPreorder | Assets/DeferredShading/Scripts/DSRenderer.cs:29-35 | The comparer is reflexive, antisymmetric in sign and transitive, as `List.Sort` requires. |
| Callbacks.Insert | Assets/DeferredShading/Scripts/DSRenderer.cs:77-78 | Inserting into a sorted list keeps it sorted, adds exactly the one callback and puts either it or the old head first. |
| Callbacks.SortByPriority | Assets/DeferredShading/Scripts/DSRenderer.cs:78 | The sorted list is ordered by non-decreasing priority and is a permutation of the input. |
| Callbacks.SortedPermutationsAgreeOnPriorities | Assets/DeferredShading/Scripts/DSRenderer.cs:75-109 | Any two sorted permutations of one list have the same priority at every position. Only the order among equal priorities is left to the sort. |
| FrameEvents.Invocations | Assets/DeferredShading/Scripts/DSRenderer.cs:244 | Running a list issues one invocation per callback, at that callback's position. |
| FrameEvents.InvocationsWithRebind | Assets/DeferredShading/Scripts/DSRenderer.cs:249-252 | The post-G-buffer loop issues two events per callback. |
| FrameEvents.InvocationsWithRebindPositions | Assets/DeferredShading/Scripts/DSRenderer.cs:249-252 | In the post-G-buffer loop, position 2k invokes callback k and position 2k+1 rebinds the G-buffer. |
| FrameEvents.InvocationsInvoke | Assets/DeferredShading/Scripts/DSRenderer.cs:244 | Running a list at a stage invokes exactly that list, in order, at that stage and nothing at any other. |
| FrameEvents.InvocationsStages | Assets/DeferredShading/Scripts/DSRenderer.cs:244 | Running a list invokes its stage once per callback, with no other stage in between. |
| FrameEvents.InvocationsWithRebindInvoke | Assets/DeferredShading/Scripts/DSRenderer.cs:249-252 | The post-G-buffer loop invokes exactly the post-G-buffer list, in order, and nothing else. |
| FrameEvents.InvocationsWithRebindStages | Assets/DeferredShading/Scripts/DSRenderer.cs:249-252 | The post-G-buffer loop invokes only its own stage, once per callback. |
| FrameEvents.LightingAndLaterInvokes | Assets/DeferredShading/Scripts/DSRenderer.cs:254-277 | After the post-G-buffer loop, each of the five later lists is invoked exactly in its stored order, and neither G-buffer list is invoked. |
| FrameEvents.LightingAndLaterStages | Assets/DeferredShading/Scripts/DSRenderer.cs:258-263 | The five later stages run as consecutive blocks in the order pre-lighting, post-lighting, transparent, post-effect, HUD. |
| FrameEvents.PostRenderRunsEachListInOrder | Assets/DeferredShading/Scripts/DSRenderer.cs:247-278 | `OnPostRender` invokes every list except the pre-G-buffer one, each exactly in its stored (priority) order. |
| FrameEvents.PostRenderStageOrder | Assets/DeferredShading/Scripts/DSRenderer.cs:249-263 | `OnPostRender`'s invocations are six consecutive blocks in the fixed stage order, each as long as its list. |
| FrameEvents.PostRenderRebindsAfterEachPostGBufferCallback | Assets/DeferredShading/Scripts/DSRenderer.cs:249-252 | In `OnPostRender`, every invocation of a post-G-buffer callback is immediately followed by a G-buffer rebind. |
| FrameEvents.PreRenderThen | Assets/DeferredShading/Scripts/DSRenderer.cs:236-244 | The pre-render part of the frame invokes only the pre-G-buffer stage, once per callback, ahead of whatever follows. |
| FrameEvents.FrameStageOrder | Assets/DeferredShading/Scripts/DSRenderer.cs:244-263 | A whole frame invokes the seven stages as consecutive blocks in their fixed order, each as long as its list. |
| FrameEvents.PreRenderEvents | Assets/DeferredShading/Scripts/DSRenderer.cs:236-244 | `OnPreRender` binds, clears and primes the G-buffer before any callback, then issues one event per pre-G-buffer callback. |
| FrameEvents.LightingAndLater | Assets/DeferredShading/Scripts/DSRenderer.cs:254-277 | After the post-G-buffer loop, the composite is cleared first and the combine to the screen comes last, with one event per later callback and four fixed passes. |
| FrameEvents.PostRenderEvents | Assets/DeferredShading/Scripts/DSRenderer.cs:247-278 | `OnPostRender` issues two events per post-G-buffer callback, one per later callback and four fixed passes, and ends with the combine to the screen. |
| DeferredShading.SettingsDifferOnlyInFormat | Assets/DeferredShading/Scripts/DSRenderer.cs:154-183 | The format setting decides the format of every allocated target and nothing else: the 16-bit and 32-bit settings allocate the same ten textures, half-float in one case and float in the other. |
| DeferredShading.PairIds | Assets/DeferredShading/Scripts/DSRenderer.cs:157-162 | The release loop gives back two handles per slot: the current texture at 2i, then the previous one at 2i+1. |
| DeferredShading.FreshTargetsAreUniform | Assets/DeferredShading/Scripts/DSRenderer.cs:171-183 | Newly allocated targets are all present and created, at the truncated resolution and in one format. Every handle is new, and the current and previous textures of each slot are different allocations. Exactly the current and previous slot-0 textures get the 32-bit depth buffer; the other six G-buffer textures and the composite pair get none. |
| DeferredShading.Updated | Assets/DeferredShading/Scripts/DSRenderer.cs:152-184 | The targets after the update are uniform and up to date for the resolution, and they are either the old targets or ten fresh ones. |
| DeferredShading.UpdatedIsUpToDate | Assets/DeferredShading/Scripts/DSRenderer.cs:152-184 | After the update the targets are uniform, and slot 0 is created at the requested width. Something is allocated if and only if the targets were not up to date, and then everything is new; otherwise nothing changes and nothing is released. |
| DeferredShading.UpdateIsIdempotent | Assets/DeferredShading/Scripts/DSRenderer.cs:152-184 | A second update at the same resolution releases nothing, allocates nothing and leaves the targets as they are. |
| DeferredShading.HeightIsNotCompared | Assets/DeferredShading/Scripts/DSRenderer.cs:156 | Up-to-date targets are kept whatever height is requested: only the width is compared. |
| DeferredShading.HeightOnlyChangeKeepsTargets | Assets/DeferredShading/Scripts/DSRenderer.cs:156 | 1280×720 targets asked for 1280×800 stay 1280×720. |
| DeferredShading.WidthChangeReplacesEverything | Assets/DeferredShading/Scripts/DSRenderer.cs:156-183 | A width change releases all ten targets once each, in loop order (then the composite and its back), and allocates ten new ones at the new size. |
| DeferredShading.SwapGBuffers | Assets/DeferredShading/Scripts/DSRenderer.cs:227-230 | The G-buffer swap leaves the composite pair untouched. |
| DeferredShading.SwapGBuffersTwice | Assets/DeferredShading/Scripts/DSRenderer.cs:227-230 | Swapping current and previous G-buffers twice restores the original assignment. |
| DeferredShading.SwapGBuffersKeepsUniform | Assets/DeferredShading/Scripts/DSRenderer.cs:227-230 | The swap keeps the targets uniform, so the next frame's update check still applies. |
| DeferredShading.Frames | Assets/DeferredShading/Scripts/DSRenderer.cs:213-230 | After one or more frames the targets are uniform. |
| DeferredShading.FramesAlternate | Assets/DeferredShading/Scripts/DSRenderer.cs:213-230 | At an unchanged width, the current and previous G-buffers alternate between the same two allocations frame after frame: after an even number of frames they are as at the start. |
| DeferredShading.SwapComposite | Assets/DeferredShading/Scripts/DSRenderer.cs:206 | The composite swap leaves both G-buffers untouched. |
| DeferredShading.SwapCompositeTwice | Assets/DeferredShading/Scripts/DSRenderer.cs:204-210 | Swapping the composite pair twice is the identity, and the swap keeps the targets uniform. |
| DeferredShading.RunCallbacks | Assets/DeferredShading/Scripts/DSRenderer.cs:244 | The `foreach` loop issues exactly the invocations of the list, in order. |
| DeferredShading.RunPostGBufferCallbacks | Assets/DeferredShading/Scripts/DSRenderer.cs:249-252 | The loop issues each post-G-buffer callback followed by a rebind, for the whole list. |
| DeferredShading.DSRenderer.constructor | Assets/DeferredShading/Scripts/DSRenderer.cs:130-138 | `OnEnable` creates the arrays and allocates ten fresh, uniform targets in the format the setting asks for, and keeps that setting for later reallocations. No render buffer is bound yet and the callback lists are empty. |
| DeferredShading.DSRenderer.AddCallback | Assets/DeferredShading/Scripts/DSRenderer.cs:75-109 | The stage's list becomes sorted by priority and holds its old callbacks plus the new one. The other stages and the targets are unchanged. |
| DeferredShading.DSRenderer.ReleaseTargets | Assets/DeferredShading/Scripts/DSRenderer.cs:156-170 | Every current G-buffer texture is released but kept, and every previous one is released and nulled. Then the composite and its back are released and nulled; the log gets exactly these handles, in this order. |
| DeferredShading.DSRenderer.ReleaseGBufferSlots | Assets/DeferredShading/Scripts/DSRenderer.cs:157-162 | The slot loop of the release branch: the current textures are unmade but kept, the previous ones nulled, and the handles are released pairwise in slot order. |
| DeferredShading.DSRenderer.ReleaseSlot | Assets/DeferredShading/Scripts/DSRenderer.cs:159-161 | One slot: the current texture is unmade, the previous one nulled, and both handles are logged; the other slots are unchanged. |
| DeferredShading.DSRenderer.AllocateTargets | Assets/DeferredShading/Scripts/DSRenderer.cs:173-182 | Ten new textures with consecutive new handles in loop order: current and previous per slot, then the composite and its back. |
| DeferredShading.DSRenderer.UpdateRenderTargets | Assets/DeferredShading/Scripts/DSRenderer.cs:152-184 | The targets become the update of the old ones. Exactly the handles of the release branch are released and the handles of the allocation branch allocated, and the targets stay uniform. |
| DeferredShading.DSRenderer.SwapFramebuffer | Assets/DeferredShading/Scripts/DSRenderer.cs:204-210 | Front and back composite are exchanged, and the returned texture is the new back (the old front). It is published as the frame buffer before the composite is rebound with depth. |
| DeferredShading.DSRenderer.SwapGBufferSlots | Assets/DeferredShading/Scripts/DSRenderer.cs:227-230 | After the loop, the current and previous G-buffers are exchanged in every slot. |
| DeferredShading.DSRenderer.RebindGBuffer | Assets/DeferredShading/Scripts/DSRenderer.cs:231-234 | Every render buffer is the color buffer of the current G-buffer texture of its slot. |
| DeferredShading.DSRenderer.OnPreRender | Assets/DeferredShading/Scripts/DSRenderer.cs:213-245 | Targets updated and then swapped; the old view-projection becomes the previous one. The render buffers follow the new current G-buffer, and the trace gains bind, clear and dummy draw followed by the pre-G-buffer callbacks. |
| DeferredShading.DSRenderer.OnPostRender | Assets/DeferredShading/Scripts/DSRenderer.cs:247-278 | The trace gains exactly the post-render sequence of callbacks and passes; targets and lists are unchanged. |
| DeferredShading.SwapTwice | Assets/DeferredShading/Scripts/DSRenderer.cs:310-316 | Swapping twice gives back the original pair. |
| CSParticle.Dropped | Assets/CSParticle/Scripts/ParticleWorld.cs:143-149 | A buffer is given back exactly when its count has reached its capacity. |
| CSParticle.Grew | Assets/CSParticle/Scripts/ParticleWorld.cs:143-150 | One new buffer is created exactly when one is given back. |
| CSParticle.SyncBuffer | Assets/CSParticle/Scripts/ParticleWorld.cs:143-152 | The buffer ends up holding the records, with the grown capacity. Its handle is kept below capacity; otherwise the old handle is released and a new one allocated. |
| CSParticle.FreshHandlesKeepDistinct | Assets/CSParticle/Scripts/ParticleWorld.cs:149-150 | Buffers that are either kept or replaced by newly allocated handles remain pairwise distinct and valid. |
| CSParticle.MPParticleWorldImplGPU.constructor | Assets/CSParticle/Scripts/ParticleWorld.cs:86-133 | The cube buffer comes first, then four buffers at capacities 256, 256, 256 and 128, all distinct new handles. The 36 cube vertices each lie on their face with its normal. |
| CSParticle.MPParticleWorldImplGPU.Update | Assets/CSParticle/Scripts/ParticleWorld.cs:141-187 | Each class grows on its own count only, and its handle changes if and only if it grew, to a new one. Releases and allocations are exactly those of the grown classes, in source order, and each buffer holds its records. The buffers stay distinct and the cube buffer is untouched. |
| CSParticle.NeedsGBufferCopy | Assets/CSParticle/Scripts/ParticleWorld.cs:323-331 | The scan answers true if and only if some particle set asks for G-buffer collision. |
| CSParticle.CopiesAfterFitResolution | Assets/CSParticle/Scripts/ParticleWorld.cs:221-241 | After the update both copy targets exist, are created, have the truncated requested size and are not stale. When anything was allocated both are new; otherwise nothing changed. |
| CSParticle.CopiesUpdateIsIdempotent | Assets/CSParticle/Scripts/ParticleWorld.cs:221-241 | With the width compared against `(int)reso.x`, a second request at the same resolution releases and allocates nothing. |
| CSParticle.CopiesAfter | Assets/CSParticle/Scripts/ParticleWorld.cs:221-241 | With the corrected comparison, after the update both copies exist, are created and are not stale; they are either the old pair or a fresh one. |
| CSParticle.CopiesAfterAsWritten | Assets/CSParticle/Scripts/ParticleWorld.cs:225-240 | With the comparison as written, both copies exist and are created afterwards, yet they are still stale by that comparison exactly when the requested width is not a whole number. |
| CSParticle.ComparisonsAgreeOnWholeWidths | Assets/CSParticle/Scripts/ParticleWorld.cs:225 | When the resolution is a whole number, the comparison as written and the truncating one agree. |
| CSParticle.AsWrittenReallocatesEveryRequest | Assets/CSParticle/Scripts/ParticleWorld.cs:225 | As written, at width 960.5 the 960-wide copies are stale on every request: a second request releases both and allocates two more. |
| CSParticle.ParticleWorld.constructor | Assets/CSParticle/Scripts/ParticleWorld.cs:243-280 | `Awake` and then `Start`: `Awake` gives two empty copy slots and an unstarted GPU implementation, and `Start` starts it: the cube buffer first, then the four buffers at capacities 256, 256, 256 and 128 under distinct new handles with empty contents. No snapshot and no pass are recorded yet. `Start`'s callback registration is left out (see below). |
| CSParticle.ParticleWorld.UpdateRenderTargets | Assets/CSParticle/Scripts/ParticleWorld.cs:221-241 | With the width compared against `(int)reso.x` (the corrected comparison of the Findings row), the copies become the update of the old ones. Exactly the stale pair is released, exactly the new pair allocated, and the render buffers follow the copy textures. |
| CSParticle.ParticleWorld.BufferCopy | Assets/CSParticle/Scripts/ParticleWorld.cs:215-216 | The getter brings the copies up to date (with the corrected comparison of the Findings row), releasing and allocating exactly what that update does, and returns the requested copy, whose width is the truncated resolution. |
| CSParticle.ParticleWorld.Update | Assets/CSParticle/Scripts/ParticleWorld.cs:282-313 | The implementation grows and fills its buffers from the registries, each class on its own count. A class's buffer handle changes exactly when that class grew; exactly the dropped buffers are released and one handle is allocated per grown class, in class order. The cube buffer and the copy targets are unchanged, and the colliders are snapshotted. The force list is cleared and nothing else in the registries changes. |
| CSParticle.ParticleWorld.GBufferPass | Assets/CSParticle/Scripts/ParticleWorld.cs:320-343 | Over the registered particle sets, the pass succeeds unless a copy is needed while no copy target exists. On success it appends exactly the pass's events: one copy and a rebind when some set asks, then the particle G-buffer pass. |
| CSParticle.PassEvents | Assets/CSParticle/Scripts/ParticleWorld.cs:332-342 | A completed pass always ends with the sets' own G-buffer pass. |
| CSParticle.OneCopyPerPass | Assets/CSParticle/Scripts/ParticleWorld.cs:323-340 | However many sets ask, a pass adds exactly one G-buffer copy to the trace when some set asks and none otherwise. |

## Left out

- Compute kernels, `FindKernel`, `SetBuffer`, `SetData` payloads and dispatch: the GPU simulation is not part of this model. Records are opaque, and an upload is modelled as the buffer's contents.
- Matrix arithmetic: the projection tweak, `proj * view` and the inverses are floating-point work. The new view-projection is a parameter, and only its shift into the previous one is modelled.
- `GetInternalResolution`: the camera's pixel size times `resolution_scale` is floating-point; the resolution is a parameter.
- GL and `Graphics` drawing, `SetTargetBuffers`, `SetRenderTarget`, `DrawFullscreenQuad`, `DrawMeshNow` and the material passes are recorded as trace events only.
- Callback bodies are identifiers. They are taken to leave the render targets, the render buffers and the callback lists untouched, so the unchanged targets and lists promised by DeferredShading.DSRenderer.OnPreRender and DeferredShading.DSRenderer.OnPostRender hold only under that assumption; a callback that calls `SwapFramebuffer` or rebinds targets is not modelled inside a frame.
- `OnGUI`, `DSLight`, `OnDisable` and `OnDestroy` (teardown), and the CPU implementation `MPParticleWorldImplCPU` are not part of this model.
- `ParticleWorld.Start`'s callback registration, `DepthPrePass` and `TransparentPass`: they only forward to `ParticleSet` passes, which are not part of this model.
- `ParticleSet`, `ParticleCollider`, `ParticleForce` and `ParticleEmitter`: their `UpdateAll`, `HandleParticleCollisionAll` and `GBufferPassAll` are not part of this model. The registries they keep are a `Scene` object that is passed in.
- `rt_size` and `viewproj` in `ParticleWorld.Update` depend on the camera and matrix work above.
- `CopyFramebuffer`, `SetRenderTargetsComposite` and the `rtNormalBuffer`… getters are single draw or lookup calls with no state change.
- Texture filter mode, mip and random-write flags, and the ComputeBuffer strides are constant settings without logic.
- CSParticle.ParticleWorld.BufferCopy: creation is promised only for slot 0. The source's own check looks at slot 0 only, so a slot 1 released elsewhere would be returned as is.
- DeferredShading.DSRenderer.AddCallback: promises sorted order and the same callbacks, not the relative order of equal priorities, because `List<T>.Sort` is not stable.
- CSParticle.ParticleWorld.UpdateRenderTargets: follows the corrected width comparison, not the one written at ParticleWorld.cs:225; the code as written is CSParticle.CopiesAfterAsWritten.
- CSParticle.ParticleWorld.GBufferPass: when a copy is needed but no copy target exists, the source throws a null-reference exception. Here this is the result `ok == false` with no event recorded.
- Integer widths: capacities and handles are unbounded integers. In the source a capacity is a 32-bit `int`: from 256 = 2^8 the 23rd doubling (from 128, the 24th) gives 2^31, which wraps to `int.MinValue`; the next doubling gives 0, and 0 doubled stays 0, so a count of 2^30 or more makes the growth loop run forever. That overflow is not modelled.

## Findings

| source | as written | input that shows it | evidently intended | confidence | as-written member | corrected member |
|---|---|---|---|---|---|---|
| Assets/CSParticle/Scripts/ParticleWorld.cs:225 | The integer width of copy target 0 is compared with the floating-point `reso.x` itself, while the targets are created at `(int)reso.x` (line 237). | Resolution 960.5×540 (for example from a resolution scale): the copies are 960 wide, 960 ≠ 960.5 on every call, so each getter call releases handles 0 and 1 and allocates two more. | Compare with `(int)reso.x`, as `DSRenderer.UpdateRenderTargets` does at DSRenderer.cs:156. | not executed | CSParticle.AsWrittenReallocatesEveryRequest | CSParticle.CopiesUpdateIsIdempotent |
