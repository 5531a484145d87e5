# KenshinVKEngine core, modelled in Dafny

This project models the self-contained parts of the KenshinVKEngine Vulkan
renderer and proves what they promise. The engine's calls into Vulkan, SDL
and vk-bootstrap are not performed. Each call becomes an event in an
append-only trace, and the driver's fresh handles come from a counter.

| file | models |
|---|---|
| `vk_types.dfy` | `uint32_t` (a subset type; conversions reduce modulo 2^32), handles, nullable pointers, structure-type tags |
| `vk_initializer.dfy` | the `VkInitializer` record builders, as pure functions |
| `deletion_queue.dfy` | `DeletionQueue` (`type.h`): a class whose `flush` walks the list backwards and logs each action it runs |
| `descriptor_allocator.dfy` | `DescriptorAllocator`: a class with the free and full pool lists, plus one function per operation on its state; the lemmas about the allocator are stated on those functions |
| `layout_builder.dfy` | `DescriptorSetLayoutBuilder`: a class whose `build` ORs a `bv32` stage mask into each binding in place |
| `gltf_loader.dfy` | the mesh, surface, index and vertex assembly of `LoadGltfMeshAsserts`, with the loops kept as loops |
| `k_engine.dfy` | `KEngine`: `init`, `initCommand`, `initSyncStructures`, `cleanUp`, `currentFrame`, `draw` and `run`, as a class over the engine's fields, with `mFrameData` as an array |

Three facts about the code shape the model:

- `currentFrame` picks slot `(mFrameCounter + 1) % FRAME_OVERLAP`, computed in
  `uint` arithmetic, so the first draw uses slot 1. `SlotLeadsCounter` proves
  that the slot is never `counter % 2`, even when the counter wraps around.
- `draw` clears the swapchain image between two layout transitions. There is
  no compute pass and no geometry pass.
- `cleanUp` does not empty `mSignalSemaphores`. A second `init` appends new
  signal semaphores after the old ones, and the second `cleanUp` destroys
  exactly the first `mSwapChainImageCount` entries of that list. When the new
  swapchain has no more images than the first, those are all old handles:
  they are destroyed a second time and none of the new ones is destroyed
  (`SecondCycleDestroysStaleSemaphores`, `SecondCycleLeaksNewSemaphores`).
  The first cycle is balanced
  (`InitCleanUpBalanced`, `LifeCycle`).

The allocator's baseline update `mSetsPerPool *= 1.5` is modelled as
`x * 3 / 2`. The product is exact in `double`, and the store into
`uint32_t` truncates it.

The glTF indices and surface offsets are stored in `uint32_t`. The model
writes them with an explicit reduction modulo 2^32.

## Model

| member | source | states |
|---|---|---|
| `VkInitializer.CreateCommandPoolInfo` | Engine/src/engine/vkInitializer.cpp:3-11 | The pool record carries the given flags, a null `pNext` and the pool-create tag. An `int` queue family index in range is copied unchanged. |
| `VkInitializer.CreateCommandBufferInfo` | Engine/src/engine/vkInitializer.cpp:13-22 | The record asks for exactly one primary command buffer from the given pool. |
| `VkInitializer.CreateSemaphoreInfo` | Engine/src/engine/vkInitializer.cpp:24-31 | The record copies the flags and has a null `pNext`. |
| `VkInitializer.CreateFenceInfo` | Engine/src/engine/vkInitializer.cpp:33-40 | The record copies the flags and has a null `pNext`. |
| `VkInitializer.CreateCommandBufferBeginInfo` | Engine/src/engine/vkInitializer.cpp:42-49 | The record copies the usage flags and has no inheritance info. |
| `VkInitializer.CreateSubmitInfo` | Engine/src/engine/vkInitializer.cpp:51-63 | The command-buffer count is 1. The signal and wait counts are each 1 exactly when their pointer is non-null, and 0 otherwise. |
| `VkInitializer.SubmitCountsMatchPointers` | Engine/src/engine/vkInitializer.cpp:56-61 | The signal and wait counts always equal the number of records their pointers designate. The command-buffer count does so exactly when a command-buffer info is given. |
| `VkInitializer.CreateCommandBufferSubmitInfo` | Engine/src/engine/vkInitializer.cpp:65-73 | The record carries the given command buffer, with device mask 0. |
| `VkInitializer.CreateSemaphoreSubmitInfo` | Engine/src/engine/vkInitializer.cpp:75-85 | The record carries the given semaphore and stage mask, with value 0 and device index 0. |
| `VkInitializer.ImageSubresourceRangeFor` | Engine/src/engine/vkInitializer.cpp:87-96 | The range uses the given aspect and starts at mip 0 and layer 0. It spans the remaining levels and layers. |
| `VkInitializer.WholeImageRange` | Engine/src/engine/vkInitializer.cpp:90-94 | Under Vulkan's reading of `REMAINING`, that range covers every mip level and every array layer of any image. |
| `DeletionQueues.Reverse` | Engine/src/engine/type.h:17-20 | The flush order has as many entries as were registered. |
| `DeletionQueues.ReverseAt` | Engine/src/engine/type.h:17-20 | Position k of the flush order is the action registered k places before the last. |
| `DeletionQueues.ReverseRunsEachOnce` | Engine/src/engine/type.h:17-20 | Every registered action runs exactly as often as it was registered: the flush order is a permutation. |
| `DeletionQueues.LaterRegisteredRunsFirst` | Engine/src/engine/type.h:17-20 | LIFO: of two registered actions, the later one runs first. |
| `DeletionQueues.LastPushedRunsFirst` | Engine/src/engine/type.h:11-20 | After `push_back(a)`, `a` is the first action flushed, followed by the earlier ones in their flush order. |
| `DeletionQueues.DeletionQueue.constructor` | Engine/src/engine/type.h:10 | A new queue is empty and has run nothing. |
| `DeletionQueues.DeletionQueue.PushBack` | Engine/src/engine/type.h:11-14 | Appends exactly one action at the end, leaves the earlier ones unchanged and runs nothing. |
| `DeletionQueues.DeletionQueue.Flush` | Engine/src/engine/type.h:15-22 | The log grows by the registered actions in reverse order, and the queue is left empty. An empty queue runs nothing. |
| `DeletionQueues.FlushTwice` | Engine/src/engine/type.h:15-22 | A second consecutive flush runs nothing. |
| `DescriptorAllocation.Grow` | Engine/src/engine/descriptor/descriptorAllocator.cpp:10 | `x * 1.5` truncated: never smaller than `x`, and the floor of 1.5 x. |
| `DescriptorAllocation.ResetAll` | Engine/src/engine/descriptor/descriptorAllocator.cpp:73-81 | One reset per pool, in list order. |
| `DescriptorAllocation.DestroyAll` | Engine/src/engine/descriptor/descriptorAllocator.cpp:87-95 | One destroy per pool, in list order. |
| `DescriptorAllocation.InitCreatesOnePool` | Engine/src/engine/descriptor/descriptorAllocator.cpp:4-11 | `init` creates exactly one pool, with `maxSets` equal to `setPerPool`, and puts exactly that pool on the free list. It leaves the baseline at floor(1.5 · `setPerPool`). |
| `DescriptorAllocation.GetFreePoolReuses` | Engine/src/engine/descriptor/descriptorAllocator.cpp:16-20 | With a non-empty free list, `getFreePool` pops and returns the last free pool. It creates nothing and keeps the baseline. |
| `DescriptorAllocation.GetFreePoolCreates` | Engine/src/engine/descriptor/descriptorAllocator.cpp:21-25 | With an empty free list, `getFreePool` creates a fresh pool sized by the current baseline, then grows the baseline by 1.5. |
| `DescriptorAllocation.AllocateFirstAttempt` | Engine/src/engine/descriptor/descriptorAllocator.cpp:53-67 | When the first attempt is not exhausted, the pool returns to the end of the free list and the full list is untouched. The result is a set on success; any other error goes unchecked. |
| `DescriptorAllocation.AllocateRetriesOnce` | Engine/src/engine/descriptor/descriptorAllocator.cpp:50-69 | On OUT_OF_POOL_MEMORY or FRAGMENTED_POOL, exactly two allocation calls are made, each preceded by a pool creation only when the free list is empty. The first uses the last free pool, which then goes to the end of the full list. The retry uses the next pool from the free list, never the one that failed. A successful retry puts that pool back on the free list; a failed retry is fatal. The new baseline and next handle are stated too. |
| `DescriptorAllocation.RetryTakesAnotherPool` | Engine/src/engine/descriptor/descriptorAllocator.cpp:62-63 | The retry never draws the pool that just failed. |
| `DescriptorAllocation.AttemptAvoidsFull` | Engine/src/engine/descriptor/descriptorAllocator.cpp:53 | `getFreePool` never hands out a pool from the full list. |
| `DescriptorAllocation.AllocateKeepsEveryPool` | Engine/src/engine/descriptor/descriptorAllocator.cpp:50-69 | No pool is lost: after a non-fatal `allocate`, free ++ full is a permutation of the old free ++ full plus the pools it created. The lists stay distinct. |
| `DescriptorAllocation.ResetRecyclesEveryPool` | Engine/src/engine/descriptor/descriptorAllocator.cpp:71-83 | `resetPools` resets every pool once and destroys and creates none. It empties the full list and makes the free list the old free list followed by the old full list. |
| `DescriptorAllocation.ResetTwiceKeepsLists` | Engine/src/engine/descriptor/descriptorAllocator.cpp:71-83 | A second `resetPools` changes neither list nor the baseline. |
| `DescriptorAllocation.ResetKeepsValid` | Engine/src/engine/descriptor/descriptorAllocator.cpp:71-83 | `resetPools` keeps the pools distinct. |
| `DescriptorAllocation.InitKeepsValid` | Engine/src/engine/descriptor/descriptorAllocator.cpp:4-11 | `init` keeps the pools distinct: the pool it pushes is new. |
| `DescriptorAllocation.GetFreePoolKeepsValid` | Engine/src/engine/descriptor/descriptorAllocator.cpp:13-27 | `getFreePool` keeps the pools distinct, and the pool it hands out is on neither list. |
| `DescriptorAllocation.AllocateKeepsValid` | Engine/src/engine/descriptor/descriptorAllocator.cpp:50-69 | `allocate` keeps the pools distinct, whatever the two calls return. |
| `DescriptorAllocation.DestroyKeepsValid` | Engine/src/engine/descriptor/descriptorAllocator.cpp:85-97 | `destroy` leaves an allocator that holds no pool. |
| `DescriptorAllocation.DestroyReleasesEveryPool` | Engine/src/engine/descriptor/descriptorAllocator.cpp:85-97 | `destroy` destroys exactly the pools of both lists, free pools first, each once, and leaves both lists empty. |
| `DescriptorAllocation.DescriptorAllocator.constructor` | Engine/src/engine/descriptor/descriptorAllocator.h:15 | Both lists start empty. |
| `DescriptorAllocation.DescriptorAllocator.CreatePool` | Engine/src/engine/descriptor/descriptorAllocator.cpp:29-48 | A fresh pool whose `maxSets` is the current baseline. |
| `DescriptorAllocation.DescriptorAllocator.Init` | Engine/src/engine/descriptor/descriptorAllocator.cpp:4-11 | The new state is `InitStep` of the old, which `InitCreatesOnePool` characterises. The pools stay distinct. |
| `DescriptorAllocation.DescriptorAllocator.GetFreePool` | Engine/src/engine/descriptor/descriptorAllocator.cpp:13-27 | The result and new state are `GetFreePoolStep` of the old, which `GetFreePoolReuses` and `GetFreePoolCreates` characterise. The pools stay distinct, and the pool handed out is on neither list. |
| `DescriptorAllocation.DescriptorAllocator.Allocate` | Engine/src/engine/descriptor/descriptorAllocator.cpp:50-69 | The new state and outcome are `AllocateStep` of the old, which `AllocateFirstAttempt`, `AllocateRetriesOnce` and `AllocateKeepsEveryPool` characterise. The pools stay distinct. |
| `DescriptorAllocation.DescriptorAllocator.ResetPools` | Engine/src/engine/descriptor/descriptorAllocator.cpp:71-83 | The new state is `ResetPoolsStep` of the old, which `ResetRecyclesEveryPool` characterises. The pools stay distinct. |
| `DescriptorAllocation.DescriptorAllocator.ResetEveryPool` | Engine/src/engine/descriptor/descriptorAllocator.cpp:73-82 | The two loops reset each free pool, then each full pool while moving it to the free list, as `ResetPoolsStep` says. |
| `DescriptorAllocation.DescriptorAllocator.Destroy` | Engine/src/engine/descriptor/descriptorAllocator.cpp:85-97 | The new state is `DestroyStep` of the old, which `DestroyReleasesEveryPool` characterises. The allocator stays valid. |
| `DescriptorAllocation.DescriptorAllocator.DestroyEveryPool` | Engine/src/engine/descriptor/descriptorAllocator.cpp:87-96 | The two loops destroy each free pool, then each full pool, and empty both lists, as `DestroyStep` says. |
| `DescriptorLayout.WithStage` | Engine/src/engine/descriptor/descriptorSetlayoutBuilder.cpp:23-26 | Every binding has `stage` ORed into its flags, in place and in order. |
| `DescriptorLayout.BuildKeepsBindings` | Engine/src/engine/descriptor/descriptorSetlayoutBuilder.cpp:23-30 | `build` keeps the count, order, binding points, types, counts and samplers. Stage flags only gain bits, and they gain all of `stage`. |
| `DescriptorLayout.BuildIdempotent` | Engine/src/engine/descriptor/descriptorSetlayoutBuilder.cpp:25 | Building again with the same stage leaves the bindings unchanged. |
| `DescriptorLayout.DescriptorSetLayoutBuilder.constructor` | Engine/src/engine/descriptor/descriptorSetlayoutBuilder.h:8 | A new builder has no bindings. |
| `DescriptorLayout.DescriptorSetLayoutBuilder.AddBinding` | Engine/src/engine/descriptor/descriptorSetlayoutBuilder.cpp:4-13 | Appends one binding with the given point, type and stage, one descriptor and no immutable samplers. Earlier bindings are unchanged. |
| `DescriptorLayout.DescriptorSetLayoutBuilder.Clear` | Engine/src/engine/descriptor/descriptorSetlayoutBuilder.cpp:15-18 | Removes every binding. |
| `DescriptorLayout.DescriptorSetLayoutBuilder.Build` | Engine/src/engine/descriptor/descriptorSetlayoutBuilder.cpp:20-34 | The builder's bindings become `WithStage` of the old ones, a change that persists. The create-info points at them, with `bindingCount` their number as `uint32_t`. |
| `GltfLoader.DisplayName` | Engine/src/engine/gltfLoader.cpp:35 | An empty name becomes "unknown name"; any other name is kept. |
| `GltfLoader.Rebase` | Engine/src/engine/gltfLoader.cpp:49-51 | Each index is the source index plus the base, as `uint32_t`, in order. |
| `GltfLoader.PositionVertices` | Engine/src/engine/gltfLoader.cpp:58-63 | One vertex per position: position (p, 1), colour (1, 0, 0, 1). |
| `GltfLoader.SurfacesUpTo` | Engine/src/engine/gltfLoader.cpp:38-66 | One surface per primitive seen. |
| `GltfLoader.MeshesOf` | Engine/src/engine/gltfLoader.cpp:32-70 | One mesh per source mesh, in order, each built from its own source mesh. |
| `GltfLoader.LoadedMeshes` | Engine/src/engine/gltfLoader.cpp:9-72 | A load or parse error gives no meshes; otherwise one mesh per source mesh. |
| `GltfLoader.IndicesGrow` | Engine/src/engine/gltfLoader.cpp:38-66 | Later primitives only append to the index list. |
| `GltfLoader.VerticesGrow` | Engine/src/engine/gltfLoader.cpp:38-66 | Later primitives only append to the vertex list. |
| `GltfLoader.SurfacesGrow` | Engine/src/engine/gltfLoader.cpp:38-66 | Later primitives only append surfaces. |
| `GltfLoader.SurfaceAt` | Engine/src/engine/gltfLoader.cpp:42-43 | Surface k starts at the number of indices collected before primitive k and counts that primitive's indices. |
| `GltfLoader.SurfacesTile` | Engine/src/engine/gltfLoader.cpp:42-43 | The surfaces tile the index list: the first starts at 0, each ends where the next starts, and the last ends at the list's end. |
| `GltfLoader.IndexRebased` | Engine/src/engine/gltfLoader.cpp:44-51 | Every emitted index of primitive k is its source index plus the number of vertices collected before primitive k (as `uint32_t`). |
| `GltfLoader.VertexAt` | Engine/src/engine/gltfLoader.cpp:56-63 | Vertex `initialVtx + i` is built from position i of its primitive. |
| `GltfLoader.RebasedIndicesInRange` | Engine/src/engine/gltfLoader.cpp:44-51 | With in-range source indices, every emitted index addresses a vertex of the mesh. |
| `GltfLoader.RebaseExact` | Engine/src/engine/gltfLoader.cpp:44-51 | With in-range source indices, the `uint32_t` store loses nothing. |
| `GltfLoader.MeshesIndependent` | Engine/src/engine/gltfLoader.cpp:36-37 | The lists are cleared per mesh, so mesh i depends on its own source mesh only. |
| `GltfLoader.LoadIndices` | Engine/src/engine/gltfLoader.cpp:47-52 | Appends the primitive's rebased indices. |
| `GltfLoader.LoadVertices` | Engine/src/engine/gltfLoader.cpp:54-64 | After the resize and the in-place writes, the list is the old vertices followed by one vertex per position. |
| `GltfLoader.AssembleMesh` | Engine/src/engine/gltfLoader.cpp:33-67 | The mesh built is `MeshOf` the source mesh, whose lemmas are above. |
| `GltfLoader.LoadGltfMeshAsserts` | Engine/src/engine/gltfLoader.cpp:9-72 | The result is `LoadedMeshes` of the input. |
| `Engine.FrameSlot` | Engine/src/engine/kEngine.cpp:249-252 | The slot `currentFrame` selects is always below `FRAME_OVERLAP`. |
| `Engine.NextCounter` | Engine/src/engine/kEngine.cpp:147 | `mFrameCounter++` on a `uint`: plus one, and 0 after 2^32 - 1. |
| `Engine.SlotLeadsCounter` | Engine/src/engine/kEngine.cpp:249-252 | The slot is `(counter + 1) % 2` and never `counter % 2`, including at the wrap-around. |
| `Engine.ConsecutiveDrawsAlternate` | Engine/src/engine/kEngine.cpp:147 | Two consecutive draws use different slots, also across the wrap-around. |
| `Engine.DrawSubmitPresentLink` | Engine/src/engine/kEngine.cpp:131-146 | `draw` makes 11 calls. The submit waits on the slot's acquire semaphore and signals exactly the semaphore the present waits on, at the colour-output stage. It submits the slot's command buffer with the slot's fence. Acquire and present name the same image. |
| `Engine.DrawLayoutChain` | Engine/src/engine/kEngine.cpp:116-127 | The image goes UNDEFINED→GENERAL, is cleared in GENERAL, then goes GENERAL→PRESENT_SRC, each transition starting where the last ended. The drawn image ends presentable, and no other image changes. |
| `Engine.DrawsLayoutStep` | Engine/src/engine/kEngine.cpp:116-127 | One more draw makes its image presentable and leaves other images alone. |
| `Engine.DrawsKeepLayoutChain` | Engine/src/engine/kEngine.cpp:116-127 | Over any number of draws, no layout use is invalid. Every image drawn at least once is presentable, and every other image keeps its layout. |
| `Engine.LastToggleWins` | Engine/src/engine/kEngine.cpp:76-83 | Within a batch, the later of MINIMIZED and RESTORED decides `mStopRendering`. |
| `Engine.NoToggleKeepsFlag` | Engine/src/engine/kEngine.cpp:70-84 | A batch without either event leaves the flag unchanged. |
| `Engine.StopAfterAppend` | Engine/src/engine/kEngine.cpp:70-84 | Polling two batches in turn equals polling their concatenation. |
| `Engine.RunLoop` | Engine/src/engine/kEngine.cpp:64-92 | `run` performs at most one iteration per batch, and exactly one per batch unless QUIT came. |
| `Engine.RunLoopQuits` | Engine/src/engine/kEngine.cpp:68-75 | `run` leaves after the first batch that holds QUIT, that batch included. |
| `Engine.RunLoopAfterQuit` | Engine/src/engine/kEngine.cpp:68 | After QUIT, later batches change nothing. |
| `Engine.RunLoopIterationAt` | Engine/src/engine/kEngine.cpp:85-90 | Iteration k ran from the state left by the first k iterations. It slept exactly when the flag was set after polling batch k, and drew otherwise. |
| `Engine.RunLoopStop` | Engine/src/engine/kEngine.cpp:76-83 | The final flag is the one after every batch `run` polled. |
| `Engine.RunSleepsWhileStopped` | Engine/src/engine/kEngine.cpp:85-89 | An iteration sleeps, and does not draw, exactly when the last MINIMIZED or RESTORED polled so far was MINIMIZED, or when there was none and rendering started stopped. |
| `Engine.RunLoopDrawsAcquired` | Engine/src/engine/kEngine.cpp:90 | Every draw uses the image handed out in its own iteration. |
| `Engine.RunLoopCounter` | Engine/src/engine/kEngine.cpp:85-90 | Only draws move the counter: `run` ends with the counter advanced once per draw, modulo 2^32. |
| `Engine.IterationCounter` | Engine/src/engine/kEngine.cpp:85-90 | One iteration preserves "counter = start counter + draws". |
| `Engine.RunDrawSlots` | Engine/src/engine/kEngine.cpp:249-252 | Whatever sleeps lie between them, the draw after d earlier draws uses slot (start counter + d + 1) % 2, so slots alternate from draw to draw. |
| `Engine.KEngine.constructor` | Engine/src/engine/kEngine.cpp:14-18 | Records the window extent. The engine is not initialised, its counter is 0 and it has made no calls. |
| `Engine.Globals.constructor` | Engine/src/engine/kEngine.cpp:12 | The global `kEngine` pointer starts null. |
| `Engine.KEngine.Init` | Engine/src/engine/kEngine.cpp:24-34 | `init` succeeds exactly when no engine is live and this one is not initialised; a failed guard changes nothing. On success it stores the images, the count and the queue family, fills both slots, appends one signal semaphore per image and makes exactly the `InitEvents` calls. It then publishes itself and sets `mInitialized`. |
| `Engine.KEngine.InitObjects` | Engine/src/engine/kEngine.cpp:27-31 | The set-up steps, `initCommand` and `initSyncStructures`, in that order. |
| `Engine.KEngine.InitCommand` | Engine/src/engine/kEngine.cpp:219-229 | Each slot gets a fresh pool on the queue family, with resettable buffers, and one primary command buffer from that pool. |
| `Engine.KEngine.InitSyncStructures` | Engine/src/engine/kEngine.cpp:231-247 | Each slot gets a fresh fence and semaphore, and one fresh signal semaphore per swapchain image is appended to `mSignalSemaphores`. |
| `Engine.SyncStructureCounts` | Engine/src/engine/kEngine.cpp:231-247 | `initSyncStructures` creates exactly 2 fences, both signalled, and 2 + imageCount semaphores. |
| `Engine.SignalEventsCreate` | Engine/src/engine/kEngine.cpp:241-246 | The second loop creates exactly the handles it pushes. |
| `Engine.InitCreatesObjects` | Engine/src/engine/kEngine.cpp:24-34 | `init` creates, in order, the two pools, each slot's fence and semaphore, then the signal semaphores. |
| `Engine.KEngine.CleanUp` | Engine/src/engine/kEngine.cpp:36-62 | On an initialised engine, `cleanUp` makes exactly the `CleanUpEvents` calls and clears the global `kEngine` and the flag. Otherwise it does nothing. |
| `Engine.CleanUpDestroysObjects` | Engine/src/engine/kEngine.cpp:36-62 | `cleanUp` destroys each slot's pool, fence and semaphore, then the first `mSwapChainImageCount` signal semaphores. |
| `Engine.FrameDestroyEventsDestroy` | Engine/src/engine/kEngine.cpp:41-47 | The first loop destroys each slot's three objects, slot by slot. |
| `Engine.SignalDestroyEventsDestroy` | Engine/src/engine/kEngine.cpp:49-52 | The second loop destroys exactly the first n signal semaphores, in order. |
| `Engine.InitCleanUpBalanced` | Engine/src/engine/kEngine.cpp:24-62 | A first `init`/`cleanUp` cycle destroys exactly the pools, fences and semaphores it created, each once. |
| `Engine.SecondCycleDestroysStaleSemaphores` | Engine/src/engine/kEngine.cpp:49-52 | Because `mSignalSemaphores` is never cleared, the second `cleanUp` destroys every stale handle among its first `mSwapChainImageCount` entries again. A semaphore the second `init` created is destroyed iff it lies within those entries. |
| `Engine.SecondCycleLeaksNewSemaphores` | Engine/src/engine/kEngine.cpp:49-52 | When the new swapchain has no more images than the first, the second `cleanUp` destroys none of the new signal semaphores. |
| `Engine.CleanUpTwice` | Engine/src/engine/kEngine.cpp:36-62 | A repeated `cleanUp` is harmless: the second call makes no calls. |
| `Engine.LifeCycle` | Engine/src/engine/kEngine.cpp:24-62 | On a fresh engine, `init` then `cleanUp` leaves the engine uninitialised and the global `kEngine` null. What `cleanUp` destroys is exactly what `init` created. |
| `Engine.KEngine.Draw` | Engine/src/engine/kEngine.cpp:94-148 | Makes exactly the `DrawEvents` calls on the slot `currentFrame` selects, then advances the counter. `DrawSubmitPresentLink` and `DrawLayoutChain` characterise those calls. |
| `Engine.KEngine.PollEvents` | Engine/src/engine/kEngine.cpp:70-84 | Draining a batch sets `quit` iff it holds QUIT and leaves the flag at `StopAfter` of the batch. |
| `Engine.KEngine.RenderStep` | Engine/src/engine/kEngine.cpp:85-90 | A 100 ms sleep while stopped, with the counter kept. Otherwise one draw, with the counter advanced. |
| `Engine.KEngine.RunStep` | Engine/src/engine/kEngine.cpp:68-91 | One iteration extends what `run` has done to the next batch, as `RunLoop` says. |
| `Engine.KEngine.RunUntilQuit` | Engine/src/engine/kEngine.cpp:64-92 | The loop ends at QUIT or when the batches run out. Its flag, counter and calls are those of `RunLoop` so far. |
| `Engine.KEngine.Run` | Engine/src/engine/kEngine.cpp:64-92 | The final flag and counter are `RunLoop`'s, and the calls made are each iteration's sleep or draw, in order. |

## Left out

- `initWindow`, `initVulkan`, `initSwapChain`, `destroySwapChain` and the device, surface, messenger, instance and window teardown are opaque single events. They are vk-bootstrap and SDL calls with no logic of their own. `init` receives the swapchain images and the queue family as parameters.
- `Utils::loadShader` and `entryPoint.cpp` are not part of this model. The first is file I/O plus one create call; the second is a trivial init, run, cleanUp main.
- Floating point is not modelled: the flashing clear colour, the per-type descriptor counts `ratio * mSetsPerPool` (with `mPoolSizes`), and glm positions and colours, which are opaque tuples of reals.
- GPU asynchrony, real fence and semaphore semantics, SDL polling and the 100 ms sleep are not modelled. They appear as trace events and given event batches.
- `VK_CHECK` failures are assumed not to happen, except for `allocate`'s retry, where a failure is the `Fatal` outcome.
- `KS_CORE_ASSERT` is modelled as stopping `init` before it has any effect; `core.h` is not part of this model.
- fastgltf parsing and accessor iteration are left out. The asset is given as lists of meshes, each a list of primitives, each primitive an index list and a position list, so the indices accessor and the POSITION attribute are always present.
- The bodies of `vkutil::transitionImage` and `loadMeshBuffer` are not part of this model. A transition is one event with its two layouts. A mesh records the vertex and index lists it hands to `loadMeshBuffer`.
- Command buffers are released with their pool, so the created/destroyed balance counts pools, fences and semaphores only.
- `DescriptorAllocation.DescriptorAllocator.constructor`: `mSetsPerPool` is left indeterminate by the defaulted constructor; the model starts it at 0.
- `DescriptorAllocation.DescriptorAllocator.Init` requires that 1.5 · `setPerPool` fit in `uint32_t`. `GetFreePool` and `Allocate` require the same of each baseline they grow. A larger value would make the source's `double` to `uint32_t` conversion undefined.
- `GltfLoader.SurfacesTile` assumes the mesh's index count fits in `uint32_t`, because the offsets are stored in 32 bits.
- `GltfLoader.RebasedIndicesInRange` and `GltfLoader.RebaseExact` assume the vertex count fits in `uint32_t`.
- `Engine.KEngine.Draw` requires the acquired image index to name a swapchain image that has a signal semaphore. The source indexes both vectors without a check and relies on the presentation engine.
- `Engine.KEngine.Run` takes a finite list of event batches and of acquired image indices. When the batches run out before QUIT, the model's loop stops. It also assumes every acquired index is valid, as `Draw` does.
- `Engine.LifeCycle` covers the first `init`/`cleanUp` cycle only, with no signal semaphores left from an earlier one. The later cycles are what `SecondCycleDestroysStaleSemaphores` describes: stale handles are destroyed again, and new ones leak whenever the new swapchain has no more images than the first (`SecondCycleLeaksNewSemaphores`).
