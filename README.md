# Vulkan tutorial renderer: a verified model of its host-side logic

This project models the part of the `vulkan-tutorial-rs` renderer that makes decisions on
the CPU, and proves what those decisions guarantee. The GPU, the windowing system and the
Vulkan driver are not modelled. Every driver reply is an input to the model: a `Result`
value, a total query function, or a sequence of replies.

The modules follow the renderer's source files:

- `Vk` (`vk.dfy`): the shared vocabulary. Handles are opaque numbers, flag sets are Dafny
  sets, and `Result` mirrors Rust's.
- `Memory` (`memory.dfy`): choosing a memory type for an allocation.
- `DepthTests` (`depth_tests.dfy`): choosing a supported depth format.
- `Texture` (`texture.dfy`), which covers:
  - the PNG colour-type to Vulkan format table;
  - the image layout-transition table and its aspect mask;
  - the mip-level count;
  - the barrier and blit commands that mipmap generation records.
- `Swapchain` (`swapchain.dfy`), which covers:
  - the surface format, present mode, extent and image count;
  - the swapchain create info;
  - the swapchain image views.
- `Devices` (`devices.dfy`), which covers:
  - the queue-family scan;
  - the device-extension check;
  - device scoring and picking;
  - the queue create infos of the logical device.
- `ModelLoading` (`model.dfy`): vertex deduplication while loading an OBJ model into
  the vertex and index buffers.
- `Application` (`app.dfy`), the `App` object, which covers:
  - creating the synchronisation objects;
  - rendering a frame;
  - waiting for the device to go idle;
  - teardown.

  Each driver call is appended to a trace. A ghost fence state, with signalled fences and
  fences of submissions still pending, checks the trace against the fence rules of the
  Vulkan specification: section "Fences" of the chapter "Synchronization and Cache
  Control".

The model follows the library `App` in `src/app.rs`. `src/main.rs` holds an older copy of
several of these functions, with the same selection logic. Its own `App::render` does
nothing.

## Model

| member | source | states |
|---|---|---|
| Memory.FindFrom | src/renderer/memory.rs:16-21 | The range search returns the first suitable memory type at or after its start. It returns none only when no type in that range is suitable. |
| Memory.GetMemoryTypeIndex | src/renderer/memory.rs:8-23 | On success the index is below the memory type count, its bit is set in `memoryTypeBits`, its flags include every requested property, and no earlier index is suitable. It fails exactly when no type in range is suitable. |
| Memory.MoreRequestedPropertiesNeverSelectEarlier | src/renderer/memory.rs:16-21 | Requesting more properties never selects an earlier memory type. When the larger request succeeds, the smaller one succeeds at an index no higher. |
| Memory.FirstFitIsSelected | src/renderer/memory.rs:16-22 | A suitable type whose predecessors are all unsuitable is the one selected, so the selection is exactly the first fit. |
| DepthTests.GetSupportedFormat | src/renderer/depth_tests.rs:81-102 | On success the format is a candidate that supports the features with the given tiling, and every earlier candidate does not. It fails exactly when no candidate qualifies. Tilings other than LINEAR and OPTIMAL never qualify. |
| DepthTests.DepthFormatPreference | src/renderer/depth_tests.rs:63-77 | The depth format is D32_SFLOAT if it is usable as an optimal-tiling depth attachment, otherwise D32_SFLOAT_S8_UINT, otherwise D24_UNORM_S8_UINT. If none of them is usable, the search fails. |
| Texture.VulkanImageFormat | src/renderer/texture.rs:540-581 | Indexed colour and 16-bit samples are rejected, and indexed colour is checked first. Every other colour type maps to the 8-bit sRGB format whose component count is the colour type's sample count. |
| Texture.TransitionTableIsConsistent | src/renderer/texture.rs:263-288 | Exactly three layout pairs are accepted. For each of them, every access flag can occur at its barrier's stage, and nothing is waited for exactly when the old layout is undefined. The destination access matches the new layout's use: depth write, transfer write or shader read. |
| Texture.TransitionImageLayout | src/renderer/texture.rs:254-336 | An unsupported layout pair is rejected with its own error, before any command buffer is begun. For a supported pair, a failure to begin the one-off command buffer, or to end, submit and wait for it, returns that driver error. Otherwise the barrier goes from the old layout to the new one over every mip level from level 0. Its access and stage masks are the table's entry for the pair, and its aspect mask is the format's aspect for the new layout, which is never empty. |
| Texture.DepthAspectMatchesFormat | src/renderer/texture.rs:290-300 | A move to the depth-attachment layout, for any of the three depth formats, covers the depth aspect and not the colour aspect. It covers the stencil aspect exactly when the format has stencil. Every other transition covers only the colour aspect. |
| Texture.MipLevelsIsFloorLog2PlusOne | src/renderer/texture.rs:107-109 | With m the larger side of the texture, the level count n satisfies 2^(n-1) <= m < 2^n, which means n = floor(log2 m) + 1. Halving m n-1 times reaches exactly 1. |
| Texture.GenerateMipmaps | src/renderer/texture.rs:383-538 | If the format's optimal tiling lacks linear filtering, the result is that error and nothing is recorded. A failure to begin the one-off command buffer, or to end, submit and wait for it, returns that driver error. Otherwise the recorded commands are exactly the mip chain: three commands per level pair, then a final barrier for the last level. |
| Texture.EveryLevelReadOnlyOnce | src/renderer/texture.rs:421-533 | Each of the n mip levels is moved to the shader-read layout exactly once, and no level at or beyond n is moved there. |
| Texture.BlitsFollowTheMipChain | src/renderer/texture.rs:421-513 | Every blit reads level l and writes level l+1, below the level count. Its source size is the image halved l times and its destination size is the image halved l+1 times, neither ever below 1. The destination is never empty. |
| Swapchain.PreferredSurfaceFormat | src/renderer/swapchain.rs:159-168 | The chosen format is one the surface reports: B8G8R8A8_SRGB with nonlinear sRGB when that is listed, otherwise the first format listed. |
| Swapchain.PreferredPresentMode | src/renderer/swapchain.rs:175-181 | The result is MAILBOX exactly when the surface lists MAILBOX, and FIFO otherwise. |
| Swapchain.PresentModeIsSupported | src/renderer/swapchain.rs:175-181 | When the surface lists FIFO, the chosen present mode is one the surface lists. |
| Swapchain.SwapchainExtent | src/renderer/swapchain.rs:184-207 | The surface's current extent is used unless its width is 0xFFFFFFFF. In that case each side is the window's size brought into the surface's [min, max] range: unchanged when inside it, the nearer bound when outside. |
| Swapchain.ImageCountWithinLimits | src/renderer/swapchain.rs:33-38 | The requested image count never exceeds a nonzero maximum, and it is never below the minimum. It is exactly one above the minimum whenever the maximum allows it. |
| Swapchain.SwapchainCreateParameters | src/renderer/swapchain.rs:24-79 | The create info uses the preferred format, present mode and extent and the limited image count. It asks for a concurrent image shared by both queue families when they differ, and for exclusive ownership with no family list when they are the same. It has one array layer, clipping on, the current transform and no old swapchain. |
| Swapchain.CreateImageViews | src/renderer/swapchain.rs:92-116 | On success there is one view per swapchain image, in image order, each a one-level colour view that the driver created. On failure the error is the one the driver returned for the first image whose view failed. |
| Devices.GetQueueFamilyIndices | src/renderer/devices.rs:219-258 | The loop, with its early `break` and its `?` on the surface query, returns exactly what the recursive scan specification returns. |
| Devices.QueueFamilySelection | src/renderer/devices.rs:232-257 | On success the graphics and presenting families are found at the first prefix containing both, and each is the last qualifying family of that prefix. "Missing queue families" is reported only when every surface query succeeded and one kind of family is absent. A query error is reported only as the first failure of the scan. |
| Devices.QueueFamiliesFoundIffPresent | src/renderer/devices.rs:232-257 | When every surface query succeeds, the scan succeeds exactly when the device has a graphics family and a family that can present. |
| Devices.MissingIsSetDifference | src/renderer/devices.rs:136-140 | The missing-extension list holds exactly the required names that the device does not report. |
| Devices.CheckPhysicalDeviceExtensions | src/renderer/devices.rs:124-153 | The extension check equals its specification, and it succeeds exactly when the extension query succeeded and lists every required extension. |
| Devices.CheckPhysicalDevice | src/renderer/devices.rs:74-122 | The method, with its early returns and its mutable score, returns exactly what the ordered scoring specification returns. |
| Devices.DeviceScoreRules | src/renderer/devices.rs:74-122 | A device scores exactly when it meets every requirement: a GPU type, geometry shaders, both queue families, the required extensions, and at least one surface format and one present mode. A discrete GPU scores 200 and an integrated GPU scores 100. Any other type, or a device without geometry shaders, gets its specific rejection. The missing-extension error lists exactly the absent names. |
| Devices.ScoreDevices | src/renderer/devices.rs:39-49 | The valid list holds each suitable device with its score, and only suitable devices. |
| Devices.HighestScored | src/renderer/devices.rs:57-59 | The chosen entry has the highest score, and every later entry scores strictly less. This matches taking the last element after sorting by score. |
| Devices.PickPhysicalDevice | src/renderer/devices.rs:33-70 | A failed enumeration is returned as an error. After a successful enumeration the result is a device, or "no suitable device" exactly when every enumerated device is rejected. A chosen device is an enumerated, suitable device whose score is at least every other suitable device's score. |
| Devices.QueueCreateInfos | src/renderer/devices.rs:164-178 | There is one queue create info per distinct family of the two indices: one when they coincide, two otherwise. Each has a single queue of priority 1.0. |
| ModelLoading.ConstructedLength | src/model.rs:36-63 | The nested loop builds one vertex per mesh index, so the stream has as many vertices as all meshes have indices. |
| ModelLoading.DedupProperties | src/model.rs:54-61 | The stored vertices are pairwise distinct and are exactly the vertices of the stream. There are never more of them than stream entries. |
| ModelLoading.AppData.constructor | src/model.rs:55-60 | A default `AppData` starts with empty vertex and index buffers. |
| ModelLoading.AppData.LoadModel | src/model.rs:18-72 | A read or parse error is returned with both buffers unchanged. On success the vertices gain the stream's distinct vertices in first-occurrence order, and the old indices stay as they were. Then one index per stream entry is appended, and each addresses a newly stored copy of that stream vertex. |
| Application.FirstFailure | src/renderer/synchronization.rs:12-20 | The index of the first failed creation call: every earlier call succeeded, and the call at that index failed unless all succeeded. |
| Application.App.constructor | src/app.rs:131-138 | The application starts at frame 0, with the given instance, device and data, an empty call trace and no fence known. |
| Application.App.CreateSyncObjects | src/renderer/synchronization.rs:8-29 | It succeeds exactly when all six creation calls succeed. It then holds two semaphores of each kind and two fences, in creation order, with the fences signalled and one null images-in-flight entry per swapchain image. Otherwise it returns the first failure's error, with the handles created before it pushed and the calls up to it recorded. |
| Application.App.Render | src/app.rs:147-208 | The result is the first error of the calls in order, and the trace gains exactly those calls. Past the image-fence wait, the acquired image's entry becomes the frame fence. The frame advances modulo 2 only on success. The fence state is what the fence rules give, and they are never broken. The frame invariant is kept unless the submission failed after the fence was reset. |
| Application.App.AcquireImage | src/app.rs:150-168 | It waits on the frame fence, acquires an image, and waits on the image's recorded fence when there is one. It succeeds exactly when rendering gets past these waits, and otherwise returns the error `render` returns. |
| Application.App.SubmitAndPresent | src/app.rs:184-203 | It resets the frame fence, submits the image's command buffer, and presents the image, stopping at the first failure and returning that error. |
| Application.RenderProtocol | src/app.rs:150-203 | A successful frame makes five or six calls, all successful, in this order: wait on the frame fence; acquire with the frame's image-available semaphore; wait on the image's old fence if it has one; reset the frame fence; submit the acquired image's command buffer, waiting on image-available at colour output, signalling render-finished and using the frame fence; present that image waiting on render-finished. |
| Application.RenderKeepsFenceRules | src/app.rs:147-208 | For any driver replies, a frame breaks no fence rule and leaves no new pending fence except the frame's own. It leaves every frame fence signalled or pending unless the submission failed after the reset. |
| Application.App.WaitForDeviceIdle | src/app.rs:216-219 | The driver's reply is returned and recorded. Once the device is idle, no submission is pending. The frame invariant is kept. |
| Application.AtMostMaxFramesInFlight | src/app.rs:148-151 | In a valid application no more than MAX_FRAMES_IN_FLIGHT (2) submissions are pending. |
| Application.App.DestroySyncObjects | src/renderer/synchronization.rs:32-43 | The trace gains the destruction of the render-finished semaphores, then the image-available semaphores, then the fences. |
| Application.SyncObjectsDestroyedOnce | src/renderer/synchronization.rs:32-43 | Every fence and every semaphore is destroyed exactly as often as it is held, and no other kind of object is destroyed. The images-in-flight entries, which only borrow frame fences, are not destroyed again. |
| Application.App.DestroyApp | src/app.rs:223-257 | The trace gains exactly the teardown calls, in source order. |
| Application.TeardownOrder | src/app.rs:223-257 | Every object owned by the device is destroyed before the device, then the surface. The debug messenger is destroyed exactly when validation is on, and the instance is destroyed last. |
| Application.TeardownKeepsFenceRules | src/app.rs:210-257 | Once no frame fence is pending, as after a successful idle wait, teardown breaks no fence rule. |
| Application.Create | src/app.rs:93-139 | Given the data the earlier creation steps produced, the application is created exactly when every sync-object call succeeds. Otherwise the result is the first failure's error. On success the application is fresh and satisfies the frame invariant: frame 0, no pending submission, every frame fence signalled, and no image in flight. |

## Left out

- The GPU's execution of commands is not modelled. Barriers and blits are recorded as values, and fences are a ghost state of signalled and pending handles.
- Window-system effects are not modelled: what acquire and present do to the screen and to image ownership.
- The one-off command buffer of `begin_transient_commands` and `end_transient_commands` is two driver replies, each the first error of its calls (allocate and begin; end, submit and wait for the queue). Freeing the buffer is not modelled.
- The `suboptimal` flag that acquire and present return is ignored, as in the source.
- `Texture.MipLevelsIsFloorLog2PlusOne`: computes the level count exactly with integers. The source's `f32` `log2().floor()` is assumed to round to the same value; floating point is not modelled.
- `ModelLoading.AppData.LoadModel`: requires every mesh index to address a full position and texture coordinate. The source indexes the position and texture-coordinate arrays without a check and panics on such data, for example an OBJ file without `vt` lines, whose texture coordinates are empty. The model excludes that panic rather than modelling it.
- `ModelLoading.AppData.constructor`: assumes that `AppData` holds `vertices: Vec<Vertex>` and `indices: Vec<u32>`, both empty by default. `load_model` uses these fields (src/model.rs:55-60), but the struct at src/app.rs:37-80 does not declare them.
- `ModelLoading.AppData.LoadModel`: vertex components are exact reals. Float equality and hashing, including NaN and -0.0, are not modelled. The `usize` to `u32` cast of each index is assumed not to truncate.
- `Swapchain.SwapchainExtent`: requires the surface's minimum extent to be at most its maximum extent on each side whenever the window decides the extent. `clamp` panics otherwise. Vulkan surfaces always report bounds in that order.
- `Swapchain.SwapchainCreateParameters`: requires the reported minimum image count to be below the u32 maximum, because the source's `+ 1` would overflow there.
- `Swapchain.SwapchainCreateParameters`: models the create info only. The driver calls that create the swapchain and fetch its images (the `data` writes at the end of `create_swapchain`) are not modelled.
- The surface queries of `SwapchainSupport::get` are inputs to the model.
- `Devices.PickPhysicalDevice`: takes the last of the highest-scored devices. The source sorts with an unstable sort, so which of several equally scored devices it picks is unspecified; the model fixes one choice.
- `Devices.CheckPhysicalDeviceExtensions`: reports the missing names as a sequence, not as the comma-joined string of the source.
- `Devices.QueueCreateInfos`: returns a set of infos, because the source iterates a hash set in an unspecified order.
- The rest of `create_logical_device` (features, validation layers, device creation, queue retrieval) is driver plumbing and is not modelled.
- `Application.Create`: models only the last step of `App::create`, the sync objects. The earlier steps (instance, surface, device pick, logical device, swapchain, image views, render pass, pipeline, framebuffers, command pool and buffers) are inputs, in the form of the data they produce.
- `Application.Create`: requires one command buffer per swapchain image, which those earlier steps provide.
- `Application.App.Render`: keeps the frame invariant only when the submission did not fail after the fence reset. When `queue_submit` fails after `reset_fences` succeeded, the frame fence is unsignalled with no submission to signal it. A later `render` of that frame slot would then wait on it forever. The source returns the error to its caller, and this model states the case (`StrandsFence`) rather than hiding it.
- `App::destroy` does not wait for the device to go idle itself. `Application.TeardownKeepsFenceRules` requires that no frame fence is pending, which a successful `wait_for_device_idle` ensures.
- The event loop in `src/main.rs` and its own `App` copy are not modelled: its `render` does nothing, and its other functions duplicate the library's.
- These modules are driver plumbing with no decision logic, and are not part of this model:
  - instance and validation-layer setup, including the debug messenger callback;
  - buffers, command pools and buffers, framebuffers, render pass and pipeline;
  - uniform buffers and the MVP matrices;
  - the vertex layout.
- Texture upload is not modelled: reading the PNG, staging buffers, copying a buffer to an image, and the sampler.
- OBJ and PNG parsing and all file I/O are not modelled. Their results, or errors, are inputs.
