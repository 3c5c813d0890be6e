# Meteora: a Dafny model of the Vulkan bring-up and teardown

Meteora is a small C# engine. It opens a window, creates a Vulkan instance and a
presentation surface, and picks a physical device. It then creates a logical device
with its graphics and presentation queues, negotiates and creates a swapchain, and
makes one image view per swapchain image. When it is done it destroys everything
again: the image views, then the swapchain, the surface, the logical device, the
instance and finally the window.

This project models that core in Dafny:

- `wrappers.dfy`: `Option`, `Result` and `Outcome`. The exceptions the engine can
  raise are failure values: `First()` on an empty list, `Math.Clamp` with `min > max`,
  a member access on a null field, the engine's own `throw new Exception(...)`, and the
  validation-layer error.
- `linq.dfy`: the LINQ operators the engine uses (`Any`, `All`, `Where`,
  `FirstOrDefault`, `Distinct`) with their documented meaning, plus `FirstIndex`.
- `vulkan.dfy`: the Vulkan values the engine reads and builds. `uint` is the subset
  type `U32`. Handles are naturals. A `PhysicalDevice` is the snapshot of everything
  the engine asks the driver about that device for the engine's one surface.
- `queue_family_indices.dfy`: the `QueueFamilyIndices` record and `UniqueIndices`.
- `swap_chain_support.dfy`: the choice of surface format, present mode and extent.
- `device_extensions.dfy`: the queue-family scan, the extension test, swapchain
  adequacy and device suitability.
- `meteora_app.dfy`: the `MeteoraApp` class. Its fields are the engine's nullable
  fields. It keeps a `calls` trace of every create and destroy call it makes, and a
  `nextHandle` counter that stands for the driver handing out new handles.

Behaviour of the code as written, which the model keeps:

- `IsSwapChainAdequate` tests `formats.Any()` twice and never looks at the present
  modes. A device that offers no present mode is still suitable, and then FIFO is
  chosen anyway.
- `GetDeviceScore` computes a score and then returns 0. `OrderBy` is stable, so the
  device chosen is the first suitable one in enumeration order.
- `Cleanup` is not guarded; only `Dispose` is. `Run` ends with a direct `Cleanup`
  that does not set the disposed flag, so a later `Dispose` issues every destroy call
  a second time (`RunTailThenDispose`). The window ignores its second dispose
  through its own flag; the driver objects are destroyed twice.
- `MinImageCount + 1` is unchecked `uint` arithmetic. A minimum of `uint.MaxValue`
  wraps to a request for 0 images.
- The swapchain code calls `ChooseSwapSurfaceFormat` before anything else. The
  fallback `formats.First()` is evaluated eagerly, so an empty format list fails
  with `InvalidOperation` even when a device got that far.
- The queue-family scan overwrites an index each time a family qualifies, and stops
  at the first position where both kinds have been seen. So one index is that
  position and the other is the last qualifying family up to it.

## Model

| member | source | states |
|---|---|---|
| QueueFamilies.Complete | Meteora/Models/QueueFamilyIndices.cs:9-14 | The two-argument constructor stores both indices and marks the record complete. |
| QueueFamilies.Default | Meteora/Models/QueueFamilyIndices.cs:3-7 | The struct's zero value is incomplete, with both indices 0. |
| QueueFamilies.UniqueIndices | Meteora/Models/QueueFamilyIndices.cs:16 | The result has one element exactly when the indices are equal and two when they differ. Its elements are exactly the two indices, without repeats, graphics first. |
| Linq.Distinct | Meteora/Models/QueueFamilyIndices.cs:16 | Every element of the input occurs and nothing else does. There are no repeats, and the first element is kept first. |
| Linq.Any | Meteora/Extensions/DeviceExtensions.cs:19 | True exactly when some element satisfies the predicate. |
| Linq.All | Meteora/Extensions/DeviceExtensions.cs:19 | True exactly when every element satisfies the predicate. |
| Linq.Where | Meteora/MeteoraApp.cs:313 | Every kept element satisfies the predicate and comes from the input, every satisfying element is kept, and the result is no longer than the input. Order and repeats are fixed by `WhereAppend` and `WhereSingleton`. |
| Linq.WhereAppend | Meteora/MeteoraApp.cs:313 | Filtering a concatenation is filtering each part, in order. Together with `WhereSingleton` this fixes order and repeats. |
| Linq.WhereSingleton | Meteora/MeteoraApp.cs:313 | A single element is kept exactly when it satisfies the predicate. |
| Linq.FirstIndex | Meteora/Models/SwapChainSupportDetails.cs:18 | The position of the first element satisfying the predicate; none exactly when no element does. |
| Linq.FirstOrDefault | Meteora/Models/SwapChainSupportDetails.cs:18 | The first satisfying element when there is one, otherwise the default. |
| Linq.WhereHead | Meteora/MeteoraApp.cs:139-153 | The head of a non-empty `Where` is the first element of the source satisfying the predicate. |
| SwapChainSupport.ChooseSwapSurfaceFormat | Meteora/Models/SwapChainSupportDetails.cs:16-19 | Fails with `InvalidOperation` exactly when there are no formats. Otherwise it returns the first 8-bit BGRA sRGB / sRGB-non-linear entry, or the first entry when none matches. |
| SwapChainSupport.ChooseSwapPresentMode | Meteora/Models/SwapChainSupportDetails.cs:21-24 | Mailbox exactly when Mailbox is offered, otherwise FIFO, whether or not FIFO is offered. |
| SwapChainSupport.Clamp | Meteora/Models/SwapChainSupportDetails.cs:38-39 | Fails exactly when min > max, and the failure is `MinGreaterThanMax`, the stand-in for `Math.Clamp`'s `ArgumentException`. Otherwise the result lies in [min, max]: the value when inside, the nearer bound when outside. |
| SwapChainSupport.ChooseSwapExtent | Meteora/Models/SwapChainSupportDetails.cs:26-44 | A surface extent whose width is not `uint.MaxValue` is returned as is. Otherwise the call fails exactly when a minimum exceeds its maximum, always with `MinGreaterThanMax`. Else each dimension is the request clamped on its own into that dimension's bounds, so the result is within the bounds and equals the request when the request already is. |
| SwapChainSupport.ChooseSwapExtentIdempotent | Meteora/Models/SwapChainSupportDetails.cs:26-44 | Requesting the chosen extent again chooses it unchanged. |
| SwapChainSupport.ChooseSwapExtentIgnoresCurrentHeight | Meteora/Models/SwapChainSupportDetails.cs:28-29 | Only the current width decides which branch is taken. In the clamping branch the current height does not affect the result. |
| DeviceExtensions.QuerySwapChainSupport | Meteora/Extensions/DeviceExtensions.cs:60-70 | The details hold the device's surface capabilities, formats and present modes as queried. |
| SwapChainSupport.ChooseSwapExtentClampExample | Meteora/Models/SwapChainSupportDetails.cs:38-41 | With bounds (100,100) to (4096,4096), a request of (50,5000) yields (100,4096). |
| DeviceExtensions.AreExtensionsSupported | Meteora/Extensions/DeviceExtensions.cs:15-20 | True exactly when every requested name is the name of some extension the device reports. |
| DeviceExtensions.LastIndexBelow | Meteora/Extensions/DeviceExtensions.cs:27-38 | The last qualifying position below n, which is what the overwriting assignments leave behind; none exactly when no family below n qualifies. |
| DeviceExtensions.LastBelowIffFirstBelow | Meteora/Extensions/DeviceExtensions.cs:27-38 | Some family below n qualifies exactly when the first qualifying family lies below n. |
| DeviceExtensions.ScanStopsAt | Meteora/Extensions/DeviceExtensions.cs:36-41 | Leaving the loop at the first position by which both kinds were seen gives the scan's specified answer. |
| DeviceExtensions.ScanExhausted | Meteora/Extensions/DeviceExtensions.cs:27-43 | Running off the end without both kinds gives the zero value. |
| DeviceExtensions.FindQueueFamilies | Meteora/Extensions/DeviceExtensions.cs:22-44 | The loop with early exit returns exactly the scan's specified answer `QueueFamiliesOf`. |
| DeviceExtensions.QueueFamiliesCompleteIff | Meteora/Extensions/DeviceExtensions.cs:22-44 | The answer is complete exactly when some family draws graphics and some family presents to the surface. |
| DeviceExtensions.QueueFamiliesValid | Meteora/Extensions/DeviceExtensions.cs:30-41 | A complete answer names a graphics family and a presenting family of the device. |
| DeviceExtensions.QueueFamiliesStopAndOverwrite | Meteora/Extensions/DeviceExtensions.cs:27-38 | Given the first position k by which both kinds were seen, the answer is complete and one of its indices is k. Each index is the last family of its kind up to k. |
| DeviceExtensions.QueueFamiliesIncomplete | Meteora/Extensions/DeviceExtensions.cs:40-43 | When no family draws, or no family presents, the answer is the zero value. |
| DeviceExtensions.IsSwapChainAdequate | Meteora/Extensions/DeviceExtensions.cs:54-58 | True exactly when the surface offers at least one format. |
| DeviceExtensions.AdequacyIgnoresPresentModes | Meteora/Extensions/DeviceExtensions.cs:57 | Replacing the present modes never changes the adequacy verdict. |
| DeviceExtensions.IsDeviceSuitable | Meteora/Extensions/DeviceExtensions.cs:47-52 | True exactly when some family draws, some family presents, every requested extension is reported and some format is offered. |
| DeviceExtensions.SuitableWithoutPresentModes | Meteora/Extensions/DeviceExtensions.cs:47-58 | A suitable device stays suitable with no present modes at all, and FIFO is then chosen. |
| Meteora.InstanceInfoFor | Meteora/MeteoraApp.cs:264-285 | With `GetRequiredExtensions` (lines 300-308), the instance create-info names the window's title as the application, "Meteora" as the engine and API 1.3.242. Its extensions are the window's, in order, followed by the debug-report extension, and its layers are the validation layers. Each count equals the length of its list. |
| Meteora.MissingLayers | Meteora/MeteoraApp.cs:313 | Exactly the requested layers that no available layer names. |
| Meteora.CheckValidationLayersSupport | Meteora/MeteoraApp.cs:310-316 | Fails exactly when some requested layer is unavailable. The error carries exactly the missing names. |
| Meteora.DeviceScore | Meteora/MeteoraApp.cs:141-151 | Every device scores 0, whatever its type or maximum image dimension. |
| Meteora.LeastScoreFirst | Meteora/MeteoraApp.cs:139-153 | The stable ascending `OrderBy` then `First`: a candidate of least score, and the first such in order. |
| Meteora.LeastScoreFirstIsHead | Meteora/MeteoraApp.cs:141-151 | Since every score is 0, the ordering picks the first candidate. |
| Meteora.SelectPhysicalDevice | Meteora/MeteoraApp.cs:138-153 | None exactly when no device is suitable. Otherwise it picks the first suitable device in enumeration order. |
| Meteora.BuildQueueCreateInfos | Meteora/MeteoraApp.cs:100-109 | The array loop yields `QueueCreateInfos`: one request per index, in order. |
| Meteora.QueueCreateInfosPerUniqueFamily | Meteora/MeteoraApp.cs:97-109 | One request per distinct family of the pair, graphics family first, no family twice, each for one queue at priority 1. |
| Meteora.DeviceInfoFor | Meteora/MeteoraApp.cs:113-126 | The device create-info carries the given queue requests, the swapchain extension list and the validation layers. Each count equals the length of its list. |
| Meteora.BuildDeviceInfo | Meteora/MeteoraApp.cs:97-126 | The scan result is `QueueFamiliesOf` the device. The create-info carries the per-unique-family requests, the swapchain extension and the validation layers. |
| Meteora.RequestedImageCount | Meteora/MeteoraApp.cs:178-180 | Minimum + 1, lowered to a non-zero maximum when above it, never above such a maximum; a minimum of `uint.MaxValue` wraps to 0. |
| Meteora.RequestedImageCountUnbounded | Meteora/MeteoraApp.cs:178-180 | A minimum of 2 with no maximum requests 3 images. |
| Meteora.ImageSharing | Meteora/MeteoraApp.cs:198-209 | Concurrent over exactly [graphics, presentation] when the families differ; otherwise exclusive with no index list. |
| Meteora.SwapchainInfoFor | Meteora/MeteoraApp.cs:182-209 | The create-info carries the surface, the chosen format, colour space, extent, image count and present mode, and the surface's current transform. It has 1 array layer, is clipped and has no old swapchain. Sharing is concurrent over [graphics, presentation] exactly when they differ, otherwise exclusive with no index list. |
| Meteora.BuildSwapchainInfo | Meteora/MeteoraApp.cs:178-209 | The step-by-step create-info, including the later sharing update, equals `SwapchainInfoFor`. |
| Meteora.PlanSwapchain | Meteora/MeteoraApp.cs:170-209 | An empty format list fails first, with `InvalidOperation`. The plan fails exactly when the formats are empty or the extent clamp fails. With formats present, a failure carries `MinGreaterThanMax`. A plan that succeeds uses the format `ChooseSwapSurfaceFormat` picks, which is an offered one, and the extent `ChooseSwapExtent` picks. Its create-info is `SwapchainInfoFor` over those and the scanned queue families, which fixes image count, present mode, sharing and the constant fields. |
| Meteora.NegotiateSwapchain | Meteora/MeteoraApp.cs:170-209 | The negotiation in source order yields exactly `PlanSwapchain`. |
| Meteora.ImageViewInfoFor | Meteora/MeteoraApp.cs:230-250 | A 2-D view of the given image in the given format, over mip level 0 and array layer 0, one of each. |
| Meteora.ImageHandles | Meteora/MeteoraApp.cs:213 | `count` consecutive handles starting at `first`. |
| Meteora.TeardownOrdered | Meteora/MeteoraApp.cs:338-350 | The teardown runs views, swapchain, surface, device, instance, window in that order. Only view destroys repeat a step, and the window is released last, every time. |
| Meteora.ViewsThenOwners | Meteora/MeteoraApp.cs:340-349 | View destroys followed by a strictly climbing owner part keep the teardown order. |
| Meteora.OwnerTeardownStrictlyOrdered | Meteora/MeteoraApp.cs:345-349 | After the views each kind of object is destroyed at most once, in strictly increasing order, ending with the window. |
| Meteora.TeardownGuarded | Meteora/MeteoraApp.cs:340-348 | Every destroy call names only objects the engine holds. Views and the swapchain go through the device, the surface through the instance. |
| Meteora.TeardownDestroysEveryView | Meteora/MeteoraApp.cs:340-344 | With a device, each held view is destroyed once, in array order, before anything else. |
| Meteora.MeteoraApp.constructor | Meteora/MeteoraApp.cs:41-44 | A new engine holds the window and nothing else, and has made no calls. |
| Meteora.MeteoraApp.CreateInstance | Meteora/MeteoraApp.cs:258-288 | The result is the layer check. A failure changes nothing. On success one instance is created from the window's title and extensions plus debug-report, engine "Meteora", API 1.3.242 and the validation layers. |
| Meteora.MeteoraApp.PrepareSurface | Meteora/MeteoraApp.cs:68-78 | Fails with a null reference exactly when there is no instance, changing nothing. Otherwise it creates one surface for the instance. |
| Meteora.MeteoraApp.PickPhysicalDevice | Meteora/MeteoraApp.cs:133-155 | The surface check comes first, then the member access on the instance, which fails with a null reference when there is none. Under both it passes exactly when some device is suitable, storing `SelectPhysicalDevice`, and otherwise fails with "Failed to find a suitable GPU". A failure keeps the old device. |
| Meteora.MeteoraApp.CreateLogicalDevice | Meteora/MeteoraApp.cs:90-131 | It checks the physical device, then the surface, with their messages. Otherwise it creates one device from the per-unique-family requests and takes queue 0 of the graphics and presentation families. A failure changes nothing. |
| Meteora.MeteoraApp.CreateDeviceFrom | Meteora/MeteoraApp.cs:128-130 | One device is created from the given create-info, and its two queues are recorded. |
| Meteora.MeteoraApp.CreateSwapChain | Meteora/MeteoraApp.cs:161-217 | Three checks with their messages, then the outcome of `PlanSwapchain`. A failure changes nothing. On success one swapchain is created from the planned create-info, its images are recorded, and the format and extent are kept. |
| Meteora.MeteoraApp.NegotiateAndCreateSwapchain | Meteora/MeteoraApp.cs:170-216 | After the checks: passes exactly when the plan succeeds, with the plan's error otherwise, and the new state as in `CreateSwapChain`. |
| Meteora.MeteoraApp.CreateSwapchainFrom | Meteora/MeteoraApp.cs:211-216 | One swapchain is created through the device, its images get the next handles, and the format and extent are recorded. |
| Meteora.MeteoraApp.CreateImageViews | Meteora/MeteoraApp.cs:219-254 | It checks for images, then for the device, with their messages. Otherwise it creates a fresh array with one new 2-D colour view per image, in image order, using the current format. A failure changes nothing. |
| Meteora.MeteoraApp.Cleanup | Meteora/MeteoraApp.cs:338-350 | Appends exactly the teardown for what is held now, with no guard and no field reset. |
| Meteora.MeteoraApp.DestroyImageViews | Meteora/MeteoraApp.cs:340-344 | Appends one destroy per held view, in array order, and only when a device is held. |
| Meteora.MeteoraApp.DestroyOwnedObjects | Meteora/MeteoraApp.cs:345-349 | Appends the owner part of the teardown for what is held now: swapchain and device only with a device, surface and instance only with an instance, then the window. |
| Meteora.MeteoraApp.DisposeCore | Meteora/MeteoraApp.cs:352-362 | Cleans up only when not yet disposed, and is disposed afterwards. |
| Meteora.MeteoraApp.Dispose | Meteora/MeteoraApp.cs:370-375 | As `Dispose(true)`: clean up only the first time. |
| Meteora.DisposeTwice | Meteora/MeteoraApp.cs:352-375 | Disposing twice cleans up at most once. |
| Meteora.RunTailThenDispose | Meteora/MeteoraApp.cs:46-52 | `Run`'s final `Cleanup` followed by `Dispose` issues the whole teardown twice. |

## Left out

- Vulkan and GLFW are outside the model. Queries are a `PhysicalDevice` snapshot, the layer list, the device list and the swapchain image count, all passed as inputs. The window's answers (its `Title`, `GetRequiredInstanceExtensions()` and `GetFrameBufferSize()`) are fixed when the app is built, as a `Window` value. A created object is a new handle from a counter. Create and destroy calls are recorded in a trace rather than performed.
- `InitVulkan` and `Run` are not modelled as methods of their own. Each step they call is modelled on its own, with its own preconditions as failure cases, and `Run`'s final `Cleanup` followed by `Dispose` is `RunTailThenDispose`. The model therefore states no property of the whole start-up sequence at once.
- `MainLoop` is left out: it is window event polling with no engine state.
- `CreateGraphicsPipeline` is left out: it is empty.
- `SetupDebugMessenger` and `DebugReportCallback` are left out: console output through a foreign callback.
- `CreateShaderModule` (both overloads) is left out: a foreign create call, with no caller in this core.
- `PrepareSurface`'s reflection patch of the surface handle and the ignored result of `GetSurface` are left out: every surface is a new handle.
- The finalizer and `GC.SuppressFinalize` are left out: garbage collection is not modelled, and `Dispose(false)` behaves like `Dispose(true)`.
- The window classes and their own dispose flag are left out: disposing the window is one trace entry.
- The text of the layer error message is left out: the error carries the list of missing names instead.
- Create-info fields the engine sets to fixed values are left out: image usage, composite alpha, swizzles, aspect mask, application and engine versions, and device features.
- `Meteora.DeviceScore` does not model the device type or `MaxImageDimension2D` it reads, because the score returned is 0 whatever they are.
- `Meteora.MeteoraApp.CreateSwapChain`: the number of images the driver returns is an input, `imageCount`, with no stated relation to the requested minimum, because the driver decides it.
- `DeviceExtensions.FindQueueFamilies`: family indices are naturals, not `uint`, because they are array positions and the cast never truncates.
- `Meteora.MeteoraApp.Cleanup`: destroy calls record the possibly-null swapchain and surface as options rather than modelling how the driver treats a null handle.
- Queue priority is the real 1.0 rather than a `float`.
