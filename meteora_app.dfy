/**
 * The engine's initialisation and teardown (Meteora/MeteoraApp.cs).
 *
 * The driver and the window are outside the model: what the engine asks them is
 * passed in (the layers, devices and image count as parameters, a `Window` fixed
 * at construction), every object they create is a handle they have never handed
 * out before, and every create and destroy call the engine makes is appended to
 * `calls`.
 */
module Meteora {
  import opened Wrappers
  import opened Linq
  import opened Vulkan
  import opened QueueFamilies
  import opened SwapChainSupport
  import opened DeviceExtensions

  const ValidationLayers: seq<string> := ["VK_LAYER_KHRONOS_validation"]
  const DeviceExtensionNames: seq<string> := ["VK_KHR_swapchain"]
  const DebugReportExtension: string := "VK_EXT_debug_report"
  const EngineName: string := "Meteora"
  const TargetApiVersion: ApiVersion := ApiVersion(1, 3, 242)
  const QueuePriority: real := 1.0

  const PhysicalDeviceNotSet: string := "Physical device is not set"
  const SurfaceNotCreated: string := "Surface not created"
  const LogicalDeviceNotCreated: string := "Logical Device not created"
  const SwapImagesNotSet: string := "Swap images is not set"
  const LogicalDeviceNotSet: string := "Logical Device is not set"
  const NoSuitableGpu: string := "Failed to find a suitable GPU"

  /** What the window answers: its title, its instance extensions and its framebuffer size. */
  datatype Window = Window(
    title: string,
    requiredInstanceExtensions: seq<string>,
    framebufferWidth: U32,
    framebufferHeight: U32)

  /** A call the engine makes to create or destroy a driver or window object. */
  datatype Call =
    | VkCreateInstance(instanceInfo: InstanceCreateInfo, instance: Handle)
    | GlfwCreateWindowSurface(instance: Handle, surface: Handle)
    | VkCreateDevice(physicalDevice: PhysicalDevice, deviceInfo: DeviceCreateInfo, device: Handle)
    | VkCreateSwapchain(device: Handle, swapchainInfo: SwapchainCreateInfo, swapchain: Handle)
    | VkCreateImageView(device: Handle, viewInfo: ImageViewCreateInfo, view: Handle)
    | VkDestroyImageView(device: Handle, view: Handle)
    | VkDestroySwapchain(device: Handle, optSwapchain: Option<Handle>)
    | VkDestroySurface(instance: Handle, optSurface: Option<Handle>)
    | VkDestroyDevice(device: Handle)
    | VkDestroyInstance(instance: Handle)
    | WindowDispose

  // ---------------------------------------------------------------------------
  // Validation layers

  /** `Where(v => !props.Any(p => p.LayerName == v))`: the requested layers nobody offers. */
  function MissingLayers(requested: seq<string>, available: seq<LayerProperties>): (r: seq<string>)
    ensures forall name :: name in r <==>
              name in requested && forall j :: 0 <= j < |available| ==> available[j].layerName != name
  {
    var missing := Where(requested, (v: string) => !Any(available, (p: LayerProperties) => p.layerName == v));
    assert forall i :: 0 <= i < |missing| ==> missing[i] in requested;
    missing
  }

  /** `CheckValiationLayersSupport`: fails, naming every missing layer, when one is missing. */
  function CheckValidationLayersSupport(requested: seq<string>, available: seq<LayerProperties>): (r: Outcome)
    ensures r.Fail? <==>
            exists i :: 0 <= i < |requested| && forall j :: 0 <= j < |available| ==> available[j].layerName != requested[i]
    ensures r.Fail? ==> r.error.UnsupportedValidationLayers?
    ensures r.Fail? ==> forall name :: name in r.error.missing <==>
              name in requested && forall j :: 0 <= j < |available| ==> available[j].layerName != name
  {
    var unsupported := MissingLayers(requested, available);
    if Any(unsupported, (v: string) => true) then Fail(UnsupportedValidationLayers(unsupported)) else Pass
  }

  /** The instance create-info: the window's extensions plus the debug-report one, and the validation layers. */
  function InstanceInfoFor(window: Window): (r: InstanceCreateInfo)
    ensures r.applicationName == window.title && r.engineName == EngineName && r.apiVersion == TargetApiVersion
    ensures |r.enabledExtensionNames| == |window.requiredInstanceExtensions| + 1
    ensures r.enabledExtensionNames[..|window.requiredInstanceExtensions|] == window.requiredInstanceExtensions
    ensures r.enabledExtensionNames[|window.requiredInstanceExtensions|] == DebugReportExtension
    ensures r.enabledExtensionCount == |r.enabledExtensionNames|
    ensures r.enabledLayerNames == ValidationLayers && r.enabledLayerCount == |ValidationLayers|
  {
    var exts := window.requiredInstanceExtensions + [DebugReportExtension];
    InstanceCreateInfo(
      window.title, EngineName, TargetApiVersion,
      exts, |exts|, ValidationLayers, |ValidationLayers|)
  }

  // ---------------------------------------------------------------------------
  // Physical device selection

  /** `GetDeviceScore` as written: it weighs the device and then returns 0. */
  function DeviceScore(device: PhysicalDevice): (r: int)
    ensures r == 0
  {
    0
  }

  /** `OrderBy(GetDeviceScore).First()`: the first candidate among those of least score (`OrderBy` is stable). */
  function LeastScoreFirst(candidates: seq<PhysicalDevice>): (r: PhysicalDevice)
    requires candidates != []
    ensures r in candidates
    ensures forall j :: 0 <= j < |candidates| ==> DeviceScore(r) <= DeviceScore(candidates[j])
    ensures exists k :: 0 <= k < |candidates| && candidates[k] == r &&
                        forall j :: 0 <= j < k ==> DeviceScore(candidates[j]) > DeviceScore(r)
    decreases |candidates|
  {
    if |candidates| == 1 then candidates[0]
    else
      var best := LeastScoreFirst(candidates[1..]);
      if DeviceScore(candidates[0]) <= DeviceScore(best) then candidates[0] else best
  }

  /** With every score 0, the least-score-first candidate is simply the first. */
  lemma LeastScoreFirstIsHead(candidates: seq<PhysicalDevice>)
    requires candidates != []
    ensures LeastScoreFirst(candidates) == candidates[0]
  {
  }

  /** The suitable devices ordered by score, first one taken; none when no device is suitable. */
  function SelectPhysicalDevice(devices: seq<PhysicalDevice>, extensions: seq<string>): (r: Option<PhysicalDevice>)
    ensures r.None? <==> forall i :: 0 <= i < |devices| ==> !IsDeviceSuitable(devices[i], extensions)
    ensures r.Some? ==> exists k :: 0 <= k < |devices| && devices[k] == r.value &&
                                    IsDeviceSuitable(devices[k], extensions) &&
                                    forall j :: 0 <= j < k ==> !IsDeviceSuitable(devices[j], extensions)
  {
    var isSuitable := (d: PhysicalDevice) => IsDeviceSuitable(d, extensions);
    var suitable := Where(devices, isSuitable);
    if suitable == [] then None
    else
      WhereHead(devices, isSuitable);
      LeastScoreFirstIsHead(suitable);
      Some(LeastScoreFirst(suitable))
  }

  // ---------------------------------------------------------------------------
  // Logical device

  /** One create-info per family index, in order, each asking for one queue at priority 1. */
  function QueueCreateInfos(indices: seq<nat>): seq<DeviceQueueCreateInfo> {
    seq(|indices|, i requires 0 <= i < |indices| => DeviceQueueCreateInfo(indices[i], 1, [QueuePriority]))
  }

  /** The loop filling the `queueInfo` array. */
  method BuildQueueCreateInfos(indices: seq<nat>) returns (infos: seq<DeviceQueueCreateInfo>)
    ensures infos == QueueCreateInfos(indices)
  {
    var queueInfo := new DeviceQueueCreateInfo[|indices|];
    for i := 0 to queueInfo.Length
      invariant forall j :: 0 <= j < i ==> queueInfo[j] == DeviceQueueCreateInfo(indices[j], 1, [QueuePriority])
    {
      queueInfo[i] := DeviceQueueCreateInfo(indices[i], 1, [QueuePriority]);
    }
    infos := queueInfo[..];
  }

  /**
   * The queue requests of a device are one per distinct family of the pair, graphics
   * family first, never two for the same family, each for a single queue.
   */
  lemma QueueCreateInfosPerUniqueFamily(q: QueueFamilyIndices)
    ensures var infos := QueueCreateInfos(UniqueIndices(q));
            && (|infos| == 1 <==> q.graphics == q.presentation)
            && (|infos| == 2 <==> q.graphics != q.presentation)
            && infos[0].queueFamilyIndex == q.graphics
            && (q.graphics != q.presentation ==> infos[1].queueFamilyIndex == q.presentation)
            && (forall i, j :: 0 <= i < j < |infos| ==> infos[i].queueFamilyIndex != infos[j].queueFamilyIndex)
            && (forall i :: 0 <= i < |infos| ==> infos[i].queueCount == 1 && infos[i].queuePriorities == [QueuePriority])
  {
  }

  /** The device create-info: the queue requests, the swapchain extension and the validation layers. */
  function DeviceInfoFor(queueInfos: seq<DeviceQueueCreateInfo>): (r: DeviceCreateInfo)
    ensures r.queueCreateInfos == queueInfos && r.queueCreateInfoCount == |queueInfos|
    ensures r.enabledExtensionNames == DeviceExtensionNames && r.enabledExtensionCount == |DeviceExtensionNames|
    ensures r.enabledLayerNames == ValidationLayers && r.enabledLayerCount == |ValidationLayers|
  {
    DeviceCreateInfo(
      queueInfos, |queueInfos|,
      DeviceExtensionNames, |DeviceExtensionNames|,
      ValidationLayers, |ValidationLayers|)
  }

  /** The queue-family scan and the device create-info built from its unique families. */
  method BuildDeviceInfo(device: PhysicalDevice) returns (indexFamilies: QueueFamilyIndices, createInfo: DeviceCreateInfo)
    ensures indexFamilies == QueueFamiliesOf(device.queueFamilies)
    ensures createInfo == DeviceInfoFor(QueueCreateInfos(UniqueIndices(indexFamilies)))
  {
    indexFamilies := FindQueueFamilies(device);
    var indices := UniqueIndices(indexFamilies);
    var queueInfo := BuildQueueCreateInfos(indices);
    createInfo := DeviceInfoFor(queueInfo);
  }

  // ---------------------------------------------------------------------------
  // Swapchain

  /**
   * One more image than the minimum, lowered to the maximum when there is one
   * (a maximum of 0 means none). The `+ 1` is unchecked `uint` arithmetic.
   */
  function RequestedImageCount(caps: SurfaceCapabilities): (r: U32)
    ensures caps.minImageCount < UINT_MAX && (caps.maxImageCount == 0 || caps.minImageCount < caps.maxImageCount) ==>
              r == caps.minImageCount + 1
    ensures caps.minImageCount < UINT_MAX && 0 < caps.maxImageCount <= caps.minImageCount ==>
              r == caps.maxImageCount
    ensures caps.maxImageCount > 0 ==> r <= caps.maxImageCount
    ensures caps.minImageCount == UINT_MAX ==> r == 0
  {
    var count: U32 := (caps.minImageCount + 1) % 0x1_0000_0000;
    if caps.maxImageCount > 0 && count > caps.maxImageCount then caps.maxImageCount else count
  }

  /** With a minimum of 2 and no maximum, three images are requested. */
  lemma RequestedImageCountUnbounded(caps: SurfaceCapabilities)
    requires caps.minImageCount == 2 && caps.maxImageCount == 0
    ensures RequestedImageCount(caps) == 3
  {
  }

  /** How the swapchain images are shared between the graphics and the presentation family. */
  datatype Sharing = Sharing(mode: SharingMode, queueFamilyIndexCount: nat, queueFamilyIndices: seq<nat>)

  /** Concurrent over both families when they differ; otherwise exclusive with no index list. */
  function ImageSharing(q: QueueFamilyIndices): (r: Sharing)
    ensures r.mode == Concurrent <==> q.graphics != q.presentation
    ensures r.mode == Concurrent ==>
              r.queueFamilyIndexCount == 2 && r.queueFamilyIndices == [q.graphics, q.presentation]
    ensures r.mode == Exclusive ==> r.queueFamilyIndexCount == 0 && r.queueFamilyIndices == []
  {
    var uniqueIndices := UniqueIndices(q);
    if q.graphics != q.presentation then
      assert uniqueIndices == [q.graphics, q.presentation];
      Sharing(Concurrent, |uniqueIndices|, uniqueIndices)
    else Sharing(Exclusive, 0, [])
  }

  /** The swapchain create-info built from the negotiated format, mode, extent, count and sharing. */
  function SwapchainInfoFor(surface: Handle, support: SwapChainSupportDetails, format: SurfaceFormat,
                            extent: Extent2D, q: QueueFamilyIndices): (r: SwapchainCreateInfo)
    ensures r.surface == surface && r.imageFormat == format.format && r.imageColorSpace == format.colorSpace
    ensures r.imageExtent == extent && r.minImageCount == RequestedImageCount(support.capabilities)
    ensures r.presentMode == ChooseSwapPresentMode(support)
    ensures r.imageArrayLayers == 1 && r.clipped && r.oldSwapchain == None
    ensures r.preTransform == support.capabilities.currentTransform
    ensures r.imageSharingMode == Concurrent <==> q.graphics != q.presentation
    ensures r.imageSharingMode == Concurrent ==>
              r.queueFamilyIndexCount == 2 && r.queueFamilyIndices == [q.graphics, q.presentation]
    ensures r.imageSharingMode == Exclusive ==> r.queueFamilyIndexCount == 0 && r.queueFamilyIndices == []
  {
    var sharing := ImageSharing(q);
    SwapchainCreateInfo(
      surface, RequestedImageCount(support.capabilities), format.format, format.colorSpace, extent,
      1, support.capabilities.currentTransform, ChooseSwapPresentMode(support), true, None,
      sharing.mode, sharing.queueFamilyIndexCount, sharing.queueFamilyIndices)
  }

  /**
   * The create-info as `CreateSwapChain` assembles it: the negotiated fields first,
   * exclusive sharing, then concurrent sharing over the unique indices when the
   * two families differ.
   */
  method BuildSwapchainInfo(surface: Handle, support: SwapChainSupportDetails, format: SurfaceFormat,
                            extent: Extent2D, indices: QueueFamilyIndices) returns (createInfo: SwapchainCreateInfo)
    ensures createInfo == SwapchainInfoFor(surface, support, format, extent, indices)
  {
    var presentMode := ChooseSwapPresentMode(support);
    var imgCount: U32 := (support.capabilities.minImageCount + 1) % 0x1_0000_0000;
    if support.capabilities.maxImageCount > 0 && imgCount > support.capabilities.maxImageCount {
      imgCount := support.capabilities.maxImageCount;
    }
    createInfo := SwapchainCreateInfo(
      surface, imgCount, format.format, format.colorSpace, extent,
      1, support.capabilities.currentTransform, presentMode, true, None,
      Exclusive, 0, []);
    var uniqueIndices := UniqueIndices(indices);
    if indices.graphics != indices.presentation {
      assert uniqueIndices == [indices.graphics, indices.presentation];
      createInfo := createInfo.(imageSharingMode := Concurrent,
                                queueFamilyIndexCount := |uniqueIndices|,
                                queueFamilyIndices := uniqueIndices);
    } else {
      createInfo := createInfo.(imageSharingMode := Exclusive);
    }
  }

  /** What `CreateSwapChain` settles before it creates anything. */
  datatype SwapchainPlan = SwapchainPlan(format: SurfaceFormat, extent: Extent2D, createInfo: SwapchainCreateInfo)

  /**
   * The negotiation for `device` and a framebuffer of `width` x `height`: the
   * format is chosen first, so an empty format list fails before the extent is
   * looked at; then the extent; then the create-info over the scanned families.
   */
  function PlanSwapchain(surface: Handle, device: PhysicalDevice, width: U32, height: U32): (r: Result<SwapchainPlan>)
    ensures device.surfaceFormats == [] ==> r == Failure(InvalidOperation)
    ensures device.surfaceFormats != [] && r.Failure? ==> r.error == MinGreaterThanMax
    ensures r.Failure? <==>
              device.surfaceFormats == [] || ChooseSwapExtent(QuerySwapChainSupport(device), width, height).Failure?
    ensures r.Success? ==>
              && r.value.format in device.surfaceFormats
              && r.value.createInfo.surface == surface
              && r.value.createInfo.imageFormat == r.value.format.format
              && r.value.createInfo.imageColorSpace == r.value.format.colorSpace
              && r.value.createInfo.imageExtent == r.value.extent
              && r.value.createInfo.minImageCount == RequestedImageCount(device.surfaceCapabilities)
              && r.value.createInfo.presentMode == ChooseSwapPresentMode(QuerySwapChainSupport(device))
    ensures r.Success? ==>
              var support := QuerySwapChainSupport(device);
              && r.value.format == ChooseSwapSurfaceFormat(support).value
              && r.value.extent == ChooseSwapExtent(support, width, height).value
              && r.value.createInfo == SwapchainInfoFor(surface, support, r.value.format, r.value.extent,
                                                        QueueFamiliesOf(device.queueFamilies))
  {
    var support := QuerySwapChainSupport(device);
    match ChooseSwapSurfaceFormat(support)
    case Failure(e) => Failure(e)
    case Success(format) =>
      match ChooseSwapExtent(support, width, height)
      case Failure(e) => Failure(e)
      case Success(extent) =>
        var q := QueueFamiliesOf(device.queueFamilies);
        Success(SwapchainPlan(format, extent, SwapchainInfoFor(surface, support, format, extent, q)))
  }

  /** The negotiation steps of `CreateSwapChain`, in the order it takes them. */
  method NegotiateSwapchain(surface: Handle, device: PhysicalDevice, width: U32, height: U32)
    returns (r: Result<SwapchainPlan>)
    ensures r == PlanSwapchain(surface, device, width, height)
  {
    var swapSupport := QuerySwapChainSupport(device);
    var chosenFormat := ChooseSwapSurfaceFormat(swapSupport);
    if chosenFormat.Failure? {
      return Failure(chosenFormat.error);
    }
    var format := chosenFormat.value;
    var chosenExtent := ChooseSwapExtent(swapSupport, width, height);
    if chosenExtent.Failure? {
      return Failure(chosenExtent.error);
    }
    var extent := chosenExtent.value;
    var indices := FindQueueFamilies(device);
    var createInfo := BuildSwapchainInfo(surface, swapSupport, format, extent, indices);
    r := Success(SwapchainPlan(format, extent, createInfo));
  }

  /** The `count` image handles the driver hands out from `first` on. */
  function ImageHandles(first: Handle, count: nat): (r: seq<Handle>)
    ensures |r| == count
    ensures forall i :: 0 <= i < count ==> r[i] == first + i
  {
    seq(count, i => first + i)
  }

  /** A 2-D colour view of one image: identity swizzle, one mip level, one array layer. */
  function ImageViewInfoFor(image: Handle, format: Format): (r: ImageViewCreateInfo)
    ensures r.image == image && r.viewType == View2D && r.format == format
    ensures r.baseMipLevel == 0 && r.levelCount == 1 && r.baseArrayLayer == 0 && r.layerCount == 1
  {
    ImageViewCreateInfo(image, View2D, format, 0, 1, 0, 1)
  }

  /** The view-creation calls for `images`, whose views get the handles `first`, `first + 1`, ... */
  function ImageViewCalls(device: Handle, images: seq<Handle>, format: Format, first: Handle): seq<Call> {
    seq(|images|, i requires 0 <= i < |images| => VkCreateImageView(device, ImageViewInfoFor(images[i], format), first + i))
  }

  // ---------------------------------------------------------------------------
  // Teardown

  /** The destroy calls `Cleanup` makes, from what the engine holds at that moment. */
  function TeardownCalls(instance: Option<Handle>, device: Option<Handle>, surface: Option<Handle>,
                         swapchain: Option<Handle>, views: Option<seq<Handle>>): seq<Call>
  {
    ViewDestroyCalls(device, views) + OwnerTeardownCalls(instance, device, surface, swapchain)
  }

  /** After the views: swapchain, surface, device and instance, each only when its owner is held; then the window. */
  function OwnerTeardownCalls(instance: Option<Handle>, device: Option<Handle>, surface: Option<Handle>,
                              swapchain: Option<Handle>): seq<Call>
  {
    (if device.Some? then [VkDestroySwapchain(device.value, swapchain)] else [])
    + (if instance.Some? then [VkDestroySurface(instance.value, surface)] else [])
    + (if device.Some? then [VkDestroyDevice(device.value)] else [])
    + (if instance.Some? then [VkDestroyInstance(instance.value)] else [])
    + [WindowDispose]
  }

  /** Each view destroyed through the device, in array order; nothing without a device. */
  function ViewDestroyCalls(device: Option<Handle>, views: Option<seq<Handle>>): seq<Call> {
    if device.Some? && views.Some? then
      seq(|views.value|, i requires 0 <= i < |views.value| => VkDestroyImageView(device.value, views.value[i]))
    else []
  }

  /** The teardown step a call belongs to, in the order `Cleanup` performs them. */
  function TeardownStep(c: Call): nat {
    match c
    case VkDestroyImageView(_, _) => 0
    case VkDestroySwapchain(_, _) => 1
    case VkDestroySurface(_, _) => 2
    case VkDestroyDevice(_) => 3
    case VkDestroyInstance(_) => 4
    case WindowDispose => 5
    case _ => 6
  }

  /**
   * Teardown order: views, swapchain, surface, device, instance, window; only
   * views repeat; the window is released last, every time.
   */
  lemma {:induction false} TeardownOrdered(instance: Option<Handle>, device: Option<Handle>, surface: Option<Handle>,
                                           swapchain: Option<Handle>, views: Option<seq<Handle>>)
    ensures var r := TeardownCalls(instance, device, surface, swapchain, views);
            && r != [] && r[|r| - 1] == WindowDispose
            && (forall i :: 0 <= i < |r| ==> TeardownStep(r[i]) <= 5)
            && (forall i, j :: 0 <= i < j < |r| ==> TeardownStep(r[i]) <= TeardownStep(r[j]))
            && (forall i, j :: 0 <= i < j < |r| && TeardownStep(r[i]) == TeardownStep(r[j]) ==> r[i].VkDestroyImageView?)
  {
    var v := ViewDestroyCalls(device, views);
    var tail := OwnerTeardownCalls(instance, device, surface, swapchain);
    var r := TeardownCalls(instance, device, surface, swapchain, views);
    OwnerTeardownStrictlyOrdered(instance, device, surface, swapchain);
    ViewsThenOwners(v, tail);
  }

  /** View destroys followed by a strictly climbing owner part keep the teardown order. */
  lemma ViewsThenOwners(v: seq<Call>, tail: seq<Call>)
    requires forall i :: 0 <= i < |v| ==> v[i].VkDestroyImageView?
    requires tail != [] && tail[|tail| - 1] == WindowDispose
    requires forall i :: 0 <= i < |tail| ==> 1 <= TeardownStep(tail[i]) <= 5
    requires forall i, j :: 0 <= i < j < |tail| ==> TeardownStep(tail[i]) < TeardownStep(tail[j])
    ensures var r := v + tail;
            && r != [] && r[|r| - 1] == WindowDispose
            && (forall i :: 0 <= i < |r| ==> TeardownStep(r[i]) <= 5)
            && (forall i, j :: 0 <= i < j < |r| ==> TeardownStep(r[i]) <= TeardownStep(r[j]))
            && (forall i, j :: 0 <= i < j < |r| && TeardownStep(r[i]) == TeardownStep(r[j]) ==> r[i].VkDestroyImageView?)
  {
    var r := v + tail;
    assert forall i :: 0 <= i < |r| ==> r[i] == if i < |v| then v[i] else tail[i - |v|];
  }

  /** The owner part of the teardown climbs strictly through steps 1 to 5 and ends with the window. */
  lemma OwnerTeardownStrictlyOrdered(instance: Option<Handle>, device: Option<Handle>, surface: Option<Handle>,
                                     swapchain: Option<Handle>)
    ensures var t := OwnerTeardownCalls(instance, device, surface, swapchain);
            && t != [] && t[|t| - 1] == WindowDispose
            && (forall i :: 0 <= i < |t| ==> 1 <= TeardownStep(t[i]) <= 5)
            && (forall i, j :: 0 <= i < j < |t| ==> TeardownStep(t[i]) < TeardownStep(t[j]))
  {
    var t := OwnerTeardownCalls(instance, device, surface, swapchain);
    var steps := seq(|t|, i requires 0 <= i < |t| => TeardownStep(t[i]));
    if instance.Some? && device.Some? {
      assert steps == [1, 2, 3, 4, 5];
    } else if instance.Some? {
      assert steps == [2, 4, 5];
    } else if device.Some? {
      assert steps == [1, 3, 5];
    } else {
      assert steps == [5];
    }
  }

  /**
   * Every destroy call is guarded: it names only the device, instance, views,
   * swapchain and surface the engine holds, and views need the device.
   */
  lemma TeardownGuarded(instance: Option<Handle>, device: Option<Handle>, surface: Option<Handle>,
                        swapchain: Option<Handle>, views: Option<seq<Handle>>)
    ensures var r := TeardownCalls(instance, device, surface, swapchain, views);
            forall c :: c in r ==>
              && (c.VkDestroyImageView? ==> device == Some(c.device) && views.Some? && c.view in views.value)
              && (c.VkDestroySwapchain? ==> device == Some(c.device) && c.optSwapchain == swapchain)
              && (c.VkDestroyDevice? ==> device == Some(c.device))
              && (c.VkDestroySurface? ==> instance == Some(c.instance) && c.optSurface == surface)
              && (c.VkDestroyInstance? ==> instance == Some(c.instance))
  {
    var v := ViewDestroyCalls(device, views);
    var tail := OwnerTeardownCalls(instance, device, surface, swapchain);
    assert forall c :: c in v ==> c.VkDestroyImageView? && device == Some(c.device) && views.Some? && c.view in views.value;
  }

  /** With a device and views, the teardown starts by destroying each view once, in array order. */
  lemma TeardownDestroysEveryView(instance: Option<Handle>, device: Option<Handle>, surface: Option<Handle>,
                                  swapchain: Option<Handle>, views: seq<Handle>)
    requires device.Some?
    ensures var r := TeardownCalls(instance, device, surface, swapchain, Some(views));
            && |r| > |views|
            && (forall i :: 0 <= i < |views| ==> r[i] == VkDestroyImageView(device.value, views[i]))
            && (forall i :: |views| <= i < |r| ==> !r[i].VkDestroyImageView?)
  {
  }

  // ---------------------------------------------------------------------------
  // The engine

  class MeteoraApp {
    var disposedValue: bool
    var instance: Option<Handle>
    var physicalDevice: Option<PhysicalDevice>
    const window: Window
    var device: Option<Handle>
    var graphicsQueue: Option<Queue>
    var presentQueue: Option<Queue>
    var surface: Option<Handle>
    var swapchain: Option<Handle>
    var swapImages: Option<seq<Handle>>
    var curSwapChainFormat: Format
    var curSwapChainExtent: Extent2D
    var swapchainImageViews: array?<Handle>

    /** Every create and destroy call made so far, oldest first. */
    var calls: seq<Call>
    /** The next handle the driver hands out; every earlier one is taken. */
    var nextHandle: Handle

    constructor (window: Window)
      ensures this.window == window && !disposedValue
      ensures instance.None? && physicalDevice.None? && device.None? && surface.None?
      ensures graphicsQueue.None? && presentQueue.None? && swapchain.None? && swapImages.None?
      ensures swapchainImageViews == null
      ensures curSwapChainFormat == FORMAT_UNDEFINED && curSwapChainExtent == Extent2D(0, 0)
      ensures calls == [] && nextHandle == 0
    {
      this.window := window;
      disposedValue := false;
      instance, physicalDevice, device, surface := None, None, None, None;
      graphicsQueue, presentQueue, swapchain, swapImages := None, None, None, None;
      swapchainImageViews := null;
      curSwapChainFormat, curSwapChainExtent := FORMAT_UNDEFINED, Extent2D(0, 0);
      calls, nextHandle := [], 0;
    }

    /** The driver creating an object: a handle it never handed out before. */
    method NewHandle() returns (h: Handle)
      modifies this`nextHandle
      ensures h == old(nextHandle) && nextHandle == old(nextHandle) + 1
    {
      h := nextHandle;
      nextHandle := nextHandle + 1;
    }

    /** `CreateInstance`: check the validation layers, then create the instance. */
    method CreateInstance(layers: seq<LayerProperties>) returns (r: Outcome)
      modifies this`instance, this`calls, this`nextHandle
      ensures r == CheckValidationLayersSupport(ValidationLayers, layers)
      ensures r.Fail? ==> unchanged(this)
      ensures r.Pass? ==> instance == Some(old(nextHandle)) && nextHandle == old(nextHandle) + 1
      ensures r.Pass? ==> calls == old(calls) + [VkCreateInstance(InstanceInfoFor(window), old(nextHandle))]
    {
      r := CheckValidationLayersSupport(ValidationLayers, layers);
      if r.Fail? {
        return;
      }
      var h := NewHandle();
      calls := calls + [VkCreateInstance(InstanceInfoFor(window), h)];
      instance := Some(h);
    }

    /** `PrepareSurface`: the window creates a surface for the instance (the member access on the instance throws while it is null). */
    method PrepareSurface() returns (r: Outcome)
      modifies this`surface, this`calls, this`nextHandle
      ensures r.Fail? <==> old(instance).None?
      ensures r.Fail? ==> r.error == NullReference && unchanged(this)
      ensures r.Pass? ==> surface == Some(old(nextHandle)) && nextHandle == old(nextHandle) + 1
      ensures r.Pass? ==> calls == old(calls) + [GlfwCreateWindowSurface(instance.value, old(nextHandle))]
    {
      if instance.None? {
        return Fail(NullReference);
      }
      var h := NewHandle();
      calls := calls + [GlfwCreateWindowSurface(instance.value, h)];
      surface := Some(h);
      r := Pass;
    }

    /** `PickPhysicalDevice`: the first suitable device in enumeration order. */
    method PickPhysicalDevice(devices: seq<PhysicalDevice>) returns (r: Outcome)
      modifies this`physicalDevice
      ensures old(surface).None? ==> r == Fail(Thrown(SurfaceNotCreated))
      ensures old(surface).Some? && old(instance).None? ==> r == Fail(NullReference)
      ensures old(surface).Some? && old(instance).Some? ==>
                (r.Pass? <==> exists i :: 0 <= i < |devices| && IsDeviceSuitable(devices[i], DeviceExtensionNames))
      ensures r.Fail? && old(surface).Some? && old(instance).Some? ==> r == Fail(Thrown(NoSuitableGpu))
      ensures r.Fail? ==> physicalDevice == old(physicalDevice)
      ensures r.Pass? ==> physicalDevice == SelectPhysicalDevice(devices, DeviceExtensionNames)
    {
      if surface.None? {
        return Fail(Thrown(SurfaceNotCreated));
      }
      if instance.None? {
        return Fail(NullReference);
      }
      var best := SelectPhysicalDevice(devices, DeviceExtensionNames);
      if best.None? {
        return Fail(Thrown(NoSuitableGpu));
      }
      physicalDevice := best;
      r := Pass;
    }

    /** `CreateLogicalDevice`: one queue request per unique family, then the two queues. */
    method CreateLogicalDevice() returns (r: Outcome)
      modifies this`device, this`graphicsQueue, this`presentQueue, this`calls, this`nextHandle
      ensures old(physicalDevice).None? ==> r == Fail(Thrown(PhysicalDeviceNotSet))
      ensures old(physicalDevice).Some? && old(surface).None? ==> r == Fail(Thrown(SurfaceNotCreated))
      ensures r.Pass? <==> old(physicalDevice).Some? && old(surface).Some?
      ensures r.Fail? ==> unchanged(this)
      ensures r.Pass? ==>
                var q := QueueFamiliesOf(physicalDevice.value.queueFamilies);
                var h := old(nextHandle);
                && device == Some(h) && nextHandle == h + 1
                && calls == old(calls) + [VkCreateDevice(physicalDevice.value, DeviceInfoFor(QueueCreateInfos(UniqueIndices(q))), h)]
                && graphicsQueue == Some(Queue(h, q.graphics, 0))
                && presentQueue == Some(Queue(h, q.presentation, 0))
    {
      if physicalDevice.None? {
        return Fail(Thrown(PhysicalDeviceNotSet));
      }
      if surface.None? {
        return Fail(Thrown(SurfaceNotCreated));
      }
      var indexFamilies, deviceCreateInfo := BuildDeviceInfo(physicalDevice.value);
      CreateDeviceFrom(indexFamilies, deviceCreateInfo);
      r := Pass;
    }

    /** Creates the logical device from `createInfo` and fetches queue 0 of each family. */
    method CreateDeviceFrom(indexFamilies: QueueFamilyIndices, createInfo: DeviceCreateInfo)
      requires physicalDevice.Some?
      modifies this`device, this`graphicsQueue, this`presentQueue, this`calls, this`nextHandle
      ensures var h := old(nextHandle);
              && device == Some(h) && nextHandle == h + 1
              && calls == old(calls) + [VkCreateDevice(physicalDevice.value, createInfo, h)]
              && graphicsQueue == Some(Queue(h, indexFamilies.graphics, 0))
              && presentQueue == Some(Queue(h, indexFamilies.presentation, 0))
    {
      var h := NewHandle();
      calls := calls + [VkCreateDevice(physicalDevice.value, createInfo, h)];
      device := Some(h);
      graphicsQueue := Some(Queue(h, indexFamilies.graphics, 0));
      presentQueue := Some(Queue(h, indexFamilies.presentation, 0));
    }

    /** `CreateSwapChain`: negotiate format, mode, extent, count and sharing, then create it. */
    method CreateSwapChain(imageCount: nat) returns (r: Outcome)
      modifies this`swapchain, this`swapImages, this`curSwapChainFormat, this`curSwapChainExtent
      modifies this`calls, this`nextHandle
      ensures old(physicalDevice).None? ==> r == Fail(Thrown(PhysicalDeviceNotSet))
      ensures old(physicalDevice).Some? && old(surface).None? ==> r == Fail(Thrown(SurfaceNotCreated))
      ensures old(physicalDevice).Some? && old(surface).Some? && old(device).None? ==>
                r == Fail(Thrown(LogicalDeviceNotCreated))
      ensures r.Fail? ==> unchanged(this)
      ensures old(physicalDevice).Some? && old(surface).Some? && old(device).Some? ==>
                var plan := PlanSwapchain(old(surface).value, old(physicalDevice).value, window.framebufferWidth, window.framebufferHeight);
                var h := old(nextHandle);
                && (r.Pass? <==> plan.Success?)
                && (r.Fail? ==> r.error == plan.error)
                && (r.Pass? ==>
                      && calls == old(calls) + [VkCreateSwapchain(old(device).value, plan.value.createInfo, h)]
                      && swapchain == Some(h)
                      && swapImages == Some(ImageHandles(h + 1, imageCount))
                      && nextHandle == h + 1 + imageCount
                      && curSwapChainFormat == plan.value.format.format
                      && curSwapChainExtent == plan.value.extent)
    {
      if physicalDevice.None? {
        return Fail(Thrown(PhysicalDeviceNotSet));
      }
      if surface.None? {
        return Fail(Thrown(SurfaceNotCreated));
      }
      if device.None? {
        return Fail(Thrown(LogicalDeviceNotCreated));
      }
      r := NegotiateAndCreateSwapchain(imageCount);
    }

    /** The part of `CreateSwapChain` after its three checks: negotiate, then create. */
    method NegotiateAndCreateSwapchain(imageCount: nat) returns (r: Outcome)
      requires physicalDevice.Some? && surface.Some? && device.Some?
      modifies this`swapchain, this`swapImages, this`curSwapChainFormat, this`curSwapChainExtent
      modifies this`calls, this`nextHandle
      ensures r.Fail? ==> unchanged(this)
      ensures
                var plan := PlanSwapchain(old(surface).value, old(physicalDevice).value, window.framebufferWidth, window.framebufferHeight);
                var h := old(nextHandle);
                && (r.Pass? <==> plan.Success?)
                && (r.Fail? ==> r.error == plan.error)
                && (r.Pass? ==>
                      && calls == old(calls) + [VkCreateSwapchain(old(device).value, plan.value.createInfo, h)]
                      && swapchain == Some(h)
                      && swapImages == Some(ImageHandles(h + 1, imageCount))
                      && nextHandle == h + 1 + imageCount
                      && curSwapChainFormat == plan.value.format.format
                      && curSwapChainExtent == plan.value.extent)
    {
      var width, height := window.framebufferWidth, window.framebufferHeight;
      var plan := NegotiateSwapchain(surface.value, physicalDevice.value, width, height);
      if plan.Failure? {
        return Fail(plan.error);
      }

      CreateSwapchainFrom(plan.value, imageCount);
      r := Pass;
    }

    /**
     * The creating half of `CreateSwapChain`: the driver creates the swapchain,
     * hands out its `imageCount` images, and the chosen format and extent are kept.
     */
    method CreateSwapchainFrom(plan: SwapchainPlan, imageCount: nat)
      requires device.Some?
      modifies this`swapchain, this`swapImages, this`curSwapChainFormat, this`curSwapChainExtent
      modifies this`calls, this`nextHandle
      ensures var h := old(nextHandle);
              && calls == old(calls) + [VkCreateSwapchain(device.value, plan.createInfo, h)]
              && swapchain == Some(h)
              && swapImages == Some(ImageHandles(h + 1, imageCount))
              && nextHandle == h + 1 + imageCount
              && curSwapChainFormat == plan.format.format
              && curSwapChainExtent == plan.extent
    {
      var h := NewHandle();
      calls := calls + [VkCreateSwapchain(device.value, plan.createInfo, h)];
      swapchain := Some(h);

      swapImages := Some(ImageHandles(nextHandle, imageCount));
      nextHandle := nextHandle + imageCount;

      curSwapChainFormat := plan.format.format;
      curSwapChainExtent := plan.extent;
    }

    /** `CreateImageViews`: one view per swapchain image, in the same order. */
    method CreateImageViews() returns (r: Outcome)
      modifies this`swapchainImageViews, this`calls, this`nextHandle
      ensures old(swapImages).None? ==> r == Fail(Thrown(SwapImagesNotSet))
      ensures old(swapImages).Some? && old(device).None? ==> r == Fail(Thrown(LogicalDeviceNotSet))
      ensures r.Pass? <==> old(swapImages).Some? && old(device).Some?
      ensures r.Fail? ==> unchanged(this)
      ensures r.Pass? ==>
                var images := swapImages.value;
                && swapchainImageViews != null && fresh(swapchainImageViews)
                && swapchainImageViews.Length == |images|
                && (forall i :: 0 <= i < |images| ==> swapchainImageViews[i] == old(nextHandle) + i)
                && nextHandle == old(nextHandle) + |images|
                && calls == old(calls) + ImageViewCalls(device.value, images, curSwapChainFormat, old(nextHandle))
    {
      if swapImages.None? {
        return Fail(Thrown(SwapImagesNotSet));
      }
      if device.None? {
        return Fail(Thrown(LogicalDeviceNotSet));
      }
      var images := swapImages.value;
      var views := new Handle[|images|];
      swapchainImageViews := views;
      for i := 0 to views.Length
        invariant swapchainImageViews == views
        invariant nextHandle == old(nextHandle) + i
        invariant forall j :: 0 <= j < i ==> views[j] == old(nextHandle) + j
        invariant calls == old(calls) + ImageViewCalls(device.value, images[..i], curSwapChainFormat, old(nextHandle))
      {
        var createInfo := ImageViewInfoFor(images[i], curSwapChainFormat);
        var h := NewHandle();
        calls := calls + [VkCreateImageView(device.value, createInfo, h)];
        views[i] := h;
        assert images[..i + 1] == images[..i] + [images[i]];
      }
      assert images[..views.Length] == images;
      r := Pass;
    }

    /** The views the engine holds, as a value. */
    function ImageViewsHeld(): Option<seq<Handle>>
      reads this`swapchainImageViews, swapchainImageViews
    {
      if swapchainImageViews == null then None else Some(swapchainImageViews[..])
    }

    /** The calls a `Cleanup` would make now. */
    function CleanupCalls(): seq<Call>
      reads this`instance, this`device, this`surface, this`swapchain, this`swapchainImageViews, swapchainImageViews
    {
      TeardownCalls(instance, device, surface, swapchain, ImageViewsHeld())
    }

    /**
     * `Cleanup`: destroy views (through the device), swapchain, surface, device and
     * instance, each only when its owner is set, then release the window. No field
     * is reset, so a second call destroys the same objects again.
     */
    method Cleanup()
      modifies this`calls
      ensures calls == old(calls) + CleanupCalls()
    {
      DestroyImageViews();
      DestroyOwnedObjects();
    }

    /** The rest of `Cleanup`: swapchain, surface, device and instance when their owner is held, then the window. */
    method DestroyOwnedObjects()
      modifies this`calls
      ensures calls == old(calls) + OwnerTeardownCalls(instance, device, surface, swapchain)
    {
      if device.Some? {
        calls := calls + [VkDestroySwapchain(device.value, swapchain)];
      }
      if instance.Some? {
        calls := calls + [VkDestroySurface(instance.value, surface)];
      }
      if device.Some? {
        calls := calls + [VkDestroyDevice(device.value)];
      }
      if instance.Some? {
        calls := calls + [VkDestroyInstance(instance.value)];
      }
      calls := calls + [WindowDispose];
    }

    /** The first loop of `Cleanup`: each held view, in array order, through the device. */
    method DestroyImageViews()
      modifies this`calls
      ensures calls == old(calls) + ViewDestroyCalls(device, ImageViewsHeld())
    {
      if swapchainImageViews != null {
        var views := swapchainImageViews;
        for i := 0 to views.Length
          invariant calls == old(calls) + ViewDestroyCalls(device, Some(views[..i]))
        {
          if device.Some? {
            calls := calls + [VkDestroyImageView(device.value, views[i])];
          }
        }
        assert views[..views.Length] == views[..];
      }
    }

    /** `Dispose(bool)`: runs `Cleanup` only the first time. */
    method DisposeCore(disposing: bool)
      modifies this`calls, this`disposedValue
      ensures disposedValue
      ensures calls == if old(disposedValue) then old(calls) else old(calls) + CleanupCalls()
    {
      if !disposedValue {
        Cleanup();
        disposedValue := true;
      }
    }

    /** `Dispose()`. */
    method Dispose()
      modifies this`calls, this`disposedValue
      ensures disposedValue
      ensures calls == if old(disposedValue) then old(calls) else old(calls) + CleanupCalls()
    {
      DisposeCore(true);
    }
  }

  /** Disposing twice cleans up once. */
  method DisposeTwice(app: MeteoraApp)
    modifies app`calls, app`disposedValue
    ensures app.disposedValue
    ensures app.calls == if old(app.disposedValue) then old(app.calls) else old(app.calls) + app.CleanupCalls()
  {
    app.Dispose();
    app.Dispose();
  }

  /**
   * `Run` ends with a direct `Cleanup` that leaves the disposed flag unset, so a
   * later `Dispose` cleans up a second time and issues every destroy call again.
   */
  method RunTailThenDispose(app: MeteoraApp)
    requires !app.disposedValue
    modifies app`calls, app`disposedValue
    ensures app.disposedValue
    ensures app.calls == old(app.calls) + app.CleanupCalls() + app.CleanupCalls()
  {
    app.Cleanup();
    app.Dispose();
  }
}
