/**
 * Abstract values for the Vulkan objects the engine queries and creates.
 * A physical device is the snapshot of everything the engine asks the driver
 * about it for the one presentation surface the engine renders to.
 */
module Vulkan {
  import opened Wrappers

  /** C#'s `uint`. */
  type U32 = x: int | 0 <= x < 0x1_0000_0000

  /** `uint.MaxValue`, the "undefined extent" sentinel of `VkSurfaceCapabilitiesKHR::currentExtent`. */
  const UINT_MAX: U32 := 0xFFFF_FFFF

  /** An opaque non-dispatchable or dispatchable handle returned by the driver. */
  type Handle = nat

  datatype Extent2D = Extent2D(width: U32, height: U32)

  /** `VkFormat` by its numeric code. */
  type Format = nat
  const FORMAT_UNDEFINED: Format := 0
  const FORMAT_B8G8R8A8_SRGB: Format := 50

  /** `VkColorSpaceKHR` by its numeric code. */
  type ColorSpace = nat
  const COLOR_SPACE_SRGB_NONLINEAR: ColorSpace := 0

  datatype SurfaceFormat = SurfaceFormat(format: Format, colorSpace: ColorSpace)

  /** A `VkPresentModeKHR` code outside the four named modes (0 to 3). */
  type OtherPresentModeCode = c: nat | c >= 4 witness 4

  /** `VkPresentModeKHR`: the four named modes, and any other code by its number. */
  datatype PresentMode = Immediate | Mailbox | Fifo | FifoRelaxed | OtherPresentMode(code: OtherPresentModeCode)

  /** The fields of `VkSurfaceCapabilitiesKHR` the engine reads. */
  datatype SurfaceCapabilities = SurfaceCapabilities(
    minImageCount: U32,
    maxImageCount: U32,            // 0 means "no upper limit"
    currentExtent: Extent2D,       // width UINT_MAX means "decided by the swapchain"
    minImageExtent: Extent2D,
    maxImageExtent: Extent2D,
    currentTransform: nat)

  /**
   * One queue family: whether its flags include Graphics, and what
   * `GetSurfaceSupportKHR` answers for it and the engine's surface.
   */
  datatype QueueFamily = QueueFamily(graphics: bool, supportsSurface: bool)

  datatype ExtensionProperties = ExtensionProperties(extensionName: string)

  datatype LayerProperties = LayerProperties(layerName: string)

  /** The answers of the device queries, in the order the driver returns them. */
  datatype PhysicalDevice = PhysicalDevice(
    queueFamilies: seq<QueueFamily>,
    extensionProperties: seq<ExtensionProperties>,
    surfaceCapabilities: SurfaceCapabilities,
    surfaceFormats: seq<SurfaceFormat>,
    surfacePresentModes: seq<PresentMode>)

  datatype ApiVersion = ApiVersion(major: nat, minor: nat, patch: nat)

  datatype InstanceCreateInfo = InstanceCreateInfo(
    applicationName: string,
    engineName: string,
    apiVersion: ApiVersion,
    enabledExtensionNames: seq<string>,
    enabledExtensionCount: nat,
    enabledLayerNames: seq<string>,
    enabledLayerCount: nat)

  datatype DeviceQueueCreateInfo = DeviceQueueCreateInfo(
    queueFamilyIndex: nat,
    queueCount: nat,
    queuePriorities: seq<real>)

  datatype DeviceCreateInfo = DeviceCreateInfo(
    queueCreateInfos: seq<DeviceQueueCreateInfo>,
    queueCreateInfoCount: nat,
    enabledExtensionNames: seq<string>,
    enabledExtensionCount: nat,
    enabledLayerNames: seq<string>,
    enabledLayerCount: nat)

  /** A queue is named by its device, family and index within the family. */
  datatype Queue = Queue(device: Handle, family: nat, index: nat)

  datatype SharingMode = Exclusive | Concurrent

  datatype SwapchainCreateInfo = SwapchainCreateInfo(
    surface: Handle,
    minImageCount: U32,
    imageFormat: Format,
    imageColorSpace: ColorSpace,
    imageExtent: Extent2D,
    imageArrayLayers: nat,
    preTransform: nat,
    presentMode: PresentMode,
    clipped: bool,
    oldSwapchain: Option<Handle>,
    imageSharingMode: SharingMode,
    queueFamilyIndexCount: nat,
    queueFamilyIndices: seq<nat>)

  datatype ImageViewType = View2D

  datatype ImageViewCreateInfo = ImageViewCreateInfo(
    image: Handle,
    viewType: ImageViewType,
    format: Format,
    baseMipLevel: nat,
    levelCount: nat,
    baseArrayLayer: nat,
    layerCount: nat)
}
