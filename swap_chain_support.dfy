/**
 * The swapchain negotiation policy (Meteora/Models/SwapChainSupportDetails.cs):
 * surface format, present mode and extent chosen from what the surface offers.
 */
module SwapChainSupport {
  import opened Wrappers
  import opened Linq
  import opened Vulkan

  datatype SwapChainSupportDetails = SwapChainSupportDetails(
    capabilities: SurfaceCapabilities,
    formats: seq<SurfaceFormat>,
    presentModes: seq<PresentMode>)

  /** The preferred pair: 8-bit BGRA in sRGB with the sRGB non-linear colour space. */
  predicate IsPreferredFormat(f: SurfaceFormat) {
    f.format == FORMAT_B8G8R8A8_SRGB && f.colorSpace == COLOR_SPACE_SRGB_NONLINEAR
  }

  /**
   * The first preferred entry, else the first entry. The fallback `formats.First()`
   * is evaluated before the search, so an empty list throws whatever it holds.
   */
  function ChooseSwapSurfaceFormat(d: SwapChainSupportDetails): (r: Result<SurfaceFormat>)
    ensures r.Failure? <==> d.formats == []
    ensures r.Failure? ==> r.error == InvalidOperation
    ensures r.Success? ==> r.value in d.formats
    ensures forall k :: 0 <= k < |d.formats| && IsPreferredFormat(d.formats[k]) &&
                        (forall j :: 0 <= j < k ==> !IsPreferredFormat(d.formats[j])) ==>
                        r == Success(d.formats[k])
    ensures d.formats != [] && (forall j :: 0 <= j < |d.formats| ==> !IsPreferredFormat(d.formats[j])) ==>
            r == Success(d.formats[0])
  {
    if d.formats == [] then Failure(InvalidOperation)
    else Success(FirstOrDefault(d.formats, IsPreferredFormat, d.formats[0]))
  }

  /** Mailbox when offered, otherwise the constant FIFO, offered or not. */
  function ChooseSwapPresentMode(d: SwapChainSupportDetails): (r: PresentMode)
    ensures r == Mailbox <==> Mailbox in d.presentModes
    ensures r == Fifo <==> Mailbox !in d.presentModes
  {
    FirstOrDefault(d.presentModes, m => m == Mailbox, Fifo)
  }

  /** `Math.Clamp(value, min, max)` on `uint`, which throws when `min > max`. */
  function Clamp(value: U32, min: U32, max: U32): (r: Result<U32>)
    ensures r.Failure? <==> min > max
    ensures r.Failure? ==> r.error == MinGreaterThanMax
    ensures r.Success? ==> min <= r.value <= max
    ensures r.Success? && min <= value <= max ==> r.value == value
    ensures r.Success? && value < min ==> r.value == min
    ensures r.Success? && value > max ==> r.value == max
  {
    if min > max then Failure(MinGreaterThanMax)
    else if value < min then Success(min)
    else if value > max then Success(max)
    else Success(value)
  }

  /** True when the surface leaves the extent to the swapchain; only the width is compared. */
  predicate ExtentIsUndefined(caps: SurfaceCapabilities) {
    caps.currentExtent.width == UINT_MAX
  }

  /**
   * The surface's own current extent when it has one; otherwise the requested
   * size, each dimension clamped on its own into the allowed range.
   */
  function ChooseSwapExtent(d: SwapChainSupportDetails, width: U32, height: U32): (r: Result<Extent2D>)
    ensures !ExtentIsUndefined(d.capabilities) ==> r == Success(d.capabilities.currentExtent)
    ensures r.Failure? ==> r.error == MinGreaterThanMax
    ensures ExtentIsUndefined(d.capabilities) ==>
              (r.Failure? <==> d.capabilities.minImageExtent.width > d.capabilities.maxImageExtent.width ||
                               d.capabilities.minImageExtent.height > d.capabilities.maxImageExtent.height)
    ensures ExtentIsUndefined(d.capabilities) && r.Success? ==>
              WithinBounds(r.value, d.capabilities)
    ensures ExtentIsUndefined(d.capabilities) && r.Success? && WithinBounds(Extent2D(width, height), d.capabilities) ==>
              r.value == Extent2D(width, height)
    ensures ExtentIsUndefined(d.capabilities) && r.Success? ==>
              var caps := d.capabilities;
              && r.value.width == Clamp(width, caps.minImageExtent.width, caps.maxImageExtent.width).value
              && r.value.height == Clamp(height, caps.minImageExtent.height, caps.maxImageExtent.height).value
  {
    var caps := d.capabilities;
    if !ExtentIsUndefined(caps) then Success(caps.currentExtent)
    else
      match Clamp(width, caps.minImageExtent.width, caps.maxImageExtent.width)
      case Failure(e) => Failure(e)
      case Success(w) =>
        match Clamp(height, caps.minImageExtent.height, caps.maxImageExtent.height)
        case Failure(e) => Failure(e)
        case Success(h) => Success(Extent2D(w, h))
  }

  /** An extent inside `[minImageExtent, maxImageExtent]` in both dimensions. */
  predicate WithinBounds(e: Extent2D, caps: SurfaceCapabilities) {
    && caps.minImageExtent.width <= e.width <= caps.maxImageExtent.width
    && caps.minImageExtent.height <= e.height <= caps.maxImageExtent.height
  }

  /** A chosen extent, requested again, is chosen unchanged. */
  lemma ChooseSwapExtentIdempotent(d: SwapChainSupportDetails, width: U32, height: U32)
    requires ChooseSwapExtent(d, width, height).Success?
    ensures var e := ChooseSwapExtent(d, width, height).value;
            ChooseSwapExtent(d, e.width, e.height) == Success(e)
  {
  }

  /** Which branch is taken, and its result, never depend on the current extent's height. */
  lemma ChooseSwapExtentIgnoresCurrentHeight(d: SwapChainSupportDetails, width: U32, height: U32, otherHeight: U32)
    ensures var caps := d.capabilities;
            var d' := d.(capabilities := caps.(currentExtent := caps.currentExtent.(height := otherHeight)));
            ExtentIsUndefined(d'.capabilities) == ExtentIsUndefined(caps) &&
            (ExtentIsUndefined(caps) ==> ChooseSwapExtent(d', width, height) == ChooseSwapExtent(d, width, height))
  {
  }

  /** The clamping example: bounds (100,100)..(4096,4096), request (50,5000), result (100,4096). */
  lemma ChooseSwapExtentClampExample(d: SwapChainSupportDetails)
    requires ExtentIsUndefined(d.capabilities)
    requires d.capabilities.minImageExtent == Extent2D(100, 100)
    requires d.capabilities.maxImageExtent == Extent2D(4096, 4096)
    ensures ChooseSwapExtent(d, 50, 5000) == Success(Extent2D(100, 4096))
  {
  }
}
