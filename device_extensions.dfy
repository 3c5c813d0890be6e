/**
 * Device capability tests (Meteora/Extensions/DeviceExtensions.cs): the
 * queue-family scan, the extension test, swapchain adequacy and suitability.
 */
module DeviceExtensions {
  import opened Wrappers
  import opened Linq
  import opened Vulkan
  import opened QueueFamilies
  import opened SwapChainSupport

  predicate IsGraphics(f: QueueFamily) { f.graphics }

  predicate SupportsSurface(f: QueueFamily) { f.supportsSurface }

  /** Every requested name is the name of some extension the device offers. */
  function AreExtensionsSupported(device: PhysicalDevice, extensions: seq<string>): (r: bool)
    ensures r <==> forall i :: 0 <= i < |extensions| ==>
                      exists j :: 0 <= j < |device.extensionProperties| &&
                                  device.extensionProperties[j].extensionName == extensions[i]
  {
    All(extensions, (ext: string) => Any(device.extensionProperties, (p: ExtensionProperties) => p.extensionName == ext))
  }

  /** The position of the last family below `n` satisfying `p`, if any. */
  function LastIndexBelow(families: seq<QueueFamily>, n: nat, p: QueueFamily -> bool): (r: Option<nat>)
    requires n <= |families|
    ensures r.Some? ==> r.value < n && p(families[r.value])
    ensures r.Some? ==> forall j :: r.value < j < n ==> !p(families[j])
    ensures r.None? <==> forall j :: 0 <= j < n ==> !p(families[j])
  {
    if n == 0 then None
    else if p(families[n - 1]) then Some(n - 1)
    else LastIndexBelow(families, n - 1, p)
  }

  /**
   * What the queue-family scan answers, stated without the loop: the scan stops at
   * `k`, the first position by which both kinds have been seen, and reports for each
   * kind the last qualifying family up to `k`; if a kind never occurs, the zero value.
   */
  function QueueFamiliesOf(families: seq<QueueFamily>): QueueFamilyIndices
  {
    match (FirstIndex(families, IsGraphics), FirstIndex(families, SupportsSurface))
    case (Some(g0), Some(p0)) =>
      var k := if g0 < p0 then p0 else g0;
      var g := LastIndexBelow(families, k + 1, IsGraphics);
      var p := LastIndexBelow(families, k + 1, SupportsSurface);
      Complete(g.value, p.value)
    case _ => Default()
  }

  /** The last position below `n` is found exactly when the first position is below `n`. */
  lemma {:induction false} LastBelowIffFirstBelow(families: seq<QueueFamily>, n: nat, p: QueueFamily -> bool)
    requires n <= |families|
    ensures LastIndexBelow(families, n, p).Some? <==>
            FirstIndex(families, p).Some? && FirstIndex(families, p).value < n
  {
    var first := FirstIndex(families, p);
    if LastIndexBelow(families, n, p).Some? {
      assert first.Some? && first.value <= LastIndexBelow(families, n, p).value;
    }
    if first.Some? && first.value < n {
      assert p(families[first.value]);
    }
  }

  /** Leaving the scan at `k`, the first position by which both kinds were seen, answers `QueueFamiliesOf`. */
  lemma ScanStopsAt(families: seq<QueueFamily>, k: nat)
    requires k < |families|
    requires LastIndexBelow(families, k + 1, IsGraphics).Some? && LastIndexBelow(families, k + 1, SupportsSurface).Some?
    requires !(LastIndexBelow(families, k, IsGraphics).Some? && LastIndexBelow(families, k, SupportsSurface).Some?)
    ensures QueueFamiliesOf(families) ==
            Complete(LastIndexBelow(families, k + 1, IsGraphics).value, LastIndexBelow(families, k + 1, SupportsSurface).value)
  {
    LastBelowIffFirstBelow(families, k, IsGraphics);
    LastBelowIffFirstBelow(families, k, SupportsSurface);
    LastBelowIffFirstBelow(families, k + 1, IsGraphics);
    LastBelowIffFirstBelow(families, k + 1, SupportsSurface);
  }

  /** Running off the end without seeing both kinds answers the zero value. */
  lemma ScanExhausted(families: seq<QueueFamily>)
    requires !(LastIndexBelow(families, |families|, IsGraphics).Some? &&
               LastIndexBelow(families, |families|, SupportsSurface).Some?)
    ensures QueueFamiliesOf(families) == Default()
  {
    LastBelowIffFirstBelow(families, |families|, IsGraphics);
    LastBelowIffFirstBelow(families, |families|, SupportsSurface);
  }

  /**
   * `FindQueueFamilies`: scans the families in order, overwriting each kind's index
   * whenever a family qualifies, and leaves the loop as soon as both are known.
   */
  method FindQueueFamilies(device: PhysicalDevice) returns (r: QueueFamilyIndices)
    ensures r == QueueFamiliesOf(device.queueFamilies)
  {
    var props := device.queueFamilies;
    var graphics: Option<nat> := None;
    var presentation: Option<nat> := None;
    var i := 0;
    while i < |props|
      invariant 0 <= i <= |props|
      invariant graphics == LastIndexBelow(props, i, IsGraphics)
      invariant presentation == LastIndexBelow(props, i, SupportsSurface)
      invariant !(graphics.Some? && presentation.Some?)
    {
      var fam := props[i];
      if fam.graphics {
        graphics := Some(i);
      }
      if fam.supportsSurface {
        presentation := Some(i);
      }
      if graphics.Some? && presentation.Some? {
        ScanStopsAt(props, i);
        break;
      }
      i := i + 1;
    }
    if graphics.Some? && presentation.Some? {
      return Complete(graphics.value, presentation.value);
    }
    ScanExhausted(props);
    return Default();
  }

  /** The scan is complete exactly when some family draws and some family presents. */
  lemma QueueFamiliesCompleteIff(families: seq<QueueFamily>)
    ensures QueueFamiliesOf(families).isComplete <==>
            (exists i :: 0 <= i < |families| && families[i].graphics) &&
            (exists j :: 0 <= j < |families| && families[j].supportsSurface)
  {
    var g0 := FirstIndex(families, IsGraphics);
    var p0 := FirstIndex(families, SupportsSurface);
    if g0.Some? && p0.Some? {
      assert families[g0.value].graphics && families[p0.value].supportsSurface;
    }
  }

  /** A complete answer names a graphics family and a presenting family of the device. */
  lemma QueueFamiliesValid(families: seq<QueueFamily>)
    requires QueueFamiliesOf(families).isComplete
    ensures var q := QueueFamiliesOf(families);
            q.graphics < |families| && families[q.graphics].graphics &&
            q.presentation < |families| && families[q.presentation].supportsSurface
  {
  }

  /** Some family at or before `j` draws, and some family at or before `j` presents. */
  predicate BothSeenBy(families: seq<QueueFamily>, j: nat) {
    && (exists a :: 0 <= a <= j && a < |families| && families[a].graphics)
    && (exists b :: 0 <= b <= j && b < |families| && families[b].supportsSurface)
  }

  /**
   * Where the scan stops and what it keeps: given `k`, the first position by which
   * both kinds were seen, the answer is complete, one of its indices is `k`, and each
   * index is the last family of its kind up to `k`.
   */
  lemma QueueFamiliesStopAndOverwrite(families: seq<QueueFamily>, k: nat)
    requires k < |families| && BothSeenBy(families, k)
    requires forall j :: 0 <= j < k ==> !BothSeenBy(families, j)
    ensures var q := QueueFamiliesOf(families);
            && q.isComplete
            && (q.graphics == k || q.presentation == k)
            && q.graphics <= k && families[q.graphics].graphics
            && q.presentation <= k && families[q.presentation].supportsSurface
            && (forall j :: q.graphics < j <= k ==> !families[j].graphics)
            && (forall j :: q.presentation < j <= k ==> !families[j].supportsSurface)
  {
    var g0 := FirstIndex(families, IsGraphics).value;
    var p0 := FirstIndex(families, SupportsSurface).value;
    var m := if g0 < p0 then p0 else g0;
    var q := QueueFamiliesOf(families);
    assert q.graphics <= m && q.presentation <= m;
    if g0 < p0 {
      assert families[p0].supportsSurface;
      assert q.presentation == m;
    } else {
      assert families[g0].graphics;
      assert q.graphics == m;
    }
    assert m < |families| && families[g0].graphics && families[p0].supportsSurface;
    assert BothSeenBy(families, m);
    // `m` is also the first position by which both kinds were seen, so it is `k`.
    var a :| 0 <= a <= k && a < |families| && families[a].graphics;
    var b :| 0 <= b <= k && b < |families| && families[b].supportsSurface;
    assert IsGraphics(families[a]) && SupportsSurface(families[b]);
    assert g0 <= a && p0 <= b;
    assert k == m;
  }

  /** When either kind is missing the scan answers the zero value. */
  lemma QueueFamiliesIncomplete(families: seq<QueueFamily>)
    requires (forall i :: 0 <= i < |families| ==> !families[i].graphics) ||
             (forall j :: 0 <= j < |families| ==> !families[j].supportsSurface)
    ensures QueueFamiliesOf(families) == Default()
  {
  }

  /** `QuerySwapChainSupport`: the three surface queries gathered into one record. */
  function QuerySwapChainSupport(device: PhysicalDevice): (r: SwapChainSupportDetails)
    ensures r.capabilities == device.surfaceCapabilities
    ensures r.formats == device.surfaceFormats && r.presentModes == device.surfacePresentModes
  {
    SwapChainSupportDetails(device.surfaceCapabilities, device.surfaceFormats, device.surfacePresentModes)
  }

  /**
   * `IsSwapChainAdequate`, as written: `formats.Any() && formats.Any()`, so
   * the present modes are never consulted.
   */
  function IsSwapChainAdequate(device: PhysicalDevice): (r: bool)
    ensures r <==> device.surfaceFormats != []
  {
    var details := QuerySwapChainSupport(device);
    Any(details.formats, (f: SurfaceFormat) => true) && Any(details.formats, (f: SurfaceFormat) => true)
  }

  /** Swapping in any list of present modes leaves the adequacy verdict as it was. */
  lemma AdequacyIgnoresPresentModes(device: PhysicalDevice, modes: seq<PresentMode>)
    ensures IsSwapChainAdequate(device.(surfacePresentModes := modes)) == IsSwapChainAdequate(device)
  {
  }

  /** Complete queue families, every requested extension, and an adequate swapchain. */
  function IsDeviceSuitable(device: PhysicalDevice, extensions: seq<string>): (r: bool)
    ensures r <==>
      && (exists i :: 0 <= i < |device.queueFamilies| && device.queueFamilies[i].graphics)
      && (exists j :: 0 <= j < |device.queueFamilies| && device.queueFamilies[j].supportsSurface)
      && (forall i :: 0 <= i < |extensions| ==>
            exists j :: 0 <= j < |device.extensionProperties| &&
                        device.extensionProperties[j].extensionName == extensions[i])
      && device.surfaceFormats != []
  {
    QueueFamiliesCompleteIff(device.queueFamilies);
    QueueFamiliesOf(device.queueFamilies).isComplete && AreExtensionsSupported(device, extensions) &&
    IsSwapChainAdequate(device)
  }

  /** A device offering no present mode at all still passes the suitability test. */
  lemma SuitableWithoutPresentModes(device: PhysicalDevice, extensions: seq<string>)
    requires IsDeviceSuitable(device, extensions)
    ensures IsDeviceSuitable(device.(surfacePresentModes := []), extensions)
    ensures ChooseSwapPresentMode(QuerySwapChainSupport(device.(surfacePresentModes := []))) == Fifo
  {
  }
}
