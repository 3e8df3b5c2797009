/** Physical-device selection and queue families (src/renderer/devices.rs, duplicated in
    src/main.rs).

    Everything the driver reports about a device (its type, features, queue families,
    extensions and surface support) is part of the `PhysicalDevice` value; a query that
    can fail carries a `Result`.
 */
module Devices {
  import opened Vk
  import opened Swapchain

  datatype DeviceType = OTHER | INTEGRATED_GPU | DISCRETE_GPU | VIRTUAL_GPU | CPU

  datatype QueueFlag = GRAPHICS | COMPUTE | QUEUE_TRANSFER | SPARSE_BINDING

  /** One queue family: its capabilities, and the driver's answer to "can this family
      present to the application's surface?". */
  datatype QueueFamily = QueueFamily(queueFlags: set<QueueFlag>, surfaceSupport: Result<bool, VkError>)

  type ExtensionName = string

  /** `REQUIRED_DEVICE_EXTENSIONS`: only the swapchain extension. */
  const REQUIRED_DEVICE_EXTENSIONS: seq<ExtensionName> := ["VK_KHR_swapchain"]

  datatype PhysicalDevice = PhysicalDevice(
    handle: Handle,
    deviceType: DeviceType,
    geometryShader: bool,
    queueFamilies: seq<QueueFamily>,
    extensions: Result<seq<ExtensionName>, VkError>,
    swapchainSupport: Result<SwapchainSupport, VkError>)

  /** `PhysicalDeviceSuitabilityError`. */
  datatype SuitabilityError =
    | Unsuitable(reason: string)
    | MissingExtensions(names: seq<ExtensionName>)
    | QueryFailed(error: VkError)

  const ONLY_GPUS := "Only discrete and integrated GPUs are supported"
  const NO_GEOMETRY_SHADER := "Missing geometry shader support"
  const MISSING_QUEUE_FAMILIES := "Missing required queue families"
  const INSUFFICIENT_SWAPCHAIN_SUPPORT := "Insufficient swapchain support."

  datatype QueueFamilyIndices = QueueFamilyIndices(graphics: nat, present: nat)

  // ---------------------------------------------------------------------------------
  // Queue families

  predicate IsGraphics(families: seq<QueueFamily>, i: nat)
    requires i < |families|
  {
    GRAPHICS in families[i].queueFlags
  }

  predicate CanPresent(families: seq<QueueFamily>, i: nat)
    requires i < |families|
  {
    families[i].surfaceSupport == Ok(true)
  }

  /** Among families 0..t there is a graphics family and a presenting family. */
  predicate BothFoundBy(families: seq<QueueFamily>, t: nat)
    requires t < |families|
  {
    && (exists a :: 0 <= a <= t && IsGraphics(families, a))
    && (exists b :: 0 <= b <= t && CanPresent(families, b))
  }

  predicate QueriesOkBelow(families: seq<QueueFamily>, n: nat)
    requires n <= |families|
  {
    forall j :: 0 <= j < n ==> families[j].surfaceSupport.Ok?
  }

  /** The scan of `QueueFamilyIndices::get` from family `i` on, with the indices found so
      far: each family overwrites `graphics` and `present` when it qualifies, a failing
      surface query ends the scan with that error, and the scan stops as soon as both are
      set. */
  function ScanQueueFamilies(families: seq<QueueFamily>, i: nat,
                             graphics: Option<nat>, present: Option<nat>)
    : Result<QueueFamilyIndices, SuitabilityError>
    requires i <= |families|
    decreases |families| - i
  {
    if i == |families| then
      if graphics.Some? && present.Some? then Ok(QueueFamilyIndices(graphics.value, present.value))
      else Err(Unsuitable(MISSING_QUEUE_FAMILIES))
    else
      var g := if GRAPHICS in families[i].queueFlags then Some(i) else graphics;
      match families[i].surfaceSupport
      case Err(e) => Err(QueryFailed(e))
      case Ok(supported) =>
        var p := if supported then Some(i) else present;
        if g.Some? && p.Some? then Ok(QueueFamilyIndices(g.value, p.value))
        else ScanQueueFamilies(families, i + 1, g, p)
  }

  function FindQueueFamilies(families: seq<QueueFamily>): Result<QueueFamilyIndices, SuitabilityError> {
    ScanQueueFamilies(families, 0, None, None)
  }

  /** `QueueFamilyIndices::get`: the loop over the families with two mutable options and an
      early `break`. */
  method GetQueueFamilyIndices(families: seq<QueueFamily>)
    returns (r: Result<QueueFamilyIndices, SuitabilityError>)
    ensures r == FindQueueFamilies(families)
  {
    var graphics: Option<nat> := None;
    var present: Option<nat> := None;
    var i := 0;
    while i < |families|
      invariant i <= |families|
      invariant ScanQueueFamilies(families, i, graphics, present) == FindQueueFamilies(families)
    {
      ghost var before := ScanQueueFamilies(families, i, graphics, present);
      if GRAPHICS in families[i].queueFlags {
        graphics := Some(i);
      }
      match families[i].surfaceSupport {
        case Err(e) =>
          return Err(QueryFailed(e));
        case Ok(supported) =>
          if supported {
            present := Some(i);
          }
      }
      if graphics.Some? && present.Some? {
        assert before == Ok(QueueFamilyIndices(graphics.value, present.value));
        break;
      }
      i := i + 1;
    }
    if graphics.Some? && present.Some? {
      r := Ok(QueueFamilyIndices(graphics.value, present.value));
    } else {
      r := Err(Unsuitable(MISSING_QUEUE_FAMILIES));
    }
  }

  /** What the scan knows after looking at families 0..i-1: `graphics` is the last graphics
      family seen (none if none was), `present` the last presenting one, every surface query
      so far succeeded, and no prefix held both. */
  predicate ScanState(families: seq<QueueFamily>, i: nat, graphics: Option<nat>, present: Option<nat>) {
    && i <= |families|
    && !(graphics.Some? && present.Some?)
    && (graphics.Some? ==>
          graphics.value < i && IsGraphics(families, graphics.value)
          && forall j :: graphics.value < j < i ==> !IsGraphics(families, j))
    && (graphics.None? ==> forall j :: 0 <= j < i ==> !IsGraphics(families, j))
    && (present.Some? ==>
          present.value < i && CanPresent(families, present.value)
          && forall j :: present.value < j < i ==> !CanPresent(families, j))
    && (present.None? ==> forall j :: 0 <= j < i ==> !CanPresent(families, j))
    && QueriesOkBelow(families, i)
    && forall t :: 0 <= t < i ==> !BothFoundBy(families, t)
  }

  function Max(a: nat, b: nat): nat {
    if a < b then b else a
  }

  /** The indices the scan returns: a graphics family and a presenting family, found at
      the first prefix containing both, each the last qualifying family of that prefix. */
  predicate Selected(families: seq<QueueFamily>, ix: QueueFamilyIndices) {
    var s := Max(ix.graphics, ix.present);
    && s < |families|
    && IsGraphics(families, ix.graphics)
    && CanPresent(families, ix.present)
    && (forall j :: ix.graphics < j <= s ==> !IsGraphics(families, j))
    && (forall j :: ix.present < j <= s ==> !CanPresent(families, j))
    && QueriesOkBelow(families, s + 1)
    && forall t :: 0 <= t < s ==> !BothFoundBy(families, t)
  }

  /** No graphics family at all, or no presenting family at all. */
  predicate SomeFamilyMissing(families: seq<QueueFamily>) {
    || (forall a :: 0 <= a < |families| ==> !IsGraphics(families, a))
    || (forall b :: 0 <= b < |families| ==> !CanPresent(families, b))
  }

  /** A surface query fails at k while every earlier one succeeded and no earlier prefix
      already held both kinds of family (the scan would have stopped there). */
  predicate FirstQueryFailure(families: seq<QueueFamily>, e: VkError) {
    exists k :: 0 <= k < |families| && families[k].surfaceSupport == Err(e) && QueriesOkBelow(families, k)
      && forall t :: 0 <= t < k ==> !BothFoundBy(families, t)
  }

  predicate ScanOutcome(families: seq<QueueFamily>, r: Result<QueueFamilyIndices, SuitabilityError>) {
    && (r.Ok? ==> Selected(families, r.value))
    && (r.Err? ==> r.error.Unsuitable? || r.error.QueryFailed?)
    && (r.Err? && r.error.Unsuitable? ==>
          QueriesOkBelow(families, |families|) && SomeFamilyMissing(families))
    && (r.Err? && r.error.QueryFailed? ==> FirstQueryFailure(families, r.error.error))
  }

  lemma {:induction false} ScanFrom(families: seq<QueueFamily>, i: nat,
                                    graphics: Option<nat>, present: Option<nat>)
    requires ScanState(families, i, graphics, present)
    ensures ScanOutcome(families, ScanQueueFamilies(families, i, graphics, present))
    decreases |families| - i
  {
    var r := ScanQueueFamilies(families, i, graphics, present);
    if i == |families| {
      assert r == Err(Unsuitable(MISSING_QUEUE_FAMILIES));
    } else {
      var g := if GRAPHICS in families[i].queueFlags then Some(i) else graphics;
      match families[i].surfaceSupport
      case Err(e) => {
        assert r == Err(QueryFailed(e));
      }
      case Ok(supported) => {
        var p := if supported then Some(i) else present;
        assert QueriesOkBelow(families, i + 1);
        if g.Some? && p.Some? {
          assert r == Ok(QueueFamilyIndices(g.value, p.value));
          assert Max(g.value, p.value) == i;
        } else {
          assert !BothFoundBy(families, i) by {
            if g.None? {
              assert forall a :: 0 <= a <= i ==> !IsGraphics(families, a);
            } else {
              assert forall b :: 0 <= b <= i ==> !CanPresent(families, b);
            }
          }
          assert ScanState(families, i + 1, g, p);
          ScanFrom(families, i + 1, g, p);
        }
      }
    }
  }

  /** `QueueFamilyIndices::get` returns a graphics family and a presenting family, stopping
      at the first family by which both have been seen; it reports missing families only
      when every surface query succeeded and one kind of family is absent, and a failing
      query only as the first failure of the scan. */
  lemma QueueFamilySelection(families: seq<QueueFamily>)
    ensures ScanOutcome(families, FindQueueFamilies(families))
  {
    ScanFrom(families, 0, None, None);
  }

  /** When every surface query succeeds, the scan succeeds exactly when the device has a
      graphics family and a presenting family. */
  lemma QueueFamiliesFoundIffPresent(families: seq<QueueFamily>)
    requires QueriesOkBelow(families, |families|)
    ensures FindQueueFamilies(families).Ok? <==>
      (exists a :: 0 <= a < |families| && IsGraphics(families, a))
      && (exists b :: 0 <= b < |families| && CanPresent(families, b))
  {
    var r := FindQueueFamilies(families);
    QueueFamilySelection(families);
    if r.Ok? {
      assert IsGraphics(families, r.value.graphics);
      assert CanPresent(families, r.value.present);
    }
  }

  // ---------------------------------------------------------------------------------
  // Extensions

  /** The required extensions absent from `available`, in required order (the
      `missing_extensions` vector after the loop over the required list). */
  function Missing(required: seq<ExtensionName>, available: set<ExtensionName>): seq<ExtensionName> {
    if required == [] then []
    else
      var last := required[|required| - 1];
      Missing(required[..|required| - 1], available) + (if last in available then [] else [last])
  }

  /** The missing list holds exactly the required names that are not available. */
  lemma {:induction false} MissingIsSetDifference(required: seq<ExtensionName>, available: set<ExtensionName>)
    ensures forall x :: x in Missing(required, available) <==> x in required && x !in available
  {
    if required != [] {
      var init := required[..|required| - 1];
      MissingIsSetDifference(init, available);
      assert required == init + [required[|required| - 1]];
    }
  }

  /** Whether the device's extension query succeeded and lists every required extension. */
  predicate HasRequiredExtensions(device: PhysicalDevice) {
    && device.extensions.Ok?
    && forall x :: x in REQUIRED_DEVICE_EXTENSIONS ==> x in device.extensions.value
  }

  /** The outcome of `check_physical_device_extensions`. */
  function ExtensionCheck(device: PhysicalDevice): Result<(), SuitabilityError> {
    match device.extensions
    case Err(e) => Err(QueryFailed(e))
    case Ok(names) =>
      var missing := Missing(REQUIRED_DEVICE_EXTENSIONS, set n | n in names);
      if missing == [] then Ok(()) else Err(MissingExtensions(missing))
  }

  /** `check_physical_device_extensions`: collects the reported names into a set, then
      pushes every required name that is absent. */
  method CheckPhysicalDeviceExtensions(device: PhysicalDevice) returns (r: Result<(), SuitabilityError>)
    ensures r == ExtensionCheck(device)
    ensures r.Ok? <==> HasRequiredExtensions(device)
  {
    match device.extensions {
      case Err(e) =>
        return Err(QueryFailed(e));
      case Ok(names) =>
        var available := set n | n in names;
        var missing: seq<ExtensionName> := [];
        for k := 0 to |REQUIRED_DEVICE_EXTENSIONS|
          invariant missing == Missing(REQUIRED_DEVICE_EXTENSIONS[..k], available)
        {
          assert REQUIRED_DEVICE_EXTENSIONS[..k + 1][..k] == REQUIRED_DEVICE_EXTENSIONS[..k];
          if REQUIRED_DEVICE_EXTENSIONS[k] !in available {
            missing := missing + [REQUIRED_DEVICE_EXTENSIONS[k]];
          }
        }
        assert REQUIRED_DEVICE_EXTENSIONS[..|REQUIRED_DEVICE_EXTENSIONS|] == REQUIRED_DEVICE_EXTENSIONS;
        MissingIsSetDifference(REQUIRED_DEVICE_EXTENSIONS, available);
        if missing == [] {
          r := Ok(());
        } else {
          assert missing[0] in missing;
          r := Err(MissingExtensions(missing));
        }
    }
  }

  // ---------------------------------------------------------------------------------
  // Scoring and picking

  /** The outcome of `check_physical_device`, in the order the checks run: device type,
      geometry shader, queue families, extensions, then the swapchain support query and
      its two non-empty lists. */
  function DeviceScore(device: PhysicalDevice): Result<nat, SuitabilityError> {
    if device.deviceType != DISCRETE_GPU && device.deviceType != INTEGRATED_GPU then
      Err(Unsuitable(ONLY_GPUS))
    else if !device.geometryShader then Err(Unsuitable(NO_GEOMETRY_SHADER))
    else if FindQueueFamilies(device.queueFamilies).Err? then
      Err(FindQueueFamilies(device.queueFamilies).error)
    else if ExtensionCheck(device).Err? then Err(ExtensionCheck(device).error)
    else match device.swapchainSupport
      case Err(e) => Err(QueryFailed(e))
      case Ok(support) =>
        if |support.formats| == 0 || |support.presentModes| == 0 then
          Err(Unsuitable(INSUFFICIENT_SWAPCHAIN_SUPPORT))
        else if device.deviceType == DISCRETE_GPU then Ok(200)
        else Ok(100)
  }

  /** `check_physical_device`, accumulating the score in a mutable variable and returning at
      the first failed check. */
  method CheckPhysicalDevice(device: PhysicalDevice) returns (r: Result<nat, SuitabilityError>)
    ensures r == DeviceScore(device)
  {
    var score := 0;
    match device.deviceType {
      case DISCRETE_GPU => score := score + 200;
      case INTEGRATED_GPU => score := score + 100;
      case _ => return Err(Unsuitable(ONLY_GPUS));
    }
    if !device.geometryShader {
      return Err(Unsuitable(NO_GEOMETRY_SHADER));
    }
    var indices := GetQueueFamilyIndices(device.queueFamilies);
    if indices.Err? {
      return Err(indices.error);
    }
    var extensions := CheckPhysicalDeviceExtensions(device);
    if extensions.Err? {
      return Err(extensions.error);
    }
    match device.swapchainSupport {
      case Err(e) =>
        return Err(QueryFailed(e));
      case Ok(support) =>
        if |support.formats| == 0 || |support.presentModes| == 0 {
          return Err(Unsuitable(INSUFFICIENT_SWAPCHAIN_SUPPORT));
        }
    }
    return Ok(score);
  }

  /** The device requirements, stated independently of the order of the checks. */
  predicate MeetsRequirements(device: PhysicalDevice) {
    && (device.deviceType == DISCRETE_GPU || device.deviceType == INTEGRATED_GPU)
    && device.geometryShader
    && FindQueueFamilies(device.queueFamilies).Ok?
    && HasRequiredExtensions(device)
    && device.swapchainSupport.Ok?
    && |device.swapchainSupport.value.formats| > 0
    && |device.swapchainSupport.value.presentModes| > 0
  }

  /** A device scores exactly when it meets every requirement; a discrete GPU scores 200
      and an integrated GPU 100. Any other device type, a device without geometry shaders
      and a device whose surface reports no formats or no present modes is rejected as
      unsuitable. A scored device also leaves the swapchain selection well defined. */
  lemma DeviceScoreRules(device: PhysicalDevice)
    ensures DeviceScore(device).Ok? <==> MeetsRequirements(device)
    ensures DeviceScore(device).Ok? ==>
      (DeviceScore(device).value == 200 <==> device.deviceType == DISCRETE_GPU)
      && (DeviceScore(device).value == 100 <==> device.deviceType == INTEGRATED_GPU)
    ensures device.deviceType != DISCRETE_GPU && device.deviceType != INTEGRATED_GPU ==>
      DeviceScore(device) == Err(Unsuitable(ONLY_GPUS))
    ensures (device.deviceType == DISCRETE_GPU || device.deviceType == INTEGRATED_GPU)
            && !device.geometryShader ==>
      DeviceScore(device) == Err(Unsuitable(NO_GEOMETRY_SHADER))
    ensures DeviceScore(device).Err? && DeviceScore(device).error.MissingExtensions? ==>
      device.extensions.Ok?
      && forall x :: x in DeviceScore(device).error.names <==>
           x in REQUIRED_DEVICE_EXTENSIONS && x !in device.extensions.value
  {
    QueueFamilySelection(device.queueFamilies);
    if device.extensions.Ok? {
      MissingIsSetDifference(REQUIRED_DEVICE_EXTENSIONS, set n | n in device.extensions.value);
    }
    if ExtensionCheck(device).Err? && ExtensionCheck(device).error.MissingExtensions? {
      var missing := ExtensionCheck(device).error.names;
      assert missing != [] && missing[0] in missing;
    }
  }

  datatype PickError = EnumerationFailed(error: VkError) | NoSuitableDevice

  /** `pick_physical_device`: checks every enumerated device, keeps the valid ones with their
      scores, and selects one with the highest score (the source sorts the valid devices by
      score with an unstable sort and takes the last, so which of several equally scored
      devices wins is unspecified; this scan keeps the last one it sees). */
  method PickPhysicalDevice(enumerated: Result<seq<PhysicalDevice>, VkError>)
    returns (r: Result<PhysicalDevice, PickError>)
    ensures enumerated.Err? ==> r == Err(EnumerationFailed(enumerated.error))
    ensures enumerated.Ok? ==>
      (r == Err(NoSuitableDevice) <==> forall d :: d in enumerated.value ==> DeviceScore(d).Err?)
    ensures enumerated.Ok? ==> r.Ok? || r == Err(NoSuitableDevice)
    ensures r.Ok? ==>
      && enumerated.Ok?
      && r.value in enumerated.value
      && DeviceScore(r.value).Ok?
      && forall d :: d in enumerated.value && DeviceScore(d).Ok? ==>
           DeviceScore(d).value <= DeviceScore(r.value).value
  {
    if enumerated.Err? {
      return Err(EnumerationFailed(enumerated.error));
    }
    var devices := enumerated.value;
    var valid := ScoreDevices(devices);
    if |valid| == 0 {
      forall d | d in devices
        ensures DeviceScore(d).Err?
      {
        var j :| 0 <= j < |devices| && devices[j] == d;
      }
      return Err(NoSuitableDevice);
    }
    var best := HighestScored(valid);
    forall d | d in devices && DeviceScore(d).Ok?
      ensures DeviceScore(d).value <= valid[best].1
    {
      var j :| 0 <= j < |devices| && devices[j] == d;
      assert (devices[j], DeviceScore(devices[j]).value) in valid;
    }
    return Ok(valid[best].0);
  }

  /** The loop of `pick_physical_device`: every device that passes the checks, with its
      score; the others are logged and skipped. */
  method ScoreDevices(devices: seq<PhysicalDevice>) returns (valid: seq<(PhysicalDevice, nat)>)
    ensures forall k :: 0 <= k < |valid| ==>
      valid[k].0 in devices && DeviceScore(valid[k].0) == Ok(valid[k].1)
    ensures forall j :: 0 <= j < |devices| && DeviceScore(devices[j]).Ok? ==>
      (devices[j], DeviceScore(devices[j]).value) in valid
  {
    valid := [];
    for i := 0 to |devices|
      invariant forall k :: 0 <= k < |valid| ==>
        valid[k].0 in devices && DeviceScore(valid[k].0) == Ok(valid[k].1)
      invariant forall j :: 0 <= j < i && DeviceScore(devices[j]).Ok? ==>
        (devices[j], DeviceScore(devices[j]).value) in valid
    {
      var score := CheckPhysicalDevice(devices[i]);
      if score.Ok? {
        valid := valid + [(devices[i], score.value)];
      }
    }
  }

  /** The position of a highest-scored entry of a non-empty list (the last of the
      highest, like taking the last element after sorting by score). */
  method HighestScored(valid: seq<(PhysicalDevice, nat)>) returns (best: nat)
    requires |valid| > 0
    ensures best < |valid|
    ensures forall j :: 0 <= j < |valid| ==> valid[j].1 <= valid[best].1
    ensures forall j :: best < j < |valid| ==> valid[j].1 < valid[best].1
  {
    best := 0;
    for k := 1 to |valid|
      invariant best < k
      invariant forall j :: 0 <= j < k ==> valid[j].1 <= valid[best].1
      invariant forall j :: best < j < k ==> valid[j].1 < valid[best].1
    {
      if valid[k].1 >= valid[best].1 {
        best := k;
      }
    }
  }

  // ---------------------------------------------------------------------------------
  // Logical device queues

  /** One `VkDeviceQueueCreateInfo`: a family and the priorities of its queues. */
  datatype QueueCreateInfo = QueueCreateInfo(queueFamilyIndex: nat, queuePriorities: seq<real>)

  /** The queue infos `create_logical_device` builds: the two family indices inserted into a
      hash set, then one info with a single queue of priority 1.0 per distinct family. The
      iteration order of the hash set is unspecified, so the infos are a set. */
  method QueueCreateInfos(indices: QueueFamilyIndices) returns (infos: set<QueueCreateInfo>)
    ensures forall info :: info in infos ==> info.queuePriorities == [1.0]
    ensures (set info | info in infos :: info.queueFamilyIndex) == {indices.graphics, indices.present}
    ensures |infos| == if indices.graphics == indices.present then 1 else 2
  {
    var unique: set<nat> := {};
    unique := unique + {indices.graphics};
    unique := unique + {indices.present};
    infos := set q | q in unique :: QueueCreateInfo(q, [1.0]);
    if indices.graphics == indices.present {
      assert unique == {indices.graphics};
      assert infos == {QueueCreateInfo(indices.graphics, [1.0])};
    } else {
      assert infos == {QueueCreateInfo(indices.graphics, [1.0]), QueueCreateInfo(indices.present, [1.0])};
    }
  }
}
