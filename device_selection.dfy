/** Choosing the physical device and the graphics queue family while the renderer
    is being created. */
module DeviceSelection {
  import opened Gpu

  /** A queue family: whether it supports graphics, and the answer of the surface
      support query (`None` when the query itself failed). */
  datatype QueueFamily = QueueFamily(id: nat, supportsGraphics: bool, surfaceSupport: Option<bool>)

  /** A physical device, reduced to the limit the selection compares and its queue families. */
  datatype PhysicalDevice = PhysicalDevice(id: nat, maxComputeSharedMemorySize: u32, queueFamilies: seq<QueueFamily>)

  /** The closure of the fold: keep the accumulator unless the new device has
      strictly more compute shared memory. */
  function Keep(acc: Option<PhysicalDevice>, val: PhysicalDevice): Option<PhysicalDevice> {
    if acc.None? then Some(val)
    else if acc.value.maxComputeSharedMemorySize >= val.maxComputeSharedMemorySize then acc
    else Some(val)
  }

  /** Left fold of `Keep` over the devices, in enumeration order. */
  function Fold(acc: Option<PhysicalDevice>, devices: seq<PhysicalDevice>): Option<PhysicalDevice>
    decreases |devices|
  {
    if devices == [] then acc else Fold(Keep(acc, devices[0]), devices[1..])
  }

  /** The device `new` uses: the fold started from `None`. */
  function SelectPhysicalDevice(devices: seq<PhysicalDevice>): Option<PhysicalDevice> {
    Fold(None, devices)
  }

  /** Reference definition: position `k` holds a maximal limit, and every earlier
      device has a strictly smaller one. */
  ghost predicate IsFirstMaximum(devices: seq<PhysicalDevice>, k: int) {
    0 <= k < |devices| &&
    (forall j :: 0 <= j < |devices| ==>
      devices[j].maxComputeSharedMemorySize <= devices[k].maxComputeSharedMemorySize) &&
    (forall j :: 0 <= j < k ==>
      devices[j].maxComputeSharedMemorySize < devices[k].maxComputeSharedMemorySize)
  }

  /** Folding from an accumulated `best` either keeps it (nothing later is larger)
      or ends on the first strictly larger maximum of `rest`. */
  lemma {:induction false} FoldFrom(best: PhysicalDevice, rest: seq<PhysicalDevice>) returns (k: int)
    ensures -1 <= k < |rest|
    ensures k == -1 ==>
      Fold(Some(best), rest) == Some(best) &&
      forall j :: 0 <= j < |rest| ==> rest[j].maxComputeSharedMemorySize <= best.maxComputeSharedMemorySize
    ensures 0 <= k ==>
      Fold(Some(best), rest) == Some(rest[k]) &&
      best.maxComputeSharedMemorySize < rest[k].maxComputeSharedMemorySize &&
      IsFirstMaximum(rest, k)
    decreases |rest|
  {
    if rest == [] {
      k := -1;
    } else {
      var v, tail := rest[0], rest[1..];
      assert forall j :: 0 < j < |rest| ==> rest[j] == tail[j - 1];
      if best.maxComputeSharedMemorySize >= v.maxComputeSharedMemorySize {
        var k' := FoldFrom(best, tail);
        k := if k' == -1 then -1 else k' + 1;
      } else {
        var k' := FoldFrom(v, tail);
        k := if k' == -1 then 0 else k' + 1;
      }
    }
  }

  /** The selection is `None` exactly when there are no devices; otherwise it is the
      first device with the largest `max_compute_shared_memory_size`. */
  lemma SelectIsFirstMaximum(devices: seq<PhysicalDevice>) returns (k: int)
    ensures SelectPhysicalDevice(devices).None? <==> devices == []
    ensures devices != [] ==> IsFirstMaximum(devices, k) && SelectPhysicalDevice(devices) == Some(devices[k])
  {
    k := -1;
    if devices != [] {
      var tail := devices[1..];
      assert forall j :: 0 < j < |devices| ==> devices[j] == tail[j - 1];
      var k' := FoldFrom(devices[0], tail);
      k := if k' == -1 then 0 else k' + 1;
    }
  }

  /** The first maximum is unique. */
  lemma FirstMaximumUnique(devices: seq<PhysicalDevice>, k1: int, k2: int)
    requires IsFirstMaximum(devices, k1) && IsFirstMaximum(devices, k2)
    ensures k1 == k2
  {
    assert devices[k1].maxComputeSharedMemorySize == devices[k2].maxComputeSharedMemorySize;
  }

  /** Both directions: the fold picks `d` exactly when `d` sits at the first maximum. */
  lemma SelectCharacterised(devices: seq<PhysicalDevice>, d: PhysicalDevice)
    ensures SelectPhysicalDevice(devices) == Some(d) <==>
      exists k :: IsFirstMaximum(devices, k) && devices[k] == d
  {
    var k := SelectIsFirstMaximum(devices);
    if exists k2 :: IsFirstMaximum(devices, k2) && devices[k2] == d {
      var k2 :| IsFirstMaximum(devices, k2) && devices[k2] == d;
      FirstMaximumUnique(devices, k, k2);
    }
  }

  /** A family the renderer can use: graphics-capable, and the surface query said yes
      (a failed query counts as no, `unwrap_or(false)`). */
  predicate Usable(q: QueueFamily) {
    q.supportsGraphics && q.surfaceSupport.GetOr(false)
  }

  /** Position of the first usable queue family, as `find` returns it. */
  function FindQueueFamily(families: seq<QueueFamily>): (r: Option<nat>)
    ensures r.None? <==> forall i :: 0 <= i < |families| ==> !Usable(families[i])
    ensures r.Some? ==>
      r.value < |families| && Usable(families[r.value]) &&
      forall j :: 0 <= j < r.value ==> !Usable(families[j])
    decreases |families|
  {
    if families == [] then None
    else if Usable(families[0]) then Some(0)
    else
      match FindQueueFamily(families[1..])
      case None => None
      case Some(k) => Some(k + 1)
  }
}
