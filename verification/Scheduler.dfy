/** GPU placement. */
module Scheduler {
  import opened Options
  import opened Sorting

  datatype Device = Device(
    deviceId: string,
    totalMemoryMb: int,
    usedMemoryMb: int,
    utilizationPercent: real,
    unhealthy: bool)
  {
    function FreeMemoryMb(): (free: nat)
      ensures free >= totalMemoryMb - usedMemoryMb && (free == 0 || free + usedMemoryMb == totalMemoryMb)
    {
      if totalMemoryMb - usedMemoryMb > 0 then totalMemoryMb - usedMemoryMb else 0
    }
  }

  datatype Profile = Profile(
    modelName: string,
    requiredMemoryMb: int,
    expectedUtilizationPercent: real,
    maxBatchSize: int)

  datatype Policy = Policy(memoryReserveMb: int, maxGpuUtilizationPercent: real, allowCpuFallback: bool)

  datatype Status = Scheduled | Deferred | Rejected

  datatype Reason =
    | UnknownModelResourceProfile
    | BatchSizeExceedsModelProfile
    | NoGpuAvailable
    | CpuFallbackSelected
    | InsufficientGpuCapacity
    | GpuCapacityAvailable

  datatype Decision = Decision(
    status: Status,
    modelName: string,
    deviceId: Option<string>,
    reason: Reason,
    availableMemoryMb: int,
    requiredMemoryMb: int)

  predicate Eligible(policy: Policy, profile: Profile, d: Device) {
    && !d.unhealthy
    && d.FreeMemoryMb() >= profile.requiredMemoryMb + policy.memoryReserveMb
    && d.utilizationPercent + profile.expectedUtilizationPercent <= policy.maxGpuUtilizationPercent
  }

  function EligibleOf(policy: Policy, profile: Profile, ds: seq<Device>): seq<Device> {
    if ds == [] then []
    else
      EligibleOf(policy, profile, ds[..|ds| - 1])
        + if Eligible(policy, profile, ds[|ds| - 1]) then [ds[|ds| - 1]] else []
  }

  /** The largest free memory of any healthy device, zero when there is none. */
  function BestFree(ds: seq<Device>): nat {
    if ds == [] then 0
    else
      var best, d := BestFree(ds[..|ds| - 1]), ds[|ds| - 1];
      if !d.unhealthy && d.FreeMemoryMb() > best then d.FreeMemoryMb() else best
  }

  /** The sort key (free memory, utilization, device id). */
  predicate Tighter(a: Device, b: Device) {
    || a.FreeMemoryMb() < b.FreeMemoryMb()
    || (a.FreeMemoryMb() == b.FreeMemoryMb()
        && (a.utilizationPercent < b.utilizationPercent
            || (a.utilizationPercent == b.utilizationPercent && StrLe(a.deviceId, b.deviceId))))
  }

  function Schedule(profiles: map<string, Profile>, policy: Policy, modelName: string, devices: seq<Device>,
                    batchSize: int): Decision {
    if modelName !in profiles then Decision(Rejected, modelName, None, UnknownModelResourceProfile, 0, 0)
    else
      var profile := profiles[modelName];
      if batchSize > profile.maxBatchSize then
        Decision(Deferred, modelName, None, BatchSizeExceedsModelProfile, 0, profile.requiredMemoryMb)
      else if devices == [] then
        if policy.allowCpuFallback
        then Decision(Deferred, modelName, Some("cpu"), CpuFallbackSelected, 0, profile.requiredMemoryMb)
        else Decision(Deferred, modelName, None, NoGpuAvailable, 0, profile.requiredMemoryMb)
      else
        var eligible := EligibleOf(policy, profile, devices);
        var required := profile.requiredMemoryMb + policy.memoryReserveMb;
        if eligible == [] then Decision(Deferred, modelName, None, InsufficientGpuCapacity, BestFree(devices), required)
        else
          SortPermutes(Tighter, eligible);
          var selected := Sort(Tighter, eligible)[0];
          Decision(Scheduled, modelName, Some(selected.deviceId), GpuCapacityAvailable, selected.FreeMemoryMb(),
                   required)
  }

  class GPUScheduler {
    const modelProfiles: map<string, Profile>
    const policy: Policy

    constructor (modelProfiles: map<string, Profile>, policy: Policy)
      requires modelProfiles != map[]
      ensures this.modelProfiles == modelProfiles && this.policy == policy
    {
      this.modelProfiles := modelProfiles;
      this.policy := policy;
    }

    method Place(modelName: string, devices: seq<Device>, batchSize: int) returns (decision: Decision)
      ensures decision == Schedule(modelProfiles, policy, modelName, devices, batchSize)
    {
      if modelName !in modelProfiles {
        return Decision(Rejected, modelName, None, UnknownModelResourceProfile, 0, 0);
      }
      var profile := modelProfiles[modelName];
      if batchSize > profile.maxBatchSize {
        return Decision(Deferred, modelName, None, BatchSizeExceedsModelProfile, 0, profile.requiredMemoryMb);
      }
      if devices == [] {
        return Decision(Deferred, modelName, if policy.allowCpuFallback then Some("cpu") else None,
                        if policy.allowCpuFallback then CpuFallbackSelected
                        else NoGpuAvailable, 0, profile.requiredMemoryMb);
      }
      var eligible: seq<Device> := [];
      var requiredWithReserve := profile.requiredMemoryMb + policy.memoryReserveMb;
      var bestFree: nat := 0;
      for i := 0 to |devices|
        invariant eligible == EligibleOf(policy, profile, devices[..i])
        invariant bestFree == BestFree(devices[..i])
      {
        var device := devices[i];
        assert devices[..i + 1][..i] == devices[..i];
        assert eligible + [] == eligible;
        if device.unhealthy {
          continue;
        }
        if device.FreeMemoryMb() > bestFree {
          bestFree := device.FreeMemoryMb();
        }
        var projectedUtilization := device.utilizationPercent + profile.expectedUtilizationPercent;
        if device.FreeMemoryMb() < requiredWithReserve {
          continue;
        }
        if projectedUtilization > policy.maxGpuUtilizationPercent {
          continue;
        }
        eligible := eligible + [device];
      }
      assert devices[..|devices|] == devices;
      if eligible == [] {
        return Decision(Deferred, modelName, None, InsufficientGpuCapacity, bestFree, requiredWithReserve);
      }
      SortPermutes(Tighter, eligible);
      var selected := Sort(Tighter, eligible)[0];
      return Decision(Scheduled, modelName, Some(selected.deviceId), GpuCapacityAvailable,
                      selected.FreeMemoryMb(), requiredWithReserve);
    }
  }

  lemma {:induction false} EligibleMembers(policy: Policy, profile: Profile, ds: seq<Device>)
    ensures forall d :: d in EligibleOf(policy, profile, ds) <==> d in ds && Eligible(policy, profile, d)
  {
    if ds != [] {
      EligibleMembers(policy, profile, ds[..|ds| - 1]);
      assert ds == ds[..|ds| - 1] + [ds[|ds| - 1]];
    }
  }

  lemma TighterIsTotal()
    ensures TotalPreorder(Tighter)
  {
    forall a, b ensures Tighter(a, b) || Tighter(b, a) {
      StrLeTotal(a.deviceId, b.deviceId);
    }
    forall a, b, c | Tighter(a, b) && Tighter(b, c) ensures Tighter(a, c) {
      if StrLe(a.deviceId, b.deviceId) && StrLe(b.deviceId, c.deviceId) {
        StrLeTransitive(a.deviceId, b.deviceId, c.deviceId);
      }
    }
  }

  /** For a known model, a batch within its size limit and some devices: the batch is scheduled
      exactly when some device is eligible, on the eligible device that is least by
      (free memory, utilization, id). */
  lemma PlacementIsTightestFit(profiles: map<string, Profile>, policy: Policy, modelName: string, devices: seq<Device>,
                               batchSize: int)
    requires modelName in profiles && batchSize <= profiles[modelName].maxBatchSize && devices != []
    ensures var d, profile := Schedule(profiles, policy, modelName, devices, batchSize), profiles[modelName];
            && (d.status == Scheduled <==> exists x :: x in devices && Eligible(policy, profile, x))
            && (d.status == Scheduled ==>
                  exists x :: x in devices && Eligible(policy, profile, x)
                              && d.deviceId == Some(x.deviceId) && d.availableMemoryMb == x.FreeMemoryMb()
                              && forall y :: y in devices && Eligible(policy, profile, y) ==> Tighter(x, y))
            && (d.status != Scheduled ==> d.status == Deferred && d.deviceId == None)
  {
    var profile := profiles[modelName];
    var eligible := EligibleOf(policy, profile, devices);
    EligibleMembers(policy, profile, devices);
    TighterIsTotal();
    SortSorts(Tighter, eligible);
    SortPermutes(Tighter, eligible);
    var sorted := Sort(Tighter, eligible);
    if eligible == [] {
      forall x | x in devices ensures !Eligible(policy, profile, x) {
        assert x !in eligible;
      }
    } else {
      assert eligible[0] in eligible;
      assert sorted[0] in multiset(sorted) && sorted[0] in eligible;
      forall y | y in eligible ensures Tighter(sorted[0], y) {
        assert y in multiset(sorted);
        StrLeTotal(y.deviceId, y.deviceId);
      }
    }
  }

  /** Room for the model and the reserve, on a healthy device that stays within its utilization. */
  predicate Hosts(policy: Policy, profile: Profile, d: Device) {
    var required := profile.requiredMemoryMb + policy.memoryReserveMb;
    && !d.unhealthy && (required <= 0 || d.usedMemoryMb + required <= d.totalMemoryMb)
    && d.utilizationPercent <= policy.maxGpuUtilizationPercent - profile.expectedUtilizationPercent
  }

  /** Less free memory, then less utilization, then the smaller id. */
  predicate Preferred(a: Device, b: Device) {
    && a.FreeMemoryMb() <= b.FreeMemoryMb()
    && (a.FreeMemoryMb() == b.FreeMemoryMb() ==>
          && a.utilizationPercent <= b.utilizationPercent
          && (a.utilizationPercent == b.utilizationPercent ==> StrLe(a.deviceId, b.deviceId)))
  }

  /** When a request for a known model gets this decision. The cases exclude each other. */
  ghost predicate Due(profile: Profile, policy: Policy, modelName: string, devices: seq<Device>, batchSize: int,
                      d: Decision)
  {
    var required := profile.requiredMemoryMb + policy.memoryReserveMb;
    match d.reason
    case UnknownModelResourceProfile => false
    case BatchSizeExceedsModelProfile =>
      && profile.maxBatchSize < batchSize
      && d == Decision(Deferred, modelName, None, d.reason, 0, profile.requiredMemoryMb)
    case NoGpuAvailable =>
      && batchSize <= profile.maxBatchSize && devices == [] && !policy.allowCpuFallback
      && d == Decision(Deferred, modelName, None, d.reason, 0, profile.requiredMemoryMb)
    case CpuFallbackSelected =>
      && batchSize <= profile.maxBatchSize && devices == [] && policy.allowCpuFallback
      && d == Decision(Deferred, modelName, Some("cpu"), d.reason, 0, profile.requiredMemoryMb)
    case InsufficientGpuCapacity =>
      && batchSize <= profile.maxBatchSize && devices != [] && (forall x :: x in devices ==> !Hosts(policy, profile, x))
      && d == Decision(Deferred, modelName, None, d.reason, d.availableMemoryMb, required)
      && d.availableMemoryMb >= 0
      && (forall x :: x in devices && !x.unhealthy ==> x.FreeMemoryMb() <= d.availableMemoryMb)
      && (d.availableMemoryMb != 0 ==>
            exists x :: x in devices && !x.unhealthy && x.FreeMemoryMb() == d.availableMemoryMb)
    case GpuCapacityAvailable =>
      && batchSize <= profile.maxBatchSize
      && exists x ::
           && x in devices && Hosts(policy, profile, x)
           && d == Decision(Scheduled, modelName, Some(x.deviceId), d.reason, x.FreeMemoryMb(), required)
           && forall y :: y in devices && Hosts(policy, profile, y) ==> Preferred(x, y)
  }

  /** The decision on every request: for an unknown model a rejection, and else the one that is due. */
  lemma DecisionExactly(profiles: map<string, Profile>, policy: Policy, modelName: string, devices: seq<Device>,
                        batchSize: int)
    ensures var d := Schedule(profiles, policy, modelName, devices, batchSize);
            if modelName in profiles then Due(profiles[modelName], policy, modelName, devices, batchSize, d)
            else d == Decision(Rejected, modelName, None, UnknownModelResourceProfile, 0, 0)
  {
    if modelName in profiles && batchSize <= profiles[modelName].maxBatchSize && devices != [] {
      var d, profile := Schedule(profiles, policy, modelName, devices, batchSize), profiles[modelName];
      PlacementIsTightestFit(profiles, policy, modelName, devices, batchSize);
      assert forall x :: Hosts(policy, profile, x) <==> Eligible(policy, profile, x);
      BestFreeIsMax(devices);
      if d.status == Scheduled {
        SelectedIsTightest(policy, profile, devices);
      }
    }
  }

  lemma {:induction false} SelectedIsTightest(policy: Policy, profile: Profile, devices: seq<Device>)
    requires EligibleOf(policy, profile, devices) != []
    ensures |Sort(Tighter, EligibleOf(policy, profile, devices))| == |EligibleOf(policy, profile, devices)|
    ensures var x := Sort(Tighter, EligibleOf(policy, profile, devices))[0];
            && x in devices && Hosts(policy, profile, x)
            && forall y :: y in devices && Hosts(policy, profile, y) ==> Preferred(x, y)
  {
    var eligible := EligibleOf(policy, profile, devices);
    EligibleMembers(policy, profile, devices);
    TighterIsTotal();
    SortSorts(Tighter, eligible);
    SortPermutes(Tighter, eligible);
    var sorted := Sort(Tighter, eligible);
    SameMembers(eligible, sorted);
    forall y | y in devices && Hosts(policy, profile, y) ensures Preferred(sorted[0], y) {
      assert Eligible(policy, profile, y) && y in sorted;
      StrLeTotal(y.deviceId, y.deviceId);
    }
    assert sorted[0] in sorted;
  }

  lemma {:induction false} EligibleBag(policy: Policy, profile: Profile, ds: seq<Device>, d: Device)
    ensures multiset(EligibleOf(policy, profile, ds))[d] == if Eligible(policy, profile, d) then multiset(ds)[d] else 0
  {
    if ds != [] {
      EligibleBag(policy, profile, ds[..|ds| - 1], d);
      assert ds == ds[..|ds| - 1] + [ds[|ds| - 1]];
    }
  }

  lemma {:induction false} BestFreeIsMax(ds: seq<Device>)
    ensures forall d :: d in ds && !d.unhealthy ==> d.FreeMemoryMb() <= BestFree(ds)
    ensures BestFree(ds) == 0 || exists d :: d in ds && !d.unhealthy && d.FreeMemoryMb() == BestFree(ds)
  {
    if ds != [] {
      var init, d := ds[..|ds| - 1], ds[|ds| - 1];
      BestFreeIsMax(init);
      assert ds == init + [d];
      if BestFree(init) != 0 {
        var x :| x in init && !x.unhealthy && x.FreeMemoryMb() == BestFree(init);
        assert x in ds;
      }
    }
  }

  /** The order in which devices are listed does not matter when their ids are distinct. */
  lemma DeviceOrderIsIrrelevant(profiles: map<string, Profile>, policy: Policy, modelName: string,
                                devices: seq<Device>, others: seq<Device>, batchSize: int)
    requires multiset(devices) == multiset(others)
    requires forall x, y :: x in devices && y in devices && x.deviceId == y.deviceId ==> x == y
    ensures Schedule(profiles, policy, modelName, devices, batchSize)
            == Schedule(profiles, policy, modelName, others, batchSize)
  {
    assert |multiset(devices)| == |devices| && |multiset(others)| == |others|;
    if modelName in profiles {
      var profile := profiles[modelName];
      var a, b := EligibleOf(policy, profile, devices), EligibleOf(policy, profile, others);
      forall d: Device ensures multiset(a)[d] == multiset(b)[d] {
        EligibleBag(policy, profile, devices, d);
        EligibleBag(policy, profile, others, d);
      }
      assert multiset(a) == multiset(b);
      EligibleMembers(policy, profile, devices);
      TighterIsTotal();
      forall x, y | x in a && y in a && Tighter(x, y) && Tighter(y, x) ensures x == y {
        StrLeAntisymmetric(x.deviceId, y.deviceId);
      }
      SortIgnoresOrder(Tighter, a, b);
      assert |multiset(a)| == |a| && |multiset(b)| == |b|;
      SameBestFree(devices, others);
    }
  }

  lemma {:induction false} SameBestFree(a: seq<Device>, b: seq<Device>)
    requires multiset(a) == multiset(b)
    ensures BestFree(a) == BestFree(b)
  {
    BestFreeIsMax(a);
    BestFreeIsMax(b);
    assert forall d :: d in a <==> d in multiset(a);
    assert forall d :: d in b <==> d in multiset(b);
  }

  /** More devices never turn a scheduled batch into a deferred one. */
  lemma MoreDevicesNeverHurt(profiles: map<string, Profile>, policy: Policy, modelName: string,
                             devices: seq<Device>, more: seq<Device>, batchSize: int)
    requires Schedule(profiles, policy, modelName, devices, batchSize).status == Scheduled
    requires forall d :: d in devices ==> d in more
    ensures Schedule(profiles, policy, modelName, more, batchSize).status == Scheduled
  {
    PlacementIsTightestFit(profiles, policy, modelName, devices, batchSize);
    PlacementIsTightestFit(profiles, policy, modelName, more, batchSize);
  }
}
