/**
 * The bandwidth allocation engine (`BandwidthManager`). It holds a capacity
 * figure in Mbps and an insertion-ordered map of active streamers. Every
 * streamer gets an equal share of the capacity, clipped to the ceiling of
 * its quality tier. A new streamer is admitted when the share it would get
 * at head-count + 1 reaches its tier's floor. Allocations are recomputed on
 * every membership change. The tier catalog is a parameter, not loaded from
 * a file.
 */
module Bandwidth {
  import opened Assoc
  import opened Numbers

  const BpsPerMbps: real := 1000000.0

  /** A quality preset's bitrate envelope, in bits per second. */
  datatype Tier = Tier(bitrateMin: real, bitrateTarget: real, bitrateMax: real)

  /** The quality presets by name (the `video.presets` section of the configuration). */
  type Catalog = map<string, Tier>

  datatype StreamerInfo = StreamerInfo(quality: string, socketId: string, allocatedBitrate: real)

  type Streamers = Dict<string, StreamerInfo>

  /** `totalAvailableBandwidth / count`, in Mbps. */
  function FairShareMbps(totalMbps: real, count: nat): real
    requires count > 0
  {
    totalMbps / count as real
  }

  /**
   * What one streamer of tier `t` is allocated, in bps, when the fair share
   * is `fairShareMbps`: `calculateAllocation` clips in Mbps and converts back, which is
   * the tier ceiling clipped against the fair share in bps.
   */
  function Share(t: Tier, fairShareMbps: real): (bps: real)
    ensures bps == Min(t.bitrateMax, fairShareMbps * BpsPerMbps)
    ensures bps <= fairShareMbps * BpsPerMbps && bps <= t.bitrateMax
  {
    Min(t.bitrateMax / BpsPerMbps, fairShareMbps) * BpsPerMbps
  }

  /**
   * The entries `calculateAllocation` produces for the streamers `s`, in
   * iteration order: a streamer whose tier is unknown is skipped.
   */
  function Allocations(tiers: Catalog, fairShareMbps: real, s: Streamers): Dict<string, real>
  {
    if s == [] then []
    else
      var rest := Allocations(tiers, fairShareMbps, s[..|s| - 1]);
      var (id, info) := s[|s| - 1];
      if info.quality in tiers then rest + [(id, Share(tiers[info.quality], fairShareMbps))] else rest
  }

  /** The result of `calculateAllocation`: empty when nobody streams. */
  function AllocationOf(tiers: Catalog, totalMbps: real, s: Streamers): Dict<string, real>
  {
    if |s| == 0 then [] else Allocations(tiers, FairShareMbps(totalMbps, |s|), s)
  }

  /** What the allocation holds for a streamer found (or not) in the map. */
  function Expected(tiers: Catalog, fairShareMbps: real, entry: Option<StreamerInfo>): Option<real> {
    match entry
    case None => None
    case Some(info) => if info.quality in tiers then Some(Share(tiers[info.quality], fairShareMbps)) else None
  }

  /**
   * The allocation maps exactly the streamers with a known tier, each to
   * its share; a streamer with an unknown tier is absent.
   */
  lemma {:induction false} AllocationsGet(tiers: Catalog, fairShareMbps: real, s: Streamers, id: string)
    requires Distinct(s)
    ensures Get(Allocations(tiers, fairShareMbps, s), id) == Expected(tiers, fairShareMbps, Get(s, id))
  {
    if s != [] {
      var p := s[..|s| - 1];
      var (k, info) := s[|s| - 1];
      assert s == p + [(k, info)];
      var rest := Allocations(tiers, fairShareMbps, p);
      AllocationsGet(tiers, fairShareMbps, p, id);
      GetAppend(p, k, info, id);
      if info.quality in tiers {
        GetAppend(rest, k, Share(tiers[info.quality], fairShareMbps), id);
        if id == k {
          assert Get(p, k) == None;
        }
      }
    }
  }

  /** No streamer appears twice in an allocation. */
  lemma {:induction false} AllocationsDistinct(tiers: Catalog, fairShareMbps: real, s: Streamers)
    requires Distinct(s)
    ensures Distinct(Allocations(tiers, fairShareMbps, s))
  {
    if s != [] {
      var p := s[..|s| - 1];
      var (k, info) := s[|s| - 1];
      AllocationsDistinct(tiers, fairShareMbps, p);
      assert Get(p, k) == None;
      AllocationsGet(tiers, fairShareMbps, p, k);
    }
  }

  /** At most one entry per streamer, and none above the fair share. */
  lemma {:induction false} AllocationsBounded(tiers: Catalog, fairShareMbps: real, s: Streamers)
    ensures |Allocations(tiers, fairShareMbps, s)| <= |s|
    ensures forall i :: 0 <= i < |Allocations(tiers, fairShareMbps, s)| ==>
      Allocations(tiers, fairShareMbps, s)[i].1 <= fairShareMbps * BpsPerMbps
  {
    if s != [] {
      AllocationsBounded(tiers, fairShareMbps, s[..|s| - 1]);
    }
  }

  /** The sum of an allocation's values. */
  function Total(d: Dict<string, real>): real {
    if d == [] then 0.0 else Total(d[..|d| - 1]) + d[|d| - 1].1
  }

  lemma {:induction false} TotalBound(d: Dict<string, real>, bound: real)
    requires forall i :: 0 <= i < |d| ==> d[i].1 <= bound
    ensures Total(d) <= |d| as real * bound
  {
    if d != [] {
      TotalBound(d[..|d| - 1], bound);
    }
  }

  /** At most `n` shares of a capacity split `n` ways fit in the capacity. */
  lemma SharesFit(totalMbps: real, n: nat, m: nat)
    requires 0 < n && m <= n && totalMbps >= 0.0
    ensures m as real * (FairShareMbps(totalMbps, n) * BpsPerMbps) <= totalMbps * BpsPerMbps
  {
    var fair := FairShareMbps(totalMbps, n);
    assert n as real * fair == totalMbps;
    assert m as real * fair <= n as real * fair;
    assert m as real * (fair * BpsPerMbps) == (m as real * fair) * BpsPerMbps;
  }

  /**
   * `calculateAllocation` never hands out more than the capacity: at most
   * one entry per streamer, none above the fair share, and their sum at
   * most `totalAvailableBandwidth` converted to bps.
   */
  lemma AllocationWithinCapacity(tiers: Catalog, totalMbps: real, s: Streamers)
    requires totalMbps >= 0.0
    ensures |AllocationOf(tiers, totalMbps, s)| <= |s|
    ensures |s| > 0 ==> forall i :: 0 <= i < |AllocationOf(tiers, totalMbps, s)| ==>
      AllocationOf(tiers, totalMbps, s)[i].1 <= FairShareMbps(totalMbps, |s|) * BpsPerMbps
    ensures Total(AllocationOf(tiers, totalMbps, s)) <= totalMbps * BpsPerMbps
  {
    if |s| > 0 {
      var fair := FairShareMbps(totalMbps, |s|);
      var a := Allocations(tiers, fair, s);
      AllocationsBounded(tiers, fair, s);
      TotalBound(a, fair * BpsPerMbps);
      SharesFit(totalMbps, |s|, |a|);
    }
  }

  /** The streamer as `reallocateBandwidth` leaves it, given what the allocation holds for it. */
  function WrittenBack(info: StreamerInfo, share: Option<real>): StreamerInfo {
    match share
    case None => info
    case Some(bps) => info.(allocatedBitrate := bps)
  }

  /**
   * The streamers after `reallocateBandwidth`: each streamer with a known
   * tier holds its share, a streamer with an unknown tier keeps its previous
   * allocation, and order, ids, tiers and sockets are unchanged.
   */
  function Reallocated(tiers: Catalog, totalMbps: real, s: Streamers): (r: Streamers)
    ensures SameKeys(s, r)
    ensures forall i :: 0 <= i < |s| ==>
      r[i].1.quality == s[i].1.quality && r[i].1.socketId == s[i].1.socketId
    ensures forall i :: 0 <= i < |s| && s[i].1.quality !in tiers ==> r[i] == s[i]
    ensures forall i :: 0 <= i < |s| && s[i].1.quality in tiers ==>
      r[i].1.allocatedBitrate == Share(tiers[s[i].1.quality], FairShareMbps(totalMbps, |s|))
  {
    if |s| == 0 then s
    else
      var fair := FairShareMbps(totalMbps, |s|);
      seq(|s|, i requires 0 <= i < |s| =>
        if s[i].1.quality in tiers
        then (s[i].0, s[i].1.(allocatedBitrate := Share(tiers[s[i].1.quality], fair)))
        else s[i])
  }

  /** Sets the bitrate of the streamer `id` in place, if it is registered. */
  function WriteBack(s: Streamers, id: string, bps: real): (r: Streamers)
    ensures SameKeys(s, r)
  {
    match Find(s, id)
    case Some(i) => s[i := (id, s[i].1.(allocatedBitrate := bps))]
    case None => s
  }

  /**
   * One pass of the write-back loop: after writing entry `j` of the
   * allocation, every streamer holds what the first `j + 1` entries give it.
   */
  lemma WriteBackStep(s0: Streamers, cur: Streamers, alloc: Dict<string, real>, j: nat)
    requires j < |alloc| && Distinct(alloc)
    requires SameKeys(s0, cur) && Distinct(cur)
    requires forall k :: 0 <= k < |s0| ==> cur[k].1 == WrittenBack(s0[k].1, Get(alloc[..j], s0[k].0))
    ensures var next := WriteBack(cur, alloc[j].0, alloc[j].1);
      && SameKeys(s0, next) && Distinct(next)
      && forall k :: 0 <= k < |s0| ==> next[k].1 == WrittenBack(s0[k].1, Get(alloc[..j + 1], s0[k].0))
  {
    var (id, bps) := alloc[j];
    assert alloc[..j + 1] == alloc[..j] + [(id, bps)];
    assert Get(alloc[..j], id) == None;
    forall k | 0 <= k < |s0| {
      GetAppend(alloc[..j], id, bps, s0[k].0);
    }
    var next := WriteBack(cur, id, bps);
    assert Distinct(next) by {
      match Find(cur, id)
      case Some(i) => GetUpdateAt(cur, i, id, (cur[i].1.(allocatedBitrate := bps)));
      case None =>
    }
  }

  /** Once every allocation entry is written, the streamers are `Reallocated`. */
  lemma WrittenBackIsReallocated(tiers: Catalog, totalMbps: real, s0: Streamers, cur: Streamers)
    requires Distinct(s0) && SameKeys(s0, cur)
    requires forall k :: 0 <= k < |s0| ==>
      cur[k].1 == WrittenBack(s0[k].1, Get(AllocationOf(tiers, totalMbps, s0), s0[k].0))
    ensures cur == Reallocated(tiers, totalMbps, s0)
  {
    forall k | 0 <= k < |s0|
      ensures cur[k] == Reallocated(tiers, totalMbps, s0)[k]
    {
      AllocationsGet(tiers, FairShareMbps(totalMbps, |s0|), s0, s0[k].0);
    }
  }

  /** Each streamer's id with its allocated bitrate, in map order. */
  function AllocatedColumn(s: Streamers): (d: Dict<string, real>)
    ensures |d| == |s| && forall i :: 0 <= i < |s| ==> d[i] == (s[i].0, s[i].1.allocatedBitrate)
  {
    seq(|s|, i requires 0 <= i < |s| => (s[i].0, s[i].1.allocatedBitrate))
  }

  /** The sum of the streamers' allocated bitrates, in bps. */
  function SumAllocated(s: Streamers): real {
    Total(AllocatedColumn(s))
  }

  /** Adding up the streamers one at a time, in map order. */
  lemma SumAllocatedSnoc(s: Streamers)
    requires |s| > 0
    ensures SumAllocated(s) == SumAllocated(s[..|s| - 1]) + s[|s| - 1].1.allocatedBitrate
  {
    assert AllocatedColumn(s)[..|s| - 1] == AllocatedColumn(s[..|s| - 1]);
  }

  /**
   * When every streamer's tier is known, the bitrates held after a
   * reallocation add up to at most the capacity, so the status reports a
   * used bandwidth no larger than the total.
   */
  lemma ReallocatedWithinCapacity(tiers: Catalog, totalMbps: real, s: Streamers)
    requires totalMbps >= 0.0
    requires forall i :: 0 <= i < |s| ==> s[i].1.quality in tiers
    ensures SumAllocated(Reallocated(tiers, totalMbps, s)) <= totalMbps * BpsPerMbps
  {
    if |s| > 0 {
      var fair := FairShareMbps(totalMbps, |s|);
      TotalBound(AllocatedColumn(Reallocated(tiers, totalMbps, s)), fair * BpsPerMbps);
      SharesFit(totalMbps, |s|, |s|);
    }
  }

  /** With nobody streaming the allocation is empty and a reallocation changes nothing. */
  lemma NoStreamersNoAllocation(tiers: Catalog, totalMbps: real, s: Streamers)
    requires |s| == 0
    ensures AllocationOf(tiers, totalMbps, s) == []
    ensures Reallocated(tiers, totalMbps, s) == s
  {
  }

  /** Reallocating twice in a row changes nothing the second time. */
  lemma ReallocatedIdempotent(tiers: Catalog, totalMbps: real, s: Streamers)
    ensures Reallocated(tiers, totalMbps, Reallocated(tiers, totalMbps, s)) == Reallocated(tiers, totalMbps, s)
  {
  }

  /**
   * Removing a streamer twice leaves the same streamers as removing it once,
   * and the removed id is no longer among them.
   */
  lemma RemoveTwiceIsRemoveOnce(tiers: Catalog, totalMbps: real, s: Streamers, id: string)
    requires Distinct(s)
    ensures var once := Reallocated(tiers, totalMbps, Remove(s, id));
      && Distinct(once)
      && (forall i :: 0 <= i < |once| ==> once[i].0 != id)
      && Reallocated(tiers, totalMbps, Remove(once, id)) == once
  {
    var removed := Remove(s, id);
    var once := Reallocated(tiers, totalMbps, removed);
    assert Get(removed, id) == None;
    assert forall i :: 0 <= i < |once| ==> once[i].0 == removed[i].0;
    assert !Has(once, id);
    ReallocatedIdempotent(tiers, totalMbps, removed);
  }

  datatype Verdict = Accepted | InvalidTier | InsufficientBandwidth

  /** `canAcceptNewStreamer`'s answer; `required` and `available` are in Mbps, `allocatedBitrate` in bps. */
  datatype AdmissionResult = AdmissionResult(allowed: bool, allocatedBitrate: real, required: real, available: real, verdict: Verdict)

  /**
   * The admission decision for a streamer of tier `quality` joining
   * `activeCount` others on `totalMbps` of capacity.
   */
  function Admission(tiers: Catalog, activeCount: nat, totalMbps: real, quality: string): (r: AdmissionResult)
    ensures quality !in tiers ==> r == AdmissionResult(false, 0.0, 0.0, 0.0, InvalidTier)
    ensures quality in tiers ==>
      var t := tiers[quality];
      && r.available == FairShareMbps(totalMbps, activeCount + 1)
      && r.required == t.bitrateMin / BpsPerMbps
      && (r.allowed <==> t.bitrateMin <= Min(t.bitrateMax, r.available * BpsPerMbps))
      && (r.allowed ==> r.verdict == Accepted && r.allocatedBitrate == Min(t.bitrateMax, r.available * BpsPerMbps))
      && (r.allowed ==> t.bitrateMin <= r.allocatedBitrate <= t.bitrateMax)
      && (!r.allowed ==> r.verdict == InsufficientBandwidth && r.allocatedBitrate == 0.0)
  {
    if quality !in tiers then AdmissionResult(false, 0.0, 0.0, 0.0, InvalidTier)
    else
      var tier := tiers[quality];
      var futureStreamerCount := activeCount + 1;
      var fairShareMbps := FairShareMbps(totalMbps, futureStreamerCount);
      var fairShareBps := fairShareMbps * BpsPerMbps;
      var allocatedBps := Min(tier.bitrateMax, fairShareBps);
      if allocatedBps < tier.bitrateMin
      then AdmissionResult(false, 0.0, tier.bitrateMin / BpsPerMbps, fairShareMbps, InsufficientBandwidth)
      else AdmissionResult(true, allocatedBps, tier.bitrateMin / BpsPerMbps, fairShareMbps, Accepted)
  }

  /** More capacity at the same head-count never turns an accept into a reject. */
  lemma AdmissionMonotoneInCapacity(tiers: Catalog, activeCount: nat, lower: real, higher: real, quality: string)
    requires lower <= higher
    requires Admission(tiers, activeCount, lower, quality).allowed
    ensures Admission(tiers, activeCount, higher, quality).allowed
    ensures Admission(tiers, activeCount, lower, quality).allocatedBitrate
         <= Admission(tiers, activeCount, higher, quality).allocatedBitrate
  {
    var k := (activeCount + 1) as real;
    assert lower / k <= higher / k;
  }

  /** With no capacity measured, no tier with a positive floor is admitted. */
  lemma ZeroCapacityRejects(tiers: Catalog, activeCount: nat, quality: string)
    requires quality in tiers && tiers[quality].bitrateMin > 0.0
    ensures !Admission(tiers, activeCount, 0.0, quality).allowed
    ensures Admission(tiers, activeCount, 0.0, quality).available == 0.0
  {
  }

  /**
   * Admission predicts the allocation: a streamer admitted under a new id
   * and added straight away is allocated exactly what the admission check
   * promised, and it is the last streamer in iteration order.
   */
  lemma AdmissionPredictsAllocation(tiers: Catalog, totalMbps: real, s: Streamers, id: string, quality: string, socketId: string)
    requires !Has(s, id)
    requires Admission(tiers, |s|, totalMbps, quality).allowed
    ensures var after := Reallocated(tiers, totalMbps, Set(s, id, StreamerInfo(quality, socketId, 0.0)));
      && |after| == |s| + 1
      && after[|s|] == (id, StreamerInfo(quality, socketId, Admission(tiers, |s|, totalMbps, quality).allocatedBitrate))
  {
    var added := Set(s, id, StreamerInfo(quality, socketId, 0.0));
    assert added[|s|] == (id, StreamerInfo(quality, socketId, 0.0));
  }

  /** A worked example: 10 Mbps, nobody streaming, tier 1080p30 (4/6/8 Mbps). */
  lemma AdmissionExampleAccepted()
    ensures var tiers := map["1080p30" := Tier(4000000.0, 6000000.0, 8000000.0)];
      Admission(tiers, 0, 10.0, "1080p30") == AdmissionResult(true, 8000000.0, 4.0, 10.0, Accepted)
  {
  }

  /** A worked example: 5 Mbps, one 1080p30 streamer already active. */
  lemma AdmissionExampleRejected()
    ensures var tiers := map["1080p30" := Tier(4000000.0, 6000000.0, 8000000.0)];
      Admission(tiers, 1, 5.0, "1080p30") == AdmissionResult(false, 0.0, 4.0, 2.5, InsufficientBandwidth)
  {
  }

  datatype StreamerStatus = StreamerStatus(id: string, quality: string, bitrate: real)

  /** `getStatus`'s snapshot; bandwidths in Mbps, bitrates in bps. */
  datatype Status = Status(
    totalBandwidth: real,
    usedBandwidth: real,
    availableBandwidth: real,
    activeStreamers: nat,
    streamers: seq<StreamerStatus>)

  class BandwidthManager {
    var totalAvailableBandwidth: real
    var activeStreamers: Streamers
    const qualityTiers: Catalog

    ghost predicate Valid()
      reads this
    {
      Distinct(activeStreamers)
    }

    constructor (tiers: Catalog)
      ensures Valid()
      ensures qualityTiers == tiers && totalAvailableBandwidth == 0.0 && activeStreamers == []
    {
      totalAvailableBandwidth := 0.0;
      activeStreamers := [];
      qualityTiers := tiers;
    }

    /** Replaces the capacity figure; allocations are not recomputed. */
    method SetTotalBandwidth(bandwidth: real)
      modifies this`totalAvailableBandwidth
      ensures totalAvailableBandwidth == bandwidth
    {
      totalAvailableBandwidth := bandwidth;
    }

    /** Computes the equal-share allocation without changing any state. */
    method CalculateAllocation() returns (allocations: Dict<string, real>)
      ensures allocations == AllocationOf(qualityTiers, totalAvailableBandwidth, activeStreamers)
    {
      allocations := [];
      var activeCount := |activeStreamers|;
      if activeCount == 0 {
        return;
      }
      var fairShareMbps := totalAvailableBandwidth / activeCount as real;
      for i := 0 to activeCount
        invariant allocations == Allocations(qualityTiers, fairShareMbps, activeStreamers[..i])
      {
        assert activeStreamers[..i + 1][..i] == activeStreamers[..i];
        var (streamerId, streamerInfo) := activeStreamers[i];
        if streamerInfo.quality !in qualityTiers {
          continue;
        }
        var tier := qualityTiers[streamerInfo.quality];
        var tierMaxMbps := tier.bitrateMax / BpsPerMbps;
        var allocatedMbps := Min(tierMaxMbps, fairShareMbps);
        var allocatedBps := allocatedMbps * BpsPerMbps;
        allocations := allocations + [(streamerId, allocatedBps)];
      }
      assert activeStreamers[..activeCount] == activeStreamers;
    }

    /** The admission decision against the current capacity and head-count. */
    function CanAcceptNewStreamer(quality: string): (r: AdmissionResult)
      reads this
      ensures quality in qualityTiers ==> r.available == totalAvailableBandwidth / (|activeStreamers| + 1) as real
      ensures r.allowed ==> (quality in qualityTiers &&
        qualityTiers[quality].bitrateMin <= r.allocatedBitrate <= qualityTiers[quality].bitrateMax)
      ensures !r.allowed ==> r.allocatedBitrate == 0.0
    {
      Admission(qualityTiers, |activeStreamers|, totalAvailableBandwidth, quality)
    }

    /** Inserts (or overwrites) the streamer with no allocation yet, then reallocates. */
    method AddStreamer(streamId: string, quality: string, socketId: string) returns (allocations: Dict<string, real>)
      requires Valid()
      modifies this`activeStreamers
      ensures Valid()
      ensures var added := Set(old(activeStreamers), streamId, StreamerInfo(quality, socketId, 0.0));
        && activeStreamers == Reallocated(qualityTiers, totalAvailableBandwidth, added)
        && allocations == AllocationOf(qualityTiers, totalAvailableBandwidth, added)
    {
      activeStreamers := Set(activeStreamers, streamId, StreamerInfo(quality, socketId, 0.0));
      allocations := ReallocateBandwidth();
    }

    /** Deletes the streamer if present (no error otherwise), then always reallocates. */
    method RemoveStreamer(streamId: string) returns (allocations: Dict<string, real>)
      requires Valid()
      modifies this`activeStreamers
      ensures Valid()
      ensures var removed := Remove(old(activeStreamers), streamId);
        && activeStreamers == Reallocated(qualityTiers, totalAvailableBandwidth, removed)
        && allocations == AllocationOf(qualityTiers, totalAvailableBandwidth, removed)
      ensures !Has(activeStreamers, streamId)
    {
      if Has(activeStreamers, streamId) {
        activeStreamers := Remove(activeStreamers, streamId);
      }
      allocations := ReallocateBandwidth();
      assert Get(activeStreamers, streamId) == None;
    }

    /**
     * Recomputes the allocation and writes each value back into the
     * streamer it names; streamers absent from the allocation (unknown tier)
     * keep their previous `allocatedBitrate`.
     */
    method ReallocateBandwidth() returns (allocations: Dict<string, real>)
      requires Valid()
      modifies this`activeStreamers
      ensures Valid()
      ensures activeStreamers == Reallocated(qualityTiers, totalAvailableBandwidth, old(activeStreamers))
      ensures allocations == AllocationOf(qualityTiers, totalAvailableBandwidth, old(activeStreamers))
    {
      allocations := CalculateAllocation();
      ghost var s0 := activeStreamers;
      if |s0| > 0 {
        AllocationsDistinct(qualityTiers, FairShareMbps(totalAvailableBandwidth, |s0|), s0);
      }
      for j := 0 to |allocations|
        invariant SameKeys(s0, activeStreamers) && Distinct(activeStreamers)
        invariant forall k :: 0 <= k < |s0| ==>
          activeStreamers[k].1 == WrittenBack(s0[k].1, Get(allocations[..j], s0[k].0))
      {
        WriteBackStep(s0, activeStreamers, allocations, j);
        var (streamId, allocatedBitrate) := allocations[j];
        match Find(activeStreamers, streamId) {
          case Some(i) =>
            var streamerInfo := activeStreamers[i].1;
            activeStreamers := activeStreamers[i := (streamId, streamerInfo.(allocatedBitrate := allocatedBitrate))];
          case None =>
        }
      }
      assert allocations[..|allocations|] == allocations;
      WrittenBackIsReallocated(qualityTiers, totalAvailableBandwidth, s0, activeStreamers);
    }

    /** The socket of a registered streamer, or nothing. */
    function GetStreamerSocketId(streamId: string): (socketId: Option<string>)
      reads this
      ensures socketId.None? <==> forall i :: 0 <= i < |activeStreamers| ==> activeStreamers[i].0 != streamId
      ensures Valid() ==> forall i :: 0 <= i < |activeStreamers| && activeStreamers[i].0 == streamId ==>
        socketId == Some(activeStreamers[i].1.socketId)
    {
      match Get(activeStreamers, streamId)
      case None => None
      case Some(info) => Some(info.socketId)
    }

    /** A read-only snapshot of capacity, usage and the streamers in iteration order. */
    method GetStatus() returns (status: Status)
      ensures status.totalBandwidth == totalAvailableBandwidth
      ensures status.usedBandwidth == SumAllocated(activeStreamers) / BpsPerMbps
      ensures status.availableBandwidth >= 0.0
      ensures status.availableBandwidth == Max(0.0, totalAvailableBandwidth - status.usedBandwidth)
      ensures status.activeStreamers == |activeStreamers|
      ensures |status.streamers| == |activeStreamers|
      ensures forall i :: 0 <= i < |activeStreamers| ==>
        status.streamers[i] == StreamerStatus(activeStreamers[i].0, activeStreamers[i].1.quality, activeStreamers[i].1.allocatedBitrate)
    {
      var usedBandwidthBps := 0.0;
      var streamers: seq<StreamerStatus> := [];
      for i := 0 to |activeStreamers|
        invariant usedBandwidthBps == SumAllocated(activeStreamers[..i])
        invariant |streamers| == i
        invariant forall k :: 0 <= k < i ==>
          streamers[k] == StreamerStatus(activeStreamers[k].0, activeStreamers[k].1.quality, activeStreamers[k].1.allocatedBitrate)
      {
        assert activeStreamers[..i + 1][..i] == activeStreamers[..i];
        SumAllocatedSnoc(activeStreamers[..i + 1]);
        var (streamId, info) := activeStreamers[i];
        usedBandwidthBps := usedBandwidthBps + info.allocatedBitrate;
        streamers := streamers + [StreamerStatus(streamId, info.quality, info.allocatedBitrate)];
      }
      assert activeStreamers[..|activeStreamers|] == activeStreamers;
      var usedBandwidthMbps := usedBandwidthBps / BpsPerMbps;
      var availableBandwidthMbps := Max(0.0, totalAvailableBandwidth - usedBandwidthMbps);
      status := Status(totalAvailableBandwidth, usedBandwidthMbps, availableBandwidthMbps, |activeStreamers|, streamers);
    }

    /** Forgets the capacity and every streamer. */
    method Reset()
      modifies this`totalAvailableBandwidth, this`activeStreamers
      ensures Valid()
      ensures totalAvailableBandwidth == 0.0 && activeStreamers == []
    {
      totalAvailableBandwidth := 0.0;
      activeStreamers := [];
    }
  }
}
