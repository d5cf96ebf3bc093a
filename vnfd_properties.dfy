/** Properties of the VNFD translation (osm_im/im_translation.py, lines 104-551), proved about the
    stage functions of module VnfdRules. */
module VnfdProperties {
  import opened Wrappers
  import opened Errors
  import opened Seqs
  import Strings
  import Im
  import opened Sol006
  import opened VnfdRules

  // ---------------------------------------------------------------- flavors

  /** A storage descriptor is built exactly for each VDU whose flavor has a non-zero storage-gb. */
  lemma FlavorStorageMember(vdus: seq<Im.Vdu>, sd: VirtualStorageDesc)
    ensures sd in Collect(vdus, FlavorStorageDesc) <==>
              exists i :: 0 <= i < |vdus| && vdus[i].vmFlavor.Some? && Im.NonZero(vdus[i].vmFlavor.value.storageGb) &&
                          sd == VirtualStorageDesc(StorageDescId(vdus[i].id), vdus[i].vmFlavor.value.storageGb, None)
  {
    CollectMember(vdus, FlavorStorageDesc, sd);
  }

  /** A compute descriptor is built exactly for each VDU whose flavor has a non-zero vcpu-count or
      memory-mb; it has a virtual-cpu iff the vcpu-count is set, and memory in GiB iff memory-mb is. */
  lemma FlavorComputeMember(vdus: seq<Im.Vdu>, cd: VirtualComputeDesc)
    ensures cd in Collect(vdus, FlavorComputeDesc) <==>
              exists i :: 0 <= i < |vdus| && vdus[i].vmFlavor.Some? &&
                          (Im.NonZero(vdus[i].vmFlavor.value.vcpuCount) || Im.NonZero(vdus[i].vmFlavor.value.memoryMb)) &&
                          cd.id == ComputeDescId(vdus[i].id) &&
                          (cd.virtualCpu.Some? <==> Im.NonZero(vdus[i].vmFlavor.value.vcpuCount)) &&
                          (cd.virtualCpu.Some? ==> cd.virtualCpu.value == VirtualCpu(vdus[i].vmFlavor.value.vcpuCount, None, None)) &&
                          (cd.virtualMemory.Some? <==> Im.NonZero(vdus[i].vmFlavor.value.memoryMb)) &&
                          (cd.virtualMemory.Some? ==>
                             cd.virtualMemory.value == VirtualMemory(Some(vdus[i].vmFlavor.value.memoryMb.value as real / 1024.0), None, None, None, None))
  {
    CollectMember(vdus, FlavorComputeDesc, cd);
    forall i | 0 <= i < |vdus|
      ensures FlavorComputeDesc(vdus[i]) == Some(cd) <==>
                vdus[i].vmFlavor.Some? &&
                (Im.NonZero(vdus[i].vmFlavor.value.vcpuCount) || Im.NonZero(vdus[i].vmFlavor.value.memoryMb)) &&
                cd.id == ComputeDescId(vdus[i].id) &&
                (cd.virtualCpu.Some? <==> Im.NonZero(vdus[i].vmFlavor.value.vcpuCount)) &&
                (cd.virtualCpu.Some? ==> cd.virtualCpu.value == VirtualCpu(vdus[i].vmFlavor.value.vcpuCount, None, None)) &&
                (cd.virtualMemory.Some? <==> Im.NonZero(vdus[i].vmFlavor.value.memoryMb)) &&
                (cd.virtualMemory.Some? ==>
                   cd.virtualMemory.value == VirtualMemory(Some(vdus[i].vmFlavor.value.memoryMb.value as real / 1024.0), None, None, None, None))
    {
    }
  }

  /** The VDU stage refers to a VDU's flavor descriptors under the same conditions the flavor
      stage creates them, by the same ids. */
  lemma FlavorRefsFollowDescs(vdu: Im.Vdu)
    ensures VduComputeRef(vdu) == if FlavorComputeDesc(vdu).Some? then Some(FlavorComputeDesc(vdu).value.id) else None
    ensures VduStorageRef(vdu) == if FlavorStorageDesc(vdu).Some? then Some([FlavorStorageDesc(vdu).value.id]) else None
  {
  }

  /** So every flavor reference of a VDU names a descriptor of the flavor stage. */
  lemma FlavorRefsResolve(vdus: seq<Im.Vdu>, i: int)
    requires 0 <= i < |vdus|
    ensures VduComputeRef(vdus[i]).Some? ==>
              exists cd :: cd in Collect(vdus, FlavorComputeDesc) && cd.id == VduComputeRef(vdus[i]).value
    ensures VduStorageRef(vdus[i]).Some? ==>
              exists sd :: sd in Collect(vdus, FlavorStorageDesc) && [sd.id] == VduStorageRef(vdus[i]).value
  {
    FlavorRefsFollowDescs(vdus[i]);
    if FlavorComputeDesc(vdus[i]).Some? {
      CollectMember(vdus, FlavorComputeDesc, FlavorComputeDesc(vdus[i]).value);
    }
    if FlavorStorageDesc(vdus[i]).Some? {
      CollectMember(vdus, FlavorStorageDesc, FlavorStorageDesc(vdus[i]).value);
    }
  }

  // ---------------------------------------------------------------- guest EPA

  /** numa-enabled is set exactly when a numa-node-policy is; mempage-size only when truthy. */
  lemma EpaMemoryKeys(epa: Im.GuestEpa)
    ensures EpaVirtualMemory(epa).numaEnabled == Some(true) <==> epa.numaNodePolicy.Some?
    ensures EpaVirtualMemory(epa).numaEnabled.None? <==> epa.numaNodePolicy.None?
    ensures EpaVirtualMemory(epa).numaNodePolicy == epa.numaNodePolicy
    ensures EpaVirtualMemory(epa).mempageSize.Some? <==> Im.Truthy(epa.mempageSize)
    ensures EpaVirtualMemory(epa).size.None?
  {
  }

  /** Pinning is written when a cpu or thread pinning policy is set; its policy is `dynamic` for
      SHARED and `static` for any other policy, and absent when no cpu pinning policy is set. */
  lemma EpaPinning(epa: Im.GuestEpa)
    ensures EpaVirtualCpu(epa).pinning.Some? <==> Im.Truthy(epa.cpuPinningPolicy) || Im.Truthy(epa.cpuThreadPinningPolicy)
    ensures EpaVirtualCpu(epa).pinning.Some? ==>
              (EpaVirtualCpu(epa).pinning.value.policy == Some("dynamic") <==> epa.cpuPinningPolicy == Some("SHARED")) &&
              (EpaVirtualCpu(epa).pinning.value.policy == Some("static") <==>
                 Im.Truthy(epa.cpuPinningPolicy) && epa.cpuPinningPolicy != Some("SHARED")) &&
              (EpaVirtualCpu(epa).pinning.value.policy.None? <==> !Im.Truthy(epa.cpuPinningPolicy)) &&
              EpaVirtualCpu(epa).pinning.value.threadPolicy == IfTruthy(epa.cpuThreadPinningPolicy)
    ensures EpaVirtualCpu(epa).cpuQuota == epa.cpuQuota
  {
  }

  /** Merging keeps the descriptor's id, and every key guest EPA sets wins over the old one. */
  lemma MergeEpaComputeKeys(d: VirtualComputeDesc, epa: Im.GuestEpa)
    ensures MergeEpaCompute(d, epa).id == d.id
    ensures EpaVirtualCpu(epa).pinning.Some? ==>
              MergeEpaCompute(d, epa).virtualCpu.Some? && MergeEpaCompute(d, epa).virtualCpu.value.pinning == EpaVirtualCpu(epa).pinning
    ensures EpaVirtualCpu(epa).pinning.None? && d.virtualCpu.Some? ==>
              MergeEpaCompute(d, epa).virtualCpu.Some? && MergeEpaCompute(d, epa).virtualCpu.value.pinning == d.virtualCpu.value.pinning
    ensures d.virtualCpu.Some? ==>
              MergeEpaCompute(d, epa).virtualCpu.Some? &&
              MergeEpaCompute(d, epa).virtualCpu.value.numVirtualCpu == d.virtualCpu.value.numVirtualCpu
    ensures d.virtualMemory.Some? ==>
              MergeEpaCompute(d, epa).virtualMemory.Some? &&
              MergeEpaCompute(d, epa).virtualMemory.value.size == d.virtualMemory.value.size
    ensures epa.numaNodePolicy.Some? ==>
              MergeEpaCompute(d, epa).virtualMemory.Some? &&
              MergeEpaCompute(d, epa).virtualMemory.value.numaEnabled == Some(true) &&
              MergeEpaCompute(d, epa).virtualMemory.value.numaNodePolicy == epa.numaNodePolicy
  {
  }

  /** Find-or-append: the VDU's compute descriptor (the last one with its id) is merged in place,
      or, when there is none, one is appended; nothing else changes. */
  lemma PatchComputeFindOrAppend(descs: Option<seq<VirtualComputeDesc>>, vduId: string, epa: Im.GuestEpa)
    ensures PatchCompute(descs, vduId, epa).Some?
    ensures (exists j :: 0 <= j < |descs.GetOr([])| && descs.GetOr([])[j].id == ComputeDescId(vduId)) ==>
              exists k :: 0 <= k < |descs.GetOr([])| && descs.GetOr([])[k].id == ComputeDescId(vduId) &&
                          (forall j :: k < j < |descs.GetOr([])| ==> descs.GetOr([])[j].id != ComputeDescId(vduId)) &&
                          PatchCompute(descs, vduId, epa).value == descs.GetOr([])[k := MergeEpaCompute(descs.GetOr([])[k], epa)]
    ensures (forall j :: 0 <= j < |descs.GetOr([])| ==> descs.GetOr([])[j].id != ComputeDescId(vduId)) ==>
              PatchCompute(descs, vduId, epa).value == descs.GetOr([]) + [MergeEpaCompute(VirtualComputeDesc(ComputeDescId(vduId), None, None), epa)]
  {
  }

  /** The same for disk-io-quota on storage descriptors; without a quota nothing changes. */
  lemma PatchStorageFindOrAppend(descs: Option<seq<VirtualStorageDesc>>, vduId: string, epa: Im.GuestEpa)
    ensures epa.diskIoQuota.None? ==> PatchStorage(descs, vduId, epa) == descs
    ensures epa.diskIoQuota.Some? && (exists j :: 0 <= j < |descs.GetOr([])| && descs.GetOr([])[j].id == StorageDescId(vduId)) ==>
              exists k :: 0 <= k < |descs.GetOr([])| && descs.GetOr([])[k].id == StorageDescId(vduId) &&
                          (forall j :: k < j < |descs.GetOr([])| ==> descs.GetOr([])[j].id != StorageDescId(vduId)) &&
                          PatchStorage(descs, vduId, epa) == Some(descs.GetOr([])[k := descs.GetOr([])[k].(diskIoQuota := epa.diskIoQuota)])
    ensures epa.diskIoQuota.Some? && (forall j :: 0 <= j < |descs.GetOr([])| ==> descs.GetOr([])[j].id != StorageDescId(vduId)) ==>
              PatchStorage(descs, vduId, epa) == Some(descs.GetOr([]) + [VirtualStorageDesc(StorageDescId(vduId), None, epa.diskIoQuota)])
  {
    if epa.diskIoQuota.Some? {
      var s := descs.GetOr([]);
      match LastIndex(s, StorageId, StorageDescId(vduId))
      case Some(k) =>
        assert PatchStorage(descs, vduId, epa) == Some(s[k := s[k].(diskIoQuota := epa.diskIoQuota)]);
      case None =>
        assert PatchStorage(descs, vduId, epa) == Some(s + [VirtualStorageDesc(StorageDescId(vduId), None, epa.diskIoQuota)]);
    }
  }

  /** One find-or-append step adds the VDU's descriptor id and keeps the ids distinct. */
  lemma PatchComputeKeys(descs: Option<seq<VirtualComputeDesc>>, vduId: string, epa: Im.GuestEpa)
    ensures KeySet(PatchCompute(descs, vduId, epa).GetOr([]), ComputeId) == KeySet(descs.GetOr([]), ComputeId) + {ComputeDescId(vduId)}
    ensures KeysDistinct(descs.GetOr([]), ComputeId) ==> KeysDistinct(PatchCompute(descs, vduId, epa).GetOr([]), ComputeId)
  {
    var s := descs.GetOr([]);
    var r := PatchCompute(descs, vduId, epa).value;
    match LastIndex(s, ComputeId, ComputeDescId(vduId))
    case Some(k) =>
      assert Map(r, ComputeId) == Map(s, ComputeId);
      forall x ensures x in KeySet(r, ComputeId) <==> x in KeySet(s, ComputeId)
      {
        MapKeySet(r, ComputeId, x);
        MapKeySet(s, ComputeId, x);
      }
      assert s[k] in s;
    case None =>
      KeySetSnoc(s, MergeEpaCompute(VirtualComputeDesc(ComputeDescId(vduId), None, None), epa), ComputeId);
  }

  lemma PatchStorageKeys(descs: Option<seq<VirtualStorageDesc>>, vduId: string, epa: Im.GuestEpa)
    ensures epa.diskIoQuota.Some? ==>
              KeySet(PatchStorage(descs, vduId, epa).GetOr([]), StorageId) == KeySet(descs.GetOr([]), StorageId) + {StorageDescId(vduId)}
    ensures KeysDistinct(descs.GetOr([]), StorageId) ==> KeysDistinct(PatchStorage(descs, vduId, epa).GetOr([]), StorageId)
  {
    if epa.diskIoQuota.Some? {
      var s := descs.GetOr([]);
      var r := PatchStorage(descs, vduId, epa).value;
      match LastIndex(s, StorageId, StorageDescId(vduId))
      case Some(k) =>
        assert Map(r, StorageId) == Map(s, StorageId);
        forall x ensures x in KeySet(r, StorageId) <==> x in KeySet(s, StorageId)
        {
          MapKeySet(r, StorageId, x);
          MapKeySet(s, StorageId, x);
        }
        assert s[k] in s;
      case None =>
        KeySetSnoc(s, VirtualStorageDesc(StorageDescId(vduId), None, epa.diskIoQuota), StorageId);
    }
  }

  /** Some VDU of `vdus` has guest EPA and `x` is its compute descriptor id. */
  ghost predicate EpaComputeFor(vdus: seq<Im.Vdu>, x: string)
  {
    exists i :: 0 <= i < |vdus| && vdus[i].guestEpa.Some? && x == ComputeDescId(vdus[i].id)
  }

  /** Some VDU of `vdus` has a guest EPA disk-io-quota and `x` is its storage descriptor id. */
  ghost predicate DiskIoFor(vdus: seq<Im.Vdu>, x: string)
  {
    exists i :: 0 <= i < |vdus| && vdus[i].guestEpa.Some? && vdus[i].guestEpa.value.diskIoQuota.Some? && x == StorageDescId(vdus[i].id)
  }

  /** After the EPA stage there is a compute descriptor for every VDU with guest EPA, besides the
      ones the flavor stage made, and never two with the same id. */
  lemma {:induction false} EpaComputeKeys(vdus: seq<Im.Vdu>, descs: Option<seq<VirtualComputeDesc>>)
    ensures forall x :: x in KeySet(EpaCompute(vdus, descs).GetOr([]), ComputeId) <==>
              x in KeySet(descs.GetOr([]), ComputeId) || EpaComputeFor(vdus, x)
    ensures KeysDistinct(descs.GetOr([]), ComputeId) ==> KeysDistinct(EpaCompute(vdus, descs).GetOr([]), ComputeId)
  {
    if vdus != [] {
      var p, d := vdus[..|vdus| - 1], vdus[|vdus| - 1];
      EpaComputeKeys(p, descs);
      if d.guestEpa.Some? {
        PatchComputeKeys(EpaCompute(p, descs), d.id, d.guestEpa.value);
      }
      forall x
        ensures EpaComputeFor(vdus, x) <==> EpaComputeFor(p, x) || (d.guestEpa.Some? && x == ComputeDescId(d.id))
      {
        if exists i :: 0 <= i < |vdus| && vdus[i].guestEpa.Some? && x == ComputeDescId(vdus[i].id) {
          var i :| 0 <= i < |vdus| && vdus[i].guestEpa.Some? && x == ComputeDescId(vdus[i].id);
          if i < |p| { assert p[i] == vdus[i]; }
        }
        if exists i :: 0 <= i < |p| && p[i].guestEpa.Some? && x == ComputeDescId(p[i].id) {
          var i :| 0 <= i < |p| && p[i].guestEpa.Some? && x == ComputeDescId(p[i].id);
          assert vdus[i] == p[i];
        }
      }
    }
  }

  /** The same for storage descriptors and the VDUs whose guest EPA has a disk-io-quota. */
  lemma {:induction false} EpaStorageKeys(vdus: seq<Im.Vdu>, descs: Option<seq<VirtualStorageDesc>>)
    ensures forall x :: x in KeySet(EpaStorage(vdus, descs).GetOr([]), StorageId) <==>
              x in KeySet(descs.GetOr([]), StorageId) || DiskIoFor(vdus, x)
    ensures KeysDistinct(descs.GetOr([]), StorageId) ==> KeysDistinct(EpaStorage(vdus, descs).GetOr([]), StorageId)
  {
    if vdus != [] {
      var p, d := vdus[..|vdus| - 1], vdus[|vdus| - 1];
      EpaStorageKeys(p, descs);
      if d.guestEpa.Some? {
        PatchStorageKeys(EpaStorage(p, descs), d.id, d.guestEpa.value);
      }
      forall x
        ensures DiskIoFor(vdus, x) <==> DiskIoFor(p, x) || (d.guestEpa.Some? && d.guestEpa.value.diskIoQuota.Some? && x == StorageDescId(d.id))
      {
        if exists i :: 0 <= i < |vdus| && vdus[i].guestEpa.Some? && vdus[i].guestEpa.value.diskIoQuota.Some? && x == StorageDescId(vdus[i].id) {
          var i :| 0 <= i < |vdus| && vdus[i].guestEpa.Some? && vdus[i].guestEpa.value.diskIoQuota.Some? && x == StorageDescId(vdus[i].id);
          if i < |p| { assert p[i] == vdus[i]; }
        }
        if exists i :: 0 <= i < |p| && p[i].guestEpa.Some? && p[i].guestEpa.value.diskIoQuota.Some? && x == StorageDescId(p[i].id) {
          var i :| 0 <= i < |p| && p[i].guestEpa.Some? && p[i].guestEpa.value.diskIoQuota.Some? && x == StorageDescId(p[i].id);
          assert vdus[i] == p[i];
        }
      }
    }
  }

  // ---------------------------------------------------------------- images

  /** Every image candidate uses its image name as id, name and image. */
  lemma {:induction false} ImageCandidatesShape(vdus: seq<Im.Vdu>)
    ensures forall c :: c in ImageCandidates(vdus) ==> c.id == c.image && c.name == c.image
  {
    if vdus != [] {
      ImageCandidatesShape(vdus[..|vdus| - 1]);
      var d := vdus[|vdus| - 1];
      forall c | c in VduImageCandidates(d) ensures c.id == c.image && c.name == c.image
      {
        if c !in (if PrimaryImageDesc(d).Some? then [PrimaryImageDesc(d).value] else []) {
          var j :| 0 <= j < |Map(d.alternativeImages, AlternativeImageDesc)| && Map(d.alternativeImages, AlternativeImageDesc)[j] == c;
        }
      }
    }
  }

  /** The VDU's image, when truthy, and every alternative image, as the image names seen. */
  ghost predicate VduNamesImage(vdu: Im.Vdu, x: string)
  {
    (Im.Truthy(vdu.image) && vdu.image.value == x) ||
    exists j :: 0 <= j < |vdu.alternativeImages| && vdu.alternativeImages[j].image == x
  }

  /** One VDU's candidate ids are the image names it mentions. */
  lemma VduCandidateIds(d: Im.Vdu, x: string)
    ensures x in KeySet(VduImageCandidates(d), ImageId) <==> VduNamesImage(d, x)
  {
    var own := VduImageCandidates(d);
    var alts := Map(d.alternativeImages, AlternativeImageDesc);
    if x in KeySet(own, ImageId) {
      var c :| c in own && ImageId(c) == x;
      if c in alts {
        var j :| 0 <= j < |alts| && alts[j] == c;
      }
    }
    if exists j :: 0 <= j < |d.alternativeImages| && d.alternativeImages[j].image == x {
      var j :| 0 <= j < |d.alternativeImages| && d.alternativeImages[j].image == x;
      assert alts[j] in own;
    }
    if Im.Truthy(d.image) && d.image.value == x {
      assert PrimaryImageDesc(d).value in own;
    }
  }

  /** The candidate ids are exactly the image names the VDUs mention. */
  lemma {:induction false} ImageCandidateIds(vdus: seq<Im.Vdu>, x: string)
    ensures x in KeySet(ImageCandidates(vdus), ImageId) <==> exists i :: 0 <= i < |vdus| && VduNamesImage(vdus[i], x)
  {
    if vdus != [] {
      var p, d := vdus[..|vdus| - 1], vdus[|vdus| - 1];
      ImageCandidateIds(p, x);
      VduCandidateIds(d, x);
      assert ImageCandidates(vdus) == ImageCandidates(p) + VduImageCandidates(d);
      KeySetConcat(ImageCandidates(p), VduImageCandidates(d), ImageId);
      if exists i :: 0 <= i < |vdus| && VduNamesImage(vdus[i], x) {
        var i :| 0 <= i < |vdus| && VduNamesImage(vdus[i], x);
        if i < |p| { assert p[i] == vdus[i]; }
      }
      if exists i :: 0 <= i < |p| && VduNamesImage(p[i], x) {
        var i :| 0 <= i < |p| && VduNamesImage(p[i], x);
        assert vdus[i] == p[i];
      }
    }
  }

  /** sw-image-desc: one entry per distinct image name the VDUs mention, with id, name and image
      that name, each the first candidate with that name (so its vim-type is taken from the first
      occurrence), in order of first occurrence. */
  lemma SwImageDescsSpec(vdus: seq<Im.Vdu>)
    ensures KeysDistinct(SwImageDescs(vdus), ImageId)
    ensures forall x :: x in KeySet(SwImageDescs(vdus), ImageId) <==> exists i :: 0 <= i < |vdus| && VduNamesImage(vdus[i], x)
    ensures forall d :: d in SwImageDescs(vdus) ==> d.id == d.image && d.name == d.image
    ensures forall k :: 0 <= k < |SwImageDescs(vdus)| ==>
              SwImageDescs(vdus)[k].id in KeySet(ImageCandidates(vdus), ImageId) &&
              SwImageDescs(vdus)[k] == ImageCandidates(vdus)[FirstIndex(ImageCandidates(vdus), ImageId, SwImageDescs(vdus)[k].id)]
    ensures forall k1, k2 :: 0 <= k1 < k2 < |SwImageDescs(vdus)| ==>
              SwImageDescs(vdus)[k1].id in KeySet(ImageCandidates(vdus), ImageId) &&
              SwImageDescs(vdus)[k2].id in KeySet(ImageCandidates(vdus), ImageId) &&
              FirstIndex(ImageCandidates(vdus), ImageId, SwImageDescs(vdus)[k1].id)
                < FirstIndex(ImageCandidates(vdus), ImageId, SwImageDescs(vdus)[k2].id)
  {
    var cands := ImageCandidates(vdus);
    FirstOccurrencesKeys(cands, ImageId);
    FirstOccurrencesAreFirst(cands, ImageId);
    ImageCandidatesShape(vdus);
    forall x ensures x in KeySet(SwImageDescs(vdus), ImageId) <==> exists i :: 0 <= i < |vdus| && VduNamesImage(vdus[i], x)
    {
      ImageCandidateIds(vdus, x);
    }
  }

  /** The VDU's own alternative-sw-image-desc list keeps every alternative, duplicates included. */
  lemma VduAlternativesKept(vdu: Im.Vdu)
    ensures |vdu.alternativeImages| == 0 ==> VduAlternativeSwImages(vdu).None?
    ensures |vdu.alternativeImages| > 0 ==>
              VduAlternativeSwImages(vdu).Some? && |VduAlternativeSwImages(vdu).value| == |vdu.alternativeImages| &&
              forall j :: 0 <= j < |vdu.alternativeImages| ==> VduAlternativeSwImages(vdu).value[j] == vdu.alternativeImages[j].image
  {
  }

  // ---------------------------------------------------------------- connection points

  /** One int-cpd per interface, in order, named `<interface>-int`, carrying the interface's
      name, virtual-interface and position, not yet linked to a VLD. */
  lemma IntCpdsPerInterface(vdu: Im.Vdu)
    ensures |VduDescriptorOf(vdu).intCpd| == |vdu.interfaces|
    ensures forall j :: 0 <= j < |vdu.interfaces| ==>
              VduDescriptorOf(vdu).intCpd[j].id == vdu.interfaces[j].name + "-int" &&
              VduDescriptorOf(vdu).intCpd[j].virtualNetworkInterfaceRequirement ==
                [VirtualNetworkInterfaceRequirement(vdu.interfaces[j].name, vdu.interfaces[j].virtualInterface, vdu.interfaces[j].position)] &&
              VduDescriptorOf(vdu).intCpd[j].intVirtualLinkDesc.None?
  {
  }

  /** The connection point is named `ref` and carries `port-security-enabled`. */
  ghost predicate SetsPortSecurity(cp: Im.ConnectionPoint, ref: string)
  {
    cp.name.GetOr("") == ref && cp.portSecurityEnabled.Some?
  }

  /** The connection point is named `ref` and sets a truthy `port-security-disable-strategy`. */
  ghost predicate SetsDisableStrategy(cp: Im.ConnectionPoint, ref: string)
  {
    cp.name.GetOr("") == ref && Im.Truthy(cp.portSecurityDisableStrategy)
  }

  /** Port security comes from the last connection point named `ref` that carries the key. */
  lemma {:induction false} PortSecurityEnabledSpec(cps: seq<Im.ConnectionPoint>, ref: string)
    ensures PortSecurityEnabledOf(cps, ref).Some? ==>
              exists k :: 0 <= k < |cps| && SetsPortSecurity(cps[k], ref) && cps[k].portSecurityEnabled == PortSecurityEnabledOf(cps, ref) &&
                          forall j :: k < j < |cps| ==> !SetsPortSecurity(cps[j], ref)
    ensures PortSecurityEnabledOf(cps, ref).None? ==>
              forall j :: 0 <= j < |cps| ==> !SetsPortSecurity(cps[j], ref)
  {
    if cps != [] {
      var p, cp := cps[..|cps| - 1], cps[|cps| - 1];
      PortSecurityEnabledSpec(p, ref);
      if SetsPortSecurity(cp, ref) {
        assert cps[|p|] == cp;
      } else if PortSecurityEnabledOf(p, ref).Some? {
        var k :| 0 <= k < |p| && SetsPortSecurity(p[k], ref) && p[k].portSecurityEnabled == PortSecurityEnabledOf(p, ref) &&
                 forall j :: k < j < |p| ==> !SetsPortSecurity(p[j], ref);
        assert cps[k] == p[k];
        forall j | k < j < |cps| ensures !SetsPortSecurity(cps[j], ref) {
          if j < |p| { assert cps[j] == p[j]; }
        }
      } else {
        forall j | 0 <= j < |cps| ensures !SetsPortSecurity(cps[j], ref) {
          if j < |p| { assert cps[j] == p[j]; }
        }
      }
    }
  }

  /** The disable strategy comes from the last connection point named `ref` that sets it. */
  lemma {:induction false} PortSecurityDisableStrategySpec(cps: seq<Im.ConnectionPoint>, ref: string)
    ensures PortSecurityDisableStrategyOf(cps, ref).Some? ==>
              exists k :: 0 <= k < |cps| && SetsDisableStrategy(cps[k], ref) &&
                          cps[k].portSecurityDisableStrategy == PortSecurityDisableStrategyOf(cps, ref) &&
                          forall j :: k < j < |cps| ==> !SetsDisableStrategy(cps[j], ref)
    ensures PortSecurityDisableStrategyOf(cps, ref).None? ==>
              forall j :: 0 <= j < |cps| ==> !SetsDisableStrategy(cps[j], ref)
  {
    if cps != [] {
      var p, cp := cps[..|cps| - 1], cps[|cps| - 1];
      PortSecurityDisableStrategySpec(p, ref);
      if SetsDisableStrategy(cp, ref) {
        assert cps[|p|] == cp;
      } else if PortSecurityDisableStrategyOf(p, ref).Some? {
        var k :| 0 <= k < |p| && SetsDisableStrategy(p[k], ref) &&
                 p[k].portSecurityDisableStrategy == PortSecurityDisableStrategyOf(p, ref) &&
                 forall j :: k < j < |p| ==> !SetsDisableStrategy(p[j], ref);
        assert cps[k] == p[k];
        forall j | k < j < |cps| ensures !SetsDisableStrategy(cps[j], ref) {
          if j < |p| { assert cps[j] == p[j]; }
        }
      } else {
        forall j | 0 <= j < |cps| ensures !SetsDisableStrategy(cps[j], ref) {
          if j < |p| { assert cps[j] == p[j]; }
        }
      }
    }
  }

  /** The ext-cpd an interface with external reference `ref` yields. */
  ghost predicate ExtCpdFor(vduId: string, iface: Im.Interface, cps: seq<Im.ConnectionPoint>, e: ExtCpd)
  {
    Im.Truthy(iface.externalConnectionPointRef) &&
    e == VduExtCpd(iface.externalConnectionPointRef.value + "-ext", vduId, iface.name + "-int",
                   PortSecurityEnabledOf(cps, iface.externalConnectionPointRef.value),
                   PortSecurityDisableStrategyOf(cps, iface.externalConnectionPointRef.value))
  }

  /** A VDU's ext-cpds are exactly one per interface with a truthy external reference, named
      `<ref>-ext` and linking the VDU's `<interface>-int`. */
  lemma {:induction false} ExtCpdsOfMember(vduId: string, ifaces: seq<Im.Interface>, cps: seq<Im.ConnectionPoint>, e: ExtCpd)
    ensures e in ExtCpdsOf(vduId, ifaces, cps) <==> exists j :: 0 <= j < |ifaces| && ExtCpdFor(vduId, ifaces[j], cps, e)
  {
    if ifaces != [] {
      var p := ifaces[..|ifaces| - 1];
      ExtCpdsOfMember(vduId, p, cps, e);
      var last := ifaces[|ifaces| - 1];
      assert ExtCpdOf(vduId, last, cps) == Some(e) <==> ExtCpdFor(vduId, last, cps, e);
      if exists j :: 0 <= j < |ifaces| && ExtCpdFor(vduId, ifaces[j], cps, e) {
        var j :| 0 <= j < |ifaces| && ExtCpdFor(vduId, ifaces[j], cps, e);
        if j < |p| { assert p[j] == ifaces[j]; }
      }
      if exists j :: 0 <= j < |p| && ExtCpdFor(vduId, p[j], cps, e) {
        var j :| 0 <= j < |p| && ExtCpdFor(vduId, p[j], cps, e);
        assert ifaces[j] == p[j];
      }
    }
  }

  /** mgmt-cp is `<cp>-ext`; a missing mgmt-interface raises a lookup error on it, and a
      mgmt-interface without cp (`{}` included) one on `cp`. */
  lemma MgmtCpSpec(v: Im.Vnfd, out: Vnfd)
    ensures v.mgmtInterface.None? ==> MgmtCp(v, out) == Err(KeyError("mgmt-interface"))
    ensures v.mgmtInterface.Some? && v.mgmtInterface.value.cp.None? ==> MgmtCp(v, out) == Err(KeyError("cp"))
    ensures v.mgmtInterface.Some? && v.mgmtInterface.value.cp.Some? ==>
              MgmtCp(v, out) == Ok(out.(mgmtCp := Some(v.mgmtInterface.value.cp.value + "-ext")))
  {
  }

  // ---------------------------------------------------------------- deployment flavour

  lemma {:induction false} VduProfilesAt(vdus: seq<Im.Vdu>, groups: seq<Im.ScalingGroup>)
    ensures |VduProfiles(vdus, groups)| == |vdus|
    ensures forall i :: 0 <= i < |vdus| ==> VduProfiles(vdus, groups)[i] == VduProfileOf(vdus[i], groups)
  {
    if vdus != [] {
      VduProfilesAt(vdus[..|vdus| - 1], groups);
    }
  }

  /** The last referencing group is the last group listing the VDU. */
  lemma {:induction false} LastReferencingGroupAt(groups: seq<Im.ScalingGroup>, vduId: string, k: int)
    requires 0 <= k < |groups| && GroupReferences(groups[k], vduId)
    requires forall j :: k < j < |groups| ==> !GroupReferences(groups[j], vduId)
    ensures LastReferencingGroup(groups, vduId) == Some(groups[k])
    decreases |groups|
  {
    if k < |groups| - 1 {
      var p := groups[..|groups| - 1];
      assert p[k] == groups[k];
      LastReferencingGroupAt(p, vduId, k);
    }
  }

  lemma {:induction false} NoReferencingGroup(groups: seq<Im.ScalingGroup>, vduId: string)
    requires forall j :: 0 <= j < |groups| ==> !GroupReferences(groups[j], vduId)
    ensures LastReferencingGroup(groups, vduId).None?
  {
    if groups != [] {
      NoReferencingGroup(groups[..|groups| - 1], vduId);
    }
  }

  /** The vdu-profile bounds come from the last scaling group listing the VDU alone: min is its
      min-instance-count (default 0) plus the VDU count (default 1), max its max-instance-count
      (default 1) plus the VDU count; the bounds of earlier groups are overwritten, not added. */
  lemma VduProfileFromLastGroup(vdu: Im.Vdu, groups: seq<Im.ScalingGroup>, k: int)
    requires 0 <= k < |groups| && GroupReferences(groups[k], vdu.id)
    requires forall j :: k < j < |groups| ==> !GroupReferences(groups[j], vdu.id)
    ensures VduProfileOf(vdu, groups).id == vdu.id
    ensures VduProfileOf(vdu, groups).minNumberOfInstances == groups[k].minInstanceCount.GetOr(0) + vdu.count.GetOr(1)
    ensures VduProfileOf(vdu, groups).maxNumberOfInstances == Some(groups[k].maxInstanceCount.GetOr(1) + vdu.count.GetOr(1))
  {
    LastReferencingGroupAt(groups, vdu.id, k);
  }

  /** With no scaling group listing the VDU, min is the VDU count and max is absent. */
  lemma VduProfileWithoutGroup(vdu: Im.Vdu, groups: seq<Im.ScalingGroup>)
    requires forall j :: 0 <= j < |groups| ==> !GroupReferences(groups[j], vdu.id)
    ensures VduProfileOf(vdu, groups).minNumberOfInstances == vdu.count.GetOr(1)
    ensures VduProfileOf(vdu, groups).maxNumberOfInstances.None?
    ensures VduProfileOf(vdu, groups).vduConfigurationId.Some? <==> vdu.vduConfiguration.Some?
  {
    NoReferencingGroup(groups, vdu.id);
  }

  /** The VNFD-level vdu-configuration list holds, for each VDU with a vdu-configuration, that
      block with the id "<vdu-id>-vdu-configuration", and nothing else. */
  lemma VduConfigurationsSpec(vdus: seq<Im.Vdu>, c: Configuration)
    ensures c in Collect(vdus, VduConfigurationOf) <==>
              exists i :: 0 <= i < |vdus| && vdus[i].vduConfiguration.Some? &&
                          c == Configuration(vdus[i].id + "-vdu-configuration", vdus[i].vduConfiguration.value)
  {
    CollectMember(vdus, VduConfigurationOf, c);
  }

  /** A vdu-profile names a vdu-configuration exactly when its VDU has one, and the name it
      gives is the id of the entry the VDU contributes to the VNFD-level list. */
  lemma VduConfigurationJoin(vdus: seq<Im.Vdu>, groups: seq<Im.ScalingGroup>, i: int)
    requires 0 <= i < |vdus|
    ensures VduProfileOf(vdus[i], groups).vduConfigurationId ==
              (if vdus[i].vduConfiguration.Some? then Some(vdus[i].id + "-vdu-configuration") else None)
    ensures vdus[i].vduConfiguration.Some? ==>
              Configuration(VduProfileOf(vdus[i], groups).vduConfigurationId.value, vdus[i].vduConfiguration.value)
                in Collect(vdus, VduConfigurationOf)
  {
    if vdus[i].vduConfiguration.Some? {
      CollectMember(vdus, VduConfigurationOf, VduConfigurationOf(vdus[i]).value);
    }
  }

  /** With VDUs, the VDU stage writes one VDU per IM VDU and exactly one deployment flavour,
      default-df, with one vdu-profile per VDU and one instantiation level holding one vdu-level
      per VDU, in order; without VDUs it writes nothing. */
  lemma DefaultDfSpec(v: Im.Vnfd, out: Vnfd)
    ensures |v.vdus| == 0 ==> Vdus(v, out) == out
    ensures |v.vdus| > 0 ==>
              Vdus(v, out).vdu.Some? && |Vdus(v, out).vdu.value| == |v.vdus| &&
              (forall i :: 0 <= i < |v.vdus| ==> Vdus(v, out).vdu.value[i].id == v.vdus[i].id) &&
              Vdus(v, out).df.Some? && |Vdus(v, out).df.value| == 1 &&
              Vdus(v, out).df.value[0].id == "default-df" &&
              Vdus(v, out).df.value[0].vduProfile.Some? &&
              |Vdus(v, out).df.value[0].vduProfile.value| == |v.vdus| &&
              (forall i :: 0 <= i < |v.vdus| ==> Vdus(v, out).df.value[0].vduProfile.value[i] == VduProfileOf(v.vdus[i], v.scalingGroups)) &&
              Vdus(v, out).df.value[0].instantiationLevel.Some? &&
              |Vdus(v, out).df.value[0].instantiationLevel.value| == 1 &&
              Vdus(v, out).df.value[0].instantiationLevel.value[0].id == "default-instantiation-level" &&
              |Vdus(v, out).df.value[0].instantiationLevel.value[0].vduLevel| == |v.vdus| &&
              forall i :: 0 <= i < |v.vdus| ==>
                Vdus(v, out).df.value[0].instantiationLevel.value[0].vduLevel[i] == VduLevel(v.vdus[i].id, v.vdus[i].count.GetOr(1))
  {
    VduProfilesAt(v.vdus, v.scalingGroups);
  }

  // ---------------------------------------------------------------- internal VLDs

  /** Linking the references of one VLD fails exactly when one of them is not the
      internal-connection-point-ref of any interface, with a KeyError naming the first such. */
  lemma {:induction false} LinkRefsErrSpec(vdus: Option<seq<Vdu>>, index: map<string, (string, string)>, refs: seq<string>, vldId: string)
    ensures LinkRefs(vdus, index, refs, vldId).Err? <==> exists i :: 0 <= i < |refs| && refs[i] !in index
    ensures LinkRefs(vdus, index, refs, vldId).Err? ==>
              exists i :: 0 <= i < |refs| && refs[i] !in index && LinkRefs(vdus, index, refs, vldId).error == KeyError(refs[i]) &&
                          forall j :: 0 <= j < i ==> refs[j] in index
  {
    if refs != [] {
      var p := refs[..|refs| - 1];
      LinkRefsErrSpec(vdus, index, p, vldId);
      if exists i :: 0 <= i < |p| && p[i] !in index {
        var i :| 0 <= i < |p| && p[i] !in index;
        assert refs[i] == p[i];
      }
      if exists i :: 0 <= i < |refs| && refs[i] !in index {
        var i :| 0 <= i < |refs| && refs[i] !in index;
        if i < |p| { assert p[i] == refs[i]; }
      }
      if LinkRefs(vdus, index, p, vldId).Err? {
        var i :| 0 <= i < |p| && p[i] !in index && LinkRefs(vdus, index, p, vldId).error == KeyError(p[i]) &&
                 forall j :: 0 <= j < i ==> p[j] in index;
        assert refs[i] == p[i];
        assert forall j :: 0 <= j < i ==> refs[j] == p[j];
      } else {
        assert forall j :: 0 <= j < |p| ==> refs[j] == p[j];
      }
    }
  }

  /** The internal VLD stage fails exactly when some id-ref of some VLD is unresolved. */
  lemma {:induction false} LinkVldsErrSpec(vdus: Option<seq<Vdu>>, index: map<string, (string, string)>, vlds: seq<Im.InternalVld>)
    ensures LinkVlds(vdus, index, vlds).Err? <==>
              exists i, j :: 0 <= i < |vlds| && 0 <= j < |vlds[i].internalConnectionPoints| && vlds[i].internalConnectionPoints[j] !in index
  {
    if vlds != [] {
      var p := vlds[..|vlds| - 1];
      LinkVldsErrSpec(vdus, index, p);
      var last := vlds[|vlds| - 1];
      if LinkVlds(vdus, index, p).Ok? {
        LinkRefsErrSpec(LinkVlds(vdus, index, p).value, index, last.internalConnectionPoints, last.id);
      }
      if exists i, j :: 0 <= i < |p| && 0 <= j < |p[i].internalConnectionPoints| && p[i].internalConnectionPoints[j] !in index {
        var i, j :| 0 <= i < |p| && 0 <= j < |p[i].internalConnectionPoints| && p[i].internalConnectionPoints[j] !in index;
        assert vlds[i] == p[i];
      }
      if exists i, j :: 0 <= i < |vlds| && 0 <= j < |vlds[i].internalConnectionPoints| && vlds[i].internalConnectionPoints[j] !in index {
        var i, j :| 0 <= i < |vlds| && 0 <= j < |vlds[i].internalConnectionPoints| && vlds[i].internalConnectionPoints[j] !in index;
        if i < |p| { assert p[i] == vlds[i]; }
      }
    }
  }

  /** The interface declares internal-connection-point-ref `ref`. */
  ghost predicate DeclaresIntCpRef(iface: Im.Interface, ref: string)
  {
    Im.Truthy(iface.internalConnectionPointRef) && iface.internalConnectionPointRef.value == ref
  }

  /** Indexing a VDU's interfaces adds exactly the refs they declare. */
  lemma {:induction false} IndexInterfacesDomain(m: map<string, (string, string)>, vduId: string, ifaces: seq<Im.Interface>, ref: string)
    ensures ref in IndexInterfaces(m, vduId, ifaces) <==> ref in m || exists j :: 0 <= j < |ifaces| && DeclaresIntCpRef(ifaces[j], ref)
  {
    if ifaces != [] {
      var p := ifaces[..|ifaces| - 1];
      IndexInterfacesDomain(m, vduId, p, ref);
      if exists j :: 0 <= j < |ifaces| && DeclaresIntCpRef(ifaces[j], ref) {
        var j :| 0 <= j < |ifaces| && DeclaresIntCpRef(ifaces[j], ref);
        if j < |p| { assert DeclaresIntCpRef(p[j], ref); }
      }
      if exists j :: 0 <= j < |p| && DeclaresIntCpRef(p[j], ref) {
        var j :| 0 <= j < |p| && DeclaresIntCpRef(p[j], ref);
        assert DeclaresIntCpRef(ifaces[j], ref);
      }
    }
  }

  /** A ref keeps its old entry unless an interface declares it, and then the last one wins. */
  lemma {:induction false} IndexInterfacesValue(m: map<string, (string, string)>, vduId: string, ifaces: seq<Im.Interface>, ref: string)
    ensures ref in IndexInterfaces(m, vduId, ifaces) ==>
              (ref in m && IndexInterfaces(m, vduId, ifaces)[ref] == m[ref] && forall j :: 0 <= j < |ifaces| ==> !DeclaresIntCpRef(ifaces[j], ref)) ||
              exists j :: 0 <= j < |ifaces| && DeclaresIntCpRef(ifaces[j], ref) &&
                          IndexInterfaces(m, vduId, ifaces)[ref] == (vduId, ifaces[j].name) &&
                          forall j' :: j < j' < |ifaces| ==> !DeclaresIntCpRef(ifaces[j'], ref)
  {
    if ifaces != [] {
      var p, last := ifaces[..|ifaces| - 1], ifaces[|ifaces| - 1];
      IndexInterfacesValue(m, vduId, p, ref);
      var before, after := IndexInterfaces(m, vduId, p), IndexInterfaces(m, vduId, ifaces);
      if DeclaresIntCpRef(last, ref) {
        assert after[ref] == (vduId, ifaces[|p|].name);
      } else if ref in after {
        assert ref in before && after[ref] == before[ref];
        if exists j :: 0 <= j < |p| && DeclaresIntCpRef(p[j], ref) && before[ref] == (vduId, p[j].name) &&
                       forall j' :: j < j' < |p| ==> !DeclaresIntCpRef(p[j'], ref) {
          var j :| 0 <= j < |p| && DeclaresIntCpRef(p[j], ref) && before[ref] == (vduId, p[j].name) &&
                   forall j' :: j < j' < |p| ==> !DeclaresIntCpRef(p[j'], ref);
          assert ifaces[j] == p[j];
          forall j' | j < j' < |ifaces| ensures !DeclaresIntCpRef(ifaces[j'], ref) {
            if j' < |p| { assert ifaces[j'] == p[j']; }
          }
        } else {
          forall j | 0 <= j < |ifaces| ensures !DeclaresIntCpRef(ifaces[j], ref) {
            if j < |p| { assert ifaces[j] == p[j]; }
          }
        }
      }
    }
  }

  /** The reference index holds exactly the declared internal-connection-point-refs, each mapped
      to the id of a VDU and the name of an interface of that VDU that declares it. */
  lemma {:induction false} IntCpRefIndexSpec(vdus: seq<Im.Vdu>, ref: string)
    ensures ref in IntCpRefIndex(vdus) <==>
              exists i, j :: 0 <= i < |vdus| && 0 <= j < |vdus[i].interfaces| && DeclaresIntCpRef(vdus[i].interfaces[j], ref)
    ensures ref in IntCpRefIndex(vdus) ==>
              exists i, j :: 0 <= i < |vdus| && 0 <= j < |vdus[i].interfaces| && DeclaresIntCpRef(vdus[i].interfaces[j], ref) &&
                             IntCpRefIndex(vdus)[ref] == (vdus[i].id, vdus[i].interfaces[j].name)
  {
    if vdus != [] {
      var p, d := vdus[..|vdus| - 1], vdus[|vdus| - 1];
      IntCpRefIndexSpec(p, ref);
      IndexInterfacesDomain(IntCpRefIndex(p), d.id, d.interfaces, ref);
      IndexInterfacesValue(IntCpRefIndex(p), d.id, d.interfaces, ref);
      assert d == vdus[|p|];
      forall i | 0 <= i < |p| ensures vdus[i] == p[i] { }
      if exists i, j :: 0 <= i < |vdus| && 0 <= j < |vdus[i].interfaces| && DeclaresIntCpRef(vdus[i].interfaces[j], ref) {
        var i, j :| 0 <= i < |vdus| && 0 <= j < |vdus[i].interfaces| && DeclaresIntCpRef(vdus[i].interfaces[j], ref);
        if i < |p| {
          assert DeclaresIntCpRef(p[i].interfaces[j], ref);
        }
      }
    }
  }

  /** Linking sets int-virtual-link-desc on the int-cpds `cpdId` of the VDUs `vduId` and changes
      nothing else. */
  lemma LinkVdusSpec(vdus: seq<Vdu>, vduId: string, cpdId: string, vldId: string)
    ensures forall i :: 0 <= i < |vdus| ==>
              LinkVdus(vdus, vduId, cpdId, vldId)[i] == vdus[i].(intCpd := LinkVdus(vdus, vduId, cpdId, vldId)[i].intCpd)
    ensures forall i :: 0 <= i < |vdus| && vdus[i].id != vduId ==> LinkVdus(vdus, vduId, cpdId, vldId)[i] == vdus[i]
    ensures forall i :: 0 <= i < |vdus| ==> |LinkVdus(vdus, vduId, cpdId, vldId)[i].intCpd| == |vdus[i].intCpd|
    ensures forall i, j :: 0 <= i < |vdus| && vdus[i].id == vduId && 0 <= j < |vdus[i].intCpd| ==>
              LinkVdus(vdus, vduId, cpdId, vldId)[i].intCpd[j] ==
                (if vdus[i].intCpd[j].id == cpdId then vdus[i].intCpd[j].(intVirtualLinkDesc := Some(vldId)) else vdus[i].intCpd[j])
  {
  }

  // ---------------------------------------------------------------- IP profiles

  /** The internal VLD refers to ip-profile `name`. */
  ghost predicate RefersToIpProfile(vld: Im.InternalVld, name: string)
  {
    Im.Truthy(vld.ipProfileRef) && vld.ipProfileRef.value == name
  }

  /** ip-profile-ref -> VLD id holds exactly the truthy refs. */
  lemma {:induction false} IpProfileRefIndexDomain(vlds: seq<Im.InternalVld>, name: string)
    ensures name in IpProfileRefIndex(vlds) <==> exists i :: 0 <= i < |vlds| && RefersToIpProfile(vlds[i], name)
  {
    if vlds != [] {
      var p := vlds[..|vlds| - 1];
      IpProfileRefIndexDomain(p, name);
      if exists i :: 0 <= i < |vlds| && RefersToIpProfile(vlds[i], name) {
        var i :| 0 <= i < |vlds| && RefersToIpProfile(vlds[i], name);
        if i < |p| { assert RefersToIpProfile(p[i], name); }
      }
      if exists i :: 0 <= i < |p| && RefersToIpProfile(p[i], name) {
        var i :| 0 <= i < |p| && RefersToIpProfile(p[i], name);
        assert RefersToIpProfile(vlds[i], name);
      }
    }
  }

  /** Each ref is mapped to the last VLD naming it. */
  lemma {:induction false} IpProfileRefIndexValue(vlds: seq<Im.InternalVld>, name: string)
    ensures name in IpProfileRefIndex(vlds) ==>
              exists i :: 0 <= i < |vlds| && RefersToIpProfile(vlds[i], name) &&
                          IpProfileRefIndex(vlds)[name] == vlds[i].id &&
                          forall j :: i < j < |vlds| ==> !RefersToIpProfile(vlds[j], name)
  {
    if vlds != [] {
      var p, last := vlds[..|vlds| - 1], vlds[|vlds| - 1];
      IpProfileRefIndexValue(p, name);
      var before, after := IpProfileRefIndex(p), IpProfileRefIndex(vlds);
      if RefersToIpProfile(last, name) {
        assert after[name] == vlds[|p|].id;
      } else if name in after {
        assert name in before && after[name] == before[name];
        var i :| 0 <= i < |p| && RefersToIpProfile(p[i], name) && before[name] == p[i].id &&
                 forall j :: i < j < |p| ==> !RefersToIpProfile(p[j], name);
        assert vlds[i] == p[i];
        forall j | i < j < |vlds| ensures !RefersToIpProfile(vlds[j], name) {
          if j < |p| { assert vlds[j] == p[j]; }
        }
      }
    }
  }

  /** ip-profile-ref -> VLD id: holds exactly the truthy refs, each mapped to the last VLD naming it. */
  lemma IpProfileRefIndexSpec(vlds: seq<Im.InternalVld>, name: string)
    ensures name in IpProfileRefIndex(vlds) <==> exists i :: 0 <= i < |vlds| && RefersToIpProfile(vlds[i], name)
    ensures name in IpProfileRefIndex(vlds) ==>
              exists i :: 0 <= i < |vlds| && RefersToIpProfile(vlds[i], name) &&
                          IpProfileRefIndex(vlds)[name] == vlds[i].id &&
                          forall j :: i < j < |vlds| ==> !RefersToIpProfile(vlds[j], name)
  {
    IpProfileRefIndexDomain(vlds, name);
    IpProfileRefIndexValue(vlds, name);
  }

  /** The virtual-link-profiles: one per ip-profile, in order, identified by the VLD that refers to
      it; an ip-profile no VLD refers to raises a KeyError naming the first such profile. */
  lemma {:induction false} VirtualLinkProfilesSpec(profiles: seq<Im.IpProfile>, index: map<string, string>)
    ensures VirtualLinkProfiles(profiles, index).Err? <==> exists i :: 0 <= i < |profiles| && profiles[i].name !in index
    ensures VirtualLinkProfiles(profiles, index).Err? ==>
              exists i :: 0 <= i < |profiles| && profiles[i].name !in index &&
                          VirtualLinkProfiles(profiles, index).error == KeyError(profiles[i].name) &&
                          forall j :: 0 <= j < i ==> profiles[j].name in index
    ensures VirtualLinkProfiles(profiles, index).Ok? ==>
              |VirtualLinkProfiles(profiles, index).value| == |profiles| &&
              forall i :: 0 <= i < |profiles| ==>
                profiles[i].name in index &&
                VirtualLinkProfiles(profiles, index).value[i] == VirtualLinkProfileOf(profiles[i], index[profiles[i].name])
  {
    if profiles != [] {
      var p := profiles[..|profiles| - 1];
      VirtualLinkProfilesSpec(p, index);
      assert forall j :: 0 <= j < |p| ==> profiles[j] == p[j];
      if exists i :: 0 <= i < |profiles| && profiles[i].name !in index {
        var i :| 0 <= i < |profiles| && profiles[i].name !in index;
        if i < |p| { assert p[i].name !in index; }
      }
    }
  }

  /** The l3-protocol-data of a virtual-link-profile is written iff the ip-profile has parameters;
      it is named after the VLD, and dhcp-enabled appears only when DHCP is enabled. */
  lemma VirtualLinkProfileShape(p: Im.IpProfile, vlId: string)
    ensures VirtualLinkProfileOf(p, vlId).id == vlId && VirtualLinkProfileOf(p, vlId).flavour == ""
    ensures VirtualLinkProfileOf(p, vlId).l3ProtocolData.Some? <==> p.params.Some?
    ensures VirtualLinkProfileOf(p, vlId).l3ProtocolData.Some? ==>
              VirtualLinkProfileOf(p, vlId).l3ProtocolData.value.name == vlId + "-l3-protocol-data" &&
              VirtualLinkProfileOf(p, vlId).l3ProtocolData.value.cidr == IfTruthy(p.params.value.subnetAddress) &&
              VirtualLinkProfileOf(p, vlId).l3ProtocolData.value.gatewayIp == IfTruthy(p.params.value.gatewayAddress) &&
              (VirtualLinkProfileOf(p, vlId).l3ProtocolData.value.dhcpEnabled.Some? <==>
                 p.params.value.dhcpParams.Some? && p.params.value.dhcpParams.value.enabled == Some(true))
  {
  }

  // ---------------------------------------------------------------- monitoring parameters

  /** The `j`-th monitoring-param of `vdu` has a truthy nfvi-metric and the (vdu id, param id)
      `key`. */
  ghost predicate DeclaresMetric(vdu: Im.Vdu, key: (string, string), j: int)
  {
    0 <= j < |vdu.monitoringParams| && vdu.id == key.0 && vdu.monitoringParams[j].id == key.1 &&
    Im.Truthy(vdu.monitoringParams[j].nfviMetric)
  }

  lemma {:induction false} IndexMetricsSpec(m: map<(string, string), string>, vduId: string, mps: seq<Im.VduMonitoringParam>, key: (string, string))
    ensures key in IndexMetrics(m, vduId, mps) <==>
              key in m || exists j :: 0 <= j < |mps| && vduId == key.0 && mps[j].id == key.1 && Im.Truthy(mps[j].nfviMetric)
    ensures key in IndexMetrics(m, vduId, mps) ==>
              (key in m && IndexMetrics(m, vduId, mps)[key] == m[key]) ||
              exists j :: 0 <= j < |mps| && vduId == key.0 && mps[j].id == key.1 && Im.Truthy(mps[j].nfviMetric) &&
                          IndexMetrics(m, vduId, mps)[key] == mps[j].nfviMetric.value
  {
    if mps != [] {
      var p := mps[..|mps| - 1];
      IndexMetricsSpec(m, vduId, p, key);
      assert forall j :: 0 <= j < |p| ==> mps[j] == p[j];
      if exists j :: 0 <= j < |mps| && vduId == key.0 && mps[j].id == key.1 && Im.Truthy(mps[j].nfviMetric) {
        var j :| 0 <= j < |mps| && vduId == key.0 && mps[j].id == key.1 && Im.Truthy(mps[j].nfviMetric);
        if j < |p| { assert p[j] == mps[j]; }
      }
    }
  }

  /** The metric index holds exactly the (vdu id, monitoring-param id) pairs with a truthy
      nfvi-metric, each mapped to the metric of a monitoring-param declaring it. */
  lemma {:induction false} MetricIndexSpec(vdus: seq<Im.Vdu>, key: (string, string))
    ensures key in MetricIndex(vdus) <==> exists i, j :: 0 <= i < |vdus| && DeclaresMetric(vdus[i], key, j)
    ensures key in MetricIndex(vdus) ==>
              exists i, j :: 0 <= i < |vdus| && DeclaresMetric(vdus[i], key, j) &&
                             MetricIndex(vdus)[key] == vdus[i].monitoringParams[j].nfviMetric.value
  {
    if vdus != [] {
      var p, d := vdus[..|vdus| - 1], vdus[|vdus| - 1];
      MetricIndexSpec(p, key);
      IndexMetricsSpec(MetricIndex(p), d.id, d.monitoringParams, key);
      assert d == vdus[|p|];
      forall i | 0 <= i < |p| ensures vdus[i] == p[i] { }
      if exists i, j :: 0 <= i < |vdus| && DeclaresMetric(vdus[i], key, j) {
        var i, j :| 0 <= i < |vdus| && DeclaresMetric(vdus[i], key, j);
        if i < |p| { assert DeclaresMetric(p[i], key, j); }
      }
      if key in MetricIndex(vdus) {
        if key in MetricIndex(p) && MetricIndex(vdus)[key] == MetricIndex(p)[key] {
          var i, j :| 0 <= i < |p| && DeclaresMetric(p[i], key, j) && MetricIndex(p)[key] == p[i].monitoringParams[j].nfviMetric.value;
          assert DeclaresMetric(vdus[i], key, j);
        } else {
          var j :| 0 <= j < |d.monitoringParams| && d.id == key.0 && d.monitoringParams[j].id == key.1 &&
                   Im.Truthy(d.monitoringParams[j].nfviMetric) && MetricIndex(vdus)[key] == d.monitoringParams[j].nfviMetric.value;
          assert DeclaresMetric(vdus[|p|], key, j);
        }
      }
    }
  }

  /** Attaching a monitoring parameter appends it to the list of every VDU with the referenced
      id, creating the list when absent, and changes nothing else. */
  lemma AttachMonitoringSpec(vdus: seq<Vdu>, vduRef: Option<string>, mp: MonitoringParameter)
    ensures forall i :: 0 <= i < |vdus| && Some(vdus[i].id) != vduRef ==> AttachMonitoring(vdus, vduRef, mp)[i] == vdus[i]
    ensures forall i :: 0 <= i < |vdus| && Some(vdus[i].id) == vduRef ==>
              AttachMonitoring(vdus, vduRef, mp)[i].monitoringParameter.Some? &&
              AttachMonitoring(vdus, vduRef, mp)[i].monitoringParameter.value == vdus[i].monitoringParameter.GetOr([]) + [mp] &&
              AttachMonitoring(vdus, vduRef, mp)[i] ==
                vdus[i].(monitoringParameter := AttachMonitoring(vdus, vduRef, mp)[i].monitoringParameter)
  {
  }

  /** The monitoring stage neither adds, removes nor reorders VDUs. */
  lemma {:induction false} AttachMonitoringParamsKeepsVdus(vdus: Option<seq<Vdu>>, mps: seq<Im.MonitoringParam>, metrics: map<(string, string), string>)
    ensures AttachMonitoringParams(vdus, mps, metrics).Some? <==> vdus.Some?
    ensures vdus.Some? ==>
              |AttachMonitoringParams(vdus, mps, metrics).value| == |vdus.value| &&
              forall i :: 0 <= i < |vdus.value| ==> AttachMonitoringParams(vdus, mps, metrics).value[i].id == vdus.value[i].id
  {
    if mps != [] {
      AttachMonitoringParamsKeepsVdus(vdus, mps[..|mps| - 1], metrics);
    }
  }

  // ---------------------------------------------------------------- scaling, kdu, k8s-cluster

  /** A scaling aspect per scaling group, named after it, with one delta `<name>-delta` holding
      one vdu-delta per listed VDU. */
  lemma ScalingAspectShape(g: Im.ScalingGroup)
    ensures ScalingAspectOf(g).id == g.name && ScalingAspectOf(g).name == g.name
    ensures ScalingAspectOf(g).maxScaleLevel == IfNonZero(g.maxInstanceCount)
    ensures |ScalingAspectOf(g).deltas| == 1 && ScalingAspectOf(g).deltas[0].id == g.name + "-delta"
    ensures |g.vdus| == 0 <==> ScalingAspectOf(g).deltas[0].vduDelta.None?
    ensures |g.vdus| > 0 ==> |ScalingAspectOf(g).deltas[0].vduDelta.value| == |g.vdus|
  {
  }

  /** Scaling groups are written into the first deployment flavour, which must exist. */
  /** Without a vnf-configuration nothing changes; with one, df[0] is required (KeyError("df")
      without a df, IndexError with an empty one), gets the vnf-configuration-id
      "default-vnf-configuration", and the block becomes the single vnf-configuration entry
      under that id. Nothing else changes. */
  lemma VnfConfigurationSpec(v: Im.Vnfd, out: Vnfd)
    ensures v.vnfConfiguration.None? ==> VnfConfiguration(v, out) == Ok(out)
    ensures v.vnfConfiguration.Some? && out.df.None? ==> VnfConfiguration(v, out) == Err(KeyError("df"))
    ensures v.vnfConfiguration.Some? && out.df == Some([]) ==> VnfConfiguration(v, out) == Err(IndexError)
    ensures v.vnfConfiguration.Some? && out.df.Some? && |out.df.value| > 0 ==>
              VnfConfiguration(v, out) ==
                Ok(out.(df := Some(out.df.value[0 := out.df.value[0].(vnfConfigurationId := Some("default-vnf-configuration"))]),
                        vnfConfiguration := Some([Configuration("default-vnf-configuration", v.vnfConfiguration.value)])))
  {
  }

  /** Without ip-profiles nothing changes. An ip-profile whose name no internal VLD refers to
      raises a KeyError naming the first such profile. Otherwise df[0] is required (KeyError("df")
      or IndexError) and only its virtual-link-profile changes, to one profile per ip-profile,
      in order, each keyed by the VLD referring to it. */
  lemma IpProfilesSpec(v: Im.Vnfd, out: Vnfd)
    ensures |v.ipProfiles| == 0 ==> IpProfiles(v, out) == Ok(out)
    ensures (exists i :: 0 <= i < |v.ipProfiles| && v.ipProfiles[i].name !in IpProfileRefIndex(v.internalVlds)) ==>
              exists i :: 0 <= i < |v.ipProfiles| && v.ipProfiles[i].name !in IpProfileRefIndex(v.internalVlds) &&
                          IpProfiles(v, out) == Err(KeyError(v.ipProfiles[i].name)) &&
                          forall j :: 0 <= j < i ==> v.ipProfiles[j].name in IpProfileRefIndex(v.internalVlds)
    ensures (forall i :: 0 <= i < |v.ipProfiles| ==> v.ipProfiles[i].name in IpProfileRefIndex(v.internalVlds)) &&
            |v.ipProfiles| > 0 ==>
              (out.df.None? ==> IpProfiles(v, out) == Err(KeyError("df"))) &&
              (out.df == Some([]) ==> IpProfiles(v, out) == Err(IndexError)) &&
              (out.df.Some? && |out.df.value| > 0 ==>
                 IpProfiles(v, out).Ok? &&
                 var ps := IpProfiles(v, out).value.df.value[0].virtualLinkProfile;
                 IpProfiles(v, out).value == out.(df := Some(out.df.value[0 := out.df.value[0].(virtualLinkProfile := ps)])) &&
                 ps.Some? && |ps.value| == |v.ipProfiles| &&
                 forall i :: 0 <= i < |v.ipProfiles| ==>
                   ps.value[i] == VirtualLinkProfileOf(v.ipProfiles[i], IpProfileRefIndex(v.internalVlds)[v.ipProfiles[i].name]))
  {
    VirtualLinkProfilesSpec(v.ipProfiles, IpProfileRefIndex(v.internalVlds));
  }

  lemma ScalingGroupsSpec(v: Im.Vnfd, out: Vnfd)
    ensures |v.scalingGroups| == 0 ==> ScalingGroups(v, out) == Ok(out)
    ensures |v.scalingGroups| > 0 && out.df.None? ==> ScalingGroups(v, out) == Err(KeyError("df"))
    ensures |v.scalingGroups| > 0 && out.df == Some([]) ==> ScalingGroups(v, out) == Err(IndexError)
    ensures |v.scalingGroups| > 0 && out.df.Some? && |out.df.value| > 0 ==>
              ScalingGroups(v, out).Ok? &&
              ScalingGroups(v, out).value.df.Some? && |ScalingGroups(v, out).value.df.value| == |out.df.value| &&
              ScalingGroups(v, out).value.df.value[0] == out.df.value[0].(scalingAspect := Some(Map(v.scalingGroups, ScalingAspectOf))) &&
              ScalingGroups(v, out).value.df.value[1..] == out.df.value[1..]
  {
  }

  /** A kdu guarantees a deployment flavour: a minimal default-df when there was none. */
  lemma KdusSpec(v: Im.Vnfd, out: Vnfd)
    ensures v.kdu.None? ==> Kdus(v, out) == out
    ensures v.kdu.Some? ==>
              Kdus(v, out).kdu == v.kdu && Kdus(v, out).df.Some? && |Kdus(v, out).df.value| > 0 &&
              (out.df.Some? && |out.df.value| > 0 ==> Kdus(v, out).df == out.df) &&
              (out.df.None? || |out.df.value| == 0 ==> Kdus(v, out).df == Some([Df("default-df", None, None, None, None, None)]))
  {
  }

  /** The k8s-cluster ext-cpds are appended after the VDU ones, one per net with a truthy
      external reference. */
  lemma K8sClustersSpec(v: Im.Vnfd, out: Vnfd)
    ensures v.k8sCluster.None? ==> K8sClusters(v, out) == out
    ensures v.k8sCluster.Some? ==>
              K8sClusters(v, out).extCpd.GetOr([]) == out.extCpd.GetOr([]) + Collect(v.k8sCluster.value.nets, K8sNetExtCpd)
    ensures v.k8sCluster.Some? ==>
              K8sClusters(v, out).k8sCluster.Some? &&
              K8sClusters(v, out).k8sCluster.value.nets == SetIfNonEmpty(None, Map(v.k8sCluster.value.nets, K8sNetId))
  {
  }

  // ---------------------------------------------------------------- the pipeline

  /** The mgmt-interface and its cp are mandatory: without either (an empty mgmt-interface
      lacks cp) the translation raises the matching lookup error before anything else. */
  lemma TranslateVnfdNeedsMgmt(v: Im.Vnfd)
    ensures v.mgmtInterface.None? ==> TranslateVnfd(v) == Err(KeyError("mgmt-interface"))
    ensures v.mgmtInterface.Some? && v.mgmtInterface.value.cp.None? ==> TranslateVnfd(v) == Err(KeyError("cp"))
  {
  }

  /** A vnf-configuration needs the deployment flavour only VDUs create: a descriptor with a
      mgmt cp, no VDU and no internal VLD id-ref raises on it. (Without VDUs any id-ref
      raises first, see LinkVldsErrSpec.) */
  lemma VnfConfigurationNeedsVdus(v: Im.Vnfd)
    requires v.mgmtInterface.Some? && v.mgmtInterface.value.cp.Some?
    requires |v.vdus| == 0 && v.vnfConfiguration.Some?
    requires forall k :: 0 <= k < |v.internalVlds| ==> |v.internalVlds[k].internalConnectionPoints| == 0
    ensures TranslateVnfd(v) == Err(KeyError("df"))
  {
    var s2 := MgmtCp(v, BasicData(v, EmptyVnfd)).value;
    var s6 := Vdus(v, Images(v, GuestEpa(v, Flavors(v, s2))));
    assert s6.df.None?;
    LinkVldsWithoutRefs(s6.vdu, IntCpRefIndex(v.vdus), v.internalVlds);
    assert InternalVlds(v, s6).value.df.None?;
  }

  /** VLDs without id-refs link nothing. */
  lemma {:induction false} LinkVldsWithoutRefs(vdus: Option<seq<Vdu>>, index: map<string, (string, string)>, vlds: seq<Im.InternalVld>)
    requires forall k :: 0 <= k < |vlds| ==> |vlds[k].internalConnectionPoints| == 0
    ensures LinkVlds(vdus, index, vlds) == Ok(vdus)
  {
    if vlds != [] {
      LinkVldsWithoutRefs(vdus, index, vlds[..|vlds| - 1]);
    }
  }

  /** The keys a translated VNFD carries: the IM id, the derived mgmt-cp and,
      with VDUs, a single default-df and one SOL006 VDU per IM VDU with the same ids. */
  ghost predicate CarriesIds(v: Im.Vnfd, out: Vnfd)
  {
    v.mgmtInterface.Some? && v.mgmtInterface.value.cp.Some? &&
    out.id == Some(v.id) && out.mgmtCp == Some(v.mgmtInterface.value.cp.value + "-ext") &&
    (|v.vdus| > 0 ==>
       out.df.Some? && |out.df.value| == 1 && out.df.value[0].id == "default-df" &&
       out.vdu.Some? && |out.vdu.value| == |v.vdus| &&
       forall i :: 0 <= i < |v.vdus| ==> out.vdu.value[i].id == v.vdus[i].id)
  }

  lemma EarlyStagesCarryIds(v: Im.Vnfd)
    requires MgmtCp(v, BasicData(v, EmptyVnfd)).Ok?
    ensures CarriesIds(v, Vdus(v, Images(v, GuestEpa(v, Flavors(v, MgmtCp(v, BasicData(v, EmptyVnfd)).value)))))
  {
    var s2 := MgmtCp(v, BasicData(v, EmptyVnfd)).value;
    DefaultDfSpec(v, Images(v, GuestEpa(v, Flavors(v, s2))));
  }

  lemma InternalVldsCarryIds(v: Im.Vnfd, out: Vnfd)
    requires CarriesIds(v, out) && InternalVlds(v, out).Ok?
    ensures CarriesIds(v, InternalVlds(v, out).value)
  {
    LinkVdusPreserve(out.vdu, IntCpRefIndex(v.vdus), v.internalVlds);
  }

  lemma DfStagesCarryIds(v: Im.Vnfd, out: Vnfd)
    requires CarriesIds(v, out)
    ensures VnfConfiguration(v, out).Ok? ==> CarriesIds(v, VnfConfiguration(v, out).value)
    ensures IpProfiles(v, out).Ok? ==> CarriesIds(v, IpProfiles(v, out).value)
    ensures ScalingGroups(v, out).Ok? ==> CarriesIds(v, ScalingGroups(v, out).value)
  {
  }

  lemma LateStagesCarryIds(v: Im.Vnfd, out: Vnfd)
    requires CarriesIds(v, out)
    ensures CarriesIds(v, MonitoringParams(v, out))
    ensures CarriesIds(v, PlacementGroups(v, K8sClusters(v, Kdus(v, out))))
  {
    AttachMonitoringParamsKeepsVdus(out.vdu, v.monitoringParams, MetricIndex(v.vdus));
  }

  /** A translated VNFD carries the IM id and the derived mgmt-cp; with VDUs it has exactly one
      deployment flavour, default-df, and one SOL006 VDU per IM VDU with the same ids. */
  lemma TranslateVnfdSpec(v: Im.Vnfd)
    ensures TranslateVnfd(v).Ok? ==> CarriesIds(v, TranslateVnfd(v).value)
  {
    if MgmtCp(v, BasicData(v, EmptyVnfd)).Ok? {
      EarlyStagesCarryIds(v);
      var s6 := Vdus(v, Images(v, GuestEpa(v, Flavors(v, MgmtCp(v, BasicData(v, EmptyVnfd)).value))));
      if InternalVlds(v, s6).Ok? {
        InternalVldsCarryIds(v, s6);
        var s7 := InternalVlds(v, s6).value;
        DfStagesCarryIds(v, s7);
        if VnfConfiguration(v, s7).Ok? {
          var s8 := VnfConfiguration(v, s7).value;
          DfStagesCarryIds(v, s8);
          if IpProfiles(v, s8).Ok? {
            var s9 := IpProfiles(v, s8).value;
            LateStagesCarryIds(v, s9);
            DfStagesCarryIds(v, MonitoringParams(v, s9));
            if ScalingGroups(v, MonitoringParams(v, s9)).Ok? {
              LateStagesCarryIds(v, ScalingGroups(v, MonitoringParams(v, s9)).value);
            }
          }
        }
      }
    }
  }

  /** Linking VLDs keeps the VDU list's presence, length and ids. */
  lemma {:induction false} LinkVdusPreserve(vdus: Option<seq<Vdu>>, index: map<string, (string, string)>, vlds: seq<Im.InternalVld>)
    ensures LinkVlds(vdus, index, vlds).Ok? ==>
              (LinkVlds(vdus, index, vlds).value.Some? <==> vdus.Some?) &&
              (vdus.Some? ==> |LinkVlds(vdus, index, vlds).value.value| == |vdus.value| &&
                              forall i :: 0 <= i < |vdus.value| ==> LinkVlds(vdus, index, vlds).value.value[i].id == vdus.value[i].id)
  {
    if vlds != [] {
      var p := vlds[..|vlds| - 1];
      LinkVdusPreserve(vdus, index, p);
      if LinkVlds(vdus, index, p).Ok? {
        LinkRefsPreserve(LinkVlds(vdus, index, p).value, index, vlds[|vlds| - 1].internalConnectionPoints, vlds[|vlds| - 1].id);
      }
    }
  }

  lemma {:induction false} LinkRefsPreserve(vdus: Option<seq<Vdu>>, index: map<string, (string, string)>, refs: seq<string>, vldId: string)
    ensures LinkRefs(vdus, index, refs, vldId).Ok? ==>
              (LinkRefs(vdus, index, refs, vldId).value.Some? <==> vdus.Some?) &&
              (vdus.Some? ==> |LinkRefs(vdus, index, refs, vldId).value.value| == |vdus.value| &&
                              forall i :: 0 <= i < |vdus.value| ==> LinkRefs(vdus, index, refs, vldId).value.value[i].id == vdus.value[i].id)
  {
    if refs != [] {
      LinkRefsPreserve(vdus, index, refs[..|refs| - 1], vldId);
    }
  }

  // ---------------------------------------------------------------- internal VLDs, stage level

  /** The id-ref `ref` resolves to the int-cpd `cpdId` of a VDU `vduId`. */
  ghost predicate Reaches(ref: string, index: map<string, (string, string)>, vduId: string, cpdId: string)
  {
    ref in index && index[ref].0 == vduId && IntCpdId(index[ref].1) == cpdId
  }

  /** One of the id-refs of `vld` resolves to the int-cpd `cpdId` of a VDU `vduId`. */
  ghost predicate VldReaches(vld: Im.InternalVld, index: map<string, (string, string)>, vduId: string, cpdId: string)
  {
    exists k :: 0 <= k < |vld.internalConnectionPoints| && Reaches(vld.internalConnectionPoints[k], index, vduId, cpdId)
  }

  /** The id of the last internal VLD reaching the int-cpd `cpdId` of a VDU `vduId`, if any. */
  ghost function LastLinkingVld(vlds: seq<Im.InternalVld>, index: map<string, (string, string)>, vduId: string, cpdId: string): (r: Option<string>)
    ensures r.None? <==> forall k :: 0 <= k < |vlds| ==> !VldReaches(vlds[k], index, vduId, cpdId)
    ensures r.Some? ==> exists k :: 0 <= k < |vlds| && vlds[k].id == r.value && VldReaches(vlds[k], index, vduId, cpdId) &&
                                    forall l :: k < l < |vlds| ==> !VldReaches(vlds[l], index, vduId, cpdId)
  {
    if vlds == [] then None
    else if VldReaches(vlds[|vlds| - 1], index, vduId, cpdId) then Some(vlds[|vlds| - 1].id)
    else
      var p := vlds[..|vlds| - 1];
      var r := LastLinkingVld(p, index, vduId, cpdId);
      assert forall k :: 0 <= k < |p| ==> p[k] == vlds[k];
      r
  }

  /** The int-cpd `c` linked to `vld`, or left as it is when no VLD links it. */
  function LinkedCpd(c: IntCpd, vld: Option<string>): IntCpd
  {
    match vld
    case None => c
    case Some(x) => c.(intVirtualLinkDesc := Some(x))
  }

  /** `w` is `vdus` with each int-cpd linked to the last of `vlds` reaching it, and nothing else
      changed. */
  ghost predicate LinkedBy(vdus: seq<Vdu>, w: seq<Vdu>, index: map<string, (string, string)>, vlds: seq<Im.InternalVld>)
  {
    |w| == |vdus| &&
    forall i :: 0 <= i < |vdus| ==>
      w[i] == vdus[i].(intCpd := w[i].intCpd) && |w[i].intCpd| == |vdus[i].intCpd| &&
      forall j :: 0 <= j < |vdus[i].intCpd| ==>
        w[i].intCpd[j] == LinkedCpd(vdus[i].intCpd[j], LastLinkingVld(vlds, index, vdus[i].id, vdus[i].intCpd[j].id))
  }

  /** Resolving the id-refs of one VLD links exactly the int-cpds they reach. */
  lemma {:induction false} LinkRefsLinks(vdus: seq<Vdu>, index: map<string, (string, string)>, refs: seq<string>, vldId: string)
    ensures LinkRefs(Some(vdus), index, refs, vldId).Ok? ==>
              LinkRefs(Some(vdus), index, refs, vldId).value.Some? &&
              LinkedBy(vdus, LinkRefs(Some(vdus), index, refs, vldId).value.value, index, [Im.InternalVld(vldId, refs, None)])
  {
    var one := [Im.InternalVld(vldId, refs, None)];
    if refs == [] {
      forall i, j | 0 <= i < |vdus| && 0 <= j < |vdus[i].intCpd|
        ensures LastLinkingVld(one, index, vdus[i].id, vdus[i].intCpd[j].id).None?
      {
        assert !VldReaches(one[0], index, vdus[i].id, vdus[i].intCpd[j].id);
      }
    } else if LinkRefs(Some(vdus), index, refs, vldId).Ok? {
      var p := refs[..|refs| - 1];
      var ref := refs[|refs| - 1];
      LinkRefsLinks(vdus, index, p, vldId);
      var w' := LinkRefs(Some(vdus), index, p, vldId).value.value;
      var vduId := index[ref].0;
      var cpdId := IntCpdId(index[ref].1);
      var w := LinkVdus(w', vduId, cpdId, vldId);
      LinkVdusSpec(w', vduId, cpdId, vldId);
      var before := [Im.InternalVld(vldId, p, None)];
      forall i | 0 <= i < |vdus|
        ensures w[i] == vdus[i].(intCpd := w[i].intCpd) && |w[i].intCpd| == |vdus[i].intCpd|
        ensures forall j :: 0 <= j < |vdus[i].intCpd| ==>
                  w[i].intCpd[j] == LinkedCpd(vdus[i].intCpd[j], LastLinkingVld(one, index, vdus[i].id, vdus[i].intCpd[j].id))
      {
        forall j | 0 <= j < |vdus[i].intCpd|
          ensures w[i].intCpd[j] == LinkedCpd(vdus[i].intCpd[j], LastLinkingVld(one, index, vdus[i].id, vdus[i].intCpd[j].id))
        {
          var c := vdus[i].intCpd[j];
          assert w'[i].intCpd[j] == LinkedCpd(c, LastLinkingVld(before, index, vdus[i].id, c.id));
          assert refs == p + [ref];
          VldReachesSnoc(vldId, p, ref, index, vdus[i].id, c.id);
        }
      }
      assert LinkRefs(Some(vdus), index, refs, vldId).value.value == w;
    }
  }

  /** One more id-ref reaches what the earlier ones did, and what it resolves to. */
  lemma VldReachesSnoc(vldId: string, p: seq<string>, ref: string, index: map<string, (string, string)>, vduId: string, cpdId: string)
    ensures VldReaches(Im.InternalVld(vldId, p + [ref], None), index, vduId, cpdId) <==>
              VldReaches(Im.InternalVld(vldId, p, None), index, vduId, cpdId) || Reaches(ref, index, vduId, cpdId)
  {
    var refs := p + [ref];
    if Reaches(ref, index, vduId, cpdId) {
      assert Reaches(refs[|p|], index, vduId, cpdId);
    }
    if VldReaches(Im.InternalVld(vldId, p, None), index, vduId, cpdId) {
      var k :| 0 <= k < |p| && Reaches(p[k], index, vduId, cpdId);
      assert Reaches(refs[k], index, vduId, cpdId);
    }
    if VldReaches(Im.InternalVld(vldId, refs, None), index, vduId, cpdId) {
      var k :| 0 <= k < |refs| && Reaches(refs[k], index, vduId, cpdId);
      if k < |p| {
        assert Reaches(p[k], index, vduId, cpdId);
      }
    }
  }

  /** Linking the internal VLDs in order leaves each int-cpd linked to the last VLD reaching it,
      or as it was when none does, and changes nothing else. */
  lemma {:induction false} LinkVldsLinks(vdus: seq<Vdu>, index: map<string, (string, string)>, vlds: seq<Im.InternalVld>)
    ensures LinkVlds(Some(vdus), index, vlds).Ok? ==>
              LinkVlds(Some(vdus), index, vlds).value.Some? &&
              LinkedBy(vdus, LinkVlds(Some(vdus), index, vlds).value.value, index, vlds)
  {
    if vlds == [] {
    } else if LinkVlds(Some(vdus), index, vlds).Ok? {
      var p := vlds[..|vlds| - 1];
      var last := vlds[|vlds| - 1];
      LinkVldsLinks(vdus, index, p);
      var w' := LinkVlds(Some(vdus), index, p).value.value;
      LinkRefsLinks(w', index, last.internalConnectionPoints, last.id);
      var w := LinkRefs(Some(w'), index, last.internalConnectionPoints, last.id).value.value;
      var one := [Im.InternalVld(last.id, last.internalConnectionPoints, None)];
      forall i | 0 <= i < |vdus|
        ensures w[i] == vdus[i].(intCpd := w[i].intCpd) && |w[i].intCpd| == |vdus[i].intCpd|
        ensures forall j :: 0 <= j < |vdus[i].intCpd| ==>
                  w[i].intCpd[j] == LinkedCpd(vdus[i].intCpd[j], LastLinkingVld(vlds, index, vdus[i].id, vdus[i].intCpd[j].id))
      {
        forall j | 0 <= j < |vdus[i].intCpd|
          ensures w[i].intCpd[j] == LinkedCpd(vdus[i].intCpd[j], LastLinkingVld(vlds, index, vdus[i].id, vdus[i].intCpd[j].id))
        {
          var c := vdus[i].intCpd[j];
          assert w'[i].intCpd[j] == LinkedCpd(c, LastLinkingVld(p, index, vdus[i].id, c.id));
          assert w'[i].id == vdus[i].id && w'[i].intCpd[j].id == c.id;
          assert VldReaches(one[0], index, vdus[i].id, c.id) == VldReaches(last, index, vdus[i].id, c.id);
        }
      }
    }
  }

  /** The internal-VLD stage: each int-cpd of the VDUs built so far ends linked to the last
      VLD whose id-refs reach it, or unchanged when none does; the int-virtual-link-desc list
      is the VLD ids in order, set when there are any. */
  lemma InternalVldsLinks(v: Im.Vnfd, out: Vnfd)
    ensures InternalVlds(v, out).Ok? ==>
              InternalVlds(v, out).value ==
                out.(vdu := InternalVlds(v, out).value.vdu,
                     intVirtualLinkDesc := SetIfNonEmpty(out.intVirtualLinkDesc, Map(v.internalVlds, InternalVldId))) &&
              (InternalVlds(v, out).value.vdu.Some? <==> out.vdu.Some?)
    ensures InternalVlds(v, out).Ok? && out.vdu.Some? ==>
              LinkedBy(out.vdu.value, InternalVlds(v, out).value.vdu.value, IntCpRefIndex(v.vdus), v.internalVlds)
  {
    LinkVdusPreserve(out.vdu, IntCpRefIndex(v.vdus), v.internalVlds);
    if out.vdu.Some? {
      LinkVldsLinks(out.vdu.value, IntCpRefIndex(v.vdus), v.internalVlds);
    }
  }

  // ---------------------------------------------------------------- monitoring, stage level

  /** The monitoring parameter `mp` goes to the VDU `vduId`. */
  predicate AttachesTo(mp: Im.MonitoringParam, vduId: string)
  {
    mp.vduMonitoringParam.Some? && mp.vduMonitoringParam.value.vduRef == Some(vduId)
  }

  /** The monitoring parameters attached to the VDU `vduId`, in their order. */
  function ParamsFor(mps: seq<Im.MonitoringParam>, metrics: map<(string, string), string>, vduId: string): seq<MonitoringParameter>
  {
    if mps == [] then [] else
      ParamsFor(mps[..|mps| - 1], metrics, vduId) +
      (if AttachesTo(mps[|mps| - 1], vduId) then [MonitoringParameterOf(mps[|mps| - 1], metrics)] else [])
  }

  /** The optional list `o` followed by `ps`; the key stays as it was when `ps` is empty. */
  function Appended(o: Option<seq<MonitoringParameter>>, ps: seq<MonitoringParameter>): (r: Option<seq<MonitoringParameter>>)
    ensures r.GetOr([]) == o.GetOr([]) + ps
    ensures r.None? <==> o.None? && ps == []
  {
    if ps == [] then o else Some(o.GetOr([]) + ps)
  }

  /** Each VDU's monitoring-parameter list is its own followed, in order, by the parameters whose
      vdu-ref is its id; nothing else changes. */
  lemma {:induction false} AttachMonitoringParamsPerVdu(vdus: seq<Vdu>, mps: seq<Im.MonitoringParam>, metrics: map<(string, string), string>)
    ensures AttachMonitoringParams(Some(vdus), mps, metrics).Some?
    ensures |AttachMonitoringParams(Some(vdus), mps, metrics).value| == |vdus|
    ensures forall i :: 0 <= i < |vdus| ==>
              AttachMonitoringParams(Some(vdus), mps, metrics).value[i] ==
                vdus[i].(monitoringParameter := Appended(vdus[i].monitoringParameter, ParamsFor(mps, metrics, vdus[i].id)))
  {
    if mps != [] {
      var p := mps[..|mps| - 1];
      var mp := mps[|mps| - 1];
      AttachMonitoringParamsPerVdu(vdus, p, metrics);
      var w := AttachMonitoringParams(Some(vdus), p, metrics).value;
      match mp.vduMonitoringParam
      case None =>
        forall i | 0 <= i < |vdus|
          ensures ParamsFor(mps, metrics, vdus[i].id) == ParamsFor(p, metrics, vdus[i].id)
        {
          assert !AttachesTo(mp, vdus[i].id);
          assert ParamsFor(p, metrics, vdus[i].id) + [] == ParamsFor(p, metrics, vdus[i].id);
        }
      case Some(r) =>
        var m := MonitoringParameterOf(mp, metrics);
        AttachMonitoringSpec(w, r.vduRef, m);
        forall i | 0 <= i < |vdus|
          ensures AttachMonitoring(w, r.vduRef, m)[i] ==
                    vdus[i].(monitoringParameter := Appended(vdus[i].monitoringParameter, ParamsFor(mps, metrics, vdus[i].id)))
        {
          var o := vdus[i].monitoringParameter;
          var ps := ParamsFor(p, metrics, vdus[i].id);
          assert w[i] == vdus[i].(monitoringParameter := Appended(o, ps));
          if Some(vdus[i].id) == r.vduRef {
            assert ParamsFor(mps, metrics, vdus[i].id) == ps + [m];
            assert o.GetOr([]) + ps + [m] == o.GetOr([]) + (ps + [m]);
          } else {
            assert ParamsFor(mps, metrics, vdus[i].id) == ps + [];
            assert ps + [] == ps;
          }
        }
    }
  }

  /** The monitoring stage: each VDU built so far gets, after its own list, the parameters whose
      vdu-ref is its id, in their order; nothing else in the output changes. */
  lemma MonitoringParamsPerVdu(v: Im.Vnfd, out: Vnfd)
    ensures MonitoringParams(v, out) == out.(vdu := MonitoringParams(v, out).vdu)
    ensures MonitoringParams(v, out).vdu.Some? <==> out.vdu.Some?
    ensures out.vdu.Some? ==>
              |MonitoringParams(v, out).vdu.value| == |out.vdu.value| &&
              forall i :: 0 <= i < |out.vdu.value| ==>
                MonitoringParams(v, out).vdu.value[i] ==
                  out.vdu.value[i].(monitoringParameter :=
                    Appended(out.vdu.value[i].monitoringParameter, ParamsFor(v.monitoringParams, MetricIndex(v.vdus), out.vdu.value[i].id)))
  {
    AttachMonitoringParamsKeepsVdus(out.vdu, v.monitoringParams, MetricIndex(v.vdus));
    if out.vdu.Some? {
      AttachMonitoringParamsPerVdu(out.vdu.value, v.monitoringParams, MetricIndex(v.vdus));
    }
  }
}
